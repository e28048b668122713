/** An ARP frame on its way to the port multiplexer and back in p4files/rh_mvp.p4: two tags are pushed for the trip out,
    and the port-mux tables decide which are popped. */
module ArpRoundTrip {
  import opened Basics
  import opened Packets
  import opened IdpfParser
  import opened ParserFacts
  import opened TagFacts
  import opened TableSelection
  import opened VlanMods
  import opened RhMvpControl

  // ---- Out ----

  /** An untagged ARP frame outside a tunnel. */
  predicate UntaggedArp(f: Packet) {
    var v := Parse(f).1;
    !Tagged(f) && ArpValid(v) && v.depth == 0 && Holds(f, v, EtypeSlot(v), 0)
  }

  /** A pass from a host, not looped back. */
  predicate FromHost(a: Pass) { a.hostToNet && a.number == 0 && !a.loopedback && a.vsig != 1 }

  /** The ARP entry of the sending VSI pushes the C-tag `c` inside the S-tag `s`. */
  predicate SendsToMux(hits: Table -> Action, mods: ModTables, c: Tci, s: Tci) {
    && hits(VportArpEgress).SendToPortMux? && hits(VportArpEgress).ptr in mods.pushCtagStag
    && mods.pushCtagStag[hits(VportArpEgress).ptr] == (c, s)
  }

  lemma OutApplies(a: Pass, v: View)
    requires FromHost(a) && MacValid(v) && ArpValid(v) && EVLAN_8100 !in v.flags && STAG !in v.flags
    ensures Applied(a, v) == [VportArpEgress]
  {}

  lemma One(t: Table, hits: Table -> Action)
    ensures PerformAll([t], hits, NO_META) == Perform(hits(t), NO_META)
  {
    assert [t][1..] == [];
  }

  lemma ArpView(f: Packet)
    requires UntaggedArp(f)
    ensures var v := Parse(f).1; MacValid(v) && EVLAN_8100 !in v.flags && STAG !in v.flags
  {
    FrontOfParse(f);
  }

  lemma OutIsTagged(f: Packet, a: Pass, hits: Table -> Action, mods: ModTables, c: Tci, s: Tci)
    requires UntaggedArp(f) && FromHost(a) && SendsToMux(hits, mods, c, s)
    ensures Controlled(f, a, hits, mods) == PushCtagStag(f, Parse(f).1, c, s)
  {
    hide Applied, PerformAll, PushCtagStag, Parse;
    ArpView(f);
    OutApplies(a, Parse(f).1);
    One(VportArpEgress, hits);
  }

  // ---- The port-mux tables ----

  datatype ReqKey = ReqKey(vsi: nat, vid: bv12)

  datatype RespKey = RespKey(dmac: Packet, vsi: nat)

  /** The entries of portmux_egress_req_table, portmux_egress_resp_dmac_vsi_table and portmux_egress_resp_vsi_table. */
  datatype MuxTables = MuxTables(req: map<ReqKey, Action>, respDmac: map<RespKey, Action>, respVsi: map<nat, Action>)

  predicate PopsBoth(x: Action, mods: ModTables) { x.VlanPopCtagStag? && x.ptr in mods.popCtagStag }

  predicate PopsSome(x: Action, mods: ModTables) { PopsBoth(x, mods) || (x.VlanPopStag? && x.ptr in mods.popStag) }

  /** What the entries may be, with their modify entries there. */
  predicate MuxPops(t: MuxTables, mods: ModTables) {
    && (forall k :: k in t.req ==> PopsSome(t.req[k], mods))
    && (forall k :: k in t.respDmac ==> PopsBoth(t.respDmac[k], mods))
    && (forall k :: k in t.respVsi ==> PopsSome(t.respVsi[k], mods))
  }

  /** Looking a frame up: requests by the VLAN of the inner tag, answers by destination and then by VSI. */
  function LookUpMux(t: MuxTables, g: Packet, w: View, vsi: nat, mgmt: nat, table: Table): Action {
    match table
    case PortmuxEgressReq =>
      if HasTag(g, w, VlanInt, 4) && ReqKey(vsi, TciAt(g, w.hdrs[VlanInt]).vid) in t.req
      then t.req[ReqKey(vsi, TciAt(g, w.hdrs[VlanInt]).vid)] else L2FwdMiss(mgmt)
    case PortmuxEgressRespDmacVsi =>
      if MacValid(w) && Holds(g, w, MacHdr(DepthOf(w)), 6) && RespKey(DestinationOf(g, w), vsi) in t.respDmac
      then t.respDmac[RespKey(DestinationOf(g, w), vsi)] else Nothing
    case PortmuxEgressRespVsi => if vsi in t.respVsi then t.respVsi[vsi] else L2FwdMiss(mgmt)
    case _ => Nothing
  }

  function DestinationOf(g: Packet, w: View): Packet
    requires Holds(g, w, MacHdr(DepthOf(w)), 6)
  {
    var m := w.hdrs[MacHdr(DepthOf(w))];
    g[m..m + 6]
  }

  /** What the multiplexer's pass makes of a frame. */
  function FromMux(g: Packet, b: Pass, t: MuxTables, vsi: nat, mgmt: nat, mods: ModTables): Packet {
    Controlled(g, b, table => LookUpMux(t, g, Parse(g).1, vsi, mgmt, table), mods)
  }

  predicate ToGroup(v: View) { PFLAG_11 in v.flags || PFLAG_10 in v.flags }

  /** The entry that decides: that of the request table for a group address; otherwise that of the VSI table before that
      of the destination table, as the later of two edits stands and a miss leaves the earlier one. */
  function Deciding(t: MuxTables, group: bool, vsi: nat, vid: bv12, dmac: Packet): Option<Action> {
    if group then
      if ReqKey(vsi, vid) in t.req then Some(t.req[ReqKey(vsi, vid)]) else None
    else if vsi in t.respVsi then Some(t.respVsi[vsi])
    else if RespKey(dmac, vsi) in t.respDmac then Some(t.respDmac[RespKey(dmac, vsi)])
    else None
  }

  // ---- The frame on the wire ----

  /** What the multiplexer's parser finds in a frame with an S-tag outside a C-tag. */
  predicate AtMux(g: Packet, group: bool, dmac: Packet, c: Tci) {
    var w := Parse(g).1;
    && |g| >= 20 && ArpValid(w) && w.depth == 0 && (ToGroup(w) <==> group)
    && STAG in w.flags && EVLAN_8100 !in w.flags && MacHdr(D0) in w.hdrs && w.hdrs[MacHdr(D0)] == 0
    && VlanExt in w.hdrs && w.hdrs[VlanExt] == 12 && VlanInt in w.hdrs && w.hdrs[VlanInt] == 16
    && g[..6] == dmac && TciAt(g, 16) == c
  }

  /** ... and on the wire, after both were pushed. */
  predicate WireView(f: Packet, g: Packet, c: Tci, s: Tci) {
    && |f| >= 12 && |g| == |f| + 8 && AtMux(g, ToGroup(Parse(f).1), f[..6], c)
    && Be16(g, 12) == ETYPE_VLAN_STAG && TciAt(g, 12) == s && Be16(g, 16) == ETYPE_VLAN_CTAG
  }

  lemma SameDestination(f: Packet, g: Packet)
    requires forall k: nat :: k < 12 ==> Byte(g, k) == Byte(f, k)
    ensures IsBroadcast(g) == IsBroadcast(f) && IsMulticast(g) == IsMulticast(f)
  {}

  lemma TwinIsArp(v: View, w: View)
    requires Twins(v, w, 8)
    ensures ArpValid(w) == ArpValid(v) && w.depth == v.depth
  {}

  lemma TaggedBytes(f: Packet, g: Packet, c: Tci, s: Tci)
    requires |f| >= 12 && g == Insert(f, 12, Tag(ETYPE_VLAN_STAG, s) + Tag(ETYPE_VLAN_CTAG, c))
    ensures |g| == |f| + 8 && g[..6] == f[..6] && IsBroadcast(g) == IsBroadcast(f) && IsMulticast(g) == IsMulticast(f)
    ensures Be16(g, 12) == ETYPE_VLAN_STAG && TciAt(g, 12) == s && Be16(g, 16) == ETYPE_VLAN_CTAG && TciAt(g, 16) == c
    ensures DoubleTagged(g) && SameFrom(f, g, 12, 8)
  {
    TwoTagsBytes(f, c, s);
    InsertShifts(f, 12, Tag(ETYPE_VLAN_STAG, s) + Tag(ETYPE_VLAN_CTAG, c));
    SameDestination(f, g);
  }

  lemma TaggedView(f: Packet, c: Tci, s: Tci)
    requires UntaggedArp(f)
    ensures WireView(f, PushCtagStag(f, Parse(f).1, c, s), c, s)
  {
    hide Parse, Twins, SameFrom, Byte, Be16, TciAt, IsBroadcast, IsMulticast;
    var v := Parse(f).1;
    var g := PushCtagStag(f, v, c, s);
    EtypeSlotAt(f);
    TaggedBytes(f, g, c, s);
    FrontOfParse(f);
    FrontOfParse(g);
    TagBlind(f, g);
    TwinIsArp(v, Parse(g).1);
  }

  lemma OuterTagOff(f: Packet, c: Tci, s: Tci)
    requires |f| >= 12
    ensures Delete(Insert(f, 12, Tag(ETYPE_VLAN_STAG, s) + Tag(ETYPE_VLAN_CTAG, c)), 12, 4)
         == Insert(f, 12, Tag(ETYPE_VLAN_CTAG, c))
  {}

  // ---- Back ----

  lemma BackApplies(b: Pass, w: View)
    requires FromHost(b) && ArpValid(w) && STAG in w.flags && EVLAN_8100 !in w.flags
    ensures Applied(b, w)
         == if ToGroup(w) then [PortmuxEgressReq] else [PortmuxEgressRespDmacVsi, PortmuxEgressRespVsi]
  {}

  /** The edit that the multiplexer's pass ends in is that of the deciding entry. */
  lemma DecidingWins(g: Packet, group: bool, dmac: Packet, c: Tci, b: Pass, t: MuxTables, vsi: nat, mgmt: nat,
                     mods: ModTables)
    requires AtMux(g, group, dmac, c) && FromHost(b) && MuxPops(t, mods)
    ensures var w := Parse(g).1; var hits := table => LookUpMux(t, g, w, vsi, mgmt, table);
      var e, m := Deciding(t, group, vsi, c.vid, dmac), PerformAll(Applied(b, w), hits, NO_META);
      if e.None? then m.modAction == NoModify
      else m.modAction == Asks(e.value) && m.ptr == e.value.ptr && PopsSome(e.value, mods)
  {
    hide Applied, PerformAll, Parse;
    var w := Parse(g).1;
    var hits := table => LookUpMux(t, g, w, vsi, mgmt, table);
    BackApplies(b, w);
    if ToGroup(w) {
      One(PortmuxEgressReq, hits);
    } else {
      Two(PortmuxEgressRespDmacVsi, PortmuxEgressRespVsi, hits, NO_META);
      assert DestinationOf(g, w) == dmac;
    }
  }

  /** The edits of the tagged frame. */
  lemma EditsBack(f: Packet, g: Packet, c: Tci, s: Tci, m: Meta, mods: ModTables)
    requires UntaggedArp(f) && g == PushCtagStag(f, Parse(f).1, c, s) && WireView(f, g, c, s)
    ensures var r := Edit(g, Parse(g).1, m, mods);
      && (m.modAction.NoModify? ==> r == g)
      && (m.modAction.ModPopCtagStag? && m.ptr in mods.popCtagStag ==> r == f)
      && (m.modAction.ModPopStag? && m.ptr in mods.popStag ==> r == PushCtag(f, Parse(f).1, c) && |r| == |f| + 4)
  {
    hide Parse;
    EtypeSlotAt(f);
    PushCtagStagRoundTrip(f, c, s);
    OuterTagOff(f, c, s);
  }

  /** Out and back: every untagged ARP frame outside a tunnel whose VSI sends it to the multiplexer is on the wire with
      both configured tags; and what the multiplexer's pass makes of it is decided by one entry.  The original frame
      comes back exactly when there is such an entry and it pops both tags; one that pops the S-tag leaves what pushing
      the C-tag alone would have made; and without one the frame stays as it is. */
  lemma ArpOutAndBack(f: Packet, a: Pass, hits: Table -> Action, mods: ModTables, c: Tci, s: Tci,
                      b: Pass, t: MuxTables, vsi: nat, mgmt: nat, mods': ModTables)
    requires UntaggedArp(f) && FromHost(a) && SendsToMux(hits, mods, c, s) && FromHost(b) && MuxPops(t, mods')
    ensures var v, g := Parse(f).1, Controlled(f, a, hits, mods);
      && |f| >= 12 && Be16(g, 12) == ETYPE_VLAN_STAG && TciAt(g, 12) == s
      && Be16(g, 16) == ETYPE_VLAN_CTAG && TciAt(g, 16) == c
      && var e, r := Deciding(t, ToGroup(v), vsi, c.vid, f[..6]), FromMux(g, b, t, vsi, mgmt, mods');
      && (r == f <==> e.Some? && e.value.VlanPopCtagStag?)
      && (e.Some? && e.value.VlanPopStag? ==> r == PushCtag(f, v, c))
      && (e.None? ==> r == g)
  {
    hide Parse, Edit, PushCtagStag, PushCtag, Applied, PerformAll, Deciding, ToGroup, Tagged, Holds;
    var v := Parse(f).1;
    var g := PushCtagStag(f, v, c, s);
    OutIsTagged(f, a, hits, mods, c, s);
    TaggedView(f, c, s);
    DecidingWins(g, ToGroup(v), f[..6], c, b, t, vsi, mgmt, mods');
    var m := PerformAll(Applied(b, Parse(g).1), table => LookUpMux(t, g, Parse(g).1, vsi, mgmt, table), NO_META);
    EditsBack(f, g, c, s, m, mods');
  }
}
