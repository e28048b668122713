/** A C-tagged ARP frame from the wire on its way through the port multiplexer in p4files/rh_mvp.p4: an S-tag is pushed
    for the trip in, and the port-mux tables decide what is popped on the trip back. */
module ArpFromWire {
  import opened Basics
  import opened Packets
  import opened IdpfParser
  import opened ParserFacts
  import opened TagFacts
  import opened TableSelection
  import opened VlanMods
  import opened RhMvpControl
  import opened ArpRoundTrip

  /** A C-tagged ARP frame outside a tunnel. */
  predicate CtaggedArp(f: Packet) {
    var v := Parse(f).1;
    Be16(f, 12) == ETYPE_VLAN_CTAG && |f| >= 16 && ArpValid(v) && v.depth == 0
  }

  /** The entry for it pushes the S-tag `s`. */
  predicate SendsIn(hits: Table -> Action, mods: ModTables, s: Tci) {
    && hits(PhyIngressArp).SendToPortMuxStag? && hits(PhyIngressArp).ptr in mods.pushStag
    && mods.pushStag[hits(PhyIngressArp).ptr] == s
  }

  lemma InApplies(a: Pass, v: View)
    requires FromWire(a) && MacValid(v) && ArpValid(v) && EVLAN_8100 in v.flags
    ensures Applied(a, v) == [PhyIngressArp]
  {}

  lemma CtaggedView(f: Packet)
    requires CtaggedArp(f)
    ensures var v := Parse(f).1;
      && MacValid(v) && EVLAN_8100 in v.flags && HasTag(f, v, VlanExt, 4) && v.hdrs[VlanExt] == 12
  {
    FrontOfParse(f);
  }

  lemma InIsTagged(f: Packet, a: Pass, hits: Table -> Action, mods: ModTables, s: Tci)
    requires CtaggedArp(f) && FromWire(a) && SendsIn(hits, mods, s)
    ensures HasTag(f, Parse(f).1, VlanExt, 4) && Controlled(f, a, hits, mods) == PushStag(f, Parse(f).1, s)
  {
    hide Applied, PerformAll, PushStag, Parse;
    CtaggedView(f);
    InApplies(a, Parse(f).1);
    One(PhyIngressArp, hits);
  }

  lemma InBytes(f: Packet, g: Packet, s: Tci)
    requires |f| >= 16 && Be16(f, 12) == ETYPE_VLAN_CTAG && g == Insert(f, 12, Tag(ETYPE_VLAN_STAG, s))
    ensures |g| == |f| + 4 && g[..6] == f[..6] && IsBroadcast(g) == IsBroadcast(f) && IsMulticast(g) == IsMulticast(f)
    ensures Be16(g, 12) == ETYPE_VLAN_STAG && TciAt(g, 12) == s && TciAt(g, 16) == TciAt(f, 12) && DoubleTagged(g)
  {
    PushStagBytes(f, s);
    InsertShifts(f, 12, Tag(ETYPE_VLAN_STAG, s));
    SameDestination(f, g);
  }

  lemma TwinIsArpToo(v: View, w: View)
    requires Twins(v, w, 4)
    ensures ArpValid(w) == ArpValid(v) && w.depth == v.depth
  {}

  /** With a single C-tag the multiplexer sees an ARP frame with both tags. */
  lemma InView(f: Packet, s: Tci)
    requires CtaggedArp(f) && !DoubleTagged(f) && HasTag(f, Parse(f).1, VlanExt, 4)
    ensures AtMux(PushStag(f, Parse(f).1, s), ToGroup(Parse(f).1), f[..6], TciAt(f, 12))
  {
    hide Parse, Twins, Byte, Be16, TciAt, IsBroadcast, IsMulticast;
    var g := PushStag(f, Parse(f).1, s);
    CtaggedView(f);
    InBytes(f, g, s);
    FrontOfParse(f);
    FrontOfParse(g);
    PushStagInside(f, s);
    TwinIsArpToo(Parse(f).1, Parse(g).1);
  }

  lemma BothOff(f: Packet, s: Tci)
    requires |f| >= 16
    ensures Delete(Delete(Insert(f, 12, Tag(ETYPE_VLAN_STAG, s)), 16, 4), 12, 4) == Delete(f, 12, 4)
    ensures Delete(Insert(f, 12, Tag(ETYPE_VLAN_STAG, s)), 12, 4) == f
  {}

  /** The edits of the frame at the multiplexer. */
  lemma EditsBackToWire(f: Packet, g: Packet, s: Tci, m: Meta, mods: ModTables)
    requires CtaggedArp(f) && HasTag(f, Parse(f).1, VlanExt, 4) && g == PushStag(f, Parse(f).1, s)
    requires AtMux(g, ToGroup(Parse(f).1), f[..6], TciAt(f, 12))
    ensures var r := Edit(g, Parse(g).1, m, mods);
      && (m.modAction.NoModify? ==> r == g)
      && (m.modAction.ModPopStag? && m.ptr in mods.popStag ==> r == f)
      && (m.modAction.ModPopCtagStag? && m.ptr in mods.popCtagStag ==>
            r == PopOuter(f, Parse(f).1) && |r| == |f| - 4)
  {
    hide Parse;
    CtaggedView(f);
    BothOff(f, s);
  }

  /** Behind two C-tags the multiplexer sees no ARP, and no table is applied. */
  lemma DoubleIsLost(f: Packet, s: Tci, b: Pass)
    requires CtaggedArp(f) && DoubleTagged(f) && HasTag(f, Parse(f).1, VlanExt, 4) && FromHost(b)
    ensures Applied(b, Parse(PushStag(f, Parse(f).1, s)).1) == []
  {
    var g := PushStag(f, Parse(f).1, s);
    CtaggedView(f);
    InBytes(f, g, s);
    PushStagInside(f, s);
    BareView(g, Parse(g).1);
  }

  lemma BareView(g: Packet, w: View)
    requires w == BehindEtype(g).view && Be16(g, 12) == ETYPE_VLAN_STAG
    ensures !ArpValid(w) && STAG in w.flags
  {}

  /** In and back: a C-tagged ARP frame outside a tunnel whose entry sends it to the multiplexer gets there with the
      configured S-tag outside its own.  With a single C-tag one entry of the port-mux tables decides: the original
      frame goes on exactly when there is one and it pops the S-tag alone; one that pops both takes the C-tag off too;
      and without one the frame stays as it is, as it does behind two C-tags whatever the tables hold. */
  lemma ArpInAndBack(f: Packet, a: Pass, hits: Table -> Action, mods: ModTables, s: Tci,
                     b: Pass, t: MuxTables, vsi: nat, mgmt: nat, mods': ModTables)
    requires CtaggedArp(f) && FromWire(a) && SendsIn(hits, mods, s) && FromHost(b) && MuxPops(t, mods')
    ensures HasTag(f, Parse(f).1, VlanExt, 4)
    ensures var v, g := Parse(f).1, Controlled(f, a, hits, mods);
      && Be16(g, 12) == ETYPE_VLAN_STAG && TciAt(g, 12) == s && TciAt(g, 16) == TciAt(f, 12)
      && var e, r := Deciding(t, ToGroup(v), vsi, TciAt(f, 12).vid, f[..6]), FromMux(g, b, t, vsi, mgmt, mods');
      if DoubleTagged(f) then r == g
      else
        && (r == f <==> e.Some? && e.value.VlanPopStag?)
        && (e.Some? && e.value.VlanPopCtagStag? ==> r == PopOuter(f, v))
        && (e.None? ==> r == g)
  {
    hide Parse, Edit, PushStag, PopOuter, Applied, PerformAll, Deciding, ToGroup, Be16, TciAt;
    var v := Parse(f).1;
    InIsTagged(f, a, hits, mods, s);
    var g := PushStag(f, v, s);
    PushedBytes(f, g, s);
    if DoubleTagged(f) {
      DoubleIsLost(f, s, b);
      UneditedStays(g, b, t, vsi, mgmt, mods');
    } else {
      InView(f, s);
      DecidingWins(g, ToGroup(v), f[..6], TciAt(f, 12), b, t, vsi, mgmt, mods');
      var m := PerformAll(Applied(b, Parse(g).1), table => LookUpMux(t, g, Parse(g).1, vsi, mgmt, table), NO_META);
      EditsBackToWire(f, g, s, m, mods');
    }
  }

  lemma PushedBytes(f: Packet, g: Packet, s: Tci)
    requires CtaggedArp(f) && HasTag(f, Parse(f).1, VlanExt, 4) && g == PushStag(f, Parse(f).1, s)
    ensures |g| == |f| + 4 && Be16(g, 12) == ETYPE_VLAN_STAG && TciAt(g, 12) == s && TciAt(g, 16) == TciAt(f, 12)
  {
    CtaggedView(f);
    InBytes(f, g, s);
  }

  lemma UneditedStays(g: Packet, b: Pass, t: MuxTables, vsi: nat, mgmt: nat, mods: ModTables)
    requires Applied(b, Parse(g).1) == []
    ensures FromMux(g, b, t, vsi, mgmt, mods) == g
  {}
}
