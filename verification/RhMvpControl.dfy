/** The control block of p4files/rh_mvp.p4: the tables a frame is applied to leave a modify action behind, and the
    action edits the frame. */
module RhMvpControl {
  import opened Packets
  import opened IdpfParser
  import opened ParserFacts
  import opened TagFacts
  import opened TunnelFrames
  import opened FxpParser
  import opened TableSelection
  import opened VlanMods
  import Refinement

  /** `meta.common.mod_action`, by name. */
  datatype ModAction = NoModify | ModPopCtagStag | ModPopCtag | ModPopStag | ModPushCtagStag | ModPushCtag | ModPushStag

  /** What an entry of a table, or its default, can do. */
  datatype Action =
    | Nothing
    | L2Fwd(port: nat) | L2FwdMiss(port: nat) | FwdToPort(port: nat)
    | VlanPopCtagStag(ptr: nat, port: nat) | VlanPopStag(ptr: nat, port: nat) | VlanPopCtag(ptr: nat, port: nat)
    | VlanPushCtag(ptr: nat, port: nat) | SendToPortMux(ptr: nat, port: nat) | SendToPortMuxStag(ptr: nat, port: nat)

  /** The actions each table declares, its default action included. */
  predicate Declared(t: Table, a: Action) {
    match t
    case CommsChannel => a.L2Fwd? || a.Nothing?
    case VportEgressDmacVsi => a.FwdToPort? || a.Nothing?
    case VportEgressVsi => a.FwdToPort? || a.VlanPushCtag? || a.L2FwdMiss?
    case VportEgressDmac => a.FwdToPort? || a.Nothing?
    case PortmuxEgressReq => a.VlanPopCtagStag? || a.VlanPopStag? || a.L2FwdMiss?
    case PortmuxEgressRespDmacVsi => a.VlanPopCtagStag? || a.Nothing?
    case PortmuxEgressRespVsi => a.VlanPopCtagStag? || a.VlanPopStag? || a.L2FwdMiss?
    case VportArpEgress => a.SendToPortMux? || a.L2FwdMiss?
    case IngressLoopback => a.FwdToPort? || a.L2FwdMiss?
    case IngressLoopbackDmac => a.FwdToPort? || a.L2FwdMiss?
    case PortmuxIngressLoopback => a.FwdToPort? || a.L2FwdMiss?
    case PhyIngressArp => a.SendToPortMuxStag? || a.L2FwdMiss?
    case PhyIngressVlanDmac => a.VlanPopCtag? || a.L2FwdMiss?
  }

  /** What the tables leave: the modify action, its pointer and the port. */
  datatype Meta = Meta(modAction: ModAction, ptr: nat, port: nat)

  const NO_META := Meta(NoModify, 0, 0)

  function Perform(a: Action, m: Meta): Meta {
    match a
    case Nothing => m
    case L2Fwd(port) => m.(modAction := NoModify, port := port)
    case L2FwdMiss(port) => m.(port := port)
    case FwdToPort(port) => m.(port := port)
    case VlanPopCtagStag(ptr, port) => Meta(ModPopCtagStag, ptr, port)
    case VlanPopStag(ptr, port) => Meta(ModPopStag, ptr, port)
    case VlanPopCtag(ptr, port) => Meta(ModPopCtag, ptr, port)
    case VlanPushCtag(ptr, port) => Meta(ModPushCtag, ptr, port)
    case SendToPortMux(ptr, port) => Meta(ModPushCtagStag, ptr, port)
    case SendToPortMuxStag(ptr, port) => Meta(ModPushStag, ptr, port)
  }

  /** Tables in order; `hits` is what each of them does to this frame. */
  function PerformAll(ts: seq<Table>, hits: Table -> Action, m: Meta): Meta {
    if ts == [] then m else PerformAll(ts[1..], hits, Perform(hits(ts[0]), m))
  }

  /** The contents of the six modify tables, by pointer. */
  datatype ModTables = ModTables(
    pushCtag: map<nat, Tci>, pushCtagStag: map<nat, (Tci, Tci)>, pushStag: map<nat, Tci>,
    popCtag: set<nat>, popStag: set<nat>, popCtagStag: set<nat>)

  /** The closing switch.  An edit whose headers the frame does not have leaves it alone. */
  function Edit(f: Packet, v: View, m: Meta, mods: ModTables): Packet {
    match m.modAction
    case NoModify => f
    case ModPushCtag =>
      if m.ptr in mods.pushCtag && Holds(f, v, EtypeSlot(v), 0) then PushCtag(f, v, mods.pushCtag[m.ptr]) else f
    case ModPushCtagStag =>
      if m.ptr in mods.pushCtagStag && Holds(f, v, EtypeSlot(v), 0)
      then PushCtagStag(f, v, mods.pushCtagStag[m.ptr].0, mods.pushCtagStag[m.ptr].1) else f
    case ModPushStag =>
      if m.ptr in mods.pushStag && HasTag(f, v, VlanExt, 0) then PushStag(f, v, mods.pushStag[m.ptr]) else f
    case ModPopCtag => if m.ptr in mods.popCtag && HasTag(f, v, VlanExt, 4) then PopOuter(f, v) else f
    case ModPopStag => if m.ptr in mods.popStag && HasTag(f, v, VlanExt, 4) then PopOuter(f, v) else f
    case ModPopCtagStag =>
      if m.ptr in mods.popCtagStag && HasTag(f, v, VlanExt, 4) && HasTag(f, v, VlanInt, 4)
         && v.hdrs[VlanExt] + 4 <= v.hdrs[VlanInt]
      then PopCtagStag(f, v) else f
  }

  /** The control applied to one frame in one pass. */
  class Control {
    const view: View
    const pass: Pass
    const hits: Table -> Action
    const mods: ModTables
    var frame: Packet
    var meta: Meta

    constructor (f: Packet, a: Pass, h: Table -> Action, m: ModTables)
      ensures frame == f && view == Parse(f).1 && pass == a && hits == h && mods == m && meta == NO_META
    {
      frame, view, pass, hits, mods, meta := f, Parse(f).1, a, h, m, NO_META;
    }

    method ApplyTable(t: Table)
      modifies `meta
      ensures meta == Perform(hits(t), old(meta))
    {
      meta := Perform(hits(t), meta);
    }

    method ApplyHostToNet()
      modifies `meta
      ensures meta == PerformAll(HostToNet(pass, view), hits, old(meta))
    {
      var tx := pass.hostToNet && pass.number == 0;
      var ctag, stag := EVLAN_8100 in view.flags, STAG in view.flags;
      var group := PFLAG_11 in view.flags || PFLAG_10 in view.flags;
      if tx && !ctag && !stag && MacValid(view) && IpValid(view) && !ArpValid(view) {
        ApplyTable(VportEgressDmacVsi);
        ApplyTable(VportEgressVsi);
        ApplyTable(VportEgressDmac);
        Three(VportEgressDmacVsi, VportEgressVsi, VportEgressDmac, hits, old(meta));
      } else if tx && ArpValid(view) && !ctag && stag && !pass.loopedback && group {
        ApplyTable(PortmuxEgressReq);
      } else if tx && ArpValid(view) && !ctag && stag && !pass.loopedback && !group {
        ApplyTable(PortmuxEgressRespDmacVsi);
        ApplyTable(PortmuxEgressRespVsi);
        Two(PortmuxEgressRespDmacVsi, PortmuxEgressRespVsi, hits, old(meta));
      } else if tx && !pass.loopedback && MacValid(view) && ArpValid(view) && !ctag && !stag {
        ApplyTable(VportArpEgress);
      }
    }

    method ApplyLoopback()
      modifies `meta
      ensures meta == PerformAll(Loopback(pass, view), hits, old(meta))
    {
      var rx := !pass.hostToNet && pass.number == 0 && pass.loopedback;
      if rx && STAG !in view.flags {
        ApplyTable(IngressLoopback);
        ApplyTable(IngressLoopbackDmac);
        Two(IngressLoopback, IngressLoopbackDmac, hits, old(meta));
      } else if rx && STAG in view.flags {
        ApplyTable(PortmuxIngressLoopback);
      }
    }

    method ApplyFromPhy()
      modifies `meta
      ensures meta == PerformAll(FromPhy(pass, view), hits, old(meta))
    {
      var rx := !pass.hostToNet && pass.number == 0 && !pass.loopedback && MacValid(view);
      if rx && ArpValid(view) && EVLAN_8100 in view.flags {
        ApplyTable(PhyIngressArp);
      }
      if rx && IpValid(view) && EVLAN_8100 in view.flags && !ArpValid(view) {
        ApplyTable(PhyIngressVlanDmac);
      }
    }

    /** The whole apply block. */
    method Apply()
      modifies this
      ensures meta == PerformAll(Applied(pass, view), hits, old(meta))
      ensures frame == Edit(old(frame), view, meta, mods)
    {
      if pass.vsig == 1 {
        ApplyTable(CommsChannel);
      }
      ApplyHostToNet();
      ApplyLoopback();
      ApplyFromPhy();
      Chain(if pass.vsig == 1 then [CommsChannel] else [], HostToNet(pass, view), hits, old(meta));
      Chain((if pass.vsig == 1 then [CommsChannel] else []) + HostToNet(pass, view), Loopback(pass, view), hits,
          old(meta));
      Chain((if pass.vsig == 1 then [CommsChannel] else []) + HostToNet(pass, view) + Loopback(pass, view),
            FromPhy(pass, view), hits, old(meta));
      frame := Edit(frame, view, meta, mods);
    }
  }

  lemma {:induction false} Chain(xs: seq<Table>, ys: seq<Table>, hits: Table -> Action, m: Meta)
    ensures PerformAll(xs + ys, hits, m) == PerformAll(ys, hits, PerformAll(xs, hits, m))
    decreases |xs|
  {
    if xs == [] {
      assert xs + ys == ys;
    } else {
      Chain(xs[1..], ys, hits, Perform(hits(xs[0]), m));
      assert (xs + ys)[1..] == xs[1..] + ys;
    }
  }

  lemma Two(t: Table, u: Table, hits: Table -> Action, m: Meta)
    ensures PerformAll([t, u], hits, m) == Perform(hits(u), Perform(hits(t), m))
  {
    assert [t, u][1..] == [u] && [u][1..] == [];
    assert PerformAll([u], hits, Perform(hits(t), m)) == PerformAll([], hits, Perform(hits(u), Perform(hits(t), m)));
  }

  lemma Three(t: Table, u: Table, w: Table, hits: Table -> Action, m: Meta)
    ensures PerformAll([t, u, w], hits, m) == Perform(hits(w), Perform(hits(u), Perform(hits(t), m)))
  {
    assert [t, u, w][1..] == [u, w];
    Two(u, w, hits, Perform(hits(t), m));
  }

  // ---- Tag discipline ----

  ghost predicate WellFormed(hits: Table -> Action) {
    forall t :: Declared(t, hits(t))
  }

  /** The modify action an action asks for, if it asks for one. */
  function Asks(a: Action): ModAction { Perform(a, NO_META).modAction }

  /** The tags a frame must have for each edit to make sense, in terms of its outermost EtherType. */
  predicate Allowed(m: ModAction, etype: bv16) {
    match m
    case NoModify => true
    case ModPushCtag => !IsTag(etype)
    case ModPushCtagStag => !IsTag(etype)
    case ModPushStag => etype == ETYPE_VLAN_CTAG
    case ModPopCtag => etype == ETYPE_VLAN_CTAG
    case ModPopStag => etype == ETYPE_VLAN_STAG
    case ModPopCtagStag => etype == ETYPE_VLAN_STAG
  }

  /** A table that can ask for an edit is applied only to frames with the tags for it. */
  lemma TableAllowed(p: Packet, a: Pass, t: Table, x: Action)
    requires t in Applied(a, Parse(p).1) && Declared(t, x)
    ensures Allowed(Asks(x), Be16(p, 12))
  {
    FrontOfParse(p);
  }

  lemma {:induction false} OnlyAsked(ts: seq<Table>, hits: Table -> Action, m: Meta, etype: bv16)
    requires Allowed(m.modAction, etype) && forall t :: t in ts ==> Allowed(Asks(hits(t)), etype)
    ensures Allowed(PerformAll(ts, hits, m).modAction, etype)
    decreases |ts|
  {
    if ts != [] {
      assert ts[0] in ts;
      OnlyAsked(ts[1..], hits, Perform(hits(ts[0]), m), etype);
    }
  }

  /** For every frame, pass and table contents: push_ctag and push_ctag_stag fire only on untagged frames, push_stag and
      pop_ctag only behind a C-tag, and pop_stag and pop_ctag_stag only behind an S-tag. */
  lemma TagDiscipline(p: Packet, a: Pass, hits: Table -> Action)
    requires WellFormed(hits)
    ensures Allowed(PerformAll(Applied(a, Parse(p).1), hits, NO_META).modAction, Be16(p, 12))
  {
    var ts := Applied(a, Parse(p).1);
    forall t | t in ts ensures Allowed(Asks(hits(t)), Be16(p, 12)) {
      TableAllowed(p, a, t, hits(t));
    }
    OnlyAsked(ts, hits, NO_META, Be16(p, 12));
  }

  lemma ProfileAllowed(p: Packet, a: Pass, g: nat, t: Table, x: Action)
    requires t in Luts(ProfileMeaning(g, a, Parse(p).1)) && Declared(t, x)
    ensures Allowed(Asks(x), Be16(p, 12))
  {
    hide Parse, IsIpGroup, IsArpGroup, IsBroadcast, IsMulticast, EtypeAt, DoubleTagged;
    FrontOfParse(p);
  }

  /** The compiled selection keeps the same discipline, also where it differs from the source. */
  lemma CompiledTagDiscipline(p: Packet, a: Pass, hits: Table -> Action)
    requires WellFormed(hits)
    ensures Allowed(PerformAll(Compiled(a, ParseCompiled(p)), hits, NO_META).modAction, Be16(p, 12))
  {
    var r := ParseCompiled(p);
    Refinement.CompiledRefinesSource(p);
    var g := Group(Ptypes.Ptype(r.view.markers, r.nodeId));
    ProfileIsMeaning(g, a, r.view);
    var ts := Compiled(a, r);
    forall t | t in ts ensures Allowed(Asks(hits(t)), Be16(p, 12)) {
      ProfileAllowed(p, a, g, t, hits(t));
    }
    OnlyAsked(ts, hits, NO_META, Be16(p, 12));
  }

  /** Outside VSI group 1 at most one of the table groups is applied, and to a looped-back or wire frame at most one of
      its tables can edit. */
  lemma OneGroup(p: Packet, a: Pass)
    requires a.vsig != 1
    ensures var v := Parse(p).1;
      && (Applied(a, v) == HostToNet(a, v) || Applied(a, v) == Loopback(a, v) || Applied(a, v) == FromPhy(a, v))
      && |FromPhy(a, v)| <= 1
  {}

  // ---- From a host, over the wire, to a host ----

  /** An untagged IPv4 frame with room for the EtherType that a tag would go in front of. */
  predicate UntaggedIp(f: Packet) {
    var v := Parse(f).1;
    !Tagged(f) && IpValid(v) && !ArpValid(v) && Holds(f, v, EtypeSlot(v), 0)
  }

  lemma OutApplies(a: Pass, v: View)
    requires a.hostToNet && a.number == 0 && a.vsig != 1 && MacValid(v) && IpValid(v) && !ArpValid(v)
    requires EVLAN_8100 !in v.flags && STAG !in v.flags
    ensures Applied(a, v) == [VportEgressDmacVsi, VportEgressVsi, VportEgressDmac]
  {}

  /** The destination tables can only send, so the edit is that of the VSI table. */
  lemma VsiWins(hits: Table -> Action)
    requires WellFormed(hits) && hits(VportEgressVsi).VlanPushCtag?
    ensures var m := PerformAll([VportEgressDmacVsi, VportEgressVsi, VportEgressDmac], hits, NO_META);
      m.modAction == ModPushCtag && m.ptr == hits(VportEgressVsi).ptr
  {
    Three(VportEgressDmacVsi, VportEgressVsi, VportEgressDmac, hits, NO_META);
    assert Declared(VportEgressDmacVsi, hits(VportEgressDmacVsi)) && Declared(VportEgressDmac, hits(VportEgressDmac));
  }

  /** What the control makes of a frame. */
  function Controlled(f: Packet, a: Pass, hits: Table -> Action, mods: ModTables): Packet {
    Edit(f, Parse(f).1, PerformAll(Applied(a, Parse(f).1), hits, NO_META), mods)
  }

  /** The pass and the tables in which a host's VSI entry pushes the C-tag `c`. */
  ghost predicate Pushes(a: Pass, hits: Table -> Action, mods: ModTables, c: Tci) {
    && WellFormed(hits) && a.hostToNet && a.number == 0 && a.vsig != 1
    && hits(VportEgressVsi).VlanPushCtag? && hits(VportEgressVsi).ptr in mods.pushCtag
    && mods.pushCtag[hits(VportEgressVsi).ptr] == c
  }

  lemma OutPushes(f: Packet, a: Pass, hits: Table -> Action, mods: ModTables, c: Tci)
    requires UntaggedIp(f) && Pushes(a, hits, mods, c)
    ensures Controlled(f, a, hits, mods) == PushCtag(f, Parse(f).1, c)
  {
    FrontOfParse(f);
    OutcomeFacts(f);
    OutApplies(a, Parse(f).1);
    VsiWins(hits);
  }

  /** For an untagged IPv4 frame whose VSI entry pushes a C-tag, the parser finds the tag again exactly when the frame
      is no tunnel. */
  lemma PushedTagIsSeen(f: Packet, a: Pass, hits: Table -> Action, mods: ModTables, c: Tci)
    requires UntaggedIp(f) && Pushes(a, hits, mods, c)
    ensures var g := Controlled(f, a, hits, mods);
      && |g| == |f| + 4
      && (EVLAN_8100 in Parse(g).1.flags <==> Parse(f).1.depth == 0)
      && (VlanExt in Parse(g).1.hdrs <==> Parse(f).1.depth == 0)
  {
    OutPushes(f, a, hits, mods, c);
    PushCtagRoundTrip(f, c);
    FrontOfParse(PushCtag(f, Parse(f).1, c));
  }

  lemma VxlanIpUntagged()
    ensures UntaggedIp(VXLAN_IP) && Parse(VXLAN_IP).1.depth == 1
  {
    VxlanIpView();
    VxlanIpParse();
  }

  /** A VXLAN frame on which it is lost: the control looks in the VSI table and pushes the tag in front of the inner
      EtherType, and no parser sees it there. */
  lemma TunnelledPushIsLost(f: Packet, a: Pass, hits: Table -> Action, mods: ModTables, c: Tci)
    requires f == VXLAN_IP && Pushes(a, hits, mods, c)
    ensures Parse(f).1.depth == 1 && VportEgressVsi in Applied(a, Parse(f).1)
    ensures var g := Controlled(f, a, hits, mods);
      && CtagPut(f, g, 62, c) && EVLAN_8100 !in Parse(g).1.flags && VlanExt !in Parse(g).1.hdrs
  {
    hide Parse, CtagPut;
    VxlanIpUntagged();
    VxlanIpParse();
    EtypeBehindMac(f);
    OutPushes(f, a, hits, mods, c);
    PushCtagBytes(f, c);
    VxlanIpView();
    EgressApplied(a, Parse(f).1);
    PushedTagIsSeen(f, a, hits, mods, c);
  }

  // ---- The tables of a receiver ----

  /** The key and the contents of phy_ingress_vlan_dmac_table. */
  datatype VlanKey = VlanKey(port: nat, vid: bv12, dmac: Packet)

  type VlanTable = map<VlanKey, Action>

  /** The destination address of the frame's own layer, and the VLAN identifier of its tag. */
  function KeyOf(f: Packet, v: View, port: nat): VlanKey
    requires MacValid(v) && HasTag(f, v, VlanExt, 4) && Holds(f, v, MacHdr(DepthOf(v)), 6)
  {
    var m := v.hdrs[MacHdr(DepthOf(v))];
    VlanKey(port, TciAt(f, v.hdrs[VlanExt]).vid, f[m..m + 6])
  }

  /** Looking a frame up: an entry pops, or the default action sends to the management port. */
  function LookUp(t: VlanTable, f: Packet, v: View, port: nat, mgmt: nat): Action {
    if MacValid(v) && HasTag(f, v, VlanExt, 4) && Holds(f, v, MacHdr(DepthOf(v)), 6) && KeyOf(f, v, port) in t
    then t[KeyOf(f, v, port)] else L2FwdMiss(mgmt)
  }

  /** What the entries may be: pops whose modify entry is there. */
  predicate Pops(t: VlanTable, mods: ModTables) {
    forall k :: k in t ==> t[k].VlanPopCtag? && t[k].ptr in mods.popCtag
  }

  predicate FromWire(b: Pass) { !b.hostToNet && b.number == 0 && !b.loopedback && b.vsig != 1 }

  /** What a receiver makes of a frame that is looked up in the VLAN table. */
  function Received(g: Packet, b: Pass, t: VlanTable, port: nat, mgmt: nat, mods: ModTables): Packet {
    Controlled(g, b, _ => LookUp(t, g, Parse(g).1, port, mgmt), mods)
  }

  lemma InLooksUp(g: Packet, b: Pass, x: Action, hits: Table -> Action, mods: ModTables)
    requires FromWire(b) && hits(PhyIngressVlanDmac) == x
    requires var w := Parse(g).1;
      MacValid(w) && IpValid(w) && !ArpValid(w) && EVLAN_8100 in w.flags && HasTag(g, w, VlanExt, 4)
    ensures x.VlanPopCtag? && x.ptr in mods.popCtag ==> Controlled(g, b, hits, mods) == PopOuter(g, Parse(g).1)
    ensures x.L2FwdMiss? ==> Controlled(g, b, hits, mods) == g
  {
    assert Applied(b, Parse(g).1) == [PhyIngressVlanDmac];
    assert PerformAll([PhyIngressVlanDmac], hits, NO_META) == Perform(x, NO_META);
  }

  lemma PushedIsIp(f: Packet, c: Tci)
    requires UntaggedIp(f) && Parse(f).1.depth == 0
    ensures var w := Parse(PushCtag(f, Parse(f).1, c)).1; MacValid(w) && IpValid(w) && !ArpValid(w)
  {
    PushCtagRoundTrip(f, c);
    FrontOfParse(PushCtag(f, Parse(f).1, c));
  }

  lemma PushedKey(f: Packet, c: Tci, port: nat)
    requires UntaggedIp(f) && Parse(f).1.depth == 0
    ensures var g := PushCtag(f, Parse(f).1, c); var w := Parse(g).1;
      && |f| >= 12 && MacValid(w) && HasTag(g, w, VlanExt, 4) && Holds(g, w, MacHdr(DepthOf(w)), 6)
      && KeyOf(g, w, port) == VlanKey(port, c.vid, f[..6])
  {
    var g := PushCtag(f, Parse(f).1, c);
    PushCtagRoundTrip(f, c);
    PushedIsIp(f, c);
    FrontOfParse(f);
    FrontOfParse(g);
    assert g[0..6] == f[..6];
  }

  /** A tag pushed on the way out is popped on the way in exactly by the entry for it: for every untagged IPv4 frame
      outside a tunnel whose VSI entry pushes a C-tag, whatever the destination tables hold, the frame on the wire
      carries the configured tag; and a receiver hands on the original frame if and only if its VLAN table has an
      entry for its port, the pushed VLAN identifier and the frame's destination. */
  lemma OutAndIn(f: Packet, a: Pass, hits: Table -> Action, mods: ModTables, c: Tci,
                 b: Pass, t: VlanTable, port: nat, mgmt: nat, mods': ModTables)
    requires UntaggedIp(f) && Parse(f).1.depth == 0 && Pushes(a, hits, mods, c) && FromWire(b) && Pops(t, mods')
    ensures var g := Controlled(f, a, hits, mods);
      && |f| >= 12 && Be16(g, 12) == ETYPE_VLAN_CTAG && TciAt(g, 12) == c
      && (Received(g, b, t, port, mgmt, mods') == f <==> VlanKey(port, c.vid, f[..6]) in t)
      && (VlanKey(port, c.vid, f[..6]) !in t ==> Received(g, b, t, port, mgmt, mods') == g)
  {
    var g := PushCtag(f, Parse(f).1, c);
    OutPushes(f, a, hits, mods, c);
    PushCtagRoundTrip(f, c);
    PushedIsIp(f, c);
    PushedKey(f, c, port);
    FrontOfParse(g);
    var x := LookUp(t, g, Parse(g).1, port, mgmt);
    InLooksUp(g, b, x, _ => LookUp(t, g, Parse(g).1, port, mgmt), mods');
    assert |g| == |f| + 4;
  }
}
