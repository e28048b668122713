/** What the control of p4files/rh_mvp.p4 makes of a frame, byte by byte, and the port it sends it to, one group of
    tables after the other. */
module Egress {
  import opened Packets
  import opened IdpfParser
  import opened ParserFacts
  import opened TagFacts
  import opened TunnelFrames
  import opened TableSelection
  import opened VlanMods
  import opened RhMvpControl
  import opened ArpRoundTrip

  /** The port that the control leaves; 0 is what it starts from. */
  function SentTo(f: Packet, a: Pass, hits: Table -> Action): nat {
    PerformAll(Applied(a, Parse(f).1), hits, NO_META).port
  }

  lemma {:induction false} NoneDecides(ts: seq<Table>, hits: Table -> Action, m: Meta)
    requires forall t :: t in ts ==> hits(t).Nothing?
    ensures PerformAll(ts, hits, m) == m
    decreases |ts|
  {
    if ts != [] {
      assert ts[0] in ts;
      NoneDecides(ts[1..], hits, m);
    }
  }

  /** Of all the tables applied, the last one that does anything decides on the port. */
  lemma {:induction false} LastDecides(ts: seq<Table>, hits: Table -> Action, m: Meta, i: nat)
    requires i < |ts| && !hits(ts[i]).Nothing? && forall t :: t in ts[i + 1..] ==> hits(t).Nothing?
    ensures PerformAll(ts, hits, m).port == hits(ts[i]).port
    decreases |ts|
  {
    var m' := Perform(hits(ts[0]), m);
    if i == 0 {
      NoneDecides(ts[1..], hits, m');
    } else {
      assert ts[1..][i..] == ts[i + 1..];
      LastDecides(ts[1..], hits, m', i - 1);
    }
  }

  // ---- Frames from a host ----

  /** The bytes up to the place of a tag are there. */
  predicate HasPlace(f: Packet, v: View) { Holds(f, v, MacHdr(DepthOf(v)), 12) }

  lemma PlaceOfEtype(f: Packet)
    requires !Tagged(f)
    ensures var v := Parse(f).1; HasPlace(f, v) <==> Holds(f, v, EtypeSlot(v), 0)
  {
    EtypeBehindMac(f);
  }

  /** An untagged IPv4 frame from a host goes where the destination table sends it, or else where the VSI table does;
      the table of destination and VSI never decides.  It leaves with the C-tag of the VSI entry, and as it came where
      that entry pushes none, has no modify entry or finds no place for the tag. */
  lemma FromHostIp(f: Packet, a: Pass, hits: Table -> Action, mods: ModTables)
    requires WellFormed(hits) && a.hostToNet && a.number == 0 && a.vsig != 1
    requires !Tagged(f) && IpValid(Parse(f).1) && !ArpValid(Parse(f).1)
    ensures SentTo(f, a, hits)
         == if hits(VportEgressDmac).FwdToPort? then hits(VportEgressDmac).port else hits(VportEgressVsi).port
    ensures var v, g, x := Parse(f).1, Controlled(f, a, hits, mods), hits(VportEgressVsi);
      if x.VlanPushCtag? && x.ptr in mods.pushCtag && HasPlace(f, v)
      then CtagPut(f, g, TagPlace(v), mods.pushCtag[x.ptr]) else g == f
  {
    hide Parse, Applied, CtagPut;
    var v, x := Parse(f).1, hits(VportEgressVsi);
    FrontOfParse(f);
    OutcomeFacts(f);
    EtypeBehindMac(f);
    RhMvpControl.OutApplies(a, v);
    Three(VportEgressDmacVsi, VportEgressVsi, VportEgressDmac, hits, NO_META);
    assert Declared(VportEgressDmacVsi, hits(VportEgressDmacVsi)) && Declared(VportEgressDmac, hits(VportEgressDmac));
    assert Declared(VportEgressVsi, x);
    PlaceOfEtype(f);
    if x.VlanPushCtag? && x.ptr in mods.pushCtag && HasPlace(f, v) { PushCtagBytes(f, mods.pushCtag[x.ptr]); }
  }

  /** An untagged ARP frame from a host goes where the ARP table sends it, with both tags of its entry. */
  lemma FromHostArp(f: Packet, a: Pass, hits: Table -> Action, mods: ModTables)
    requires Declared(VportArpEgress, hits(VportArpEgress)) && FromHost(a)
    requires !Tagged(f) && ArpValid(Parse(f).1)
    ensures SentTo(f, a, hits) == hits(VportArpEgress).port
    ensures var v, g, x := Parse(f).1, Controlled(f, a, hits, mods), hits(VportArpEgress);
      if x.SendToPortMux? && x.ptr in mods.pushCtagStag && HasPlace(f, v)
      then BothPut(f, g, TagPlace(v), mods.pushCtagStag[x.ptr].0, mods.pushCtagStag[x.ptr].1) else g == f
  {
    hide Parse, PerformAll, BothPut, TagPlace;
    var v, x := Parse(f).1, hits(VportArpEgress);
    FrontOfParse(f);
    OutcomeFacts(f);
    EtypeBehindMac(f);
    assert Applied(a, v) == [VportArpEgress];
    One(VportArpEgress, hits);
    PlaceOfEtype(f);
    if x.SendToPortMux? && x.ptr in mods.pushCtagStag && HasPlace(f, v) {
      PushCtagStagBytes(f, mods.pushCtagStag[x.ptr].0, mods.pushCtagStag[x.ptr].1);
    }
  }

  // ---- Answers and requests of the port multiplexer ----

  /** What an entry makes of a frame with an S-tag: it takes off both tags or the outer one.  It leaves a frame alone
      that is a tunnel or too short, or when its modify entry is not there; taking off both takes two. */
  function Popped(f: Packet, x: Action, mods: ModTables): Packet {
    if Parse(f).1.depth != 0 then f
    else if x.VlanPopCtagStag? && x.ptr in mods.popCtagStag && DoubleTagged(f) && |f| >= 20 then f[..12] + f[20..]
    else if x.VlanPopStag? && x.ptr in mods.popStag && |f| >= 16 then f[..12] + f[16..]
    else f
  }

  lemma PoppedIsEdit(f: Packet, x: Action, m: Meta, mods: ModTables)
    requires Tagged(f)
    requires if x.VlanPopCtagStag? then m.modAction == ModPopCtagStag && m.ptr == x.ptr
             else if x.VlanPopStag? then m.modAction == ModPopStag && m.ptr == x.ptr
             else m.modAction == NoModify
    ensures Edit(f, Parse(f).1, m, mods) == Popped(f, x, mods)
  {
    hide Parse;
    FrontOfParse(f);
    OutcomeFacts(f);
  }

  /** An ARP frame to a group address under an S-tag goes where the request table sends it. */
  lemma MuxRequest(f: Packet, a: Pass, hits: Table -> Action, mods: ModTables)
    requires Declared(PortmuxEgressReq, hits(PortmuxEgressReq)) && FromHost(a)
    requires Be16(f, 12) == 0x88A8 && ArpValid(Parse(f).1) && (IsBroadcast(f) || IsMulticast(f))
    ensures SentTo(f, a, hits) == hits(PortmuxEgressReq).port
    ensures Controlled(f, a, hits, mods) == Popped(f, hits(PortmuxEgressReq), mods)
  {
    hide Parse, PerformAll, Edit, Popped, IsBroadcast, IsMulticast;
    FrontOfParse(f);
    assert Applied(a, Parse(f).1) == [PortmuxEgressReq];
    One(PortmuxEgressReq, hits);
    PoppedIsEdit(f, hits(PortmuxEgressReq), Perform(hits(PortmuxEgressReq), NO_META), mods);
  }

  /** One to a single address always goes where the VSI table sends it, to the management port on a miss; the table of
      destination and VSI decides on the pops that the VSI table does not ask for. */
  lemma MuxAnswer(f: Packet, a: Pass, hits: Table -> Action, mods: ModTables)
    requires Declared(PortmuxEgressRespDmacVsi, hits(PortmuxEgressRespDmacVsi))
    requires Declared(PortmuxEgressRespVsi, hits(PortmuxEgressRespVsi)) && FromHost(a)
    requires Be16(f, 12) == 0x88A8 && ArpValid(Parse(f).1) && !IsBroadcast(f) && !IsMulticast(f)
    ensures SentTo(f, a, hits) == hits(PortmuxEgressRespVsi).port
    ensures Controlled(f, a, hits, mods)
         == if hits(PortmuxEgressRespVsi).L2FwdMiss? then Popped(f, hits(PortmuxEgressRespDmacVsi), mods)
            else Popped(f, hits(PortmuxEgressRespVsi), mods)
  {
    hide Parse, PerformAll, Edit, Popped, IsBroadcast, IsMulticast;
    var x, y := hits(PortmuxEgressRespDmacVsi), hits(PortmuxEgressRespVsi);
    FrontOfParse(f);
    assert Applied(a, Parse(f).1) == [PortmuxEgressRespDmacVsi, PortmuxEgressRespVsi];
    Two(PortmuxEgressRespDmacVsi, PortmuxEgressRespVsi, hits, NO_META);
    PoppedIsEdit(f, if y.L2FwdMiss? then x else y, Perform(y, Perform(x, NO_META)), mods);
  }

  // ---- Looped-back frames ----

  /** A looped-back frame under an S-tag goes where the port-mux loopback table sends it, any other one always where the
      destination table does, whatever the table of the two VSIs says.  None is edited. */
  lemma LoopbackSends(f: Packet, a: Pass, hits: Table -> Action, mods: ModTables)
    requires WellFormed(hits) && !a.hostToNet && a.number == 0 && a.loopedback && a.vsig != 1
    ensures SentTo(f, a, hits)
         == if Be16(f, 12) == 0x88A8 then hits(PortmuxIngressLoopback).port else hits(IngressLoopbackDmac).port
    ensures Controlled(f, a, hits, mods) == f
  {
    hide Parse, PerformAll;
    FrontOfParse(f);
    assert Declared(PortmuxIngressLoopback, hits(PortmuxIngressLoopback));
    assert Declared(IngressLoopback, hits(IngressLoopback));
    assert Declared(IngressLoopbackDmac, hits(IngressLoopbackDmac));
    if Be16(f, 12) == 0x88A8 {
      assert Applied(a, Parse(f).1) == [PortmuxIngressLoopback];
      One(PortmuxIngressLoopback, hits);
    } else {
      assert Applied(a, Parse(f).1) == [IngressLoopback, IngressLoopbackDmac];
      Two(IngressLoopback, IngressLoopbackDmac, hits, NO_META);
    }
  }

  // ---- Frames from the wire ----

  /** An ARP frame under a C-tag gets the S-tag of its entry in front of it, and goes where the entry says. */
  lemma FromWireArp(f: Packet, a: Pass, hits: Table -> Action, mods: ModTables)
    requires Declared(PhyIngressArp, hits(PhyIngressArp)) && FromWire(a)
    requires Be16(f, 12) == 0x8100 && ArpValid(Parse(f).1)
    ensures SentTo(f, a, hits) == hits(PhyIngressArp).port
    ensures var g, x := Controlled(f, a, hits, mods), hits(PhyIngressArp);
      if x.SendToPortMuxStag? && x.ptr in mods.pushStag && Parse(f).1.depth == 0
      then StagPut(f, g, 12, mods.pushStag[x.ptr]) else g == f
  {
    hide Parse, PerformAll;
    var x := hits(PhyIngressArp);
    FrontOfParse(f);
    OutcomeFacts(f);
    assert Applied(a, Parse(f).1) == [PhyIngressArp];
    One(PhyIngressArp, hits);
    if x.SendToPortMuxStag? && x.ptr in mods.pushStag && Parse(f).1.depth == 0 {
      var s := mods.pushStag[x.ptr];
      assert Insert(f, 12, Tag(ETYPE_VLAN_STAG, s))[12..16] == Tag(ETYPE_VLAN_STAG, s);
      TagReads(Insert(f, 12, Tag(ETYPE_VLAN_STAG, s)), 12, ETYPE_VLAN_STAG, s);
    }
  }

  /** An IPv4 frame under a C-tag loses it and goes where its entry says. */
  lemma FromWireIp(f: Packet, a: Pass, hits: Table -> Action, mods: ModTables)
    requires Declared(PhyIngressVlanDmac, hits(PhyIngressVlanDmac)) && FromWire(a) && Be16(f, 12) == 0x8100
    requires IpValid(Parse(f).1) && !ArpValid(Parse(f).1)
    ensures SentTo(f, a, hits) == hits(PhyIngressVlanDmac).port
    ensures var g, x := Controlled(f, a, hits, mods), hits(PhyIngressVlanDmac);
      if x.VlanPopCtag? && x.ptr in mods.popCtag && Parse(f).1.depth == 0 && |f| >= 16
      then g == f[..12] + f[16..] else g == f
  {
    hide Parse, PerformAll;
    FrontOfParse(f);
    OutcomeFacts(f);
    assert Applied(a, Parse(f).1) == [PhyIngressVlanDmac];
    One(PhyIngressVlanDmac, hits);
  }

  // ---- Hits and misses ----

  /** An IPv4 frame from the wire goes to the port of the entry for its port, VLAN and destination, and on a miss to the
      management port. */
  lemma ReceiverSends(g: Packet, b: Pass, t: VlanTable, port: nat, mgmt: nat, mods: ModTables)
    requires FromWire(b) && Be16(g, 12) == 0x8100 && |g| >= 16 && Pops(t, mods)
    requires IpValid(Parse(g).1) && !ArpValid(Parse(g).1) && Parse(g).1.depth == 0
    ensures SentTo(g, b, _ => LookUp(t, g, Parse(g).1, port, mgmt))
         == var k := VlanKey(port, TciAt(g, 12).vid, g[..6]); if k in t then t[k].port else mgmt
  {
    hide Parse, PerformAll, Applied, TciAt;
    var hits := _ => LookUp(t, g, Parse(g).1, port, mgmt);
    FrontOfParse(g);
    assert g[0..6] == g[..6];
    FromWireIp(g, b, hits, mods);
  }

  /** A request of the multiplexer goes to the port of the entry for its VSI and the VLAN of the inner tag, an answer to
      that of the entry for its VSI; on a miss both go to the management port, an answer even when the entry for its
      destination pops its tags. */
  lemma MuxSends(g: Packet, b: Pass, t: MuxTables, vsi: nat, mgmt: nat, mods: ModTables)
    requires FromHost(b) && Be16(g, 12) == 0x88A8 && DoubleTagged(g) && |g| >= 20 && MuxPops(t, mods)
    requires ArpValid(Parse(g).1) && Parse(g).1.depth == 0
    ensures var k := ReqKey(vsi, TciAt(g, 16).vid);
      SentTo(g, b, table => LookUpMux(t, g, Parse(g).1, vsi, mgmt, table))
      == if IsBroadcast(g) || IsMulticast(g) then (if k in t.req then t.req[k].port else mgmt)
         else if vsi in t.respVsi then t.respVsi[vsi].port else mgmt
  {
    hide Parse, PerformAll, Applied, TciAt, IsBroadcast, IsMulticast, SentTo;
    var hits := table => LookUpMux(t, g, Parse(g).1, vsi, mgmt, table);
    FrontOfParse(g);
    if IsBroadcast(g) || IsMulticast(g) {
      MuxRequest(g, b, hits, mods);
    } else {
      MuxAnswer(g, b, hits, mods);
    }
  }

  // ---- The rest ----

  /** A frame that no table is applied to stays as it is and is sent nowhere. */
  lemma OthersStay(f: Packet, a: Pass, hits: Table -> Action, mods: ModTables)
    requires a.vsig != 1 && NoTable(a, Parse(f).1)
    ensures SentTo(f, a, hits) == 0 && Controlled(f, a, hits, mods) == f
  {
    hide Parse;
    FrontOfParse(f);
    OutcomeFacts(f);
    assert Applied(a, Parse(f).1) == [];
  }

  /** The port from which a run of tables starts says nothing about the edit, and nothing about the port it leaves once
      one of the tables does anything. */
  lemma {:induction false} StartPort(ts: seq<Table>, hits: Table -> Action, m: Meta, m': Meta)
    requires m'.modAction == m.modAction && m'.ptr == m.ptr
    ensures var r, r' := PerformAll(ts, hits, m), PerformAll(ts, hits, m');
      && r'.modAction == r.modAction && r'.ptr == r.ptr
      && (m'.port == m.port || (exists t :: t in ts && !hits(t).Nothing?) ==> r'.port == r.port)
    decreases |ts|
  {
    if ts != [] {
      var n, n' := Perform(hits(ts[0]), m), Perform(hits(ts[0]), m');
      StartPort(ts[1..], hits, n, n');
      assert !hits(ts[0]).Nothing? ==> n'.port == n.port;
      if exists t :: t in ts && !hits(t).Nothing? {
        var t :| t in ts && !hits(t).Nothing?;
        assert t == ts[0] || t in ts[1..];
      }
    }
  }

  /** The tables whose default action sends, so that they never leave a frame alone. */
  predicate AlwaysActs(t: Table) {
    !t.CommsChannel? && !t.VportEgressDmacVsi? && !t.VportEgressDmac? && !t.PortmuxEgressRespDmacVsi?
  }

  /** Every group of tables has one of them, its first or its second. */
  lemma GroupActs(a: Pass, v: View)
    requires a.vsig != 1 && MacValid(v) && !(STAG in v.flags && EVLAN_8100 in v.flags)
    ensures var ts := Applied(a, v);
      && (ts == [] <==> NoTable(a, v))
      && (ts != [] ==> if AlwaysActs(ts[0]) then true else |ts| > 1 && AlwaysActs(ts[1]))
  {}

  lemma SomeActs(ts: seq<Table>, hits: Table -> Action)
    requires WellFormed(hits) && ts != [] && if AlwaysActs(ts[0]) then true else |ts| > 1 && AlwaysActs(ts[1])
    ensures exists t :: t in ts && !hits(t).Nothing?
  {
    var t := if AlwaysActs(ts[0]) then ts[0] else ts[1];
    assert t in ts && Declared(t, hits(t));
  }

  lemma ChannelFirst(a: Pass, v: View)
    requires a.vsig == 1
    ensures Applied(a, v) == [CommsChannel] + Applied(a.(vsig := 0), v) && (NoTable(a, v) == NoTable(a.(vsig := 0), v))
  {}

  lemma NoTables(hits: Table -> Action, m: Meta)
    ensures PerformAll([], hits, m) == m
  {}

  /** In VSI group 1 the communication channel decides on the port exactly of those frames; every other frame goes, and
      looks, as it would outside the group. */
  lemma ChannelDecides(f: Packet, a: Pass, hits: Table -> Action, mods: ModTables)
    requires WellFormed(hits) && a.vsig == 1
    ensures var out := a.(vsig := 0); var x := hits(CommsChannel);
      && Controlled(f, a, hits, mods) == Controlled(f, out, hits, mods)
      && SentTo(f, a, hits)
      == if !NoTable(a, Parse(f).1) then SentTo(f, out, hits) else if x.L2Fwd? then x.port else 0
  {
    hide Parse, NoTable, PerformAll, HostToNet, Loopback, FromPhy, AlwaysActs, IsBroadcast, IsMulticast, EtypeAt;
    var v, out := Parse(f).1, a.(vsig := 0);
    ChannelFirst(a, v);
    Chain([CommsChannel], Applied(out, v), hits, NO_META);
    One(CommsChannel, hits);
    assert Declared(CommsChannel, hits(CommsChannel));
    FrontOfParse(f);
    OutcomeFacts(f);
    FlagsExclusive(f);
    GroupActs(out, v);
    if Applied(out, v) != [] { SomeActs(Applied(out, v), hits); }
    StartPort(Applied(out, v), hits, NO_META, Perform(hits(CommsChannel), NO_META));
    NoTables(hits, NO_META);
    NoTables(hits, Perform(hits(CommsChannel), NO_META));
  }
}
