/** The parse of a frame in terms of its bytes: destination class, VLAN tags, and what lies behind the tags. */
module TagFacts {
  import opened Packets
  import opened IdpfParser
  import opened ParserFacts

  // ---- From the start to the EtherType ----

  predicate FirstFourOnes(p: Packet) {
    Byte(p, 0) == 0xFF && Byte(p, 1) == 0xFF && Byte(p, 2) == 0xFF && Byte(p, 3) == 0xFF
  }

  predicate IsBroadcast(p: Packet) {
    FirstFourOnes(p) && Byte(p, 4) == 0xFF && Byte(p, 5) == 0xFF
  }

  /** The group bit, as the parser looks at it: a destination that starts like the broadcast address is taken for
      neither class unless it is the broadcast address. */
  predicate IsMulticast(p: Packet) {
    Byte(p, 0) & 1 == 1 && !FirstFourOnes(p)
  }

  predicate IsTag(etype: bv16) { etype == ETYPE_VLAN_CTAG || etype == ETYPE_VLAN_STAG }

  predicate Tagged(p: Packet) { IsTag(Be16(p, 12)) }

  predicate DoubleTagged(p: Packet) { Tagged(p) && Be16(p, 16) == ETYPE_VLAN_CTAG }

  /** Where the outer EtherType is. */
  function EtypeAt(p: Packet): nat {
    if DoubleTagged(p) then 20 else if Tagged(p) then 16 else 12
  }

  function MacFlags(p: Packet): set<nat> {
    if IsBroadcast(p) then {PFLAG_11} else if IsMulticast(p) then {PFLAG_10} else {}
  }

  function TagFlags(p: Packet): set<nat> {
    (if Be16(p, 12) == ETYPE_VLAN_STAG then {STAG} else if Tagged(p) then {EVLAN_8100} else {})
    + if DoubleTagged(p) then {VLAN} else {}
  }

  function TagMarkers(p: Packet): set<nat> {
    if Be16(p, 12) == ETYPE_VLAN_CTAG then {VLAN_D0} else {}
  }

  function MacView(p: Packet): View {
    View(12, 0, MacFlags(p), {}, map[MacHdr(D0) := 0])
  }

  lemma StartSelects(p: Packet)
    ensures SelectEthernet(p, Start, 0)
         == if FirstFourOnes(p) then MacMaybeBc else if IsMulticast(p) then MacMc else MacDone
    ensures SelectEthernet(p, MacMaybeBc, 0) == if Byte(p, 4) == 0xFF && Byte(p, 5) == 0xFF then MacBc else MacDone
  {}

  lemma MacPart(p: Packet) returns (n: nat)
    ensures After(p, n) == Config(AfterMac(Be16(p, 12)), MacView(p))
  {
    StartSelects(p);
    assert After(p, 0) == Config(Start, EMPTY);
    assert After(p, 1) == Next(p, After(p, 0));
    assert After(p, 2) == Next(p, After(p, 1));
    if After(p, 1).state.MacDone? {
      n := 2;
    } else {
      n := 3;
      assert After(p, 3) == Next(p, After(p, 2));
    }
  }

  function TagHdrs(p: Packet): map<Header, nat> {
    if DoubleTagged(p) then map[MacHdr(D0) := 0, VlanExt := 12, VlanInt := 16, EtypeHdr(D0) := 20]
    else if Tagged(p) then map[MacHdr(D0) := 0, VlanExt := 12, EtypeHdr(D0) := 16]
    else map[MacHdr(D0) := 0, EtypeHdr(D0) := 12]
  }

  /** The configuration behind the outer EtherType, read off the bytes. */
  function BehindEtype(p: Packet): Config {
    Config(AfterEtype(D0, Be16(p, EtypeAt(p))),
           View(EtypeAt(p) + 2, 0, MacFlags(p) + TagFlags(p), TagMarkers(p), TagHdrs(p)))
  }

  lemma TagPart(p: Packet, c: Config) returns (m: nat)
    requires c == Config(AfterMac(Be16(p, 12)), MacView(p))
    ensures m == (if Tagged(p) then 2 else 1)
    ensures (if m == 2 then Next(p, Next(p, c)) else Next(p, c)) == BehindEtype(p)
  {
    if Tagged(p) {
      m := 2;
      var c1 := Next(p, c);
      assert c1 == Config(if DoubleTagged(p) then CTagDouble else Etype(D0),
                          View(16, 0, c1.view.flags, TagMarkers(p), map[MacHdr(D0) := 0, VlanExt := 12]));
    } else {
      m := 1;
    }
  }

  lemma BehindEtypeRank(p: Packet)
    ensures Rank(BehindEtype(p).state) >= 5
  {}

  /** Every run passes through that configuration. */
  lemma ReachesEtype(p: Packet) returns (n: nat)
    ensures After(p, n) == BehindEtype(p)
  {
    n := MacPart(p);
    var m := TagPart(p, After(p, n));
    assert After(p, n + 1) == Next(p, After(p, n));
    if m == 2 { assert After(p, n + 2) == Next(p, After(p, n + 1)); }
    n := n + m;
  }

  /** The outcome of a parse is the outcome from there. */
  lemma ParseFromEtype(p: Packet)
    ensures Outcome(p, BehindEtype(p)) == Config(Parse(p).0, Parse(p).1)
  {
    var n := ReachesEtype(p);
    RunsTo(p, n);
    RunsTo(p, 25);
    AcceptsWithin25(p);
  }

  // ---- Nothing behind the EtherType touches what was found before it ----

  predicate IsFrontHdr(h: Header) { h == MacHdr(D0) || h == VlanExt || h == VlanInt || h == EtypeHdr(D0) }

  predicate IsFrontFlag(f: nat) { f == PFLAG_10 || f == PFLAG_11 || f == STAG || f == EVLAN_8100 || f == VLAN }

  ghost predicate SameFront(v: View, w: View) {
    && (forall f :: IsFrontFlag(f) ==> (f in w.flags <==> f in v.flags))
    && (forall h :: IsFrontHdr(h) ==> (h in w.hdrs <==> h in v.hdrs) && (h in v.hdrs ==> w.hdrs[h] == v.hdrs[h]))
    && (VLAN_D0 in w.markers <==> VLAN_D0 in v.markers)
  }

  lemma EthernetFront(s: State, v: View)
    requires IsEthernet(s) && Rank(s) >= 5
    ensures SameFront(v, WriteEthernet(s, v))
  {}

  lemma Ipv4Front(p: Packet, s: State, v: View)
    requires IsIpv4(s)
    ensures SameFront(v, WriteIpv4(p, s, v))
  {}

  lemma TransportFront(p: Packet, s: State, v: View)
    requires IsTransport(s)
    ensures SameFront(v, WriteTransport(p, s, v))
  {}

  lemma GtpuFront(p: Packet, s: State, v: View)
    requires IsGtpu(s)
    ensures SameFront(v, WriteGtpu(p, s, v))
  {}

  lemma NextFront(p: Packet, c: Config)
    requires Rank(c.state) >= 5
    ensures SameFront(c.view, Next(p, c).view) && Rank(Next(p, c).state) >= 5
  {
    var s, v := c.state, c.view;
    if !Terminal(s) { RankIncreases(p, s, v.cursor); }
    if Terminal(s) {
    } else if IsEthernet(s) {
      EthernetFront(s, v);
    } else if IsIpv4(s) {
      Ipv4Front(p, s, v);
    } else if IsTransport(s) {
      TransportFront(p, s, v);
    } else {
      GtpuFront(p, s, v);
    }
  }

  lemma {:induction false} FrontKept(p: Packet, c: Config)
    requires Rank(c.state) >= 5
    ensures SameFront(c.view, Outcome(p, c).view)
    decreases 25 - Rank(c.state)
  {
    if !Terminal(c.state) {
      NextFront(p, c);
      NextKeepsOutcome(p, c);
      RankIncreases(p, c.state, c.view.cursor);
      FrontKept(p, Next(p, c));
    }
  }

  predicate FrontAsBytes(p: Packet, v: View) {
    && (PFLAG_11 in v.flags <==> IsBroadcast(p))
    && (PFLAG_10 in v.flags <==> IsMulticast(p))
    && (STAG in v.flags <==> Be16(p, 12) == ETYPE_VLAN_STAG)
    && (EVLAN_8100 in v.flags <==> Be16(p, 12) == ETYPE_VLAN_CTAG)
    && (VLAN in v.flags <==> DoubleTagged(p))
    && (VLAN_D0 in v.markers <==> Be16(p, 12) == ETYPE_VLAN_CTAG)
    && MacHdr(D0) in v.hdrs && v.hdrs[MacHdr(D0)] == 0
    && (VlanExt in v.hdrs <==> Tagged(p)) && (Tagged(p) ==> v.hdrs[VlanExt] == 12)
    && (VlanInt in v.hdrs <==> DoubleTagged(p)) && (DoubleTagged(p) ==> v.hdrs[VlanInt] == 16)
    && EtypeHdr(D0) in v.hdrs && v.hdrs[EtypeHdr(D0)] == EtypeAt(p)
  }

  lemma BehindEtypeAsBytes(p: Packet)
    ensures FrontAsBytes(p, BehindEtype(p).view)
  {}

  lemma SameFrontAsBytes(p: Packet, v: View, w: View)
    requires FrontAsBytes(p, v) && SameFront(v, w)
    ensures FrontAsBytes(p, w)
  {
    assert IsFrontFlag(PFLAG_10) && IsFrontFlag(PFLAG_11) && IsFrontFlag(STAG) && IsFrontFlag(EVLAN_8100)
        && IsFrontFlag(VLAN);
    assert IsFrontHdr(MacHdr(D0)) && IsFrontHdr(VlanExt) && IsFrontHdr(VlanInt) && IsFrontHdr(EtypeHdr(D0));
  }

  /** Destination class, tags and outer header positions of every parsed frame, read off its bytes. */
  lemma FrontOfParse(p: Packet)
    ensures FrontAsBytes(p, Parse(p).1)
  {
    var c := BehindEtype(p);
    ParseFromEtype(p);
    BehindEtypeRank(p);
    FrontKept(p, c);
    BehindEtypeAsBytes(p);
    SameFrontAsBytes(p, c.view, Outcome(p, c).view);
  }

  /** The two tag flags are exclusive, and so are the two destination classes. */
  lemma FlagsExclusive(p: Packet)
    ensures var v := Parse(p).1; !(STAG in v.flags && EVLAN_8100 in v.flags)
    ensures var v := Parse(p).1; !(PFLAG_10 in v.flags && PFLAG_11 in v.flags)
  {
    FrontOfParse(p);
  }

  // ---- What lies behind the tags is parsed the same whatever the tags are ----

  /** From offset `c` on, `p` holds the bytes that `q` holds `delta` further. */
  ghost predicate SameFrom(p: Packet, q: Packet, c: nat, delta: int) {
    c + delta >= 0 && forall i: nat :: i >= c ==> i + delta >= 0 && Byte(p, i) == Byte(q, i + delta)
  }

  /** Two views that agree on everything found behind the tags, `delta` apart. */
  ghost predicate Twins(v: View, w: View, delta: int) {
    && w.cursor == v.cursor + delta && w.depth == v.depth
    && (forall f :: !IsFrontFlag(f) ==> (f in w.flags <==> f in v.flags))
    && (forall m :: m != VLAN_D0 ==> (m in w.markers <==> m in v.markers))
    && (forall h :: h != MacHdr(D0) && h != VlanExt && h != VlanInt ==>
          (h in w.hdrs <==> h in v.hdrs) && (h in v.hdrs ==> w.hdrs[h] == v.hdrs[h] + delta))
  }

  lemma EthernetTwins(p: Packet, q: Packet, s: State, v: View, w: View, delta: int)
    requires IsEthernet(s) && Rank(s) >= 5 && Twins(v, w, delta) && SameFrom(p, q, v.cursor, delta)
    ensures SelectEthernet(q, s, w.cursor) == SelectEthernet(p, s, v.cursor)
    ensures Twins(WriteEthernet(s, v), WriteEthernet(s, w), delta)
  {}

  lemma Ipv4SelectTwins(p: Packet, q: Packet, s: State, c: nat, delta: int)
    requires IsIpv4(s) && SameFrom(p, q, c, delta)
    ensures SelectIpv4(q, s, c + delta) == SelectIpv4(p, s, c)
  {}

  lemma Ipv4WriteTwins(p: Packet, q: Packet, s: State, v: View, w: View, delta: int)
    requires IsIpv4(s) && Twins(v, w, delta) && SameFrom(p, q, v.cursor, delta)
    ensures Twins(WriteIpv4(p, s, v), WriteIpv4(q, s, w), delta)
  {}

  lemma TcpSelectTwins(p: Packet, q: Packet, s: State, c: nat, delta: int)
    requires IsTcp(s) && SameFrom(p, q, c, delta)
    ensures SelectTransport(q, s, c + delta) == SelectTransport(p, s, c)
  {}

  lemma UdpSelectTwins(p: Packet, q: Packet, s: State, c: nat, delta: int)
    requires (s.Udp? || s.Vxlan?) && SameFrom(p, q, c, delta)
    ensures SelectTransport(q, s, c + delta) == SelectTransport(p, s, c)
  {}

  lemma TransportSelectTwins(p: Packet, q: Packet, s: State, c: nat, delta: int)
    requires IsTransport(s) && SameFrom(p, q, c, delta)
    ensures SelectTransport(q, s, c + delta) == SelectTransport(p, s, c)
  {
    hide SelectTransport, SameFrom;
    if IsTcp(s) { TcpSelectTwins(p, q, s, c, delta); } else { UdpSelectTwins(p, q, s, c, delta); }
  }

  lemma TransportWriteTwins(p: Packet, q: Packet, s: State, v: View, w: View, delta: int)
    requires IsTransport(s) && Twins(v, w, delta) && SameFrom(p, q, v.cursor, delta)
    ensures Twins(WriteTransport(p, s, v), WriteTransport(q, s, w), delta)
  {}

  lemma GtpuSelectTwins(p: Packet, q: Packet, s: State, c: nat, delta: int)
    requires IsGtpu(s) && SameFrom(p, q, c, delta)
    ensures SelectGtpu(q, s, c + delta) == SelectGtpu(p, s, c)
  {}

  lemma GtpuWriteTwins(p: Packet, q: Packet, s: State, v: View, w: View, delta: int)
    requires IsGtpu(s) && Twins(v, w, delta) && SameFrom(p, q, v.cursor, delta)
    ensures Twins(WriteGtpu(p, s, v), WriteGtpu(q, s, w), delta)
  {}

  /** Two configurations that stand behind an EtherType on the same bytes. */
  ghost predicate TwinConfigs(p: Packet, q: Packet, c: Config, d: Config, delta: int) {
    c.state == d.state && Rank(c.state) >= 5 && Twins(c.view, d.view, delta) && SameFrom(p, q, c.view.cursor, delta)
  }

  lemma CursorGrows(p: Packet, s: State, v: View)
    requires !Terminal(s)
    ensures Write(p, s, v).cursor >= v.cursor
  {}

  lemma NextTwins(p: Packet, q: Packet, c: Config, d: Config, delta: int)
    requires TwinConfigs(p, q, c, d, delta) && !Terminal(c.state)
    ensures TwinConfigs(p, q, Next(p, c), Next(q, d), delta)
  {
    hide SelectEthernet, SelectIpv4, SelectTransport, SelectGtpu;
    hide WriteEthernet, WriteIpv4, WriteTransport, WriteGtpu;
    var s, v, w := c.state, c.view, d.view;
    RankIncreases(p, s, v.cursor);
    CursorGrows(p, s, v);
    if IsEthernet(s) {
      EthernetTwins(p, q, s, v, w, delta);
    } else if IsIpv4(s) {
      Ipv4SelectTwins(p, q, s, v.cursor, delta);
      Ipv4WriteTwins(p, q, s, v, w, delta);
    } else if IsTransport(s) {
      TransportSelectTwins(p, q, s, v.cursor, delta);
      TransportWriteTwins(p, q, s, v, w, delta);
    } else {
      GtpuSelectTwins(p, q, s, v.cursor, delta);
      GtpuWriteTwins(p, q, s, v, w, delta);
    }
  }

  /** They end in the same state, and as far apart as they started. */
  lemma {:induction false} TwinOutcomes(p: Packet, q: Packet, c: Config, d: Config, delta: int)
    requires TwinConfigs(p, q, c, d, delta)
    ensures Outcome(p, c).state == Outcome(q, d).state && Twins(Outcome(p, c).view, Outcome(q, d).view, delta)
    decreases 25 - Rank(c.state)
  {
    if !Terminal(c.state) {
      NextTwins(p, q, c, d, delta);
      NextKeepsOutcome(p, c);
      NextKeepsOutcome(q, d);
      RankIncreases(p, c.state, c.view.cursor);
      TwinOutcomes(p, q, Next(p, c), Next(q, d), delta);
    }
  }

  lemma FrontHdrsTwin(p: Packet, q: Packet, delta: int)
    requires delta == EtypeAt(q) - EtypeAt(p)
    ensures Twins(BehindEtype(p).view, BehindEtype(q).view, delta)
  {}

  lemma BehindEtypeIs(p: Packet)
    ensures BehindEtype(p).state == AfterEtype(D0, Be16(p, EtypeAt(p))) && BehindEtype(p).view.cursor == EtypeAt(p) + 2
  {}

  lemma SameEtype(p: Packet, q: Packet, c: nat, delta: int)
    requires SameFrom(p, q, c, delta)
    ensures Be16(p, c) == Be16(q, c + delta)
  {}

  lemma BehindEtypeTwins(p: Packet, q: Packet, delta: int)
    requires delta == EtypeAt(q) - EtypeAt(p) && SameFrom(p, q, EtypeAt(p), delta)
    ensures TwinConfigs(p, q, BehindEtype(p), BehindEtype(q), delta)
  {
    hide BehindEtype, EtypeAt, AfterEtype, Twins, Byte, Be16, Rank;
    SameEtype(p, q, EtypeAt(p), delta);
    BehindEtypeIs(p);
    BehindEtypeIs(q);
    BehindEtypeRank(p);
    FrontHdrsTwin(p, q, delta);
  }

  /** The parser is blind to tags: two frames with the same bytes from the outer EtherType on are accepted in the same
      state with the same inner flags, markers, depth and headers, moved by the difference of their tag bytes. */
  lemma TagBlind(p: Packet, q: Packet)
    requires SameFrom(p, q, EtypeAt(p), EtypeAt(q) - EtypeAt(p))
    ensures Parse(p).0 == Parse(q).0 && Twins(Parse(p).1, Parse(q).1, EtypeAt(q) - EtypeAt(p))
  {
    var delta := EtypeAt(q) - EtypeAt(p);
    BehindEtypeTwins(p, q, delta);
    TwinOutcomes(p, q, BehindEtype(p), BehindEtype(q), delta);
    ParseFromEtype(p);
    ParseFromEtype(q);
  }
}
