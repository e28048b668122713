/** What every step of every parse keeps: which headers precede which, when the length arithmetic is used, how far the
    cursor gets, and what the flags and markers say about the bytes. */
module ParserFacts {
  import opened Packets
  import opened IdpfParser

  /** A state entered with what has been written by then. */
  datatype Config = Config(state: State, view: View)

  /** One transition; an accepted packet stays where it is. */
  function Next(p: Packet, c: Config): Config {
    if Terminal(c.state) then c else Config(Select(p, c.state, c.view.cursor), Write(p, c.state, c.view))
  }

  /** The configuration after `n` transitions. */
  function After(p: Packet, n: nat): Config {
    if n == 0 then Config(Start, EMPTY) else Next(p, After(p, n - 1))
  }

  /** What is left of the run from a configuration. */
  function Outcome(p: Packet, c: Config): Config {
    var r := Run(p, c.state, c.view);
    Config(r.0, r.1)
  }

  lemma NextKeepsOutcome(p: Packet, c: Config)
    ensures Outcome(p, Next(p, c)) == Outcome(p, c)
    ensures Terminal(c.state) || Rank(Next(p, c).state) > Rank(c.state)
  {
    if !Terminal(c.state) { RankIncreases(p, c.state, c.view.cursor); }
  }

  /** After `n` transitions a run that leads to `end` still does, and has stopped or has gained as much rank. */
  predicate OnTheWay(p: Packet, c: Config, n: nat, end: Config) {
    Outcome(p, c) == end && (Terminal(c.state) || Rank(c.state) >= n)
  }

  lemma StaysOnTheWay(p: Packet, c: Config, n: nat, end: Config)
    requires OnTheWay(p, c, n, end)
    ensures OnTheWay(p, Next(p, c), n + 1, end)
  {
    NextKeepsOutcome(p, c);
  }

  /** Every configuration of a run still leads to the outcome of the run, and each transition gains rank. */
  lemma {:induction false} RunsTo(p: Packet, n: nat)
    ensures OnTheWay(p, After(p, n), n, Outcome(p, Config(Start, EMPTY)))
  {
    hide Next, Outcome;
    if n > 0 {
      hide OnTheWay;
      RunsTo(p, n - 1);
      StaysOnTheWay(p, After(p, n - 1), n - 1, Outcome(p, Config(Start, EMPTY)));
    }
  }

  /** 25 transitions are enough for every packet. */
  lemma AcceptsWithin25(p: Packet)
    ensures After(p, 25) == Outcome(p, After(p, 0)) == Config(Parse(p).0, Parse(p).1)
  {
    RunsTo(p, 25);
    var c := After(p, 25);
    if !Terminal(c.state) { RankIncreases(p, c.state, c.view.cursor); }
  }

  // ---- Layers: the header stack ----

  function DepthOf(v: View): Depth { if v.depth == 0 then D0 else D1 }

  predicate NoThirdLayer(v: View) {
    && MacHdr(D2) !in v.hdrs && EtypeHdr(D2) !in v.hdrs && Ipv4Hdr(D2) !in v.hdrs && NextHdr(D2) !in v.hdrs
    && UdpHdr(D2) !in v.hdrs
  }

  /** The outer headers a VXLAN frame has. */
  predicate OuterTunnel(v: View) {
    Ipv4Hdr(D0) in v.hdrs && UdpHdr(D0) in v.hdrs && VxlanHdr in v.hdrs
  }

  predicate OnLayer(d: Depth, depth: nat) {
    (d.D0? && depth == 0) || (d.D1? && depth == 1)
  }

  /** The layer a state works on, when the state says. */
  predicate AtDepth(s: State, depth: nat) {
    match s
    case Etype(d) => OnLayer(d, depth)
    case IPv4(d) => OnLayer(d, depth)
    case CheckFrag(d) => OnLayer(d, depth)
    case NextProto(d) => OnLayer(d, depth)
    case FragHead(d) => OnLayer(d, depth)
    case Frag(d) => OnLayer(d, depth)
    case Udp(d) => OnLayer(d, depth)
    case Gtpu(g) => g.Inner? ==> depth == 1
    case Vxlan => depth == 0
    case Mac1 => depth == 0
    case Mac2 => false
    case _ => Rank(s) < 5 ==> depth == 0
  }

  /** The header stack itself: no third layer, and an inner layer only on top of a whole outer VXLAN stack. */
  predicate Stack(v: View) {
    && v.depth <= 1 && NoThirdLayer(v)
    && (v.depth == 1 <==> MacHdr(D1) in v.hdrs)
    && (v.depth == 1 ==> OuterTunnel(v))
    && (EtypeHdr(D1) in v.hdrs || Ipv4Hdr(D1) in v.hdrs || UdpHdr(D1) in v.hdrs ==> v.depth == 1)
  }

  /** What a state says about the stack below it. */
  predicate StandsOn(s: State, v: View) {
    && AtDepth(s, v.depth)
    && (s.Mac1? ==> OuterTunnel(v))
    && (VxlanHdr in v.hdrs ==> v.depth == 1 || s.Mac1?)
    && (s == Udp(D0) || s.Vxlan? ==> Ipv4Hdr(D0) in v.hdrs)
    && (s.Vxlan? ==> UdpHdr(D0) in v.hdrs)
    && (Rank(s) >= 3 ==> MacHdr(D0) in v.hdrs)
  }

  predicate Layers(s: State, v: View) { Stack(v) && StandsOn(s, v) }

  lemma EthernetLayers(p: Packet, s: State, v: View)
    requires IsEthernet(s) && Layers(s, v)
    ensures Layers(SelectEthernet(p, s, v.cursor), WriteEthernet(s, v))
  {}

  /** Extracting an IPv4 header adds it and the place of its protocol byte, and nothing else. */
  lemma ExtractIpv4Adds(p: Packet, d: Depth, v: View)
    ensures var w := ExtractIpv4(p, d, v);
      && w.depth == v.depth && w.hdrs.Keys == v.hdrs.Keys + {NextHdr(d), Ipv4Hdr(d)}
  {}

  lemma ExtractIpv4Stack(d: Depth, v: View, w: View)
    requires Stack(v) && OnLayer(d, v.depth) && w.depth == v.depth
    requires w.hdrs.Keys == v.hdrs.Keys + {NextHdr(d), Ipv4Hdr(d)}
    ensures Stack(w) && Ipv4Hdr(d) in w.hdrs && (VxlanHdr in w.hdrs <==> VxlanHdr in v.hdrs)
    ensures MacHdr(D0) in v.hdrs ==> MacHdr(D0) in w.hdrs
  {}

  lemma ExtractIpv4Layers(p: Packet, s: State, d: Depth, v: View, t: State)
    requires (s == NextProto(d) || s == Frag(d)) && Layers(s, v)
    requires t == IpFrag || t == AfterIpv4(d, Byte(p, v.cursor + 9))
    ensures Layers(t, ExtractIpv4(p, d, v))
  {
    hide ExtractIpv4, Stack;
    ExtractIpv4Adds(p, d, v);
    ExtractIpv4Stack(d, v, ExtractIpv4(p, d, v));
  }

  lemma Ipv4OtherLayers(p: Packet, s: State, v: View)
    requires IsIpv4(s) && !s.NextProto? && !s.Frag? && Layers(s, v)
    ensures Layers(SelectIpv4(p, s, v.cursor), WriteIpv4(p, s, v))
  {}

  lemma Ipv4Layers(p: Packet, s: State, v: View)
    requires IsIpv4(s) && Layers(s, v)
    ensures Layers(SelectIpv4(p, s, v.cursor), WriteIpv4(p, s, v))
  {
    if s.NextProto? {
      ExtractIpv4Layers(p, s, s.d, v, AfterIpv4(s.d, Byte(p, v.cursor + 9)));
    } else if s.Frag? {
      ExtractIpv4Layers(p, s, s.d, v, IpFrag);
    } else {
      Ipv4OtherLayers(p, s, v);
    }
  }

  lemma UdpStateLayers(p: Packet, d: Depth, v: View)
    requires Layers(Udp(d), v)
    ensures Layers(SelectTransport(p, Udp(d), v.cursor), WriteTransport(p, Udp(d), v))
  {}

  lemma VxlanLayers(p: Packet, v: View)
    requires Layers(Vxlan, v)
    ensures Layers(SelectTransport(p, Vxlan, v.cursor), WriteTransport(p, Vxlan, v))
  {}

  lemma UdpLayers(p: Packet, s: State, v: View)
    requires (s.Udp? || s.Vxlan?) && Layers(s, v)
    ensures Layers(SelectTransport(p, s, v.cursor), WriteTransport(p, s, v))
  {
    if s.Udp? { UdpStateLayers(p, s.d, v); } else { VxlanLayers(p, v); }
  }

  // TCP and GTP-U states add at most their own header, and stay above the layers below.

  predicate IsTcp(s: State) {
    s.Tcp? || s.TcpFin? || s.TcpSyn? || s.TcpFinSyn? || s.TcpNoFinSyn? || s.TcpRst? || s.TcpAck? || s.TcpRstAck?
  }

  /** A state that works on either layer and asks nothing of the stack. */
  predicate Upper(t: State) {
    Rank(t) >= 5 && AtDepth(t, 0) && AtDepth(t, 1) && !t.Udp? && !t.Vxlan? && !t.Mac1?
  }

  ghost predicate SameStack(v: View, w: View) {
    forall h :: h != TcpHdr && h != GtpHdr ==> (h in w.hdrs <==> h in v.hdrs)
  }

  lemma TcpFrame(p: Packet, s: State, v: View)
    requires IsTcp(s)
    ensures WriteTransport(p, s, v).depth == v.depth && SameStack(v, WriteTransport(p, s, v))
    ensures GtpHdr in WriteTransport(p, s, v).hdrs ==> GtpHdr in v.hdrs
  {}

  lemma TcpUpper(p: Packet, s: State, c: nat)
    requires IsTcp(s)
    ensures Upper(SelectTransport(p, s, c)) && Rank(s) >= 5
  {}

  lemma GtpuFrame(p: Packet, s: State, v: View)
    requires IsGtpu(s)
    ensures WriteGtpu(p, s, v).depth == v.depth && SameStack(v, WriteGtpu(p, s, v))
  {}

  lemma GtpuUpper(p: Packet, s: State, c: nat)
    requires IsGtpu(s)
    ensures Upper(SelectGtpu(p, s, c)) && Rank(s) >= 5
  {}

  lemma FrameStack(v: View, w: View)
    requires Stack(v) && w.depth == v.depth && SameStack(v, w)
    ensures Stack(w)
  {}

  lemma FrameStandsOn(s: State, v: View, t: State, w: View)
    requires StandsOn(s, v) && w.depth == v.depth <= 1 && SameStack(v, w) && Rank(s) >= 5 && !s.Mac1? && Upper(t)
    ensures StandsOn(t, w)
  {}

  lemma FrameLayers(s: State, v: View, t: State, w: View)
    requires Layers(s, v) && w.depth == v.depth && SameStack(v, w) && Rank(s) >= 5 && !s.Mac1? && Upper(t)
    ensures Layers(t, w)
  {
    FrameStack(v, w);
    FrameStandsOn(s, v, t, w);
  }

  lemma TcpLayers(p: Packet, s: State, v: View)
    requires IsTcp(s) && Layers(s, v)
    ensures Layers(SelectTransport(p, s, v.cursor), WriteTransport(p, s, v))
  {
    TcpFrame(p, s, v);
    TcpUpper(p, s, v.cursor);
    FrameLayers(s, v, SelectTransport(p, s, v.cursor), WriteTransport(p, s, v));
  }

  lemma GtpuLayers(p: Packet, s: State, v: View)
    requires IsGtpu(s) && Layers(s, v)
    ensures Layers(SelectGtpu(p, s, v.cursor), WriteGtpu(p, s, v))
  {
    GtpuFrame(p, s, v);
    GtpuUpper(p, s, v.cursor);
    FrameLayers(s, v, SelectGtpu(p, s, v.cursor), WriteGtpu(p, s, v));
  }

  lemma NextLayers(p: Packet, c: Config)
    requires Layers(c.state, c.view)
    ensures Layers(Next(p, c).state, Next(p, c).view)
  {
    var s, v := c.state, c.view;
    if Terminal(s) {
    } else if IsEthernet(s) {
      EthernetLayers(p, s, v);
    } else if IsIpv4(s) {
      Ipv4Layers(p, s, v);
    } else if s.Udp? || s.Vxlan? {
      UdpLayers(p, s, v);
    } else if IsTcp(s) {
      TcpLayers(p, s, v);
    } else {
      GtpuLayers(p, s, v);
    }
  }

  /** The header stack of every configuration of every run: no state or header of a third layer, and an inner IPv4 or
      UDP header only on top of a whole outer VXLAN stack. */
  lemma {:induction false} LayersAlways(p: Packet, n: nat)
    ensures Layers(After(p, n).state, After(p, n).view)
  {
    hide Next;
    if n > 0 {
      hide Layers;
      LayersAlways(p, n - 1);
      NextLayers(p, After(p, n - 1));
    }
  }

  // ---- Wire: the IPv4 headers and the bytes ----

  /** The layer's EtherType says IPv4. */
  predicate IpAt(p: Packet, v: View, d: Depth) {
    EtypeHdr(d) in v.hdrs && Be16(p, v.hdrs[EtypeHdr(d)]) == ETYPE_IPV4
  }

  /** ... and the IPv4 header behind it is at least five words long. */
  predicate WholeIpAt(p: Packet, v: View, d: Depth) {
    IpAt(p, v, d) && Ihl(p, v.hdrs[EtypeHdr(d)] + 2) >= 5
  }

  predicate OnIp(s: State, d: Depth) {
    s == IPv4(d) || s == CheckFrag(d) || s == NextProto(d) || s == FragHead(d) || s == Frag(d)
  }

  /** States before the EtherType of the layer. */
  predicate BeforeEtype(s: State, d: Depth) {
    if d.D0? then Rank(s) <= 3 || s.CTagDouble? || s == Etype(D0) else s.Mac1? || s == Etype(D1)
  }

  predicate Wire(p: Packet, s: State, v: View, d: Depth) {
    && (BeforeEtype(s, d) ==> EtypeHdr(d) !in v.hdrs)
    && (OnIp(s, d) ==>
          && IpAt(p, v, d) && v.cursor == v.hdrs[EtypeHdr(d)] + 2 && Ipv4Hdr(d) !in v.hdrs
          && (s == IPv4(d) || Ihl(p, v.cursor) >= 5))
    && (!OnIp(s, d) ==> (Ipv4Hdr(d) in v.hdrs <==> WholeIpAt(p, v, d)))
  }

  lemma EtypeWire(p: Packet, s: State, v: View, d: Depth)
    requires (s.Etype? || s.Mac1?) && StandsOn(s, v) && Stack(v) && !d.D2? && Wire(p, s, v, d)
    ensures Wire(p, SelectEthernet(p, s, v.cursor), WriteEthernet(s, v), d)
  {}

  lemma TagWire(p: Packet, s: State, v: View, d: Depth)
    requires (s.STag? || s.CTag? || s.CTagDouble?) && StandsOn(s, v) && Stack(v) && !d.D2? && Wire(p, s, v, d)
    ensures Wire(p, SelectEthernet(p, s, v.cursor), WriteEthernet(s, v), d)
  {}

  lemma OtherEthernetWire(p: Packet, s: State, v: View, d: Depth)
    requires IsEthernet(s) && !s.Etype? && !s.Mac1? && !s.STag? && !s.CTag? && !s.CTagDouble?
    requires StandsOn(s, v) && Stack(v) && !d.D2? && Wire(p, s, v, d)
    ensures Wire(p, SelectEthernet(p, s, v.cursor), WriteEthernet(s, v), d)
  {}

  lemma EthernetWire(p: Packet, s: State, v: View, d: Depth)
    requires IsEthernet(s) && StandsOn(s, v) && Stack(v) && !d.D2? && Wire(p, s, v, d)
    ensures Wire(p, SelectEthernet(p, s, v.cursor), WriteEthernet(s, v), d)
  {
    if s.Etype? || s.Mac1? {
      EtypeWire(p, s, v, d);
    } else if s.STag? || s.CTag? || s.CTagDouble? {
      TagWire(p, s, v, d);
    } else {
      OtherEthernetWire(p, s, v, d);
    }
  }

  lemma IPv4StateWire(p: Packet, e: Depth, v: View, d: Depth)
    requires OnLayer(e, v.depth) && !d.D2? && Wire(p, IPv4(e), v, d)
    ensures Wire(p, SelectIpv4(p, IPv4(e), v.cursor), WriteIpv4(p, IPv4(e), v), d)
  {}

  lemma CheckFragWire(p: Packet, e: Depth, v: View, d: Depth)
    requires !e.D2? && !d.D2? && Wire(p, CheckFrag(e), v, d)
    ensures Wire(p, SelectIpv4(p, CheckFrag(e), v.cursor), v, d)
  {}

  lemma FragHeadWire(p: Packet, e: Depth, v: View, d: Depth)
    requires !e.D2? && !d.D2? && Wire(p, FragHead(e), v, d)
    ensures Wire(p, SelectIpv4(p, FragHead(e), v.cursor), WriteIpv4(p, FragHead(e), v), d)
  {}

  lemma ExtractWire(p: Packet, e: Depth, v: View, d: Depth, s: State, t: State)
    requires (s == NextProto(e) || s == Frag(e)) && !e.D2? && !d.D2? && Wire(p, s, v, d)
    requires !OnIp(t, d) && !BeforeEtype(t, d)
    ensures Wire(p, t, ExtractIpv4(p, e, v), d)
  {}

  /** Above IPv4, or between the layers, the EtherType and IPv4 headers stay as they are. */
  predicate SameIp(v: View, w: View, d: Depth) {
    && (EtypeHdr(d) in v.hdrs <==> EtypeHdr(d) in w.hdrs) && (Ipv4Hdr(d) in v.hdrs <==> Ipv4Hdr(d) in w.hdrs)
    && (EtypeHdr(d) in v.hdrs ==> v.hdrs[EtypeHdr(d)] == w.hdrs[EtypeHdr(d)])
  }

  lemma FrameWire(p: Packet, s: State, v: View, t: State, w: View, d: Depth)
    requires Wire(p, s, v, d) && !OnIp(s, d) && !OnIp(t, d) && SameIp(v, w, d)
    requires BeforeEtype(t, d) ==> EtypeHdr(d) !in v.hdrs
    ensures Wire(p, t, w, d)
  {}

  lemma UdpStateSameIp(p: Packet, e: Depth, v: View, d: Depth)
    requires Layers(Udp(e), v) && !d.D2?
    ensures var t := SelectTransport(p, Udp(e), v.cursor);
      && !OnIp(t, d) && SameIp(v, WriteTransport(p, Udp(e), v), d) && !BeforeEtype(t, d)
  {}

  lemma VxlanSameIp(p: Packet, v: View, d: Depth)
    requires Layers(Vxlan, v) && !d.D2?
    ensures SameIp(v, WriteTransport(p, Vxlan, v), d) && (BeforeEtype(Mac1, d) ==> EtypeHdr(d) !in v.hdrs)
  {}

  lemma UdpSameIp(p: Packet, s: State, v: View, d: Depth)
    requires (s.Udp? || s.Vxlan?) && Layers(s, v) && !d.D2?
    ensures var t := SelectTransport(p, s, v.cursor);
      && !OnIp(s, d) && !OnIp(t, d) && SameIp(v, WriteTransport(p, s, v), d)
      && (BeforeEtype(t, d) ==> EtypeHdr(d) !in v.hdrs)
  {
    hide WriteTransport, SameIp, Layers;
    if s.Udp? { UdpStateSameIp(p, s.d, v, d); } else { VxlanSameIp(p, v, d); }
  }

  lemma TcpSameIp(p: Packet, s: State, v: View, d: Depth)
    requires IsTcp(s) && !d.D2?
    ensures var t := SelectTransport(p, s, v.cursor);
      !OnIp(s, d) && !OnIp(t, d) && SameIp(v, WriteTransport(p, s, v), d) && !BeforeEtype(t, d)
  {}

  lemma GtpuSameIp(p: Packet, s: State, v: View, d: Depth)
    requires IsGtpu(s) && !d.D2?
    ensures var t := SelectGtpu(p, s, v.cursor);
      !OnIp(s, d) && !OnIp(t, d) && SameIp(v, WriteGtpu(p, s, v), d) && !BeforeEtype(t, d)
  {}

  lemma Ipv4Wire(p: Packet, s: State, v: View, d: Depth)
    requires IsIpv4(s) && AtDepth(s, v.depth) && !d.D2? && Wire(p, s, v, d)
    ensures Wire(p, SelectIpv4(p, s, v.cursor), WriteIpv4(p, s, v), d)
  {
    hide Wire;
    var t := SelectIpv4(p, s, v.cursor);
    match s
    case IPv4(e) => IPv4StateWire(p, e, v, d);
    case CheckFrag(e) => CheckFragWire(p, e, v, d);
    case FragHead(e) => FragHeadWire(p, e, v, d);
    case NextProto(e) => ExtractWire(p, e, v, d, s, t);
    case Frag(e) => ExtractWire(p, e, v, d, s, t);
    case IpFrag => FrameWire(p, s, v, Pay, v.Set(PFLAG_9), d);
  }

  lemma NextWire(p: Packet, c: Config, d: Depth)
    requires Layers(c.state, c.view) && !d.D2? && Wire(p, c.state, c.view, d)
    ensures Wire(p, Next(p, c).state, Next(p, c).view, d)
  {
    var s, v := c.state, c.view;
    if Terminal(s) {
    } else if IsEthernet(s) {
      EthernetWire(p, s, v, d);
    } else if IsIpv4(s) {
      Ipv4Wire(p, s, v, d);
    } else if IsTcp(s) {
      TcpSameIp(p, s, v, d);
      FrameWire(p, s, v, SelectTransport(p, s, v.cursor), WriteTransport(p, s, v), d);
    } else if IsGtpu(s) {
      GtpuSameIp(p, s, v, d);
      FrameWire(p, s, v, SelectGtpu(p, s, v.cursor), WriteGtpu(p, s, v), d);
    } else {
      UdpSameIp(p, s, v, d);
      FrameWire(p, s, v, SelectTransport(p, s, v.cursor), WriteTransport(p, s, v), d);
    }
  }

  /** In every configuration of every run: an IPv4 header is extracted exactly where the layer's EtherType says IPv4
      and the header length is at least five words; and the states that compute a length from it are entered only
      then. */
  lemma {:induction false} WireAlways(p: Packet, n: nat, d: Depth)
    requires !d.D2?
    ensures Wire(p, After(p, n).state, After(p, n).view, d)
  {
    hide Next;
    if n > 0 {
      hide Layers, Wire;
      WireAlways(p, n - 1, d);
      LayersAlways(p, n - 1);
      NextWire(p, After(p, n - 1), d);
    }
  }

  // ---- Markers ----

  /** Every marker stands for a header on the stack, or for the outermost tag. */
  predicate Marks(p: Packet, s: State, v: View) {
    && v.markers <= {MAC_D1, IPV4_D0, IPV4_D1, VLAN_D0, TUN_D0, TUN_D1}
    && (VLAN_D0 in v.markers <==> EVLAN_8100 in v.flags)
    && (MAC_D1 in v.markers <==> MacHdr(D1) in v.hdrs)
    && (TUN_D0 in v.markers <==> VxlanHdr in v.hdrs)
    && (TUN_D1 in v.markers <==> GtpHdr in v.hdrs)
    && (IPV4_D0 in v.markers <==> IpAt(p, v, D0) && s != IPv4(D0))
    && (IPV4_D1 in v.markers <==> IpAt(p, v, D1) && s != IPv4(D1))
  }

  lemma EtypeMarks(p: Packet, s: State, v: View)
    requires (s.Etype? || s.Mac1?) && Layers(s, v) && Wire(p, s, v, D0) && Wire(p, s, v, D1) && Marks(p, s, v)
    ensures Marks(p, SelectEthernet(p, s, v.cursor), WriteEthernet(s, v))
  {}

  lemma TagMarks(p: Packet, s: State, v: View)
    requires (s.STag? || s.CTag? || s.CTagDouble?) && Layers(s, v)
    requires Wire(p, s, v, D0) && Wire(p, s, v, D1) && Marks(p, s, v)
    ensures Marks(p, SelectEthernet(p, s, v.cursor), WriteEthernet(s, v))
  {}

  lemma OtherEthernetMarks(p: Packet, s: State, v: View)
    requires IsEthernet(s) && !s.Etype? && !s.Mac1? && !s.STag? && !s.CTag? && !s.CTagDouble? && Layers(s, v)
    requires Wire(p, s, v, D0) && Wire(p, s, v, D1) && Marks(p, s, v)
    ensures Marks(p, SelectEthernet(p, s, v.cursor), WriteEthernet(s, v))
  {}

  lemma EthernetMarks(p: Packet, s: State, v: View)
    requires IsEthernet(s) && Layers(s, v) && Wire(p, s, v, D0) && Wire(p, s, v, D1) && Marks(p, s, v)
    ensures Marks(p, SelectEthernet(p, s, v.cursor), WriteEthernet(s, v))
  {
    if s.Etype? || s.Mac1? {
      EtypeMarks(p, s, v);
    } else if s.STag? || s.CTag? || s.CTagDouble? {
      TagMarks(p, s, v);
    } else {
      OtherEthernetMarks(p, s, v);
    }
  }

  lemma IPv4StateMarks(p: Packet, e: Depth, v: View)
    requires OnLayer(e, v.depth) && Wire(p, IPv4(e), v, e) && Marks(p, IPv4(e), v)
    ensures Marks(p, SelectIpv4(p, IPv4(e), v.cursor), WriteIpv4(p, IPv4(e), v))
  {}

  lemma Ipv4Marks(p: Packet, s: State, v: View)
    requires IsIpv4(s) && !s.IPv4? && Marks(p, s, v)
    ensures Marks(p, SelectIpv4(p, s, v.cursor), WriteIpv4(p, s, v))
  {}

  lemma TransportMarks(p: Packet, s: State, v: View)
    requires IsTransport(s) && Marks(p, s, v)
    ensures Marks(p, SelectTransport(p, s, v.cursor), WriteTransport(p, s, v))
  {}

  lemma GtpuMarks(p: Packet, s: State, v: View)
    requires IsGtpu(s) && Marks(p, s, v)
    ensures Marks(p, SelectGtpu(p, s, v.cursor), WriteGtpu(p, s, v))
  {}

  lemma NextMarks(p: Packet, c: Config)
    requires Layers(c.state, c.view) && Wire(p, c.state, c.view, D0) && Wire(p, c.state, c.view, D1)
    requires Marks(p, c.state, c.view)
    ensures Marks(p, Next(p, c).state, Next(p, c).view)
  {
    var s, v := c.state, c.view;
    if Terminal(s) {
    } else if IsEthernet(s) {
      EthernetMarks(p, s, v);
    } else if s.IPv4? {
      IPv4StateMarks(p, s.d, v);
    } else if IsIpv4(s) {
      Ipv4Marks(p, s, v);
    } else if IsTransport(s) {
      TransportMarks(p, s, v);
    } else {
      GtpuMarks(p, s, v);
    }
  }

  lemma {:induction false} MarksAlways(p: Packet, n: nat)
    ensures Marks(p, After(p, n).state, After(p, n).view)
  {
    hide Next;
    if n > 0 {
      hide Marks, Layers, Wire;
      MarksAlways(p, n - 1);
      LayersAlways(p, n - 1);
      WireAlways(p, n - 1, D0);
      WireAlways(p, n - 1, D1);
      NextMarks(p, After(p, n - 1));
    }
  }

  // ---- Above IPv4 ----

  /** States entered only behind an extracted IPv4 header of the current layer. */
  predicate BehindIp(s: State) {
    IsTcp(s) || s.Udp? || s.Vxlan? || IsGtpu(s) || s.IpFrag? || s.TcpPay? || s.UdpPay?
  }

  predicate Behind(s: State, v: View) {
    && (BehindIp(s) || GtpHdr in v.hdrs ==> Ipv4Hdr(DepthOf(v)) in v.hdrs)
    && (GtpHdr in v.hdrs ==> (IsGtpu(s) && !s.Gtpu?) || s.Pay?)
  }

  /** The ARP header is the last one, behind an EtherType that is not IPv4. */
  predicate ArpLast(p: Packet, s: State, v: View) {
    && (ArpHdr in v.hdrs <==> s.ArpPay?)
    && (s.Arp? || s.ArpPay? ==> EtypeHdr(DepthOf(v)) in v.hdrs && !IpAt(p, v, DepthOf(v)))
  }

  lemma EthernetNotBehind(p: Packet, s: State, v: View)
    requires IsEthernet(s)
    ensures !BehindIp(s) && !BehindIp(SelectEthernet(p, s, v.cursor)) && !IsGtpu(s) && !s.Pay?
    ensures GtpHdr in WriteEthernet(s, v).hdrs <==> GtpHdr in v.hdrs
  {}

  lemma EthernetBehind(p: Packet, s: State, v: View)
    requires IsEthernet(s) && Behind(s, v)
    ensures Behind(SelectEthernet(p, s, v.cursor), WriteEthernet(s, v))
  {
    EthernetNotBehind(p, s, v);
  }

  lemma Ipv4ExtractBehind(p: Packet, s: State, v: View)
    requires (s.NextProto? || s.Frag?) && AtDepth(s, v.depth) && Behind(s, v)
    ensures Behind(SelectIpv4(p, s, v.cursor), WriteIpv4(p, s, v))
  {}

  lemma Ipv4OtherBehind(p: Packet, s: State, v: View)
    requires IsIpv4(s) && !s.NextProto? && !s.Frag? && AtDepth(s, v.depth) && Behind(s, v)
    ensures Behind(SelectIpv4(p, s, v.cursor), WriteIpv4(p, s, v))
  {}

  lemma Ipv4Behind(p: Packet, s: State, v: View)
    requires IsIpv4(s) && AtDepth(s, v.depth) && Behind(s, v)
    ensures Behind(SelectIpv4(p, s, v.cursor), WriteIpv4(p, s, v))
  {
    if s.NextProto? || s.Frag? { Ipv4ExtractBehind(p, s, v); } else { Ipv4OtherBehind(p, s, v); }
  }

  /** A step that leaves the stack and the depth alone keeps what stands behind IPv4 there, wherever it goes. */
  lemma FrameBehind(s: State, v: View, t: State, w: View)
    requires IsTcp(s) && Behind(s, v) && w.depth == v.depth && SameStack(v, w)
    requires GtpHdr in w.hdrs ==> GtpHdr in v.hdrs
    ensures Behind(t, w)
  {}

  lemma TcpBehind(p: Packet, s: State, v: View)
    requires IsTcp(s) && Behind(s, v)
    ensures Behind(SelectTransport(p, s, v.cursor), WriteTransport(p, s, v))
  {
    TcpFrame(p, s, v);
    FrameBehind(s, v, SelectTransport(p, s, v.cursor), WriteTransport(p, s, v));
  }

  lemma UdpBehind(p: Packet, s: State, v: View)
    requires (s.Udp? || s.Vxlan?) && Behind(s, v)
    ensures Behind(SelectTransport(p, s, v.cursor), WriteTransport(p, s, v))
  {}

  lemma TransportBehind(p: Packet, s: State, v: View)
    requires IsTransport(s) && Behind(s, v)
    ensures Behind(SelectTransport(p, s, v.cursor), WriteTransport(p, s, v))
  {
    if IsTcp(s) { TcpBehind(p, s, v); } else { UdpBehind(p, s, v); }
  }

  lemma GtpuBehind(p: Packet, s: State, v: View)
    requires IsGtpu(s) && Behind(s, v)
    ensures Behind(SelectGtpu(p, s, v.cursor), WriteGtpu(p, s, v))
  {}

  lemma NextBehind(p: Packet, c: Config)
    requires AtDepth(c.state, c.view.depth) && Behind(c.state, c.view)
    ensures Behind(Next(p, c).state, Next(p, c).view)
  {
    var s, v := c.state, c.view;
    if Terminal(s) {
    } else if IsEthernet(s) {
      EthernetBehind(p, s, v);
    } else if IsIpv4(s) {
      Ipv4Behind(p, s, v);
    } else if IsTransport(s) {
      TransportBehind(p, s, v);
    } else {
      GtpuBehind(p, s, v);
    }
  }

  lemma EthernetArpLast(p: Packet, s: State, v: View)
    requires IsEthernet(s) && AtDepth(s, v.depth) && ArpLast(p, s, v)
    ensures ArpLast(p, SelectEthernet(p, s, v.cursor), WriteEthernet(s, v))
  {}

  lemma Ipv4ArpLast(p: Packet, s: State, v: View)
    requires IsIpv4(s) && ArpLast(p, s, v)
    ensures ArpLast(p, SelectIpv4(p, s, v.cursor), WriteIpv4(p, s, v))
  {}

  lemma TransportArpLast(p: Packet, s: State, v: View)
    requires IsTransport(s) && ArpLast(p, s, v)
    ensures ArpLast(p, SelectTransport(p, s, v.cursor), WriteTransport(p, s, v))
  {}

  lemma GtpuArpLast(p: Packet, s: State, v: View)
    requires IsGtpu(s) && ArpLast(p, s, v)
    ensures ArpLast(p, SelectGtpu(p, s, v.cursor), WriteGtpu(p, s, v))
  {}

  lemma NextArpLast(p: Packet, c: Config)
    requires AtDepth(c.state, c.view.depth) && ArpLast(p, c.state, c.view)
    ensures ArpLast(p, Next(p, c).state, Next(p, c).view)
  {
    var s, v := c.state, c.view;
    if Terminal(s) {
    } else if IsEthernet(s) {
      EthernetArpLast(p, s, v);
    } else if IsIpv4(s) {
      Ipv4ArpLast(p, s, v);
    } else if IsTransport(s) {
      TransportArpLast(p, s, v);
    } else {
      GtpuArpLast(p, s, v);
    }
  }

  lemma {:induction false} BehindAlways(p: Packet, n: nat)
    ensures Behind(After(p, n).state, After(p, n).view)
    ensures ArpLast(p, After(p, n).state, After(p, n).view)
  {
    hide Next;
    if n > 0 {
      hide Behind, ArpLast;
      BehindAlways(p, n - 1);
      LayersAlways(p, n - 1);
      NextBehind(p, After(p, n - 1));
      NextArpLast(p, After(p, n - 1));
    }
  }

  // ---- Lengths and the cursor ----

  /** The 32-bit arithmetic on a length nibble is exact when the nibble is at least five, and then fits the 40 bytes
      of the options field; below five it wraps past every packet. */
  lemma OptionBytesExact(words: bv8)
    requires words <= 15
    ensures words >= 5 <==> OptionBytes(words) <= 40
    ensures words >= 5 ==> 20 + OptionBytes(words) == 4 * (words as nat)
    ensures words < 5 ==> OptionBytes(words) == 0x1_0000_0000 - 20 + 4 * (words as nat)
  {
    assert words == 0 || words == 1 || words == 2 || words == 3 || words == 4 || words == 5 || words == 6 || words == 7
      || words == 8 || words == 9 || words == 10 || words == 11 || words == 12 || words == 13 || words == 14
      || words == 15;
  }

  lemma ExtBytesFit(p: Packet, c: nat)
    ensures ExtBytes(p, c) == 4 * (Byte(p, c + 1) as nat) <= 1020
  {}

  /** How far the cursor can be when a state is entered. */
  function Reach(s: State): nat {
    match s
    case STag => 12 case CTag => 12
    case CTagDouble => 16
    case Etype(d) => if d.D0? then 16 else 110
    case IPv4(d) => if d.D0? then 22 else 112
    case CheckFrag(d) => if d.D0? then 22 else 112
    case NextProto(d) => if d.D0? then 22 else 112
    case FragHead(d) => if d.D0? then 22 else 112
    case Frag(d) => if d.D0? then 22 else 112
    case IpFrag => 172
    case Udp(d) => if d.D0? then 82 else 172
    case UdpPay => 180
    case Vxlan => 90
    case Mac1 => 98
    case Arp => 112
    case ArpPay => 140
    case Tcp => 172 case TcpFin => 172 case TcpSyn => 172 case TcpFinSyn => 172 case TcpNoFinSyn => 172
    case TcpRst => 232 case TcpAck => 232 case TcpRstAck => 232 case TcpPay => 232
    case HdrTooShort => 172
    case Gtpu(_) => 232
    case GtpuOptNoExt => 240
    case GtpuOptKeep(_) => 240
    case GtpuOptExt(_) => 240
    case GtpuCheckIpVer(_) => 244
    case Ext1Type0(_) => 243
    case Ext1Type1(_) => 243
    case Ext1(_) => 243
    case Ext1Next(_) => 1263
    case ExtLast(_) => 1263
    case ExtNotRecognized => 1263
    case ExtLastNext(_) => 2283
    case Pay => 2284
    case _ => 0
  }

  /** The cursor bound, and the TCP length nibble that the bound rests on. */
  predicate Bounded(p: Packet, s: State, v: View) {
    v.cursor <= Reach(s) && (IsTcpFlags(s) ==> DataOffset(p, v.cursor) >= 5)
  }

  lemma EthernetBounded(p: Packet, s: State, v: View)
    requires IsEthernet(s) && AtDepth(s, v.depth) && Bounded(p, s, v)
    ensures Bounded(p, SelectEthernet(p, s, v.cursor), WriteEthernet(s, v))
  {}

  lemma Ipv4Bounded(p: Packet, s: State, v: View)
    requires IsIpv4(s) && AtDepth(s, v.depth) && Bounded(p, s, v)
    requires (s.NextProto? || s.Frag?) ==> Ihl(p, v.cursor) >= 5
    ensures Bounded(p, SelectIpv4(p, s, v.cursor), WriteIpv4(p, s, v))
  {
    if s.NextProto? || s.Frag? { OptionBytesExact(Ihl(p, v.cursor)); }
  }

  lemma TcpFlagsBounded(p: Packet, s: State, v: View)
    requires IsTcpFlags(s) && Bounded(p, s, v)
    ensures Bounded(p, SelectTransport(p, s, v.cursor), WriteTransport(p, s, v))
  {
    OptionBytesExact(DataOffset(p, v.cursor));
  }

  lemma OtherTransportBounded(p: Packet, s: State, v: View)
    requires IsTransport(s) && !IsTcpFlags(s) && AtDepth(s, v.depth) && Bounded(p, s, v)
    ensures Bounded(p, SelectTransport(p, s, v.cursor), WriteTransport(p, s, v))
  {}

  lemma TransportBounded(p: Packet, s: State, v: View)
    requires IsTransport(s) && AtDepth(s, v.depth) && Bounded(p, s, v)
    ensures Bounded(p, SelectTransport(p, s, v.cursor), WriteTransport(p, s, v))
  {
    if IsTcpFlags(s) { TcpFlagsBounded(p, s, v); } else { OtherTransportBounded(p, s, v); }
  }

  /** States that take the bytes of an extension header. */
  predicate IsExt(s: State) { s.Ext1Type0? || s.Ext1Type1? || s.Ext1? || s.ExtLast? }

  lemma ExtBounded(p: Packet, s: State, v: View)
    requires IsExt(s) && Bounded(p, s, v)
    ensures Bounded(p, SelectGtpu(p, s, v.cursor), WriteGtpu(p, s, v))
  {
    ExtBytesFit(p, v.cursor);
  }

  lemma OtherGtpuBounded(p: Packet, s: State, v: View)
    requires IsGtpu(s) && !IsExt(s) && Bounded(p, s, v)
    ensures Bounded(p, SelectGtpu(p, s, v.cursor), WriteGtpu(p, s, v))
  {}

  lemma GtpuBounded(p: Packet, s: State, v: View)
    requires IsGtpu(s) && Bounded(p, s, v)
    ensures Bounded(p, SelectGtpu(p, s, v.cursor), WriteGtpu(p, s, v))
  {
    if IsExt(s) { ExtBounded(p, s, v); } else { OtherGtpuBounded(p, s, v); }
  }

  lemma NextBounded(p: Packet, c: Config)
    requires Layers(c.state, c.view) && Wire(p, c.state, c.view, D0) && Wire(p, c.state, c.view, D1)
    requires Bounded(p, c.state, c.view)
    ensures Bounded(p, Next(p, c).state, Next(p, c).view)
  {
    var s, v := c.state, c.view;
    if Terminal(s) {
    } else if IsEthernet(s) {
      EthernetBounded(p, s, v);
    } else if IsIpv4(s) {
      Ipv4Bounded(p, s, v);
    } else if IsTransport(s) {
      TransportBounded(p, s, v);
    } else {
      GtpuBounded(p, s, v);
    }
  }

  /** Every run keeps the cursor within a bound fixed by the state, at most 2284 bytes at acceptance. */
  lemma {:induction false} BoundedAlways(p: Packet, n: nat)
    ensures Bounded(p, After(p, n).state, After(p, n).view)
  {
    hide Next;
    if n > 0 {
      hide Bounded, Layers, Wire;
      BoundedAlways(p, n - 1);
      LayersAlways(p, n - 1);
      WireAlways(p, n - 1, D0);
      WireAlways(p, n - 1, D1);
      NextBounded(p, After(p, n - 1));
    }
  }

  // ---- GTP-U extension headers ----

  /** How many extension headers a run can still consume from a state on. */
  function ExtsLeft(s: State): (n: nat)
    ensures n <= 2
  {
    if Terminal(s) || s.GtpuOptNoExt? || s.GtpuOptKeep? || s.GtpuCheckIpVer? || s.ExtLastNext?
       || s.ExtNotRecognized? then 0
    else if s.Ext1Next? || s.ExtLast? then 1
    else 2
  }

  lemma GtpuExtsDrop(p: Packet, s: State, c: nat)
    requires IsGtpu(s)
    ensures ExtsLeft(SelectGtpu(p, s, c)) + (if IsExt(s) then 1 else 0) <= ExtsLeft(s)
  {}

  lemma NextExtsDrop(p: Packet, c: Config)
    ensures ExtsLeft(Next(p, c).state) + (if IsExt(c.state) then 1 else 0) <= ExtsLeft(c.state)
  {
    if IsGtpu(c.state) { GtpuExtsDrop(p, c.state, c.view.cursor); }
  }

  /** The extension headers consumed by the next `n` transitions. */
  function Exts(p: Packet, c: Config, n: nat): nat
    decreases n
  {
    if n == 0 then 0 else (if IsExt(c.state) then 1 else 0) + Exts(p, Next(p, c), n - 1)
  }

  lemma {:induction false} ExtsWithinBudget(p: Packet, c: Config, n: nat)
    ensures Exts(p, c, n) <= ExtsLeft(c.state)
    decreases n
  {
    hide Next, IsExt, ExtsLeft;
    if n > 0 {
      NextExtsDrop(p, c);
      ExtsWithinBudget(p, Next(p, c), n - 1);
    }
  }

  /** No run consumes more than two. */
  lemma AtMostTwoExts(p: Packet, n: nat)
    ensures Exts(p, After(p, 0), n) <= 2
  {
    ExtsWithinBudget(p, After(p, 0), n);
  }

  // ---- What this means of a whole parse ----

  /** Every length that a run computes from a nibble is exact, is at most 40 bytes of options, and the whole frame
      consumes at most 2284 bytes. */
  lemma LengthsAreSafe(p: Packet, n: nat)
    ensures var s, v := After(p, n).state, After(p, n).view;
      && (s.NextProto? || s.Frag? ==>
            var w := Ihl(p, v.cursor); OptionBytes(w) <= 40 && 20 + OptionBytes(w) == 4 * (w as nat))
      && (IsTcpFlags(s) ==>
            var w := DataOffset(p, v.cursor); OptionBytes(w) <= 40 && 20 + OptionBytes(w) == 4 * (w as nat))
      && v.cursor <= 2284
  {
    var s, v := After(p, n).state, After(p, n).view;
    LayersAlways(p, n);
    WireAlways(p, n, D0);
    WireAlways(p, n, D1);
    BoundedAlways(p, n);
    OptionBytesExact(Ihl(p, v.cursor));
    OptionBytesExact(DataOffset(p, v.cursor));
  }

  /** The third-layer states cannot be entered, and the header stack of the outcome is well founded. */
  lemma StackOfOutcome(p: Packet, n: nat)
    ensures var s, v := After(p, n).state, After(p, n).view;
      && s != Mac2 && s != Etype(D2) && s != IPv4(D2) && s != CheckFrag(D2) && s != NextProto(D2)
      && s != FragHead(D2) && s != Frag(D2) && s != Udp(D2) && NoThirdLayer(v)
      && (Ipv4Hdr(D1) in v.hdrs || UdpHdr(D1) in v.hdrs ==> OuterTunnel(v) && MacHdr(D1) in v.hdrs)
  {
    LayersAlways(p, n);
  }

  /** The outcome of a parse, as the invariants describe it. */
  lemma OutcomeFacts(p: Packet)
    ensures var (s, v) := Parse(p);
      && Layers(s, v) && Wire(p, s, v, D0) && Wire(p, s, v, D1) && Marks(p, s, v) && Behind(s, v) && ArpLast(p, s, v)
  {
    AcceptsWithin25(p);
    LayersAlways(p, 25);
    WireAlways(p, 25, D0);
    WireAlways(p, 25, D1);
    MarksAlways(p, 25);
    BehindAlways(p, 25);
  }
}
