/** The P4 packet parser, p4files/parser.p4: its states, what each state does, and a run from `start`. */
module IdpfParser {
  import opened Packets

  /** Header layer of a stacked header: `hdrs.ipv4[0]`, `hdrs.ipv4[1]`, `hdrs.ipv4[2]`. */
  datatype Depth = D0 | D1 | D2

  /** The two copies of the GTP-U states, `..._Depth0` and `..._Depth1`. */
  datatype Side = Outer | Inner

  datatype State =
    | Start | MacMaybeBc | MacBc | MacMc | MacDone
    | STag | CTag | CTagDouble | Etype(d: Depth) | Mac1 | Mac2
    | Arp | ArpPay | HdrTooShort | Pay
    | IPv4(d: Depth) | CheckFrag(d: Depth) | NextProto(d: Depth) | FragHead(d: Depth) | Frag(d: Depth) | IpFrag
    | Tcp | TcpFin | TcpSyn | TcpFinSyn | TcpNoFinSyn | TcpRst | TcpAck | TcpRstAck | TcpPay
    | Udp(d: Depth) | UdpPay | Vxlan
    | Gtpu(g: Side) | GtpuOptNoExt | GtpuOptKeep(g: Side) | GtpuCheckIpVer(g: Side) | GtpuOptExt(g: Side)
    | Ext1Type0(g: Side) | Ext1Type1(g: Side) | Ext1(g: Side) | Ext1Next(g: Side) | ExtLast(g: Side)
    | ExtLastNext(g: Side) | ExtNotRecognized

  /** The headers whose start is recorded: each field of `parsed_headers_t` that later stages read. */
  datatype Header =
    | MacHdr(d: Depth) | EtypeHdr(d: Depth) | VlanExt | VlanInt | ArpHdr
    | Ipv4Hdr(d: Depth) | NextHdr(d: Depth) | UdpHdr(d: Depth) | TcpHdr | VxlanHdr | GtpHdr

  // Bit numbers of `user_meta.pmeta`, from the layout of parser_meta_t.
  const PFLAG_2 := 2
  const PFLAG_8 := 8
  const PFLAG_9 := 9
  const PFLAG_10 := 10
  const PFLAG_11 := 11
  const STAG := 16
  const EVLAN_8100 := 17
  const VLAN := 19
  const TCP := 23
  const TCP_FIN := 24
  const TCP_RST := 25
  const TCP_SYN := 26
  const TCP_ACK := 27
  const GTP_EH_PDU := 28
  const GTP_EH_PDU_LINK := 29
  const GTP := 30
  const TUN_FLAG1_LOW := 32
  const TUN_FLAG1_HIGH := 33

  // Marker numbers, as the compiler assigned them to the names of fxp_parser_hints.p4.
  const MAC_D1 := 0
  const IPV4_D0 := 1
  const IPV4_D1 := 2
  const IPV4_D2 := 3
  const VLAN_D0 := 4
  const TUN_D0 := 5
  const TUN_D1 := 6

  const ETYPE_VLAN_CTAG: bv16 := 0x8100
  const ETYPE_VLAN_STAG: bv16 := 0x88A8
  const ETYPE_IPV4: bv16 := 0x0800
  const ETYPE_ARP: bv16 := 0x0806
  const IP_PROTO_TCP: bv8 := 6
  const IP_PROTO_UDP: bv8 := 17
  const UDP_PORT_VXLAN: bv16 := 4789
  const UDP_PORT_GTPU: bv16 := 2152

  /** Everything the parser has written so far: the cursor, `meta.common.depth`, the set flag bits, the
      markers the hints attach to states, and where each extracted header starts. */
  datatype View = View(cursor: nat, depth: nat, flags: set<nat>, markers: set<nat>, hdrs: map<Header, nat>) {
    function Set(f: nat): View { this.(flags := flags + {f}) }
    function Clear(f: nat): View { this.(flags := flags - {f}) }
    function Mark(m: nat): View { this.(markers := markers + {m}) }
    function At(h: Header, offset: nat): View { this.(hdrs := hdrs[h := cursor + offset]) }
    function Advance(n: nat): View { this.(cursor := cursor + n) }
    function Extract(h: Header, n: nat): View { At(h, 0).Advance(n) }
  }

  const EMPTY := View(0, 0, {}, {}, map[])

  predicate Terminal(s: State) {
    s.ArpPay? || s.Pay? || s.TcpPay? || s.UdpPay?
  }

  /** The last compiled stage in which the state can fire.  It orders the state graph. */
  function Rank(s: State): nat {
    match s
    case Start => 0
    case MacMaybeBc => 1 case MacMc => 1
    case MacBc => 2 case MacDone => 2
    case STag => 3 case CTag => 3
    case CTagDouble => 4
    case Etype(d) => if d.D0? then 4 else 12
    case IPv4(d) => if d.D0? then 5 else 13
    case CheckFrag(d) => if d.D0? then 6 else 14
    case NextProto(d) => if d.D0? then 7 else 15
    case FragHead(d) => if d.D0? then 7 else 15
    case Frag(d) => if d.D0? then 8 else 16
    case Udp(d) => if d.D0? then 9 else 17
    case Vxlan => 10
    case Mac1 => 11 case Mac2 => 11
    case Arp => 13 case ArpPay => 25
    case Tcp => 16
    case HdrTooShort => 17 case IpFrag => 17
    case TcpFin => 17 case TcpSyn => 17 case TcpFinSyn => 17 case TcpNoFinSyn => 17
    case TcpRst => 18 case TcpAck => 18 case TcpRstAck => 18
    case TcpPay => 19
    case UdpPay => 18
    case Gtpu(g) => if g.Outer? then 19 else 18
    case GtpuOptNoExt => 20
    case GtpuOptKeep(g) => if g.Outer? then 20 else 19
    case GtpuCheckIpVer(g) => if g.Outer? then 21 else 20
    case GtpuOptExt(g) => if g.Outer? then 20 else 19
    case Ext1Type0(g) => if g.Outer? then 21 else 20
    case Ext1Type1(g) => if g.Outer? then 21 else 20
    case Ext1(g) => if g.Outer? then 21 else 20
    case Ext1Next(g) => if g.Outer? then 22 else 21
    case ExtLast(g) => if g.Outer? then 23 else 22
    case ExtLastNext(g) => if g.Outer? then 24 else 23
    case ExtNotRecognized => 23
    case Pay => 25
  }

  // ---- Ethernet and VLAN tags ----

  predicate IsEthernet(s: State) {
    s.Start? || s.MacMaybeBc? || s.MacBc? || s.MacMc? || s.MacDone? || s.STag? || s.CTag? || s.CTagDouble?
    || s.Etype? || s.Mac1? || s.Mac2? || s.Arp? || s.HdrTooShort?
  }

  function AfterMac(etype: bv16): State {
    if etype == ETYPE_VLAN_CTAG then CTag
    else if etype == ETYPE_VLAN_STAG then STag
    else Etype(D0)
  }

  function AfterTag(etype: bv16): State {
    if etype == ETYPE_VLAN_CTAG then CTagDouble else Etype(D0)
  }

  function AfterEtype(d: Depth, etype: bv16): State {
    if etype == ETYPE_IPV4 then IPv4(d)
    else if etype == ETYPE_ARP then Arp
    else Pay
  }

  function SelectEthernet(p: Packet, s: State, c: nat): State
    requires IsEthernet(s)
  {
    match s
    case Start =>
      var w0, w1 := Be16(p, c), Be16(p, c + 2);
      if w0 == 0xFFFF && w1 == 0xFFFF then MacMaybeBc
      else if w0 & 0x0100 == 0x0100 then MacMc
      else MacDone
    case MacMaybeBc => if Be16(p, c + 4) == 0xFFFF then MacBc else MacDone
    case MacBc => AfterMac(Be16(p, c + 12))
    case MacMc => MacDone
    case MacDone => AfterMac(Be16(p, c + 12))
    case STag => AfterTag(Be16(p, c + 4))
    case CTag => AfterTag(Be16(p, c + 4))
    case CTagDouble => AfterEtype(D0, Be16(p, c + 4))
    case Etype(d) => AfterEtype(d, Be16(p, c))
    case Mac1 => Etype(D1)
    case Mac2 => Etype(D2)
    case Arp => ArpPay
    case HdrTooShort => Pay
  }

  function WriteEthernet(s: State, v: View): View
    requires IsEthernet(s)
  {
    match s
    case Start => v
    case MacMaybeBc => v
    case MacBc => v.Set(PFLAG_11).Extract(MacHdr(D0), 12)
    case MacMc => v.Set(PFLAG_10)
    case MacDone => v.Extract(MacHdr(D0), 12)
    case STag => v.Set(STAG).Extract(VlanExt, 4)
    case CTag => v.Mark(VLAN_D0).Set(EVLAN_8100).Extract(VlanExt, 4)
    case CTagDouble => v.Set(VLAN).At(VlanInt, 0).At(EtypeHdr(D0), 4).Advance(6)
    case Etype(d) => v.Extract(EtypeHdr(d), 2)
    case Mac1 => v.(depth := 1).Mark(MAC_D1).Extract(MacHdr(D1), 12)
    case Mac2 => v.(depth := 2).Extract(MacHdr(D2), 12)
    case Arp => v.Extract(ArpHdr, 28)
    case HdrTooShort => v.Set(PFLAG_2)
  }

  // ---- IPv4 ----

  predicate IsIpv4(s: State) {
    s.IPv4? || s.CheckFrag? || s.NextProto? || s.FragHead? || s.Frag? || s.IpFrag?
  }

  function Ihl(p: Packet, c: nat): bv8 { Byte(p, c) & 0x0F }

  function MoreFragments(p: Packet, c: nat): bv8 { (Byte(p, c + 6) >> 5) & 1 }

  function FragmentOffset(p: Packet, c: nat): bv16 { Be16(p, c + 6) & 0x1FFF }

  /** The length arithmetic of the options, in 32 bits as the source has it: the header's words in bytes, less
      the 20 bytes already extracted. */
  function OptionBytes(words: bv8): nat { (((words as bv32) << 2) - 20) as nat }

  function AfterIpv4(d: Depth, protocol: bv8): State {
    if protocol == IP_PROTO_UDP then Udp(d)
    else if protocol == IP_PROTO_TCP then Tcp
    else Pay
  }

  function SelectIpv4(p: Packet, s: State, c: nat): State
    requires IsIpv4(s)
  {
    match s
    case IPv4(d) =>
      if Ihl(p, c) & 0xC == 0 then HdrTooShort
      else if Ihl(p, c) == 4 then HdrTooShort
      else CheckFrag(d)
    case CheckFrag(d) =>
      if MoreFragments(p, c) == 0 && FragmentOffset(p, c) == 0 then NextProto(d)
      else if MoreFragments(p, c) == 1 && FragmentOffset(p, c) == 0 then FragHead(d)
      else Frag(d)
    case NextProto(d) => AfterIpv4(d, Byte(p, c + 9))
    case FragHead(d) => if d.D0? then Frag(D0) else Frag(D1)
    case Frag(_) => IpFrag
    case IpFrag => Pay
  }

  function WriteIpv4(p: Packet, s: State, v: View): View
    requires IsIpv4(s)
  {
    match s
    case IPv4(d) =>
      (match d
       case D0 => v.Mark(IPV4_D0)
       case D1 => v.(depth := 1).Mark(IPV4_D1)
       case D2 => v.(depth := 2).Mark(IPV4_D2))
    case CheckFrag(_) => v
    case NextProto(d) => ExtractIpv4(p, d, v)
    case FragHead(d) => v.Set(if d.D0? then PFLAG_9 else PFLAG_8)
    case Frag(d) => ExtractIpv4(p, d, v)
    case IpFrag => v.Set(PFLAG_9)
  }

  function ExtractIpv4(p: Packet, d: Depth, v: View): View {
    v.At(NextHdr(d), 9).At(Ipv4Hdr(d), 0).Advance(20 + OptionBytes(Ihl(p, v.cursor)))
  }

  // ---- TCP, UDP and VXLAN ----

  predicate IsTransport(s: State) {
    s.Tcp? || s.TcpFin? || s.TcpSyn? || s.TcpFinSyn? || s.TcpNoFinSyn? || s.TcpRst? || s.TcpAck? || s.TcpRstAck?
    || s.Udp? || s.Vxlan?
  }

  /** The states that extract the TCP header. */
  predicate IsTcpFlags(s: State) { s.TcpFin? || s.TcpSyn? || s.TcpFinSyn? || s.TcpNoFinSyn? }

  function DataOffset(p: Packet, c: nat): bv8 { Byte(p, c + 12) >> 4 }

  function Fin(p: Packet, c: nat): bv8 { Byte(p, c + 13) & 1 }

  function Syn(p: Packet, c: nat): bv8 { (Byte(p, c + 13) >> 1) & 1 }

  function Rst(p: Packet, c: nat): bv8 { (Byte(p, c + 13) >> 2) & 1 }

  function Ack(p: Packet, c: nat): bv8 { (Byte(p, c + 13) >> 4) & 1 }

  function TcpHeader(p: Packet, c: nat): State {
    if DataOffset(p, c) & 0xC == 0 then HdrTooShort
    else if DataOffset(p, c) == 4 then HdrTooShort
    else if Fin(p, c) == 1 && Syn(p, c) == 0 then TcpFin
    else if Fin(p, c) == 0 && Syn(p, c) == 1 then TcpSyn
    else if Fin(p, c) == 1 && Syn(p, c) == 1 then TcpFinSyn
    else TcpNoFinSyn
  }

  function AfterTcp(p: Packet, c: nat): State {
    if Rst(p, c) == 1 && Ack(p, c) == 0 then TcpRst
    else if Rst(p, c) == 0 && Ack(p, c) == 1 then TcpAck
    else if Rst(p, c) == 1 && Ack(p, c) == 1 then TcpRstAck
    else if Be16(p, c + 2) == UDP_PORT_GTPU then Gtpu(Outer)
    else TcpPay
  }

  function SelectTransport(p: Packet, s: State, c: nat): State
    requires IsTransport(s)
  {
    match s
    case Tcp => TcpHeader(p, c)
    case TcpFin => AfterTcp(p, c)
    case TcpSyn => AfterTcp(p, c)
    case TcpFinSyn => AfterTcp(p, c)
    case TcpNoFinSyn => AfterTcp(p, c)
    case TcpRst => TcpPay
    case TcpAck => TcpPay
    case TcpRstAck => TcpPay
    case Udp(d) =>
      var dport := Be16(p, c + 2);
      if d.D0? && dport == UDP_PORT_VXLAN then Vxlan
      else if d.D0? && dport == UDP_PORT_GTPU then Gtpu(Outer)
      else if d.D1? && dport == UDP_PORT_GTPU then Gtpu(Inner)
      else UdpPay
    case Vxlan => Mac1
  }

  function WriteTransport(p: Packet, s: State, v: View): View
    requires IsTransport(s)
  {
    match s
    case Tcp => v.Set(TCP)
    case TcpFin => ExtractTcp(p, v.Set(TCP_FIN))
    case TcpSyn => ExtractTcp(p, v.Set(TCP_SYN))
    case TcpFinSyn => ExtractTcp(p, v.Set(TCP_FIN).Set(TCP_SYN))
    case TcpNoFinSyn => ExtractTcp(p, v)
    case TcpRst => v.Set(TCP_RST)
    case TcpAck => v.Set(TCP_ACK)
    case TcpRstAck => v.Set(TCP_RST).Set(TCP_ACK)
    case Udp(d) => v.Extract(UdpHdr(d), 8)
    case Vxlan => v.Clear(TUN_FLAG1_LOW).Set(TUN_FLAG1_HIGH).Mark(TUN_D0).Extract(VxlanHdr, 8)
  }

  function ExtractTcp(p: Packet, v: View): View {
    v.At(TcpHdr, 0).Advance(20 + OptionBytes(DataOffset(p, v.cursor)))
  }

  // ---- GTP-U and its extension headers ----

  predicate IsGtpu(s: State) {
    s.Gtpu? || s.GtpuOptNoExt? || s.GtpuOptKeep? || s.GtpuCheckIpVer? || s.GtpuOptExt? || s.Ext1Type0? || s.Ext1Type1?
    || s.Ext1? || s.Ext1Next? || s.ExtLast? || s.ExtLastNext? || s.ExtNotRecognized?
  }

  const GTP_EXT_NONE: bv8 := 0x00
  const GTP_EXT_PDU_SESSION: bv8 := 0x85

  /** The extension types both extension states accept: long PDCP PDU number (two codes), service class, UDP
      port, RAN container, Xw RAN container, NR RAN container and PDCP PDU number. */
  predicate KnownExt(t: bv8) {
    t == 0x03 || t == 0x20 || t == 0x40 || t == 0x81 || t == 0x82 || t == 0x83 || t == 0x84 || t == 0xC0
  }

  function AfterGtpu(g: Side, b: bv8, msg: bv8): State {
    var e, s, pn := (b >> 2) & 1, (b >> 1) & 1, b & 1;
    if e == 0 && s == 0 && pn == 0 && msg == 0xFF then GtpuCheckIpVer(g)
    else if e == 0 && msg == 0xFF then GtpuOptKeep(g)
    else if e == 1 && msg == 0xFF then GtpuOptExt(g)
    else if e == 0 && pn == 1 then GtpuOptNoExt
    else if e == 0 && s == 1 then GtpuOptNoExt
    else if e == 1 then GtpuOptNoExt
    else Pay
  }

  function AfterOptExt(g: Side, next: bv8, pduType: bv8): State {
    if next == GTP_EXT_NONE then ExtLastNext(g)
    else if KnownExt(next) then Ext1(g)
    else if next == GTP_EXT_PDU_SESSION && pduType == 0 then Ext1Type0(g)
    else if next == GTP_EXT_PDU_SESSION && pduType == 1 then Ext1Type1(g)
    else ExtNotRecognized
  }

  function AfterExt1(g: Side, next: bv8): State {
    if next == GTP_EXT_NONE then ExtLastNext(g)
    else if KnownExt(next) then ExtLast(g)
    else ExtNotRecognized
  }

  /** The 32-bit length of an extension header, its length octet times four. */
  function ExtBytes(p: Packet, c: nat): nat { ((Byte(p, c + 1) as bv32) << 2) as nat }

  function SelectGtpu(p: Packet, s: State, c: nat): State
    requires IsGtpu(s)
  {
    match s
    case Gtpu(g) => AfterGtpu(g, Byte(p, c), Byte(p, c + 1))
    case GtpuOptNoExt => Pay
    case GtpuOptKeep(g) => GtpuCheckIpVer(g)
    case GtpuCheckIpVer(_) => Pay
    case GtpuOptExt(g) => AfterOptExt(g, Byte(p, c + 3), Byte(p, c + 5) >> 4)
    case Ext1Type0(g) => Ext1Next(g)
    case Ext1Type1(g) => Ext1Next(g)
    case Ext1(g) => Ext1Next(g)
    case Ext1Next(g) => AfterExt1(g, Byte(p, c))
    case ExtLast(g) => ExtLastNext(g)
    case ExtLastNext(_) => Pay
    case ExtNotRecognized => Pay
  }

  function WriteGtpu(p: Packet, s: State, v: View): View
    requires IsGtpu(s)
  {
    match s
    case Gtpu(_) => v.Mark(TUN_D1).Set(GTP).Extract(GtpHdr, 8)
    case GtpuOptNoExt => v.Advance(4)
    case GtpuOptKeep(_) => v.Advance(4)
    case GtpuCheckIpVer(_) => v
    case GtpuOptExt(_) => v.Advance(3)
    case Ext1Type0(g) => (if g.Outer? then v.Set(GTP_EH_PDU) else v).Advance(ExtBytes(p, v.cursor))
    case Ext1Type1(g) =>
      (if g.Outer? then v.Set(GTP_EH_PDU).Set(GTP_EH_PDU_LINK) else v).Advance(ExtBytes(p, v.cursor))
    case Ext1(_) => v.Advance(ExtBytes(p, v.cursor))
    case Ext1Next(_) => v
    case ExtLast(_) => v.Advance(ExtBytes(p, v.cursor))
    case ExtLastNext(_) => v.Advance(1)
    case ExtNotRecognized => v.Advance(1)
  }

  // ---- The whole machine ----

  /** The state selected by state `s` entered with the cursor at `c`.  Every select reads at fixed offsets from
      the entry cursor: lookahead ignores the extracts of its own state. */
  function Select(p: Packet, s: State, c: nat): State
    requires !Terminal(s)
  {
    if IsEthernet(s) then SelectEthernet(p, s, c)
    else if IsIpv4(s) then SelectIpv4(p, s, c)
    else if IsTransport(s) then SelectTransport(p, s, c)
    else SelectGtpu(p, s, c)
  }

  /** What state `s` writes. */
  function Write(p: Packet, s: State, v: View): View
    requires !Terminal(s)
  {
    if IsEthernet(s) then WriteEthernet(s, v)
    else if IsIpv4(s) then WriteIpv4(p, s, v)
    else if IsTransport(s) then WriteTransport(p, s, v)
    else WriteGtpu(p, s, v)
  }

  lemma RankEthernet(p: Packet, s: State, c: nat)
    requires IsEthernet(s)
    ensures Rank(s) < Rank(SelectEthernet(p, s, c)) <= 25
  {}

  lemma RankIpv4(p: Packet, s: State, c: nat)
    requires IsIpv4(s)
    ensures Rank(s) < Rank(SelectIpv4(p, s, c)) <= 25
  {}

  lemma RankTransport(p: Packet, s: State, c: nat)
    requires IsTransport(s)
    ensures Rank(s) < Rank(SelectTransport(p, s, c)) <= 25
  {}

  lemma RankGtpu(p: Packet, s: State, c: nat)
    requires IsGtpu(s)
    ensures Rank(s) < Rank(SelectGtpu(p, s, c)) <= 25
  {}

  /** Every transition goes to a later stage: the parser has no cycle. */
  lemma RankIncreases(p: Packet, s: State, c: nat)
    requires !Terminal(s)
    ensures Rank(s) < Rank(Select(p, s, c)) <= 25
  {
    if IsEthernet(s) { RankEthernet(p, s, c); }
    else if IsIpv4(s) { RankIpv4(p, s, c); }
    else if IsTransport(s) { RankTransport(p, s, c); }
    else { RankGtpu(p, s, c); }
  }

  /** A run to acceptance from a given state. */
  function Run(p: Packet, s: State, v: View): (r: (State, View))
    ensures Terminal(r.0)
    decreases 25 - Rank(s)
  {
    if Terminal(s) then (s, v)
    else
      RankIncreases(p, s, v.cursor);
      Run(p, Select(p, s, v.cursor), Write(p, s, v))
  }

  /** The whole parse of a frame. */
  function Parse(p: Packet): (State, View) {
    Run(p, Start, EMPTY)
  }
}
