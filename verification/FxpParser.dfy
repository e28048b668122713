/** The compiled parser, the PARSER block of p4files/rh_mvp.s: 26 stages of priority match rules over two load
    registers (W0, W1) and two state codes (S6, S5), each rule naming a parser node whose effect it applies. */
module FxpParser {
  import opened Basics
  import opened Packets
  import opened IdpfParser

  /** A node of the compiled graph: a state of the source, or one of the pass-through nodes the compiler added. */
  datatype Node = At(s: State) | UdpDelay(d: Depth) | PayDelay | GtpuDelay | TcpPayDelay | Reject

  /** The ALU operation that advances the header offset HO. */
  datatype Alu = Bytes(n: nat) | ShiftLeft(mask: bv16, shift: bv4) | ShiftRight(mask: bv16, shift: bv4)

  /** The `set` and `alu` lines of one node.  A register that is not mentioned keeps its value. */
  datatype Effect = Effect(
    s5: nat, s6: Option<nat> := None,
    w0: Option<nat> := None, w1: Option<nat> := None, w2: Option<nat> := None,
    alu: Alu := Bytes(0), way: Option<nat> := None,
    flagsOn: set<nat> := {}, flagsOff: set<nat> := {}, markers: set<nat> := {}, noMarkers: bool := false,
    slots: seq<(Header, nat)> := [], payload: Option<nat> := None,
    nodeId: Option<nat> := None, done: bool := false)

  /** The registers.  `view` holds HO as its cursor, WAY_SEL as its depth, the packet flags, the markers and the
      protocol slots; `payload` is the offset recorded for protocol PAY. */
  datatype Regs = Regs(w0: bv16, w1: bv16, s6: nat, s5: nat, view: View, payload: Option<nat>, nodeId: nat, done: bool)

  /** The microcode of each node: the same wherever the node appears in the stages. */
  function Micro(n: Node): Effect {
    match n
    case At(Start) => Effect(s5 := 127, s6 := Some(2), w0 := Some(0), w1 := Some(2), way := Some(0))
    case At(MacMaybeBc) => Effect(s5 := 126, s6 := Some(2), w0 := Some(4))
    case At(MacMc) => Effect(s5 := 124, s6 := Some(2), flagsOn := {10})
    case At(MacBc) => Effect(s5 := 125, s6 := Some(5), w0 := Some(12), alu := Bytes(12), flagsOn := {11},
        slots := [(MacHdr(D0), 0)])
    case At(MacDone) => Effect(s5 := 125, s6 := Some(5), w0 := Some(12), alu := Bytes(12), slots := [(MacHdr(D0), 0)])
    case At(CTag) => Effect(s5 := 122, s6 := Some(5), w0 := Some(4), alu := Bytes(4), flagsOn := {17}, markers := {4},
        slots := [(VlanExt, 0)])
    case At(STag) => Effect(s5 := 122, s6 := Some(5), w0 := Some(4), alu := Bytes(4), flagsOn := {16},
        slots := [(VlanExt, 0)])
    case At(CTagDouble) => Effect(s5 := 120, s6 := Some(43), w0 := Some(4), alu := Bytes(6), flagsOn := {19},
        slots := [(VlanInt, 0), (EtypeHdr(D0), 4)])
    case At(Etype(D0)) => Effect(s5 := 120, s6 := Some(43), w0 := Some(0), alu := Bytes(2),
        slots := [(EtypeHdr(D0), 0)])
    case At(IPv4(D0)) => Effect(s5 := 115, s6 := Some(7), w0 := Some(0), markers := {1})
    case At(Arp) => Effect(s5 := 118, s6 := Some(8),
        slots := [(ArpHdr, 0)], payload := Some(28), nodeId := Some(1), done := true)
    case At(HdrTooShort) => Effect(s5 := 117, s6 := Some(43), flagsOn := {2})
    case At(CheckFrag(D0)) => Effect(s5 := 113, s6 := Some(12), w0 := Some(6))
    case At(NextProto(D0)) => Effect(s5 := 111, s6 := Some(23), w0 := Some(9), w2 := Some(0), alu := ShiftLeft(0x0F, 2),
        slots := [(NextHdr(D0), 9), (Ipv4Hdr(D0), 0)])
    case At(FragHead(D0)) => Effect(s5 := 109, s6 := Some(12))
    case UdpDelay(D0) => Effect(s5 := 63, s6 := Some(13))
    case At(Tcp) => Effect(s5 := 104, s6 := Some(14), w0 := Some(12), flagsOn := {23})
    case At(Frag(D0)) => Effect(s5 := 107, s6 := Some(27), w2 := Some(0), alu := ShiftLeft(0x0F, 2),
        slots := [(NextHdr(D0), 9), (Ipv4Hdr(D0), 0)])
    case At(Udp(D0)) => Effect(s5 := 95, s6 := Some(28), w0 := Some(2), alu := Bytes(8), slots := [(UdpHdr(D0), 0)])
    case At(Vxlan) => Effect(s5 := 92, s6 := Some(17), alu := Bytes(8), flagsOn := {33}, flagsOff := {32},
        markers := {5},
        slots := [(VxlanHdr, 0)])
    case At(Gtpu(Outer)) => Effect(s5 := 91, s6 := Some(43), w0 := Some(0), alu := Bytes(8), flagsOn := {30},
        markers := {6},
        slots := [(GtpHdr, 0)])
    case At(Mac1) => Effect(s5 := 69, s6 := Some(19), w0 := Some(12), alu := Bytes(12), way := Some(1), markers := {0},
        slots := [(MacHdr(D1), 0)])
    case At(Etype(D1)) => Effect(s5 := 68, s6 := Some(43), w0 := Some(0), alu := Bytes(2),
        slots := [(EtypeHdr(D1), 0)])
    case At(IPv4(D1)) => Effect(s5 := 114, s6 := Some(21), w0 := Some(0), way := Some(1), markers := {2})
    case At(CheckFrag(D1)) => Effect(s5 := 112, s6 := Some(24), w0 := Some(6))
    case At(NextProto(D1)) => Effect(s5 := 110, s6 := Some(23), w0 := Some(9), w2 := Some(0), alu := ShiftLeft(0x0F, 2),
        slots := [(NextHdr(D1), 9), (Ipv4Hdr(D1), 0)])
    case At(FragHead(D1)) => Effect(s5 := 108, s6 := Some(24), flagsOn := {8})
    case UdpDelay(D1) => Effect(s5 := 62, s6 := Some(25))
    case PayDelay => Effect(s5 := 65, s6 := Some(43))
    case At(Frag(D1)) => Effect(s5 := 106, s6 := Some(27), w2 := Some(0), alu := ShiftLeft(0x0F, 2),
        slots := [(NextHdr(D1), 9), (Ipv4Hdr(D1), 0)])
    case At(TcpFin) => Effect(s5 := 103, s6 := Some(29), w0 := Some(13), w1 := Some(2), w2 := Some(12),
        alu := ShiftRight(0xF0, 2), flagsOn := {24},
        slots := [(TcpHdr, 0)])
    case At(TcpSyn) => Effect(s5 := 103, s6 := Some(29), w0 := Some(13), w1 := Some(2), w2 := Some(12),
        alu := ShiftRight(0xF0, 2), flagsOn := {26},
        slots := [(TcpHdr, 0)])
    case At(TcpFinSyn) => Effect(s5 := 103, s6 := Some(29), w0 := Some(13), w1 := Some(2), w2 := Some(12),
        alu := ShiftRight(0xF0, 2), flagsOn := {24, 26},
        slots := [(TcpHdr, 0)])
    case At(TcpNoFinSyn) => Effect(s5 := 103, s6 := Some(29), w0 := Some(13), w1 := Some(2), w2 := Some(12),
        alu := ShiftRight(0xF0, 2),
        slots := [(TcpHdr, 0)])
    case At(IpFrag) => Effect(s5 := 105, s6 := Some(43), flagsOn := {9})
    case At(Udp(D1)) => Effect(s5 := 94, s6 := Some(28), w0 := Some(2), alu := Bytes(8), slots := [(UdpHdr(D1), 0)])
    case At(Gtpu(Inner)) => Effect(s5 := 79, s6 := Some(43), w0 := Some(0), alu := Bytes(8), flagsOn := {30},
        markers := {6},
        slots := [(GtpHdr, 0)])
    case At(TcpRst) => Effect(s5 := 99, s6 := Some(33), flagsOn := {25})
    case At(TcpAck) => Effect(s5 := 98, s6 := Some(33), flagsOn := {27})
    case At(TcpRstAck) => Effect(s5 := 97, s6 := Some(33), flagsOn := {25, 27})
    case GtpuDelay => Effect(s5 := 61, s6 := Some(36))
    case TcpPayDelay => Effect(s5 := 64, s6 := Some(33))
    case At(UdpPay) => Effect(s5 := 93, s6 := Some(32), payload := Some(0), nodeId := Some(3), done := true)
    case At(GtpuCheckIpVer(Inner)) => Effect(s5 := 88, s6 := Some(43), w0 := Some(0))
    case At(GtpuOptKeep(Inner)) => Effect(s5 := 78, s6 := Some(39), alu := Bytes(4))
    case At(GtpuOptExt(Inner)) => Effect(s5 := 76, s6 := Some(54), w0 := Some(3), w1 := Some(5), alu := Bytes(3))
    case At(GtpuOptNoExt) => Effect(s5 := 90, s6 := Some(43), alu := Bytes(4))
    case At(TcpPay) => Effect(s5 := 96, s6 := Some(42), payload := Some(0), nodeId := Some(2), done := true)
    case At(ExtLastNext(Inner)) => Effect(s5 := 81, s6 := Some(43), w0 := Some(0), alu := Bytes(1))
    case At(Ext1(Inner)) => Effect(s5 := 73, s6 := Some(44), w2 := Some(1), alu := ShiftLeft(0xFF, 2))
    case At(Ext1Type0(Inner)) => Effect(s5 := 75, s6 := Some(44), w2 := Some(1), alu := ShiftLeft(0xFF, 2))
    case At(Ext1Type1(Inner)) => Effect(s5 := 74, s6 := Some(44), w2 := Some(1), alu := ShiftLeft(0xFF, 2))
    case At(GtpuCheckIpVer(Outer)) => Effect(s5 := 88, s6 := Some(43), w0 := Some(0))
    case At(GtpuOptKeep(Outer)) => Effect(s5 := 89, s6 := Some(47), alu := Bytes(4))
    case At(GtpuOptExt(Outer)) => Effect(s5 := 87, s6 := Some(54), w0 := Some(3), w1 := Some(5), alu := Bytes(3))
    case At(ExtLastNext(Outer)) => Effect(s5 := 81, s6 := Some(43), w0 := Some(0), alu := Bytes(1))
    case At(Ext1(Outer)) => Effect(s5 := 84, s6 := Some(50), w2 := Some(1), alu := ShiftLeft(0xFF, 2))
    case At(Ext1Type0(Outer)) => Effect(s5 := 86, s6 := Some(50), w2 := Some(1), alu := ShiftLeft(0xFF, 2),
        flagsOn := {28})
    case At(Ext1Type1(Outer)) => Effect(s5 := 85, s6 := Some(50), w2 := Some(1), alu := ShiftLeft(0xFF, 2),
        flagsOn := {28, 29})
    case At(Ext1Next(Inner)) => Effect(s5 := 72, s6 := Some(54), w0 := Some(0))
    case At(ExtLast(Inner)) => Effect(s5 := 71, s6 := Some(53), w2 := Some(1), alu := ShiftLeft(0xFF, 2))
    case At(Ext1Next(Outer)) => Effect(s5 := 83, s6 := Some(54), w0 := Some(0))
    case At(ExtLast(Outer)) => Effect(s5 := 82, s6 := Some(55), w2 := Some(1), alu := ShiftLeft(0xFF, 2))
    case At(ExtNotRecognized) => Effect(s5 := 80, s6 := Some(43), alu := Bytes(1))
    case At(Pay) => Effect(s5 := 116, s6 := Some(57), payload := Some(0), nodeId := Some(4), done := true)
    case Reject => Effect(s5 := 66, nodeId := Some(7), noMarkers := true, done := true)
    case _ => Effect(s5 := 0)  // states of the third header layer and the delay towards it, which no stage holds
  }

  /** The rules of each stage in priority order: the node of the first rule that matches.  A stage in which no
      rule matches is a no-op. */
  function Match(k: nat, w0: bv16, w1: bv16, s6: nat, s5: nat): Option<Node> {
    match k
    case 0 =>
      Some(At(Start))
    case 1 =>
      if s6 == 2 && s5 == 0x7F && w0 == 0xFFFF && w1 == 0xFFFF then Some(At(MacMaybeBc))
      else if s6 == 2 && s5 == 0x7F && w0 & 0x0001 == 0x0001 then Some(At(MacMc))
      else None
    case 2 =>
      if s6 == 2 && s5 == 0x7E && w0 == 0xFFFF then Some(At(MacBc))
      else if s6 == 2 then Some(At(MacDone))
      else None
    case 3 =>
      if s6 == 5 && s5 == 0x7D && w0 == 0x0081 then Some(At(CTag))
      else if s6 == 5 && s5 == 0x7D && w0 == 0xA888 then Some(At(STag))
      else None
    case 4 =>
      if s6 == 5 && s5 == 0x7A && w0 == 0x0081 then Some(At(CTagDouble))
      else if s6 == 5 then Some(At(Etype(D0)))
      else None
    case 5 =>
      if s6 == 43 && s5 == 0x78 && w0 == 0x0008 then Some(At(IPv4(D0)))
      else if s6 == 43 && s5 == 0x78 && w0 == 0x0608 then Some(At(Arp))
      else None
    case 6 =>
      if s6 == 7 && s5 == 0x73 && w0 & 0x000C == 0x0000 then Some(At(HdrTooShort))
      else if s6 == 7 && s5 == 0x73 && w0 & 0x000F == 0x0004 then Some(At(HdrTooShort))
      else if s6 == 7 then Some(At(CheckFrag(D0)))
      else None
    case 7 =>
      if s6 == 12 && s5 == 0x71 && w0 & 0xFF3F == 0x0000 then Some(At(NextProto(D0)))
      else if s6 == 12 && s5 == 0x71 && w0 & 0xFF3F == 0x0020 then Some(At(FragHead(D0)))
      else None
    case 8 =>
      if s6 == 23 && s5 == 0x6F && w0 & 0x00FF == 0x0011 then Some(UdpDelay(D0))
      else if s6 == 23 && s5 == 0x6F && w0 & 0x00FF == 0x0006 then Some(At(Tcp))
      else if s6 == 12 then Some(At(Frag(D0)))
      else None
    case 9 =>
      if s6 == 13 then Some(At(Udp(D0)))
      else None
    case 10 =>
      if s6 == 28 && s5 == 0x5F && w0 == 0xB512 then Some(At(Vxlan))
      else if s6 == 28 && s5 == 0x5F && w0 == 0x6808 then Some(At(Gtpu(Outer)))
      else None
    case 11 =>
      if s6 == 17 then Some(At(Mac1))
      else None
    case 12 =>
      if s6 == 19 then Some(At(Etype(D1)))
      else None
    case 13 =>
      if s6 == 43 && s5 == 0x44 && w0 == 0x0008 then Some(At(IPv4(D1)))
      else if s6 == 43 && s5 == 0x44 && w0 == 0x0608 then Some(At(Arp))
      else None
    case 14 =>
      if s6 == 21 && s5 == 0x72 && w0 & 0x000C == 0x0000 then Some(At(HdrTooShort))
      else if s6 == 21 && s5 == 0x72 && w0 & 0x000F == 0x0004 then Some(At(HdrTooShort))
      else if s6 == 21 then Some(At(CheckFrag(D1)))
      else None
    case 15 =>
      if s6 == 24 && s5 == 0x70 && w0 & 0xFF3F == 0x0000 then Some(At(NextProto(D1)))
      else if s6 == 24 && s5 == 0x70 && w0 & 0xFF3F == 0x0020 then Some(At(FragHead(D1)))
      else None
    case 16 =>
      if s6 == 23 && s5 == 0x6E && w0 & 0x00FF == 0x0011 then Some(UdpDelay(D1))
      else if s6 == 23 && s5 == 0x6E && w0 & 0x00FF == 0x0006 then Some(At(Tcp))
      else if s6 == 23 then Some(PayDelay)
      else if s6 == 24 then Some(At(Frag(D1)))
      else None
    case 17 =>
      if s6 == 14 && s5 == 0x68 && w0 & 0x00C0 == 0x0000 then Some(At(HdrTooShort))
      else if s6 == 14 && s5 == 0x68 && w0 & 0x00F0 == 0x0040 then Some(At(HdrTooShort))
      else if s6 == 14 && s5 == 0x68 && w0 & 0x0300 == 0x0100 then Some(At(TcpFin))
      else if s6 == 14 && s5 == 0x68 && w0 & 0x0300 == 0x0200 then Some(At(TcpSyn))
      else if s6 == 14 && s5 == 0x68 && w0 & 0x0300 == 0x0300 then Some(At(TcpFinSyn))
      else if s6 == 14 then Some(At(TcpNoFinSyn))
      else if s6 == 27 then Some(At(IpFrag))
      else if s6 == 25 then Some(At(Udp(D1)))
      else None
    case 18 =>
      if s6 == 28 && s5 == 0x5E && w0 == 0x6808 then Some(At(Gtpu(Inner)))
      else if s6 == 29 && s5 == 0x67 && w0 & 0x0014 == 0x0004 then Some(At(TcpRst))
      else if s6 == 29 && s5 == 0x67 && w0 & 0x0014 == 0x0010 then Some(At(TcpAck))
      else if s6 == 29 && s5 == 0x67 && w0 & 0x0014 == 0x0014 then Some(At(TcpRstAck))
      else if s6 == 29 && s5 == 0x67 && w1 == 0x6808 then Some(GtpuDelay)
      else if s6 == 29 then Some(TcpPayDelay)
      else if s6 == 28 then Some(At(UdpPay))
      else None
    case 19 =>
      if s6 == 43 && s5 == 0x4F && w0 & 0xFF07 == 0xFF00 then Some(At(GtpuCheckIpVer(Inner)))
      else if s6 == 43 && s5 == 0x4F && w0 & 0xFF04 == 0xFF00 then Some(At(GtpuOptKeep(Inner)))
      else if s6 == 43 && s5 == 0x4F && w0 & 0xFF04 == 0xFF04 then Some(At(GtpuOptExt(Inner)))
      else if s6 == 43 && s5 == 0x4F && w0 & 0x0005 == 0x0001 then Some(At(GtpuOptNoExt))
      else if s6 == 43 && s5 == 0x4F && w0 & 0x0006 == 0x0002 then Some(At(GtpuOptNoExt))
      else if s6 == 43 && s5 == 0x4F && w0 & 0x0004 == 0x0004 then Some(At(GtpuOptNoExt))
      else if s6 == 36 then Some(At(Gtpu(Outer)))
      else if s6 == 33 then Some(At(TcpPay))
      else None
    case 20 =>
      if s6 == 54 && s5 == 0x4C && w0 & 0x00FF == 0x0000 then Some(At(ExtLastNext(Inner)))
      else if s6 == 54 && s5 == 0x4C && w0 & 0x00FF == 0x0003 then Some(At(Ext1(Inner)))
      else if s6 == 54 && s5 == 0x4C && w0 & 0x00FF == 0x0020 then Some(At(Ext1(Inner)))
      else if s6 == 54 && s5 == 0x4C && w0 & 0x00FF == 0x0040 then Some(At(Ext1(Inner)))
      else if s6 == 54 && s5 == 0x4C && w0 & 0x00FF == 0x0081 then Some(At(Ext1(Inner)))
      else if s6 == 54 && s5 == 0x4C && w0 & 0x00FF == 0x0082 then Some(At(Ext1(Inner)))
      else if s6 == 54 && s5 == 0x4C && w0 & 0x00FF == 0x0083 then Some(At(Ext1(Inner)))
      else if s6 == 54 && s5 == 0x4C && w0 & 0x00FF == 0x0084 then Some(At(Ext1(Inner)))
      else if s6 == 54 && s5 == 0x4C && w0 & 0x00FF == 0x0085 && w1 & 0x00F0 == 0x0000 then Some(At(Ext1Type0(Inner)))
      else if s6 == 54 && s5 == 0x4C && w0 & 0x00FF == 0x0085 && w1 & 0x00F0 == 0x0010 then Some(At(Ext1Type1(Inner)))
      else if s6 == 54 && s5 == 0x4C && w0 & 0x00FF == 0x00C0 then Some(At(Ext1(Inner)))
      else if s6 == 43 && s5 == 0x5B && w0 & 0xFF07 == 0xFF00 then Some(At(GtpuCheckIpVer(Outer)))
      else if s6 == 43 && s5 == 0x5B && w0 & 0xFF04 == 0xFF00 then Some(At(GtpuOptKeep(Outer)))
      else if s6 == 43 && s5 == 0x5B && w0 & 0xFF04 == 0xFF04 then Some(At(GtpuOptExt(Outer)))
      else if s6 == 43 && s5 == 0x5B && w0 & 0x0005 == 0x0001 then Some(At(GtpuOptNoExt))
      else if s6 == 43 && s5 == 0x5B && w0 & 0x0006 == 0x0002 then Some(At(GtpuOptNoExt))
      else if s6 == 43 && s5 == 0x5B && w0 & 0x0004 == 0x0004 then Some(At(GtpuOptNoExt))
      else if s6 == 39 then Some(At(GtpuCheckIpVer(Inner)))
      else None
    case 21 =>
      if s6 == 54 && s5 == 0x57 && w0 & 0x00FF == 0x0000 then Some(At(ExtLastNext(Outer)))
      else if s6 == 54 && s5 == 0x57 && w0 & 0x00FF == 0x0003 then Some(At(Ext1(Outer)))
      else if s6 == 54 && s5 == 0x57 && w0 & 0x00FF == 0x0020 then Some(At(Ext1(Outer)))
      else if s6 == 54 && s5 == 0x57 && w0 & 0x00FF == 0x0040 then Some(At(Ext1(Outer)))
      else if s6 == 54 && s5 == 0x57 && w0 & 0x00FF == 0x0081 then Some(At(Ext1(Outer)))
      else if s6 == 54 && s5 == 0x57 && w0 & 0x00FF == 0x0082 then Some(At(Ext1(Outer)))
      else if s6 == 54 && s5 == 0x57 && w0 & 0x00FF == 0x0083 then Some(At(Ext1(Outer)))
      else if s6 == 54 && s5 == 0x57 && w0 & 0x00FF == 0x0084 then Some(At(Ext1(Outer)))
      else if s6 == 54 && s5 == 0x57 && w0 & 0x00FF == 0x0085 && w1 & 0x00F0 == 0x0000 then Some(At(Ext1Type0(Outer)))
      else if s6 == 54 && s5 == 0x57 && w0 & 0x00FF == 0x0085 && w1 & 0x00F0 == 0x0010 then Some(At(Ext1Type1(Outer)))
      else if s6 == 54 && s5 == 0x57 && w0 & 0x00FF == 0x00C0 then Some(At(Ext1(Outer)))
      else if s6 == 44 then Some(At(Ext1Next(Inner)))
      else if s6 == 47 then Some(At(GtpuCheckIpVer(Outer)))
      else None
    case 22 =>
      if s6 == 54 && s5 == 0x48 && w0 & 0x00FF == 0x0000 then Some(At(ExtLastNext(Inner)))
      else if s6 == 54 && s5 == 0x48 && w0 & 0x00FF == 0x0003 then Some(At(ExtLast(Inner)))
      else if s6 == 54 && s5 == 0x48 && w0 & 0x00FF == 0x0020 then Some(At(ExtLast(Inner)))
      else if s6 == 54 && s5 == 0x48 && w0 & 0x00FF == 0x0040 then Some(At(ExtLast(Inner)))
      else if s6 == 54 && s5 == 0x48 && w0 & 0x00FF == 0x0081 then Some(At(ExtLast(Inner)))
      else if s6 == 54 && s5 == 0x48 && w0 & 0x00FF == 0x0082 then Some(At(ExtLast(Inner)))
      else if s6 == 54 && s5 == 0x48 && w0 & 0x00FF == 0x0083 then Some(At(ExtLast(Inner)))
      else if s6 == 54 && s5 == 0x48 && w0 & 0x00FF == 0x0084 then Some(At(ExtLast(Inner)))
      else if s6 == 54 && s5 == 0x48 && w0 & 0x00FF == 0x00C0 then Some(At(ExtLast(Inner)))
      else if s6 == 50 then Some(At(Ext1Next(Outer)))
      else None
    case 23 =>
      if s6 == 54 && s5 == 0x53 && w0 & 0x00FF == 0x0000 then Some(At(ExtLastNext(Outer)))
      else if s6 == 54 && s5 == 0x53 && w0 & 0x00FF == 0x0003 then Some(At(ExtLast(Outer)))
      else if s6 == 54 && s5 == 0x53 && w0 & 0x00FF == 0x0020 then Some(At(ExtLast(Outer)))
      else if s6 == 54 && s5 == 0x53 && w0 & 0x00FF == 0x0040 then Some(At(ExtLast(Outer)))
      else if s6 == 54 && s5 == 0x53 && w0 & 0x00FF == 0x0081 then Some(At(ExtLast(Outer)))
      else if s6 == 54 && s5 == 0x53 && w0 & 0x00FF == 0x0082 then Some(At(ExtLast(Outer)))
      else if s6 == 54 && s5 == 0x53 && w0 & 0x00FF == 0x0083 then Some(At(ExtLast(Outer)))
      else if s6 == 54 && s5 == 0x53 && w0 & 0x00FF == 0x0084 then Some(At(ExtLast(Outer)))
      else if s6 == 54 && s5 == 0x53 && w0 & 0x00FF == 0x00C0 then Some(At(ExtLast(Outer)))
      else if s6 == 54 then Some(At(ExtNotRecognized))
      else if s6 == 53 then Some(At(ExtLastNext(Inner)))
      else None
    case 24 =>
      if s6 == 55 then Some(At(ExtLastNext(Outer)))
      else None
    case 25 =>
      if s6 == 43 then Some(At(Pay))
      else Some(Reject)
    case _ => None
  }

  function AluResult(a: Alu, w2: bv16): nat {
    match a
    case Bytes(n) => n
    case ShiftLeft(mask, shift) => ((w2 & mask) << shift) as nat
    case ShiftRight(mask, shift) => ((w2 & mask) >> shift) as nat
  }

  /** No node sets more than two protocol slots. */
  function Record(m: map<Header, nat>, ho: nat, xs: seq<(Header, nat)>): map<Header, nat> {
    if |xs| == 0 then m
    else if |xs| == 1 then m[xs[0].0 := ho + xs[0].1]
    else m[xs[0].0 := ho + xs[0].1][xs[1].0 := ho + xs[1].1]
  }

  /** One rule's action.  Loads and slots use the old HO; HO advances last. */
  function Fire(p: Packet, e: Effect, st: Regs): Regs {
    var ho := st.view.cursor;
    Regs(if e.w0.Some? then Le16(p, ho + e.w0.value) else st.w0,
         if e.w1.Some? then Le16(p, ho + e.w1.value) else st.w1,
         if e.s6.Some? then e.s6.value else st.s6,
         e.s5,
         View(ho + AluResult(e.alu, if e.w2.Some? then Le16(p, ho + e.w2.value) else 0),
              if e.way.Some? then e.way.value else st.view.depth,
              (st.view.flags - e.flagsOff) + e.flagsOn,
              if e.noMarkers then {} else st.view.markers + e.markers,
              Record(st.view.hdrs, ho, e.slots)),
         if e.payload.Some? then Some(ho + e.payload.value) else st.payload,
         if e.nodeId.Some? then e.nodeId.value else st.nodeId,
         e.done)
  }

  function Stage(p: Packet, k: nat, st: Regs): Regs {
    var n := Match(k, st.w0, st.w1, st.s6, st.s5);
    if n.None? then st else Fire(p, Micro(n.value), st)
  }

  const STAGES := 26

  /** The run of stages `k` onwards.  FLAG_DONE stops it. */
  function RunFrom(p: Packet, k: nat, st: Regs): Regs
    decreases STAGES - k
  {
    if k >= STAGES || st.done then st else RunFrom(p, k + 1, Stage(p, k, st))
  }

  const INIT := Regs(0, 0, 0, 0, EMPTY, None, 0, false)

  function ParseCompiled(p: Packet): Regs {
    RunFrom(p, 0, INIT)
  }
}
