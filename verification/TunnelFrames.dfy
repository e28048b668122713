/** Concrete VXLAN frames, section 5 of RFC 7348, and how far the parser gets in them. */
module TunnelFrames {
  import opened Packets
  import opened IdpfParser
  import opened ParserFacts
  import opened TagFacts

  /** An Ethernet header up to its EtherType; a C-tag in front of an EtherType. */
  const MACS: Packet := [0x00, 0x08, 0x00, 0x00, 0x03, 0x14, 0x00, 0x09, 0x00, 0x00, 0x03, 0x14]
  const CTAG: Packet := [0x81, 0x00, 0x00, 0x02]

  /** IPv4 and UDP to the VXLAN port, and a VXLAN header. */
  const OUTER: Packet := [0x08, 0x00]
    + [0x45, 0, 0, 0, 0, 0, 0, 0, 0x40, 0x11, 0, 0, 0, 0, 0, 0, 0, 0, 0, 0]
    + [0, 0, 0x12, 0xB5, 0, 0, 0, 0]
    + [0x08, 0, 0, 0, 0, 0, 0, 0]

  const INNER_IP: Packet := [0x08, 0x00] + [0x45, 0, 0, 0, 0, 0, 0, 0, 0x40, 0x01, 0, 0, 0, 0, 0, 0, 0, 0, 0, 0]
  const INNER_ARP: Packet := [0x08, 0x06] + seq(28, i => 0)

  /** An untagged VXLAN frame with an IPv4 packet inside, and a C-tagged one with an ARP packet inside. */
  const VXLAN_IP: Packet := MACS + OUTER + MACS + INNER_IP
  const CTAG_VXLAN_ARP: Packet := MACS + CTAG + OUTER + MACS + INNER_ARP

  /** An IPv4 header without options at `c`, with UDP to the VXLAN port behind it. */
  predicate VxlanAt(p: Packet, c: nat) {
    && Ihl(p, c) == 5 && MoreFragments(p, c) == 0 && FragmentOffset(p, c) == 0 && Byte(p, c + 9) == IP_PROTO_UDP
    && Be16(p, c + 22) == UDP_PORT_VXLAN
  }

  /** An IPv4 header without options at `c` whose payload the parser does not look into. */
  predicate PlainIpAt(p: Packet, c: nat) {
    && Ihl(p, c) == 5 && MoreFragments(p, c) == 0 && FragmentOffset(p, c) == 0 && AfterIpv4(D1, Byte(p, c + 9)) == Pay
  }

  lemma ToUdp(p: Packet, c: Config) returns (d: Config)
    requires c.state == IPv4(D0) && VxlanAt(p, c.view.cursor)
    ensures d.state == Udp(D0) && d.view.cursor == c.view.cursor + 20 && Outcome(p, d) == Outcome(p, c)
  {
    var c1 := Next(p, c);
    assert c1.state == CheckFrag(D0) && c1.view.cursor == c.view.cursor;
    var c2 := Next(p, c1);
    assert c2.state == NextProto(D0) && c2.view.cursor == c.view.cursor;
    OptionBytesExact(5);
    d := Next(p, c2);
    hide Outcome;
    NextKeepsOutcome(p, c);
    NextKeepsOutcome(p, c1);
    NextKeepsOutcome(p, c2);
  }

  lemma ToInnerEtype(p: Packet, c: Config) returns (d: Config)
    requires c.state == Udp(D0) && Be16(p, c.view.cursor + 2) == UDP_PORT_VXLAN
    ensures d.state == Etype(D1) && d.view.cursor == c.view.cursor + 28 && d.view.depth == 1
    ensures Outcome(p, d) == Outcome(p, c)
  {
    var c1 := Next(p, c);
    var c2 := Next(p, c1);
    d := Next(p, c2);
    NextKeepsOutcome(p, c);
    NextKeepsOutcome(p, c1);
    NextKeepsOutcome(p, c2);
  }

  lemma ToInnerIp(p: Packet, c: Config) returns (d: Config)
    requires c.state == Etype(D1) && c.view.depth == 1 && Be16(p, c.view.cursor) == ETYPE_IPV4
    ensures d.state == IPv4(D1) && d.view.cursor == c.view.cursor + 2 && d.view.depth == 1
    ensures EtypeHdr(D1) in d.view.hdrs && d.view.hdrs[EtypeHdr(D1)] == c.view.cursor
    ensures Outcome(p, d) == Outcome(p, c)
  {
    d := Next(p, c);
    NextKeepsOutcome(p, c);
  }

  lemma InnerIp(p: Packet, c: Config)
    requires c.state == IPv4(D1) && c.view.depth == 1 && PlainIpAt(p, c.view.cursor) && EtypeHdr(D1) in c.view.hdrs
    ensures var d := Outcome(p, c);
      && d.state == Pay && d.view.depth == 1 && Ipv4Hdr(D1) in d.view.hdrs
      && EtypeHdr(D1) in d.view.hdrs && d.view.hdrs[EtypeHdr(D1)] == c.view.hdrs[EtypeHdr(D1)]
  {
    var c1 := Next(p, c);
    var c2 := Next(p, c1);
    var c3 := Next(p, c2);
    NextKeepsOutcome(p, c);
    NextKeepsOutcome(p, c1);
    NextKeepsOutcome(p, c2);
    assert c3.state == Pay;
  }

  lemma InnerArp(p: Packet, c: Config)
    requires c.state == Etype(D1) && c.view.depth == 1 && Be16(p, c.view.cursor) == ETYPE_ARP
    ensures var d := Outcome(p, c); d.state == ArpPay && d.view.depth == 1
  {
    var c1 := Next(p, c);
    var c2 := Next(p, c1);
    NextKeepsOutcome(p, c);
    NextKeepsOutcome(p, c1);
    assert c2.state == ArpPay;
  }

  lemma VxlanIpBytes()
    ensures var p := VXLAN_IP;
      && |p| == 84 && Be16(p, 12) == ETYPE_IPV4 && VxlanAt(p, 14) && Be16(p, 62) == ETYPE_IPV4 && PlainIpAt(p, 64)
  {}

  lemma CtagVxlanArpBytes()
    ensures var p := CTAG_VXLAN_ARP;
      && Be16(p, 12) == ETYPE_VLAN_CTAG && Be16(p, 16) == ETYPE_IPV4 && VxlanAt(p, 18) && Be16(p, 66) == ETYPE_ARP
  {}

  lemma VxlanIpParse()
    ensures !Tagged(VXLAN_IP) && |VXLAN_IP| == 84
    ensures Parse(VXLAN_IP).0 == Pay && Parse(VXLAN_IP).1.depth == 1 && Ipv4Hdr(D1) in Parse(VXLAN_IP).1.hdrs
    ensures EtypeHdr(D1) in Parse(VXLAN_IP).1.hdrs && Parse(VXLAN_IP).1.hdrs[EtypeHdr(D1)] == 62
  {
    VxlanIpBytes();
    var c := BehindEtype(VXLAN_IP);
    var d := ToUdp(VXLAN_IP, c);
    d := ToInnerEtype(VXLAN_IP, d);
    d := ToInnerIp(VXLAN_IP, d);
    InnerIp(VXLAN_IP, d);
    ParseFromEtype(VXLAN_IP);
  }

  lemma CtagVxlanArpParse()
    ensures Be16(CTAG_VXLAN_ARP, 12) == ETYPE_VLAN_CTAG
    ensures Parse(CTAG_VXLAN_ARP).0 == ArpPay && Parse(CTAG_VXLAN_ARP).1.depth == 1
  {
    CtagVxlanArpBytes();
    var c := BehindEtype(CTAG_VXLAN_ARP);
    var d := ToUdp(CTAG_VXLAN_ARP, c);
    d := ToInnerEtype(CTAG_VXLAN_ARP, d);
    InnerArp(CTAG_VXLAN_ARP, d);
    ParseFromEtype(CTAG_VXLAN_ARP);
  }
}
