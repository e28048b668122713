/** Which tables a parsed frame is looked up in: the if/else chain of the apply block of p4files/rh_mvp.p4, and the
    PROFILE match table of p4files/rh_mvp.s that it was compiled to. */
module TableSelection {
  import opened Packets
  import opened IdpfParser
  import opened ParserFacts
  import opened TagFacts
  import opened TunnelFrames
  import opened FxpParser
  import opened Ptypes
  import Refinement

  datatype Table =
    | CommsChannel
    | VportEgressDmacVsi | VportEgressVsi | VportEgressDmac
    | PortmuxEgressReq | PortmuxEgressRespDmacVsi | PortmuxEgressRespVsi | VportArpEgress
    | IngressLoopback | IngressLoopbackDmac | PortmuxIngressLoopback
    | PhyIngressArp | PhyIngressVlanDmac

  /** The intrinsic and vendor metadata of one pass: host-to-network or not, looped back or not, the pass number, the
      routing bit and the VSI group. */
  datatype Pass = Pass(hostToNet: bool, loopedback: bool, number: bv2, routing: bool, vsig: nat)

  // ---- The apply block ----

  /** `hdrs.ipv4[meta.common.depth].isValid()` */
  predicate IpValid(v: View) { Ipv4Hdr(DepthOf(v)) in v.hdrs }

  predicate MacValid(v: View) { MacHdr(DepthOf(v)) in v.hdrs }

  predicate ArpValid(v: View) { ArpHdr in v.hdrs }

  function HostToNet(a: Pass, v: View): seq<Table> {
    var tx := a.hostToNet && a.number == 0;
    var ctag, stag := EVLAN_8100 in v.flags, STAG in v.flags;
    var group := PFLAG_11 in v.flags || PFLAG_10 in v.flags;
    if tx && !ctag && !stag && MacValid(v) && IpValid(v) && !ArpValid(v) then
      [VportEgressDmacVsi, VportEgressVsi, VportEgressDmac]
    else if tx && ArpValid(v) && !ctag && stag && !a.loopedback && group then
      [PortmuxEgressReq]
    else if tx && ArpValid(v) && !ctag && stag && !a.loopedback && !group then
      [PortmuxEgressRespDmacVsi, PortmuxEgressRespVsi]
    else if tx && !a.loopedback && MacValid(v) && ArpValid(v) && !ctag && !stag then
      [VportArpEgress]
    else []
  }

  function Loopback(a: Pass, v: View): seq<Table> {
    if !a.hostToNet && a.number == 0 && a.loopedback && STAG !in v.flags then [IngressLoopback, IngressLoopbackDmac]
    else if !a.hostToNet && a.number == 0 && a.loopedback && STAG in v.flags then [PortmuxIngressLoopback]
    else []
  }

  function FromPhy(a: Pass, v: View): seq<Table> {
    var rx := !a.hostToNet && a.number == 0 && !a.loopedback && EVLAN_8100 in v.flags && MacValid(v);
    (if rx && ArpValid(v) then [PhyIngressArp] else [])
    + if rx && IpValid(v) && !ArpValid(v) then [PhyIngressVlanDmac] else []
  }

  /** The tables the apply block applies, in order. */
  function Applied(a: Pass, v: View): seq<Table> {
    (if a.vsig == 1 then [CommsChannel] else []) + HostToNet(a, v) + Loopback(a, v) + FromPhy(a, v)
  }

  // ---- The compiled selection ----

  /** The bits of SEM_MD2 that the digest fills, the direction bit lowest. */
  function Digest(a: Pass, v: View): bv16 {
    (if a.hostToNet then 0x001 else 0) | (if a.loopedback then 0x002 else 0)
    | ((a.number as bv16) << 2)
    | (if EVLAN_8100 in v.flags then 0x010 else 0) | (if a.routing then 0x020 else 0)
    | (if STAG in v.flags then 0x040 else 0)
    | (if PFLAG_10 in v.flags then 0x080 else 0) | (if PFLAG_11 in v.flags then 0x100 else 0)
  }

  /** PTYPE_GROUP maps every type it lists to a group of the same number.  A type it does not list is taken to be in
      group 0, which no PROFILE entry names. */
  function Group(ptype: nat): nat {
    if ptype in {1, 11, 12, 13, 14, 15, 23, 24, 26, 43, 50, 52, 53, 56, 57, 58, 59, 60, 61, 63, 255, 287, 366}
    then ptype else 0
  }

  /** The PROFILE entries in priority order. */
  function Profile(group: nat, vsig: nat, md: bv16): nat {
    if vsig == 1 then 1
    else if group == 12 && md & 0x05D == 0x001 then 4
    else if group == 13 && md & 0x05D == 0x001 then 4
    else if group == 14 && md & 0x05D == 0x001 then 4
    else if group == 23 && md & 0x05D == 0x001 then 4
    else if group == 24 && md & 0x05D == 0x001 then 4
    else if group == 26 && md & 0x05D == 0x001 then 4
    else if group == 43 && md & 0x05D == 0x001 then 4
    else if group == 56 && md & 0x05D == 0x001 then 4
    else if group == 57 && md & 0x05D == 0x001 then 4
    else if group == 59 && md & 0x05D == 0x001 then 4
    else if group == 60 && md & 0x05D == 0x001 then 4
    else if group == 61 && md & 0x05D == 0x001 then 4
    else if group == 63 && md & 0x05D == 0x001 then 4
    else if group == 366 && md & 0x05D == 0x001 then 4
    else if group == 11 && md & 0x15F == 0x141 then 10
    else if group == 15 && md & 0x15F == 0x141 then 10
    else if group == 287 && md & 0x15F == 0x141 then 10
    else if group == 11 && md & 0x0DF == 0x0C1 then 10
    else if group == 15 && md & 0x0DF == 0x0C1 then 10
    else if group == 287 && md & 0x0DF == 0x0C1 then 10
    else if group == 11 && md & 0x1DF == 0x041 then 11
    else if group == 15 && md & 0x1DF == 0x041 then 11
    else if group == 287 && md & 0x1DF == 0x041 then 11
    else if group == 11 && md & 0x05F == 0x001 then 7
    else if group == 15 && md & 0x05F == 0x001 then 7
    else if group == 287 && md & 0x05F == 0x001 then 7
    else if md & 0x04F == 0x002 then 5
    else if md & 0x04F == 0x042 then 9
    else if group == 11 && md & 0x01F == 0x010 then 2
    else if group == 15 && md & 0x01F == 0x010 then 2
    else if group == 287 && md & 0x01F == 0x010 then 2
    else if group == 12 && md & 0x01F == 0x010 then 6
    else if group == 13 && md & 0x01F == 0x010 then 6
    else if group == 14 && md & 0x01F == 0x010 then 6
    else if group == 23 && md & 0x01F == 0x010 then 6
    else if group == 24 && md & 0x01F == 0x010 then 6
    else if group == 26 && md & 0x01F == 0x010 then 6
    else if group == 43 && md & 0x01F == 0x010 then 6
    else if group == 56 && md & 0x01F == 0x010 then 6
    else if group == 57 && md & 0x01F == 0x010 then 6
    else if group == 59 && md & 0x01F == 0x010 then 6
    else if group == 60 && md & 0x01F == 0x010 then 6
    else if group == 61 && md & 0x01F == 0x010 then 6
    else if group == 63 && md & 0x01F == 0x010 then 6
    else if group == 366 && md & 0x01F == 0x010 then 6
    else 0
  }

  /** The lookup lists of PROFILE_CFG, without the compiler's empty fillers. */
  function Luts(profile: nat): seq<Table> {
    match profile
    case 1 => [CommsChannel]
    case 4 => [VportEgressDmacVsi, VportEgressVsi, VportEgressDmac]
    case 10 => [PortmuxEgressReq]
    case 11 => [PortmuxEgressRespDmacVsi, PortmuxEgressRespVsi]
    case 7 => [VportArpEgress]
    case 5 => [IngressLoopback, IngressLoopbackDmac]
    case 9 => [PortmuxIngressLoopback]
    case 2 => [PhyIngressArp]
    case 6 => [PhyIngressVlanDmac]
    case _ => []
  }

  /** The tables the compiled program looks a frame up in, from what the compiled stages left. */
  function Compiled(a: Pass, r: Regs): seq<Table> {
    Luts(Profile(Group(Ptype(r.view.markers, r.nodeId)), a.vsig, Digest(a, r.view)))
  }

  // ---- What the PROFILE table says ----

  predicate IsIpGroup(g: nat) { g in {12, 13, 14, 23, 24, 26, 43, 56, 57, 59, 60, 61, 63, 366} }

  predicate IsArpGroup(g: nat) { g == 11 || g == 15 || g == 287 }

  /** The same table with the groups collected and the masks read as conditions on the pass and the flags. */
  function ProfileMeaning(g: nat, a: Pass, v: View): nat {
    var ctag, stag := EVLAN_8100 in v.flags, STAG in v.flags;
    var first := a.number == 0;
    if a.vsig == 1 then 1
    else if !first then 0
    else if a.hostToNet then
      if ctag then 0
      else if IsIpGroup(g) then (if stag then 0 else 4)
      else if IsArpGroup(g) && !a.loopedback then
        if !stag then 7 else if PFLAG_11 in v.flags || PFLAG_10 in v.flags then 10 else 11
      else 0
    else if a.loopedback then (if stag then 9 else 5)
    else if !ctag then 0
    else if IsArpGroup(g) then 2
    else if IsIpGroup(g) then 6
    else 0
  }

  lemma ProfileIsMeaning(g: nat, a: Pass, v: View)
    ensures Profile(g, a.vsig, Digest(a, v)) == ProfileMeaning(g, a, v)
  {}

  // ---- Agreement ----

  /** The deepest IPv4 header the frame announces has a length nibble below five: the parser marks it and does not
      extract it. */
  predicate ShortIp(p: Packet, v: View) {
    DeepestIp(p, v) && Ihl(p, v.hdrs[EtypeHdr(DepthOf(v))] + 2) < 5
  }

  /** The packet types the compiler added without a group: ARP inside a C-tagged tunnel, and GTP-U under a C-tag. */
  predicate AddedType(ptype: nat) { ptype == 2 || ptype == 5 || ptype == 6 }

  /** The frames on which source and output differ. */
  predicate Differs(p: Packet, a: Pass, v: View, ptype: nat) {
    var ctag, stag := EVLAN_8100 in v.flags, STAG in v.flags;
    a.number == 0
    && if a.hostToNet then ShortIp(p, v) && !ctag && !stag
       else !a.loopedback && ctag && (ShortIp(p, v) || AddedType(ptype))
  }

  /** The passes and frames for which no table is applied besides that of the communication channel. */
  predicate NoTable(a: Pass, v: View) {
    var ctag, stag := EVLAN_8100 in v.flags, STAG in v.flags;
    a.number != 0
    || if a.hostToNet then
         ctag || (if stag then !ArpValid(v) || a.loopedback
                  else !(IpValid(v) && !ArpValid(v)) && !(ArpValid(v) && !a.loopedback))
       else !a.loopedback && (!ctag || (!ArpValid(v) && !IpValid(v)))
  }

  lemma GroupOfRule(s: State, depth: nat, ctag: bool, ip: bool, gtp: bool)
    requires Terminal(s) && (gtp ==> ip) && (s.ArpPay? ==> !ip) && (s.TcpPay? || s.UdpPay? ==> ip && !gtp)
    ensures var t := RuleAt(RuleOf(s, depth, ctag, ip, gtp)).ptype;
      && (IsIpGroup(Group(t)) <==> ip && !(gtp && ctag))
      && (IsArpGroup(Group(t)) <==> s.ArpPay? && !(depth != 0 && ctag))
      && (AddedType(t) <==> (gtp && ctag) || (s.ArpPay? && depth != 0 && ctag))
  {}

  /** What validity says, once the header stack is known. */
  lemma Validity(p: Packet, s: State, v: View)
    requires Terminal(s) && Layers(s, v) && Wire(p, s, v, D0) && Wire(p, s, v, D1) && Behind(s, v) && ArpLast(p, s, v)
    ensures MacValid(v) && (ArpValid(v) <==> s.ArpPay?)
    ensures IpValid(v) <==> DeepestIp(p, v) && !ShortIp(p, v)
    ensures GtpHdr in v.hdrs ==> IpValid(v)
  {}

  lemma SelectionFromFacts(p: Packet, a: Pass, s: State, v: View, ptype: nat, gtp: bool)
    requires MacValid(v) && (ArpValid(v) <==> s.ArpPay?) && (IpValid(v) <==> DeepestIp(p, v) && !ShortIp(p, v))
    requires (gtp ==> IpValid(v)) && (s.ArpPay? ==> !DeepestIp(p, v)) && !(STAG in v.flags && EVLAN_8100 in v.flags)
    requires var ctag := EVLAN_8100 in v.flags;
      && (IsIpGroup(Group(ptype)) <==> DeepestIp(p, v) && !(gtp && ctag))
      && (IsArpGroup(Group(ptype)) <==> s.ArpPay? && !(v.depth != 0 && ctag))
      && (AddedType(ptype) <==> (gtp && ctag) || (s.ArpPay? && v.depth != 0 && ctag))
    ensures var compiled := Luts(ProfileMeaning(Group(ptype), a, v));
      && (a.vsig != 1 ==> (compiled == Applied(a, v) <==> !Differs(p, a, v, ptype)))
      && (a.vsig == 1 ==>
            compiled == [CommsChannel] && (compiled == Applied(a, v) <==> NoTable(a, v)))
  {}

  /** Compiled table selection against the apply block, for every frame, direction, loopback bit and pass.  Outside VSI
      group 1 the same tables in the same order are selected exactly when the deepest IPv4 header is not too short for
      the branch taken and the packet type is not one the compiler added; in VSI group 1 the compiled program looks in
      the communication channel table alone, while the source goes on with the rest of the chain. */
  lemma SelectionAgrees(p: Packet, a: Pass)
    ensures var r, v := ParseCompiled(p), Parse(p).1;
      && (a.vsig != 1 ==>
            (Compiled(a, r) == Applied(a, v) <==> !Differs(p, a, v, Ptype(r.view.markers, r.nodeId))))
      && (a.vsig == 1 ==>
            Compiled(a, r) == [CommsChannel] && (Compiled(a, r) == Applied(a, v) <==> NoTable(a, v)))
  {
    hide Luts, Applied, Differs, NoTable;
    var r, s, v := ParseCompiled(p), Parse(p).0, Parse(p).1;
    Refinement.CompiledRefinesSource(p);
    OutcomeFacts(p);
    FrontOfParse(p);
    PtypeOfParse(p);
    StackOfNode(p, s, v);
    Validity(p, s, v);
    FlagsExclusive(p);
    var ptype := Ptype(r.view.markers, r.nodeId);
    GroupOfRule(s, v.depth, Be16(p, 12) == ETYPE_VLAN_CTAG, DeepestIp(p, v), GtpHdr in v.hdrs);
    ProfileIsMeaning(Group(ptype), a, r.view);
    SelectionFromFacts(p, a, s, v, ptype, GtpHdr in v.hdrs);
  }

  // ---- One frame of each family on which they differ ----

  /** An IPv4 header of four words: the length nibble is one too small. */
  const SHORT_IP: Packet := [0, 0, 0, 0, 0, 0, 0, 0, 0, 0, 0, 0, 0x08, 0]
    + [0x44, 0, 0, 0, 0, 0, 0, 0, 0, 0, 0, 0, 0, 0, 0, 0]

  /** A C-tagged IPv4 and UDP header to the GTP-U port, and a GTP-U header. */
  const CTAG_GTPU: Packet := [0, 0, 0, 0, 0, 0, 0, 0, 0, 0, 0, 0, 0x81, 0]
    + [0, 0, 0x08, 0, 0x45, 0, 0, 0, 0, 0, 0, 0, 0, 0x11]
    + [0, 0, 0, 0, 0, 0, 0, 0, 0, 0, 0, 0, 0x08, 0x68]
    + [0, 0, 0, 0, 0, 0, 0, 0, 0, 0, 0, 0]

  lemma ShortIpParse()
    ensures Parse(SHORT_IP).1.depth == 0 && Parse(SHORT_IP).1.flags == {PFLAG_2}
  {
    var p := SHORT_IP;
    var c := BehindEtype(p);
    ParseFromEtype(p);
    assert c.state == IPv4(D0);
    assert Next(p, c).state == HdrTooShort;
    NextKeepsOutcome(p, c);
    NextKeepsOutcome(p, Next(p, c));
  }

  lemma ShortIpIsShort()
    ensures var v := Parse(SHORT_IP).1; ShortIp(SHORT_IP, v) && EVLAN_8100 !in v.flags && STAG !in v.flags
  {
    ShortIpParse();
    FrontOfParse(SHORT_IP);
    assert Parse(SHORT_IP).1.hdrs[EtypeHdr(D0)] == 12;
  }

  /** Host to network, the output looks in the three vport tables and the source in none. */
  lemma ShortIpDiffers(a: Pass)
    requires a.hostToNet && a.number == 0 && a.vsig != 1
    ensures Compiled(a, ParseCompiled(SHORT_IP)) != Applied(a, Parse(SHORT_IP).1)
  {
    ShortIpIsShort();
    SelectionAgrees(SHORT_IP, a);
    var t := Ptype(ParseCompiled(SHORT_IP).view.markers, ParseCompiled(SHORT_IP).nodeId);
    assert Differs(SHORT_IP, a, Parse(SHORT_IP).1, t);
  }

  lemma CtagGtpuBytes()
    ensures var p := CTAG_GTPU;
      && Ihl(p, 18) == 5 && MoreFragments(p, 18) == 0 && FragmentOffset(p, 18) == 0 && Byte(p, 27) == IP_PROTO_UDP
      && Be16(p, 40) == UDP_PORT_GTPU && AfterGtpu(Outer, Byte(p, 46), Byte(p, 47)) == Pay && OptionBytes(5) == 0
      && Be16(p, 12) == ETYPE_VLAN_CTAG && Be16(p, 16) == ETYPE_IPV4
  {}

  lemma CtagGtpuToUdp() returns (c: Config)
    ensures c.state == Udp(D0) && c.view.cursor == 38
    ensures Outcome(CTAG_GTPU, c) == Outcome(CTAG_GTPU, BehindEtype(CTAG_GTPU))
  {
    var p := CTAG_GTPU;
    CtagGtpuBytes();
    var c0 := BehindEtype(p);
    var c1 := Next(p, c0);
    var c2 := Next(p, c1);
    c := Next(p, c2);
    NextKeepsOutcome(p, c0);
    NextKeepsOutcome(p, c1);
    NextKeepsOutcome(p, c2);
  }

  lemma UdpToGtpu(p: Packet, c: Config)
    requires c.state == Udp(D0) && c.view.cursor == 38 && Be16(p, 40) == UDP_PORT_GTPU
    requires AfterGtpu(Outer, Byte(p, 46), Byte(p, 47)) == Pay
    ensures GtpHdr in Outcome(p, c).view.hdrs
  {
    var d := Next(p, c);
    NextKeepsOutcome(p, c);
    NextKeepsOutcome(p, d);
    assert d.state == Gtpu(Outer) && d.view.cursor == 46;
  }

  lemma CtagGtpuParse()
    ensures GtpHdr in Parse(CTAG_GTPU).1.hdrs
  {
    CtagGtpuBytes();
    var c := CtagGtpuToUdp();
    UdpToGtpu(CTAG_GTPU, c);
    ParseFromEtype(CTAG_GTPU);
  }

  /** From the wire, the source looks in the VLAN and destination table and the output in none. */
  lemma CtagGtpuDiffers(a: Pass)
    requires !a.hostToNet && !a.loopedback && a.number == 0 && a.vsig != 1
    ensures Compiled(a, ParseCompiled(CTAG_GTPU)) != Applied(a, Parse(CTAG_GTPU).1)
  {
    var p := CTAG_GTPU;
    CtagGtpuBytes();
    CtagGtpuParse();
    FrontOfParse(p);
    SelectionAgrees(p, a);
    PtypeOfParse(p);
    OutcomeFacts(p);
    var s, v := Parse(p).0, Parse(p).1;
    StackOfNode(p, s, v);
    GroupOfRule(s, v.depth, true, DeepestIp(p, v), true);
    assert Differs(p, a, v, Ptype(ParseCompiled(p).view.markers, ParseCompiled(p).nodeId));
  }

  /** An ARP packet inside a C-tagged tunnel, from the wire: the source looks in the ARP table and the output
      in none. */
  lemma CtagVxlanArpDiffers(a: Pass)
    requires !a.hostToNet && !a.loopedback && a.number == 0 && a.vsig != 1
    ensures var p := CTAG_VXLAN_ARP;
      && Ptype(ParseCompiled(p).view.markers, ParseCompiled(p).nodeId) == 2
      && Compiled(a, ParseCompiled(p)) != Applied(a, Parse(p).1)
  {
    var p := CTAG_VXLAN_ARP;
    CtagVxlanArpParse();
    FrontOfParse(p);
    SelectionAgrees(p, a);
    PtypeOfParse(p);
    OutcomeFacts(p);
    StackOfNode(p, Parse(p).0, Parse(p).1);
    assert Differs(p, a, Parse(p).1, Ptype(ParseCompiled(p).view.markers, ParseCompiled(p).nodeId));
  }

  lemma VxlanIpView()
    ensures var v := Parse(VXLAN_IP).1;
      MacValid(v) && IpValid(v) && !ArpValid(v) && EVLAN_8100 !in v.flags && STAG !in v.flags
  {
    VxlanIpParse();
    FrontOfParse(VXLAN_IP);
    OutcomeFacts(VXLAN_IP);
    Validity(VXLAN_IP, Parse(VXLAN_IP).0, Parse(VXLAN_IP).1);
  }

  lemma EgressApplied(a: Pass, v: View)
    requires a.hostToNet && a.number == 0 && MacValid(v) && IpValid(v) && !ArpValid(v)
    requires EVLAN_8100 !in v.flags && STAG !in v.flags
    ensures VportEgressVsi in Applied(a, v)
  {
    assert HostToNet(a, v)[1] == VportEgressVsi;
    assert VportEgressVsi in HostToNet(a, v);
  }

  /** A tunnelled IPv4 packet from the VSI group of the communication channel: the output stops at its table. */
  lemma CommsChannelDiffers(a: Pass)
    requires a.vsig == 1 && a.hostToNet && a.number == 0
    ensures Compiled(a, ParseCompiled(VXLAN_IP)) == [CommsChannel]
    ensures VportEgressVsi in Applied(a, Parse(VXLAN_IP).1)
  {
    VxlanIpView();
    EgressApplied(a, Parse(VXLAN_IP).1);
    SelectionAgrees(VXLAN_IP, a);
  }
}
