/** Packet types: the PTYPE match table of p4files/rh_mvp.s over the markers and the node of the compiled parser, and
    the hints of p4files/fxp_parser_hints.p4 it was compiled from. */
module Ptypes {
  import opened Basics
  import opened Packets
  import opened IdpfParser
  import opened ParserFacts
  import opened TagFacts
  import opened FxpParser
  import Refinement

  const NODE_ARP := 1
  const NODE_TCP := 2
  const NODE_UDP := 3
  const NODE_PAY := 4
  const DEFAULT_PTYPE := 255
  const RULES := 28

  /** A rule: the seven markers, marker 6 first, the node, and the packet type. */
  datatype Rule = Rule(vector: bv7, node: nat, ptype: nat)

  function RuleAt(i: nat): Rule
    requires i < RULES
  {
    match i
    case 0 => Rule(0x10, 1, 15)
    case 1 => Rule(0x33, 1, 2)
    case 2 => Rule(0x23, 1, 287)
    case 3 => Rule(0x00, 1, 11)
    case 4 => Rule(0x10, 4, 3)
    case 5 => Rule(0x12, 4, 12)
    case 6 => Rule(0x02, 4, 23)
    case 7 => Rule(0x33, 4, 4)
    case 8 => Rule(0x23, 4, 58)
    case 9 => Rule(0x37, 4, 56)
    case 10 => Rule(0x27, 4, 60)
    case 11 => Rule(0x77, 4, 5)
    case 12 => Rule(0x67, 4, 366)
    case 13 => Rule(0x52, 4, 6)
    case 14 => Rule(0x42, 4, 43)
    case 15 => Rule(0x46, 4, 50)
    case 16 => Rule(0x00, 4, 1)
    case 17 => Rule(0x12, 2, 14)
    case 18 => Rule(0x02, 2, 26)
    case 19 => Rule(0x37, 2, 59)
    case 20 => Rule(0x27, 2, 63)
    case 21 => Rule(0x46, 2, 53)
    case 22 => Rule(0x12, 3, 13)
    case 23 => Rule(0x02, 3, 24)
    case 24 => Rule(0x37, 3, 57)
    case 25 => Rule(0x27, 3, 61)
    case 26 => Rule(0x46, 3, 52)
    case 27 => Rule(0x00, 7, 1022)
  }

  predicate Matches(i: nat, vector: bv7, node: nat)
    requires i < RULES
  {
    RuleAt(i).vector == vector && RuleAt(i).node == node
  }

  /** The first matching rule from `i` on decides. */
  function Lookup(i: nat, vector: bv7, node: nat): nat
    decreases RULES - i
  {
    if i >= RULES then DEFAULT_PTYPE
    else if Matches(i, vector, node) then RuleAt(i).ptype
    else Lookup(i + 1, vector, node)
  }

  function Vector(m: set<nat>): bv7 {
    (if MAC_D1 in m then 0x01 else 0) | (if IPV4_D0 in m then 0x02 else 0) | (if IPV4_D1 in m then 0x04 else 0)
    | (if IPV4_D2 in m then 0x08 else 0) | (if VLAN_D0 in m then 0x10 else 0) | (if TUN_D0 in m then 0x20 else 0)
    | (if TUN_D1 in m then 0x40 else 0)
  }

  function Ptype(m: set<nat>, node: nat): nat {
    Lookup(0, Vector(m), node)
  }

  // ---- The rules do not overlap ----

  /** The one rule for a vector and node, if there is one: an inverse of `RuleAt`. */
  function IndexOf(vector: bv7, node: nat): nat {
    if node == NODE_ARP then
      if vector == 0x10 then 0 else if vector == 0x33 then 1 else if vector == 0x23 then 2 else 3
    else if node == NODE_PAY then
      if vector == 0x10 then 4 else if vector == 0x12 then 5 else if vector == 0x02 then 6 else if vector == 0x33 then 7
      else if vector == 0x23 then 8 else if vector == 0x37 then 9 else if vector == 0x27 then 10
      else if vector == 0x77 then 11 else if vector == 0x67 then 12 else if vector == 0x52 then 13
      else if vector == 0x42 then 14 else if vector == 0x46 then 15 else 16
    else if node == NODE_TCP then
      if vector == 0x12 then 17 else if vector == 0x02 then 18 else if vector == 0x37 then 19
      else if vector == 0x27 then 20 else 21
    else if node == NODE_UDP then
      if vector == 0x12 then 22 else if vector == 0x02 then 23 else if vector == 0x37 then 24
      else if vector == 0x27 then 25 else 26
    else 27
  }

  lemma AtMostOneRule(i: nat, j: nat, vector: bv7, node: nat)
    requires i < RULES && j < RULES && Matches(i, vector, node) && Matches(j, vector, node)
    ensures i == j
  {
    assert i == IndexOf(vector, node);
    assert j == IndexOf(vector, node);
  }

  lemma {:induction false} LookupFinds(i: nat, j: nat, vector: bv7, node: nat)
    requires i <= j < RULES && Matches(j, vector, node)
    ensures Lookup(i, vector, node) == RuleAt(j).ptype
    decreases j - i
  {
    if Matches(i, vector, node) {
      AtMostOneRule(i, j, vector, node);
    } else {
      LookupFinds(i + 1, j, vector, node);
    }
  }

  // ---- The hints ----

  /** The markers and node that the hints list for each packet type the program names. */
  function Hint(ptype: nat): Option<(set<nat>, nat)> {
    match ptype
    case 1 => Some(({}, 4))
    case 11 => Some(({}, 1))
    case 15 => Some(({VLAN_D0}, 1))
    case 12 => Some(({IPV4_D0, VLAN_D0}, 4))
    case 13 => Some(({IPV4_D0, VLAN_D0}, 3))
    case 14 => Some(({IPV4_D0, VLAN_D0}, 2))
    case 23 => Some(({IPV4_D0}, 4))
    case 24 => Some(({IPV4_D0}, 3))
    case 26 => Some(({IPV4_D0}, 2))
    case 58 => Some(({MAC_D1, IPV4_D0, TUN_D0}, 4))
    case 287 => Some(({MAC_D1, IPV4_D0, TUN_D0}, 1))
    case 60 => Some(({MAC_D1, IPV4_D0, IPV4_D1, TUN_D0}, 4))
    case 61 => Some(({MAC_D1, IPV4_D0, IPV4_D1, TUN_D0}, 3))
    case 63 => Some(({MAC_D1, IPV4_D0, IPV4_D1, TUN_D0}, 2))
    case 56 => Some(({MAC_D1, IPV4_D0, IPV4_D1, VLAN_D0, TUN_D0}, 4))
    case 57 => Some(({MAC_D1, IPV4_D0, IPV4_D1, VLAN_D0, TUN_D0}, 3))
    case 59 => Some(({MAC_D1, IPV4_D0, IPV4_D1, VLAN_D0, TUN_D0}, 2))
    case 50 => Some(({IPV4_D0, IPV4_D1, TUN_D1}, 4))
    case 52 => Some(({IPV4_D0, IPV4_D1, TUN_D1}, 3))
    case 53 => Some(({IPV4_D0, IPV4_D1, TUN_D1}, 2))
    case 366 => Some(({MAC_D1, IPV4_D0, IPV4_D1, TUN_D0, TUN_D1}, 4))
    case 43 => Some(({IPV4_D0, TUN_D1}, 4))
    case _ => None
  }

  /** Every rule of the compiled table is that of a hint, but for five types of its own and the reject rule. */
  lemma RulesAreHints(i: nat)
    requires i < RULES
    ensures IsHint(RuleAt(i))
  {
    if i < 14 { FirstRulesAreHints(i); } else { LastRulesAreHints(i); }
  }

  predicate IsHint(r: Rule) {
    match Hint(r.ptype)
    case Some((m, node)) => r.vector == Vector(m) && r.node == node
    case None => 2 <= r.ptype <= 6 || r.ptype == 1022
  }

  lemma FirstRulesAreHints(i: nat)
    requires i < 14
    ensures IsHint(RuleAt(i))
  {}

  lemma LastRulesAreHints(i: nat)
    requires 14 <= i < RULES
    ensures IsHint(RuleAt(i))
  {}

  /** Where the rule of a hinted type is. */
  function IndexOfType(ptype: nat): nat {
    match ptype
    case 15 => 0 case 287 => 2 case 11 => 3 case 12 => 5 case 23 => 6 case 58 => 8 case 56 => 9 case 60 => 10
    case 366 => 12 case 43 => 14 case 50 => 15 case 1 => 16 case 14 => 17 case 26 => 18 case 59 => 19 case 63 => 20
    case 53 => 21 case 13 => 22 case 24 => 23 case 57 => 24 case 61 => 25 case 52 => 26
    case _ => 27
  }

  lemma OneRuleOfType(ptype: nat, i: nat)
    requires Hint(ptype).Some? && i < RULES
    ensures IndexOfType(ptype) < RULES && (RuleAt(i).ptype == ptype <==> i == IndexOfType(ptype))
  {}

  /** And every hint has exactly one rule, with its markers and node. */
  lemma HintsAreRules(ptype: nat, i: nat)
    requires Hint(ptype).Some? && i < RULES
    ensures RuleAt(i).ptype == ptype <==> i == IndexOfType(ptype)
    ensures var r, (m, node) := RuleAt(IndexOfType(ptype)), Hint(ptype).value;
      r.ptype == ptype && r.vector == Vector(m) && r.node == node
  {
    hide RuleAt, IndexOfType, Vector;
    OneRuleOfType(ptype, i);
    OneRuleOfType(ptype, IndexOfType(ptype));
    RulesAreHints(IndexOfType(ptype));
  }

  // ---- Every parsed frame ----

  /** The rule index for a header stack: its depth, whether the outermost tag is a C-tag, whether the deepest EtherType
      is IPv4, and whether there is a GTP-U header. */
  function RuleOf(s: State, depth: nat, ctag: bool, ip: bool, gtp: bool): nat
    requires Terminal(s)
  {
    match s
    case ArpPay => if depth == 0 then (if ctag then 0 else 3) else if ctag then 1 else 2
    case TcpPay => if depth == 0 then (if ctag then 17 else 18) else if ctag then 19 else 20
    case UdpPay => if depth == 0 then (if ctag then 22 else 23) else if ctag then 24 else 25
    case Pay =>
      if depth == 0 then
        if gtp then (if ctag then 13 else 14) else if ip then (if ctag then 5 else 6) else if ctag then 4 else 16
      else if gtp then (if ctag then 11 else 12) else if ip then (if ctag then 9 else 10) else if ctag then 7 else 8
  }

  function VectorOf(depth: nat, ctag: bool, ip: bool, gtp: bool): bv7 {
    (if depth == 0 then (if ip then 0x02 else 0) else 0x23 | if ip then 0x04 else 0)
    | (if ctag then 0x10 else 0) | if gtp then 0x40 else 0
  }

  function DeepestIp(p: Packet, v: View): bool { IpAt(p, v, DepthOf(v)) }

  lemma VectorOfStack(p: Packet, s: State, v: View)
    requires Terminal(s) && Layers(s, v) && Wire(p, s, v, D0) && Marks(p, s, v)
    ensures Vector(v.markers) == VectorOf(v.depth, VLAN_D0 in v.markers, DeepestIp(p, v), GtpHdr in v.hdrs)
  {}

  lemma StackOfNode(p: Packet, s: State, v: View)
    requires Terminal(s) && Layers(s, v) && Wire(p, s, v, D0) && Wire(p, s, v, D1) && Behind(s, v) && ArpLast(p, s, v)
    ensures s.ArpPay? ==> !DeepestIp(p, v) && GtpHdr !in v.hdrs
    ensures s.TcpPay? || s.UdpPay? ==> DeepestIp(p, v) && GtpHdr !in v.hdrs
    ensures GtpHdr in v.hdrs ==> DeepestIp(p, v)
  {}

  lemma RuleOfMatches(s: State, depth: nat, ctag: bool, ip: bool, gtp: bool)
    requires Terminal(s) && depth <= 1 && (gtp ==> ip) && (s.ArpPay? ==> !ip)
    requires s.TcpPay? || s.UdpPay? ==> ip && !gtp
    ensures RuleOf(s, depth, ctag, ip, gtp) < RULES
    ensures Matches(RuleOf(s, depth, ctag, ip, gtp), VectorOf(depth, ctag, ip, gtp), Refinement.NodeId(s))
  {}

  /** Every frame that the compiled stages parse matches exactly one rule, that of its header stack.  The reject type,
      the default type and the types 50, 52 and 53 are never given. */
  lemma PtypeOfParse(p: Packet)
    ensures var r, s, v := ParseCompiled(p), Parse(p).0, Parse(p).1;
      var i := RuleOf(s, v.depth, Be16(p, 12) == ETYPE_VLAN_CTAG, DeepestIp(p, v), GtpHdr in v.hdrs);
      && i < RULES && Matches(i, Vector(r.view.markers), r.nodeId)
      && (forall j :: 0 <= j < RULES && Matches(j, Vector(r.view.markers), r.nodeId) ==> j == i)
      && Ptype(r.view.markers, r.nodeId) == RuleAt(i).ptype
      && i != 15 && i != 21 && i != 26 && i != 27
  {
    Refinement.CompiledRefinesSource(p);
    OutcomeFacts(p);
    FrontOfParse(p);
    var r, s, v := ParseCompiled(p), Parse(p).0, Parse(p).1;
    VectorOfStack(p, s, v);
    StackOfNode(p, s, v);
    var ctag, ip, gtp := Be16(p, 12) == ETYPE_VLAN_CTAG, DeepestIp(p, v), GtpHdr in v.hdrs;
    RuleOfMatches(s, v.depth, ctag, ip, gtp);
    var i := RuleOf(s, v.depth, ctag, ip, gtp);
    LookupFinds(0, i, Vector(r.view.markers), r.nodeId);
    forall j | 0 <= j < RULES && Matches(j, Vector(r.view.markers), r.nodeId) ensures j == i {
      AtMostOneRule(j, i, Vector(r.view.markers), r.nodeId);
    }
  }

  /** What is known of a source parse holds of the registers of the stages: flags and outer headers as in the bytes, the
      header stack, an IPv4 header exactly behind an EtherType that says so, and the bound on the payload start. */
  lemma CompiledFacts(p: Packet)
    ensures var r := ParseCompiled(p);
      && FrontAsBytes(p, r.view) && Stack(r.view)
      && (Ipv4Hdr(D0) in r.view.hdrs <==> WholeIpAt(p, r.view, D0))
      && (Ipv4Hdr(D1) in r.view.hdrs <==> WholeIpAt(p, r.view, D1))
      && r.payload.Some? && r.view.cursor <= r.payload.value <= 2284
  {
    hide After, RunFrom, Run, Next;
    Refinement.CompiledRefinesSource(p);
    OutcomeFacts(p);
    FrontOfParse(p);
    AcceptsWithin25(p);
    LengthsAreSafe(p, 25);
  }
}
