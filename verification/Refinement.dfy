/** The compiled stages of rh_mvp.s compute what parser.p4 computes. */
module Refinement {
  import opened Basics
  import opened Packets
  import opened IdpfParser
  import opened FxpParser

  /** The node number the hints give to each accepting state. */
  function NodeId(s: State): nat
    requires Terminal(s)
  {
    match s
    case ArpPay => 1
    case TcpPay => 2
    case UdpPay => 3
    case Pay => 4
  }

  /** The registers of a stopped machine and the outcome of a source run say the same.  The compiled ARP node
      leaves HO at the ARP header and records the payload 28 bytes on; otherwise HO is the source cursor. */
  predicate Agrees(st: Regs, s: State, v: View)
    requires Terminal(s)
  {
    && st.done
    && st.nodeId == NodeId(s)
    && st.payload == Some(v.cursor)
    && st.view == v.(cursor := st.view.cursor)
    && v.cursor == st.view.cursor + if s.ArpPay? then 28 else 0
  }

  /** No rule of the stages from `a` up to `b` matches. */
  predicate Silent(a: nat, b: nat, st: Regs) {
    forall q :: a <= q < b ==> Match(q, st.w0, st.w1, st.s6, st.s5) == None
  }

  predicate Hits(k: nat, st: Regs, n: Node) {
    Match(k, st.w0, st.w1, st.s6, st.s5) == Some(n)
  }

  lemma Skip(p: Packet, k: nat, j: nat, st: Regs)
    requires k <= j <= STAGES && !st.done && Silent(k, j, st)
    ensures RunFrom(p, k, st) == RunFrom(p, j, st)
    decreases j - k
  {
    if k < j { Skip(p, k + 1, j, st); }
  }

  /** The machine that enters stage `k` with `a` goes on as one that leaves stage `j` with `c`. */
  predicate GoesOn(p: Packet, k: nat, a: Regs, j: nat, c: Regs) { RunFrom(p, k, a) == RunFrom(p, j + 1, c) }

  lemma Hop(p: Packet, k: nat, j: nat, st: Regs, n: Node, c: Regs)
    requires k <= j < STAGES && !st.done && Silent(k, j, st) && Hits(j, st, n) && c == Fire(p, Micro(n), st)
    ensures GoesOn(p, k, st, j, c)
  {
    Skip(p, k, j, st);
  }

  lemma TwoHops(p: Packet, k: nat, a: Regs, i: nat, n: Node, b: Regs, j: nat, m: Node, c: Regs)
    requires k <= i < j < STAGES && !a.done && !b.done && b == Fire(p, Micro(n), a) && c == Fire(p, Micro(m), b)
    requires Silent(k, i, a) && Hits(i, a, n) && Silent(i + 1, j, b) && Hits(j, b, m)
    ensures GoesOn(p, k, a, j, c)
  {
    hide RunFrom, Match, Micro, Fire;
    Hop(p, k, i, a, n, b);
    Hop(p, i + 1, j, b, m, c);
  }

  // ---- The pass-through nodes the compiler inserted ----

  predicate IsPass(n: Node) { (n.UdpDelay? && !n.d.D2?) || n.PayDelay? || n.GtpuDelay? || n.TcpPayDelay? }

  /** The registers a pass-through node leaves: it only changes the state codes. */
  function Passed(n: Node, a: Regs): Regs {
    match n
    case UdpDelay(d) => if d.D0? then a.(s6 := 13, s5 := 63) else a.(s6 := 25, s5 := 62)
    case PayDelay => a.(s6 := 43, s5 := 65)
    case GtpuDelay => a.(s6 := 36, s5 := 61)
    case TcpPayDelay => a.(s6 := 33, s5 := 64)
    case _ => a
  }

  lemma PassThrough(p: Packet, n: Node, a: Regs)
    requires IsPass(n) && !a.done
    ensures Fire(p, Micro(n), a) == Passed(n, a)
  {
    assert a.view.flags - {} + {} == a.view.flags;
    assert a.view.markers + {} == a.view.markers;
  }

  /** The stages in which the node of a state can fire, and what is known of the bytes at its cursor by then: the
      length nibbles have passed their check.  No stage holds a node of the third header layer. */
  predicate Enabled(p: Packet, s: State, k: nat, c: nat) {
    match s
    case Start => false
    case MacMaybeBc => k == 1
    case MacMc => k == 1
    case MacBc => k == 2
    case MacDone => k == 2
    case STag => k == 3
    case CTag => k == 3
    case CTagDouble => k == 4
    case Etype(d) => (d.D0? && k == 4) || (d.D1? && k == 12)
    case IPv4(d) => (d.D0? && k == 5) || (d.D1? && k == 13)
    case Arp => k == 5 || k == 13
    case CheckFrag(d) => ((d.D0? && k == 6) || (d.D1? && k == 14)) && Ihl(p, c) >= 5
    case NextProto(d) => ((d.D0? && k == 7) || (d.D1? && k == 15)) && Ihl(p, c) >= 5
    case FragHead(d) => ((d.D0? && k == 7) || (d.D1? && k == 15)) && Ihl(p, c) >= 5
    case Frag(d) => ((d.D0? && k == 8) || (d.D1? && k == 16)) && Ihl(p, c) >= 5
    case IpFrag => k == 17
    case Udp(d) => (d.D0? && k == 9) || (d.D1? && k == 17)
    case Vxlan => k == 10
    case Mac1 => k == 11
    case Tcp => k == 8 || k == 16
    case HdrTooShort => k == 6 || k == 14 || k == 17
    case TcpFin => k == 17 && DataOffset(p, c) >= 5
    case TcpSyn => k == 17 && DataOffset(p, c) >= 5
    case TcpFinSyn => k == 17 && DataOffset(p, c) >= 5
    case TcpNoFinSyn => k == 17 && DataOffset(p, c) >= 5
    case TcpRst => k == 18
    case TcpAck => k == 18
    case TcpRstAck => k == 18
    case TcpPay => k == 19
    case UdpPay => k == 18
    case Gtpu(g) => (g.Outer? && (k == 10 || k == 19)) || (g.Inner? && k == 18)
    case GtpuOptNoExt => k == 19 || k == 20
    case GtpuOptKeep(g) => k == if g.Outer? then 20 else 19
    case GtpuCheckIpVer(g) => k == 20 || (g.Outer? && k == 21) || (g.Inner? && k == 19)
    case GtpuOptExt(g) => k == if g.Outer? then 20 else 19
    case Ext1Type0(g) => k == if g.Outer? then 21 else 20
    case Ext1Type1(g) => k == if g.Outer? then 21 else 20
    case Ext1(g) => k == if g.Outer? then 21 else 20
    case Ext1Next(g) => k == if g.Outer? then 22 else 21
    case ExtLast(g) => k == if g.Outer? then 23 else 22
    case ExtLastNext(g) => 20 <= k <= 24
    case ExtNotRecognized => k == 23
    case Pay => k == 25
    case _ => false
  }

  /** The stage in which the state `t` selected by `s` fires, when `s` fired in stage `k`. */
  function Landing(s: State, k: nat, t: State): nat {
    match t
    case MacMaybeBc => 1
    case MacMc => 1
    case STag => 3
    case CTag => 3
    case CTagDouble => 4
    case Etype(d) => if d.D0? then 4 else 12
    case Frag(d) => if d.D0? then 8 else 16
    case Udp(d) => if d.D0? then 9 else 17
    case Mac1 => 11
    case HdrTooShort => if s.Tcp? then 17 else k + 1
    case IpFrag => 17
    case TcpFin => 17
    case TcpSyn => 17
    case TcpFinSyn => 17
    case TcpNoFinSyn => 17
    case TcpRst => 18
    case TcpAck => 18
    case TcpRstAck => 18
    case TcpPay => 19
    case UdpPay => 18
    case Gtpu(g) => if g.Inner? then 18 else if s.Udp? then 10 else 19
    case GtpuOptNoExt => if s == Gtpu(Outer) then 20 else 19
    case GtpuOptKeep(g) => if g.Outer? then 20 else 19
    case GtpuOptExt(g) => if g.Outer? then 20 else 19
    case GtpuCheckIpVer(g) => if s == Gtpu(Outer) then 20 else k + 1
    case ExtNotRecognized => 23
    case Pay => 25
    case MacBc => 2
    case MacDone => 2
    case _ => k + 1
  }

  /** The node of `s` fired on registers with view `v`, left `a`, and did what `s` does; `s` selects `t`. */
  predicate Mirrors(p: Packet, s: State, v: View, a: Regs, t: State) {
    !Terminal(s) && !a.done && a.view == Write(p, s, v) && t == Select(p, s, v.cursor)
  }

  /** The next node to fire after stage `k` left `a` is that of `t`, in stage `j`. */
  predicate Lands(k: nat, a: Regs, j: nat, t: State) {
    k < j < STAGES && Silent(k + 1, j, a) && Hits(j, a, At(t))
  }

  /** As `Lands`, but first the pass-through node `n` fires in stage `i` and leaves `b`. */
  predicate LandsVia(k: nat, a: Regs, i: nat, n: Node, b: Regs, j: nat, t: State) {
    && k < i < j < STAGES && Silent(k + 1, i, a) && Hits(i, a, n)
    && !b.done && b.view == a.view && Silent(i + 1, j, b) && Hits(j, b, At(t))
  }

  /** Either way, the machine that left stage `k` with `a` goes on as one that fires the node of `t` on `b` in `j`. */
  predicate Leaps(p: Packet, k: nat, a: Regs, j: nat, b: Regs, t: State, c: Regs) {
    && k < j < STAGES && !b.done && b.view == a.view && c == Fire(p, Micro(At(t)), b)
    && GoesOn(p, k + 1, a, j, c)
  }

  lemma Leap(p: Packet, k: nat, a: Regs, j: nat, t: State, n: Node, c: Regs)
    requires !a.done && n == At(t) && Lands(k, a, j, t) && c == Fire(p, Micro(n), a)
    ensures Leaps(p, k, a, j, a, t, c)
  {
    hide RunFrom, Match, Micro, Fire;
    Hop(p, k + 1, j, a, n, c);
  }

  lemma LeapVia(p: Packet, k: nat, a: Regs, i: nat, n: Node, b: Regs, j: nat, t: State, m: Node, c: Regs)
    requires !a.done && m == At(t) && LandsVia(k, a, i, n, b, j, t)
    requires b == Fire(p, Micro(n), a) && c == Fire(p, Micro(m), b)
    ensures Leaps(p, k, a, j, b, t, c)
  {
    hide RunFrom, Match, Micro, Fire;
    TwoHops(p, k + 1, a, i, n, b, j, m, c);
  }

  lemma RunStep(p: Packet, s: State, v: View, a: Regs, t: State)
    requires Mirrors(p, s, v, a, t)
    ensures Run(p, s, v) == Run(p, t, a.view)
  {}

  /** Firing the node of `s` does what `s` does, and the next node to fire is that of the state `s` selects. */
  predicate Leads(p: Packet, s: State, k: nat, st: Regs) {
    var a := Fire(p, Micro(At(s)), st);
    var t := if Terminal(s) then s else Select(p, s, st.view.cursor);
    && Mirrors(p, s, st.view, a, t) && Lands(k, a, Landing(s, k, t), t)
    && Enabled(p, t, Landing(s, k, t), a.view.cursor)
  }

  lemma LeadsBy(p: Packet, s: State, k: nat, st: Regs, a: Regs, t: State)
    requires !Terminal(s) && a == Fire(p, Micro(At(s)), st) && t == Select(p, s, st.view.cursor)
    requires Mirrors(p, s, st.view, a, t) && Lands(k, a, Landing(s, k, t), t)
    requires Enabled(p, t, Landing(s, k, t), a.view.cursor)
    ensures Leads(p, s, k, st)
  {}

  // ---- The match tables that decide on more than one bit pattern, against the source's selects ----

  function When(c: bool, t: State): Option<Node> { if c then Some(At(t)) else None }

  lemma GtpuTable(p: Packet, c: nat, w1: bv16, g: Side)
    ensures var t := AfterGtpu(g, Byte(p, c), Byte(p, c + 1));
      Match(if g.Outer? then 20 else 19, Le16(p, c), w1, 43, if g.Outer? then 0x5B else 0x4F) == When(!t.Pay?, t)
  {}

  lemma OptExtTable(p: Packet, c: nat, g: Side)
    ensures var t := AfterOptExt(g, Byte(p, c + 3), Byte(p, c + 5) >> 4);
      Match(if g.Outer? then 21 else 20, Le16(p, c + 3), Le16(p, c + 5), 54, if g.Outer? then 0x57 else 0x4C)
        == When(!t.ExtNotRecognized?, t)
  {}

  lemma Ext1Table(p: Packet, c: nat, w1: bv16, g: Side)
    ensures var t := AfterExt1(g, Byte(p, c));
      Match(if g.Outer? then 23 else 22, Le16(p, c), w1, 54, if g.Outer? then 0x53 else 0x48)
        == if t.ExtNotRecognized? && g.Inner? then None else Some(At(t))
  {}

  lemma TcpTable(p: Packet, c: nat, w1: bv16)
    ensures Match(17, Le16(p, c + 12), w1, 14, 0x68) == Some(At(TcpHeader(p, c)))
  {}

  // ---- One lemma a node ----

  lemma MacMaybeBcStep(p: Packet, k: nat, st: Regs)
    requires Enabled(p, MacMaybeBc, k, st.view.cursor)
    ensures Leads(p, MacMaybeBc, k, st)
  {}

  lemma MacMcStep(p: Packet, k: nat, st: Regs)
    requires Enabled(p, MacMc, k, st.view.cursor)
    ensures Leads(p, MacMc, k, st)
  {}

  lemma MacBcFires(p: Packet, st: Regs, a: Regs, t: State)
    requires a == Fire(p, Micro(At(MacBc)), st) && t == Select(p, MacBc, st.view.cursor)
    ensures Mirrors(p, MacBc, st.view, a, t)
  {}

  lemma MacBcLands(p: Packet, k: nat, st: Regs, a: Regs, t: State)
    requires a == Fire(p, Micro(At(MacBc)), st) && t == Select(p, MacBc, st.view.cursor)
    requires Enabled(p, MacBc, k, st.view.cursor)
    ensures Lands(k, a, Landing(MacBc, k, t), t) && Enabled(p, t, Landing(MacBc, k, t), a.view.cursor)
  {}

  lemma MacBcStep(p: Packet, k: nat, st: Regs)
    requires Enabled(p, MacBc, k, st.view.cursor)
    ensures Leads(p, MacBc, k, st)
  {
    hide Match, Fire, Micro, Mirrors, Lands, Leads;
    var a := Fire(p, Micro(At(MacBc)), st);
    var t := Select(p, MacBc, st.view.cursor);
    MacBcFires(p, st, a, t);
    MacBcLands(p, k, st, a, t);
    LeadsBy(p, MacBc, k, st, a, t);
  }

  lemma MacDoneFires(p: Packet, st: Regs, a: Regs, t: State)
    requires a == Fire(p, Micro(At(MacDone)), st) && t == Select(p, MacDone, st.view.cursor)
    ensures Mirrors(p, MacDone, st.view, a, t)
  {}

  lemma MacDoneLands(p: Packet, k: nat, st: Regs, a: Regs, t: State)
    requires a == Fire(p, Micro(At(MacDone)), st) && t == Select(p, MacDone, st.view.cursor)
    requires Enabled(p, MacDone, k, st.view.cursor)
    ensures Lands(k, a, Landing(MacDone, k, t), t) && Enabled(p, t, Landing(MacDone, k, t), a.view.cursor)
  {}

  lemma MacDoneStep(p: Packet, k: nat, st: Regs)
    requires Enabled(p, MacDone, k, st.view.cursor)
    ensures Leads(p, MacDone, k, st)
  {
    hide Match, Fire, Micro, Mirrors, Lands, Leads;
    var a := Fire(p, Micro(At(MacDone)), st);
    var t := Select(p, MacDone, st.view.cursor);
    MacDoneFires(p, st, a, t);
    MacDoneLands(p, k, st, a, t);
    LeadsBy(p, MacDone, k, st, a, t);
  }

  lemma CTagFires(p: Packet, st: Regs, a: Regs, t: State)
    requires a == Fire(p, Micro(At(CTag)), st) && t == Select(p, CTag, st.view.cursor)
    ensures Mirrors(p, CTag, st.view, a, t)
  {}

  lemma CTagLands(p: Packet, k: nat, st: Regs, a: Regs, t: State)
    requires a == Fire(p, Micro(At(CTag)), st) && t == Select(p, CTag, st.view.cursor)
    requires Enabled(p, CTag, k, st.view.cursor)
    ensures Lands(k, a, Landing(CTag, k, t), t) && Enabled(p, t, Landing(CTag, k, t), a.view.cursor)
  {}

  lemma CTagStep(p: Packet, k: nat, st: Regs)
    requires Enabled(p, CTag, k, st.view.cursor)
    ensures Leads(p, CTag, k, st)
  {
    hide Match, Fire, Micro, Mirrors, Lands, Leads;
    var a := Fire(p, Micro(At(CTag)), st);
    var t := Select(p, CTag, st.view.cursor);
    CTagFires(p, st, a, t);
    CTagLands(p, k, st, a, t);
    LeadsBy(p, CTag, k, st, a, t);
  }

  lemma STagFires(p: Packet, st: Regs, a: Regs, t: State)
    requires a == Fire(p, Micro(At(STag)), st) && t == Select(p, STag, st.view.cursor)
    ensures Mirrors(p, STag, st.view, a, t)
  {}

  lemma STagLands(p: Packet, k: nat, st: Regs, a: Regs, t: State)
    requires a == Fire(p, Micro(At(STag)), st) && t == Select(p, STag, st.view.cursor)
    requires Enabled(p, STag, k, st.view.cursor)
    ensures Lands(k, a, Landing(STag, k, t), t) && Enabled(p, t, Landing(STag, k, t), a.view.cursor)
  {}

  lemma STagStep(p: Packet, k: nat, st: Regs)
    requires Enabled(p, STag, k, st.view.cursor)
    ensures Leads(p, STag, k, st)
  {
    hide Match, Fire, Micro, Mirrors, Lands, Leads;
    var a := Fire(p, Micro(At(STag)), st);
    var t := Select(p, STag, st.view.cursor);
    STagFires(p, st, a, t);
    STagLands(p, k, st, a, t);
    LeadsBy(p, STag, k, st, a, t);
  }

  lemma CTagDoubleFires(p: Packet, st: Regs, a: Regs, t: State)
    requires a == Fire(p, Micro(At(CTagDouble)), st) && t == Select(p, CTagDouble, st.view.cursor)
    ensures Mirrors(p, CTagDouble, st.view, a, t)
  {}

  lemma CTagDoubleLands(p: Packet, st: Regs, a: Regs, t: State)
    requires a == Fire(p, Micro(At(CTagDouble)), st) && t == Select(p, CTagDouble, st.view.cursor)
    ensures Lands(4, a, Landing(CTagDouble, 4, t), t) && Enabled(p, t, Landing(CTagDouble, 4, t), a.view.cursor)
  {}

  lemma CTagDoubleStep(p: Packet, k: nat, st: Regs)
    requires Enabled(p, CTagDouble, k, st.view.cursor)
    ensures Leads(p, CTagDouble, k, st)
  {
    hide Match, Fire, Micro, Mirrors, Lands, Leads;
    var a := Fire(p, Micro(At(CTagDouble)), st);
    var t := Select(p, CTagDouble, st.view.cursor);
    CTagDoubleFires(p, st, a, t);
    CTagDoubleLands(p, st, a, t);
    LeadsBy(p, CTagDouble, k, st, a, t);
  }

  lemma EtypeOuterFires(p: Packet, st: Regs, a: Regs, t: State)
    requires a == Fire(p, Micro(At(Etype(D0))), st) && t == Select(p, Etype(D0), st.view.cursor)
    ensures Mirrors(p, Etype(D0), st.view, a, t)
  {}

  lemma EtypeOuterLands(p: Packet, k: nat, st: Regs, a: Regs, t: State)
    requires a == Fire(p, Micro(At(Etype(D0))), st) && t == Select(p, Etype(D0), st.view.cursor)
    requires Enabled(p, Etype(D0), k, st.view.cursor)
    ensures Lands(k, a, Landing(Etype(D0), k, t), t) && Enabled(p, t, Landing(Etype(D0), k, t), a.view.cursor)
  {}

  lemma EtypeOuterStep(p: Packet, k: nat, st: Regs)
    requires Enabled(p, Etype(D0), k, st.view.cursor)
    ensures Leads(p, Etype(D0), k, st)
  {
    hide Match, Fire, Micro, Mirrors, Lands, Leads;
    var a := Fire(p, Micro(At(Etype(D0))), st);
    var t := Select(p, Etype(D0), st.view.cursor);
    EtypeOuterFires(p, st, a, t);
    EtypeOuterLands(p, k, st, a, t);
    LeadsBy(p, Etype(D0), k, st, a, t);
  }

  lemma EtypeInnerFires(p: Packet, st: Regs, a: Regs, t: State)
    requires a == Fire(p, Micro(At(Etype(D1))), st) && t == Select(p, Etype(D1), st.view.cursor)
    ensures Mirrors(p, Etype(D1), st.view, a, t)
  {}

  lemma EtypeInnerLands(p: Packet, k: nat, st: Regs, a: Regs, t: State)
    requires a == Fire(p, Micro(At(Etype(D1))), st) && t == Select(p, Etype(D1), st.view.cursor)
    requires Enabled(p, Etype(D1), k, st.view.cursor)
    ensures Lands(k, a, Landing(Etype(D1), k, t), t) && Enabled(p, t, Landing(Etype(D1), k, t), a.view.cursor)
  {}

  lemma EtypeInnerStep(p: Packet, k: nat, st: Regs)
    requires Enabled(p, Etype(D1), k, st.view.cursor)
    ensures Leads(p, Etype(D1), k, st)
  {
    hide Match, Fire, Micro, Mirrors, Lands, Leads;
    var a := Fire(p, Micro(At(Etype(D1))), st);
    var t := Select(p, Etype(D1), st.view.cursor);
    EtypeInnerFires(p, st, a, t);
    EtypeInnerLands(p, k, st, a, t);
    LeadsBy(p, Etype(D1), k, st, a, t);
  }

  lemma Mac1Step(p: Packet, k: nat, st: Regs)
    requires Enabled(p, Mac1, k, st.view.cursor)
    ensures Leads(p, Mac1, k, st)
  {}

  lemma HdrTooShortStep(p: Packet, k: nat, st: Regs)
    requires Enabled(p, HdrTooShort, k, st.view.cursor)
    ensures Leads(p, HdrTooShort, k, st)
  {}

  lemma IPv4OuterStep(p: Packet, k: nat, st: Regs)
    requires Enabled(p, IPv4(D0), k, st.view.cursor)
    ensures Leads(p, IPv4(D0), k, st)
  {}

  lemma IPv4InnerStep(p: Packet, k: nat, st: Regs)
    requires Enabled(p, IPv4(D1), k, st.view.cursor)
    ensures Leads(p, IPv4(D1), k, st)
  {}

  lemma CheckFragOuterFires(p: Packet, st: Regs, a: Regs, t: State)
    requires a == Fire(p, Micro(At(CheckFrag(D0))), st) && t == Select(p, CheckFrag(D0), st.view.cursor)
    ensures Mirrors(p, CheckFrag(D0), st.view, a, t)
  {}

  lemma CheckFragOuterLands(p: Packet, k: nat, st: Regs, a: Regs, t: State)
    requires a == Fire(p, Micro(At(CheckFrag(D0))), st) && t == Select(p, CheckFrag(D0), st.view.cursor)
    requires Enabled(p, CheckFrag(D0), k, st.view.cursor)
    ensures Lands(k, a, Landing(CheckFrag(D0), k, t), t) && Enabled(p, t, Landing(CheckFrag(D0), k, t), a.view.cursor)
  {}

  lemma CheckFragOuterStep(p: Packet, k: nat, st: Regs)
    requires Enabled(p, CheckFrag(D0), k, st.view.cursor)
    ensures Leads(p, CheckFrag(D0), k, st)
  {
    hide Match, Fire, Micro, Mirrors, Lands, Leads;
    var a := Fire(p, Micro(At(CheckFrag(D0))), st);
    var t := Select(p, CheckFrag(D0), st.view.cursor);
    CheckFragOuterFires(p, st, a, t);
    CheckFragOuterLands(p, k, st, a, t);
    LeadsBy(p, CheckFrag(D0), k, st, a, t);
  }

  lemma CheckFragInnerFires(p: Packet, st: Regs, a: Regs, t: State)
    requires a == Fire(p, Micro(At(CheckFrag(D1))), st) && t == Select(p, CheckFrag(D1), st.view.cursor)
    ensures Mirrors(p, CheckFrag(D1), st.view, a, t)
  {}

  lemma CheckFragInnerLands(p: Packet, k: nat, st: Regs, a: Regs, t: State)
    requires a == Fire(p, Micro(At(CheckFrag(D1))), st) && t == Select(p, CheckFrag(D1), st.view.cursor)
    requires Enabled(p, CheckFrag(D1), k, st.view.cursor)
    ensures Lands(k, a, Landing(CheckFrag(D1), k, t), t) && Enabled(p, t, Landing(CheckFrag(D1), k, t), a.view.cursor)
  {}

  lemma CheckFragInnerStep(p: Packet, k: nat, st: Regs)
    requires Enabled(p, CheckFrag(D1), k, st.view.cursor)
    ensures Leads(p, CheckFrag(D1), k, st)
  {
    hide Match, Fire, Micro, Mirrors, Lands, Leads;
    var a := Fire(p, Micro(At(CheckFrag(D1))), st);
    var t := Select(p, CheckFrag(D1), st.view.cursor);
    CheckFragInnerFires(p, st, a, t);
    CheckFragInnerLands(p, k, st, a, t);
    LeadsBy(p, CheckFrag(D1), k, st, a, t);
  }

  lemma FragHeadInnerStep(p: Packet, k: nat, st: Regs)
    requires Enabled(p, FragHead(D1), k, st.view.cursor)
    ensures Leads(p, FragHead(D1), k, st)
  {}

  lemma FragFires(p: Packet, st: Regs, d: Depth, a: Regs)
    requires !d.D2? && Ihl(p, st.view.cursor) >= 5 && a == Fire(p, Micro(At(Frag(d))), st)
    ensures Mirrors(p, Frag(d), st.view, a, IpFrag) && a.s6 == 27 && a.s5 == if d.D0? then 107 else 106
  {}

  lemma FragLands(k: nat, a: Regs, d: Depth)
    requires k == (if d.D0? then 8 else 16) && a.s6 == 27 && a.s5 == if d.D0? then 107 else 106
    ensures Lands(k, a, 17, IpFrag)
  {}

  lemma FragStep(p: Packet, k: nat, st: Regs, d: Depth, s: State)
    requires s == Frag(d) && Enabled(p, s, k, st.view.cursor)
    ensures Leads(p, s, k, st)
  {
    hide Match, Fire, Micro, Mirrors, Lands, Leads;
    var a := Fire(p, Micro(At(s)), st);
    FragFires(p, st, d, a);
    FragLands(k, a, d);
    LeadsBy(p, s, k, st, a, IpFrag);
  }

  lemma IpFragStep(p: Packet, k: nat, st: Regs)
    requires Enabled(p, IpFrag, k, st.view.cursor)
    ensures Leads(p, IpFrag, k, st)
  {}

  lemma TcpFires(p: Packet, st: Regs, a: Regs, t: State)
    requires a == Fire(p, Micro(At(Tcp)), st) && t == Select(p, Tcp, st.view.cursor)
    ensures Mirrors(p, Tcp, st.view, a, t)
  {}

  lemma TcpLands(p: Packet, k: nat, st: Regs, a: Regs, t: State)
    requires a == Fire(p, Micro(At(Tcp)), st) && t == Select(p, Tcp, st.view.cursor)
    requires Enabled(p, Tcp, k, st.view.cursor)
    ensures Lands(k, a, Landing(Tcp, k, t), t) && Enabled(p, t, Landing(Tcp, k, t), a.view.cursor)
  { TcpTable(p, st.view.cursor, st.w1); }

  lemma TcpStep(p: Packet, k: nat, st: Regs)
    requires Enabled(p, Tcp, k, st.view.cursor)
    ensures Leads(p, Tcp, k, st)
  {
    hide Match, Fire, Micro, Mirrors, Lands, Leads;
    var a := Fire(p, Micro(At(Tcp)), st);
    var t := Select(p, Tcp, st.view.cursor);
    TcpFires(p, st, a, t);
    TcpLands(p, k, st, a, t);
    LeadsBy(p, Tcp, k, st, a, t);
  }

  lemma TcpRstStep(p: Packet, k: nat, st: Regs)
    requires Enabled(p, TcpRst, k, st.view.cursor)
    ensures Leads(p, TcpRst, k, st)
  {}

  lemma TcpAckStep(p: Packet, k: nat, st: Regs)
    requires Enabled(p, TcpAck, k, st.view.cursor)
    ensures Leads(p, TcpAck, k, st)
  {}

  lemma TcpRstAckStep(p: Packet, k: nat, st: Regs)
    requires Enabled(p, TcpRstAck, k, st.view.cursor)
    ensures Leads(p, TcpRstAck, k, st)
  {}

  lemma UdpOuterFires(p: Packet, st: Regs, a: Regs)
    requires a == Fire(p, Micro(At(Udp(D0))), st)
    ensures Mirrors(p, Udp(D0), st.view, a, Select(p, Udp(D0), st.view.cursor))
  {}

  lemma UdpOuterLands(p: Packet, st: Regs, a: Regs, t: State)
    requires a == Fire(p, Micro(At(Udp(D0))), st) && t == Select(p, Udp(D0), st.view.cursor)
    ensures Lands(9, a, Landing(Udp(D0), 9, t), t) && Enabled(p, t, Landing(Udp(D0), 9, t), a.view.cursor)
  {}

  lemma UdpOuterStep(p: Packet, k: nat, st: Regs)
    requires Enabled(p, Udp(D0), k, st.view.cursor)
    ensures Leads(p, Udp(D0), k, st)
  {
    hide Match, Fire, Micro, Mirrors, Lands, Leads;
    var a := Fire(p, Micro(At(Udp(D0))), st);
    var t := Select(p, Udp(D0), st.view.cursor);
    UdpOuterFires(p, st, a);
    UdpOuterLands(p, st, a, t);
    LeadsBy(p, Udp(D0), k, st, a, t);
  }

  lemma UdpInnerFires(p: Packet, st: Regs, a: Regs, t: State)
    requires a == Fire(p, Micro(At(Udp(D1))), st) && t == Select(p, Udp(D1), st.view.cursor)
    ensures Mirrors(p, Udp(D1), st.view, a, t)
  {}

  lemma UdpInnerLands(p: Packet, k: nat, st: Regs, a: Regs, t: State)
    requires a == Fire(p, Micro(At(Udp(D1))), st) && t == Select(p, Udp(D1), st.view.cursor)
    requires Enabled(p, Udp(D1), k, st.view.cursor)
    ensures Lands(k, a, Landing(Udp(D1), k, t), t) && Enabled(p, t, Landing(Udp(D1), k, t), a.view.cursor)
  {}

  lemma UdpInnerStep(p: Packet, k: nat, st: Regs)
    requires Enabled(p, Udp(D1), k, st.view.cursor)
    ensures Leads(p, Udp(D1), k, st)
  {
    hide Match, Fire, Micro, Mirrors, Lands, Leads;
    var a := Fire(p, Micro(At(Udp(D1))), st);
    var t := Select(p, Udp(D1), st.view.cursor);
    UdpInnerFires(p, st, a, t);
    UdpInnerLands(p, k, st, a, t);
    LeadsBy(p, Udp(D1), k, st, a, t);
  }

  lemma VxlanStep(p: Packet, k: nat, st: Regs)
    requires Enabled(p, Vxlan, k, st.view.cursor)
    ensures Leads(p, Vxlan, k, st)
  {}

  lemma GtpuOptNoExtStep(p: Packet, k: nat, st: Regs)
    requires Enabled(p, GtpuOptNoExt, k, st.view.cursor)
    ensures Leads(p, GtpuOptNoExt, k, st)
  {}

  lemma GtpuOptKeepOuterStep(p: Packet, k: nat, st: Regs)
    requires Enabled(p, GtpuOptKeep(Outer), k, st.view.cursor)
    ensures Leads(p, GtpuOptKeep(Outer), k, st)
  {}

  lemma GtpuOptKeepInnerStep(p: Packet, k: nat, st: Regs)
    requires Enabled(p, GtpuOptKeep(Inner), k, st.view.cursor)
    ensures Leads(p, GtpuOptKeep(Inner), k, st)
  {}

  lemma GtpuCheckIpVerOuterStep(p: Packet, k: nat, st: Regs)
    requires Enabled(p, GtpuCheckIpVer(Outer), k, st.view.cursor)
    ensures Leads(p, GtpuCheckIpVer(Outer), k, st)
  {}

  lemma GtpuCheckIpVerInnerStep(p: Packet, k: nat, st: Regs)
    requires Enabled(p, GtpuCheckIpVer(Inner), k, st.view.cursor)
    ensures Leads(p, GtpuCheckIpVer(Inner), k, st)
  {}

  lemma Ext1Type0Fires(p: Packet, st: Regs, g: Side, a: Regs)
    requires a == Fire(p, Micro(At(Ext1Type0(g))), st)
    ensures Mirrors(p, Ext1Type0(g), st.view, a, Ext1Next(g)) && a.s6 == if g.Outer? then 50 else 44
  {}

  lemma Ext1Type1Fires(p: Packet, st: Regs, g: Side, a: Regs)
    requires a == Fire(p, Micro(At(Ext1Type1(g))), st)
    ensures Mirrors(p, Ext1Type1(g), st.view, a, Ext1Next(g)) && a.s6 == if g.Outer? then 50 else 44
  {}

  lemma Ext1PlainFires(p: Packet, st: Regs, g: Side, a: Regs)
    requires a == Fire(p, Micro(At(Ext1(g))), st)
    ensures Mirrors(p, Ext1(g), st.view, a, Ext1Next(g)) && a.s6 == if g.Outer? then 50 else 44
  {}

  lemma Ext1Lands(k: nat, a: Regs, g: Side)
    requires k == (if g.Outer? then 21 else 20) && a.s6 == if g.Outer? then 50 else 44
    ensures Lands(k, a, k + 1, Ext1Next(g))
  {}

  lemma Ext1Step(p: Packet, k: nat, st: Regs, g: Side, s: State)
    requires (s == Ext1Type0(g) || s == Ext1Type1(g) || s == Ext1(g)) && Enabled(p, s, k, st.view.cursor)
    ensures Leads(p, s, k, st)
  {
    hide Match, Fire, Micro, Mirrors, Lands, Leads;
    var a := Fire(p, Micro(At(s)), st);
    if s.Ext1Type0? {
      Ext1Type0Fires(p, st, g, a);
    } else if s.Ext1Type1? {
      Ext1Type1Fires(p, st, g, a);
    } else {
      Ext1PlainFires(p, st, g, a);
    }
    Ext1Lands(k, a, g);
    LeadsBy(p, s, k, st, a, Ext1Next(g));
  }

  lemma ExtLastFires(p: Packet, st: Regs, g: Side, a: Regs)
    requires a == Fire(p, Micro(At(ExtLast(g))), st)
    ensures Mirrors(p, ExtLast(g), st.view, a, ExtLastNext(g)) && a.s6 == if g.Outer? then 55 else 53
  {}

  lemma ExtLastLands(k: nat, a: Regs, g: Side)
    requires k == (if g.Outer? then 23 else 22) && a.s6 == if g.Outer? then 55 else 53
    ensures Lands(k, a, k + 1, ExtLastNext(g))
  {}

  lemma ExtLastStep(p: Packet, k: nat, st: Regs, g: Side, s: State)
    requires s == ExtLast(g) && Enabled(p, s, k, st.view.cursor)
    ensures Leads(p, s, k, st)
  {
    hide Match, Fire, Micro, Mirrors, Lands, Leads;
    var a := Fire(p, Micro(At(s)), st);
    ExtLastFires(p, st, g, a);
    ExtLastLands(k, a, g);
    LeadsBy(p, s, k, st, a, ExtLastNext(g));
  }

  lemma ExtLastNextOuterStep(p: Packet, k: nat, st: Regs)
    requires Enabled(p, ExtLastNext(Outer), k, st.view.cursor)
    ensures Leads(p, ExtLastNext(Outer), k, st)
  {}

  lemma ExtLastNextInnerStep(p: Packet, k: nat, st: Regs)
    requires Enabled(p, ExtLastNext(Inner), k, st.view.cursor)
    ensures Leads(p, ExtLastNext(Inner), k, st)
  {}

  lemma ExtNotRecognizedStep(p: Packet, k: nat, st: Regs)
    requires Enabled(p, ExtNotRecognized, k, st.view.cursor)
    ensures Leads(p, ExtNotRecognized, k, st)
  {}

  // ---- The GTP-U nodes with wide selects: what the node leaves, then where that leads ----

  lemma GtpuFires(p: Packet, st: Regs, g: Side, a: Regs)
    requires a == Fire(p, Micro(At(Gtpu(g))), st)
    ensures Mirrors(p, Gtpu(g), st.view, a, Select(p, Gtpu(g), st.view.cursor))
    ensures Select(p, Gtpu(g), st.view.cursor) == AfterGtpu(g, Byte(p, st.view.cursor), Byte(p, st.view.cursor + 1))
    ensures a.view.cursor == st.view.cursor + 8
    ensures a.w0 == Le16(p, st.view.cursor) && a.s6 == 43 && a.s5 == if g.Outer? then 0x5B else 0x4F
  {}

  lemma GtpuOuterLands(p: Packet, k: nat, a: Regs, c: nat, t: State)
    requires t == AfterGtpu(Outer, Byte(p, c), Byte(p, c + 1)) && (k == 10 || k == 19)
    requires a.w0 == Le16(p, c) && a.s6 == 43 && a.s5 == 0x5B
    ensures Lands(k, a, Landing(Gtpu(Outer), k, t), t)
  {
    GtpuTable(p, c, a.w1, Outer);
  }

  lemma GtpuInnerLands(p: Packet, a: Regs, c: nat, t: State)
    requires t == AfterGtpu(Inner, Byte(p, c), Byte(p, c + 1))
    requires a.w0 == Le16(p, c) && a.s6 == 43 && a.s5 == 0x4F
    ensures Lands(18, a, Landing(Gtpu(Inner), 18, t), t)
  {
    GtpuTable(p, c, a.w1, Inner);
  }

  lemma GtpuEnables(p: Packet, k: nat, g: Side, c: nat, t: State, cursor: nat)
    requires t == AfterGtpu(g, Byte(p, c), Byte(p, c + 1)) && if g.Outer? then k == 10 || k == 19 else k == 18
    ensures Enabled(p, t, Landing(Gtpu(g), k, t), cursor)
  {}

  lemma GtpuStep(p: Packet, k: nat, st: Regs, g: Side, s: State)
    requires s == Gtpu(g) && Enabled(p, s, k, st.view.cursor)
    ensures Leads(p, s, k, st)
  {
    hide Match, Fire, Micro, Mirrors, Lands, Leads;
    var a := Fire(p, Micro(At(s)), st);
    var t := Select(p, s, st.view.cursor);
    GtpuFires(p, st, g, a);
    if g.Outer? { GtpuOuterLands(p, k, a, st.view.cursor, t); } else { GtpuInnerLands(p, a, st.view.cursor, t); }
    GtpuEnables(p, k, g, st.view.cursor, t, a.view.cursor);
    LeadsBy(p, s, k, st, a, t);
  }

  lemma OptExtFires(p: Packet, st: Regs, g: Side, a: Regs)
    requires a == Fire(p, Micro(At(GtpuOptExt(g))), st)
    ensures Mirrors(p, GtpuOptExt(g), st.view, a, Select(p, GtpuOptExt(g), st.view.cursor))
    ensures Select(p, GtpuOptExt(g), st.view.cursor)
         == AfterOptExt(g, Byte(p, st.view.cursor + 3), Byte(p, st.view.cursor + 5) >> 4)
    ensures a.w0 == Le16(p, st.view.cursor + 3) && a.w1 == Le16(p, st.view.cursor + 5)
    ensures a.s6 == 54 && a.s5 == if g.Outer? then 0x57 else 0x4C
  {}

  lemma OptExtLands(p: Packet, k: nat, a: Regs, g: Side, c: nat, t: State)
    requires t == AfterOptExt(g, Byte(p, c + 3), Byte(p, c + 5) >> 4)
    requires a.w0 == Le16(p, c + 3) && a.w1 == Le16(p, c + 5) && a.s6 == 54 && a.s5 == if g.Outer? then 0x57 else 0x4C
    requires k == if g.Outer? then 20 else 19
    ensures Lands(k, a, Landing(GtpuOptExt(g), k, t), t) && Enabled(p, t, Landing(GtpuOptExt(g), k, t), a.view.cursor)
  {
    OptExtTable(p, c, g);
  }

  lemma OptExtStep(p: Packet, k: nat, st: Regs, g: Side)
    requires Enabled(p, GtpuOptExt(g), k, st.view.cursor)
    ensures Leads(p, GtpuOptExt(g), k, st)
  {
    hide Match, Fire, Micro, Mirrors, Lands, Leads;
    var a := Fire(p, Micro(At(GtpuOptExt(g))), st);
    var t := Select(p, GtpuOptExt(g), st.view.cursor);
    OptExtFires(p, st, g, a);
    OptExtLands(p, k, a, g, st.view.cursor, t);
    LeadsBy(p, GtpuOptExt(g), k, st, a, t);
  }

  lemma Ext1NextFires(p: Packet, st: Regs, g: Side, a: Regs)
    requires a == Fire(p, Micro(At(Ext1Next(g))), st)
    ensures Mirrors(p, Ext1Next(g), st.view, a, Select(p, Ext1Next(g), st.view.cursor))
    ensures Select(p, Ext1Next(g), st.view.cursor) == AfterExt1(g, Byte(p, st.view.cursor))
    ensures a.w0 == Le16(p, st.view.cursor) && a.s6 == 54 && a.s5 == if g.Outer? then 0x53 else 0x48
  {}

  lemma Ext1NextLands(p: Packet, k: nat, a: Regs, g: Side, c: nat, t: State)
    requires t == AfterExt1(g, Byte(p, c))
    requires a.w0 == Le16(p, c) && a.s6 == 54 && a.s5 == if g.Outer? then 0x53 else 0x48
    requires k == if g.Outer? then 22 else 21
    ensures Lands(k, a, Landing(Ext1Next(g), k, t), t) && Enabled(p, t, Landing(Ext1Next(g), k, t), a.view.cursor)
  {
    Ext1Table(p, c, a.w1, g);
  }

  lemma Ext1NextStep(p: Packet, k: nat, st: Regs, g: Side)
    requires Enabled(p, Ext1Next(g), k, st.view.cursor)
    ensures Leads(p, Ext1Next(g), k, st)
  {
    hide Match, Fire, Micro, Mirrors, Lands, Leads;
    var a := Fire(p, Micro(At(Ext1Next(g))), st);
    var t := Select(p, Ext1Next(g), st.view.cursor);
    Ext1NextFires(p, st, g, a);
    Ext1NextLands(p, k, a, g, st.view.cursor, t);
    LeadsBy(p, Ext1Next(g), k, st, a, t);
  }

  // ---- States whose successor may fire behind a pass-through node ----

  lemma ProtoTable(p: Packet, c: nat, w1: bv16, d: Depth)
    requires !d.D2?
    ensures var b := Byte(p, c);
      Match(if d.D0? then 8 else 16, Le16(p, c), w1, 23, if d.D0? then 0x6F else 0x6E)
        == if b == IP_PROTO_UDP then Some(UdpDelay(d)) else if b == IP_PROTO_TCP then Some(At(Tcp))
           else if d.D0? then None else Some(PayDelay)
    ensures Match(16, Le16(p, c), w1, 23, 0x6F) == Some(PayDelay)
  {}

  lemma NextProtoFires(p: Packet, st: Regs, d: Depth, a: Regs)
    requires !d.D2? && Ihl(p, st.view.cursor) >= 5 && a == Fire(p, Micro(At(NextProto(d))), st)
    ensures Mirrors(p, NextProto(d), st.view, a, AfterIpv4(d, Byte(p, st.view.cursor + 9)))
    ensures a.w0 == Le16(p, st.view.cursor + 9) && a.s6 == 23 && a.s5 == if d.D0? then 0x6F else 0x6E
  {}

  lemma UdpVia(p: Packet, k: nat, a: Regs, d: Depth) returns (b: Regs)
    requires !d.D2? && k == (if d.D0? then 7 else 15) && a.s6 == 23 && Hits(k + 1, a, UdpDelay(d)) && !a.done
    ensures b == Fire(p, Micro(UdpDelay(d)), a) && LandsVia(k, a, k + 1, UdpDelay(d), b, k + 2, Udp(d))
  {
    PassThrough(p, UdpDelay(d), a);
    b := Passed(UdpDelay(d), a);
  }

  lemma PayVia(p: Packet, k: nat, a: Regs) returns (b: Regs)
    requires k < 16 && a.s6 == 23 && Silent(k + 1, 16, a) && Hits(16, a, PayDelay) && !a.done
    ensures b == Fire(p, Micro(PayDelay), a) && LandsVia(k, a, 16, PayDelay, b, 25, Pay)
  {
    PassThrough(p, PayDelay, a);
    b := Passed(PayDelay, a);
  }

  lemma NextProtoLeaps(p: Packet, k: nat, a: Regs, d: Depth, c: nat, t: State) returns (j: nat, b: Regs, x: Regs)
    requires !d.D2? && k == (if d.D0? then 7 else 15) && !a.done && t == AfterIpv4(d, Byte(p, c))
    requires a.w0 == Le16(p, c) && a.s6 == 23 && a.s5 == if d.D0? then 0x6F else 0x6E
    ensures Leaps(p, k, a, j, b, t, x) && Enabled(p, t, j, a.view.cursor)
  {
    ProtoTable(p, c, a.w1, d);
    if t.Tcp? {
      j, b := k + 1, a;
      x := Fire(p, Micro(At(Tcp)), a);
      Leap(p, k, a, j, Tcp, At(Tcp), x);
    } else if t.Udp? {
      j := k + 2;
      b := UdpVia(p, k, a, d);
      x := Fire(p, Micro(At(Udp(d))), b);
      LeapVia(p, k, a, k + 1, UdpDelay(d), b, j, Udp(d), At(Udp(d)), x);
    } else {
      j := 25;
      b := PayVia(p, k, a);
      x := Fire(p, Micro(At(Pay)), b);
      LeapVia(p, k, a, 16, PayDelay, b, j, Pay, At(Pay), x);
    }
  }

  lemma TcpFlagsTable(p: Packet, c: nat)
    ensures Match(18, Le16(p, c + 13), Le16(p, c + 2), 29, 0x67)
         == Some(match AfterTcp(p, c) case TcpPay => TcpPayDelay case Gtpu(_) => GtpuDelay case t => At(t))
  {}

  lemma TcpFlagsFires(p: Packet, st: Regs, s: State, a: Regs)
    requires IsTcpFlags(s) && DataOffset(p, st.view.cursor) >= 5 && a == Fire(p, Micro(At(s)), st)
    ensures Mirrors(p, s, st.view, a, AfterTcp(p, st.view.cursor))
  {}

  lemma TcpFlagsLoads(p: Packet, st: Regs, s: State, a: Regs)
    requires IsTcpFlags(s) && a == Fire(p, Micro(At(s)), st)
    ensures a.w0 == Le16(p, st.view.cursor + 13) && a.w1 == Le16(p, st.view.cursor + 2) && a.s6 == 29 && a.s5 == 0x67
  {}

  lemma TcpPayVia(p: Packet, a: Regs) returns (b: Regs)
    requires Hits(18, a, TcpPayDelay) && !a.done
    ensures b == Fire(p, Micro(TcpPayDelay), a) && LandsVia(17, a, 18, TcpPayDelay, b, 19, TcpPay)
  {
    PassThrough(p, TcpPayDelay, a);
    b := Passed(TcpPayDelay, a);
  }

  lemma GtpuVia(p: Packet, a: Regs) returns (b: Regs)
    requires Hits(18, a, GtpuDelay) && !a.done
    ensures b == Fire(p, Micro(GtpuDelay), a) && LandsVia(17, a, 18, GtpuDelay, b, 19, Gtpu(Outer))
  {
    PassThrough(p, GtpuDelay, a);
    b := Passed(GtpuDelay, a);
  }

  /** Loads of the TCP flag nodes, which stage 18 decides on. */
  predicate TcpFlagsLoaded(p: Packet, a: Regs, c: nat) {
    a.w0 == Le16(p, c + 13) && a.w1 == Le16(p, c + 2) && a.s6 == 29 && a.s5 == 0x67 && !a.done
  }

  lemma TcpPayLeaps(p: Packet, a: Regs, c: nat) returns (b: Regs, x: Regs)
    requires TcpFlagsLoaded(p, a, c) && AfterTcp(p, c) == TcpPay
    ensures Leaps(p, 17, a, 19, b, TcpPay, x) && Enabled(p, TcpPay, 19, a.view.cursor)
  {
    TcpFlagsTable(p, c);
    b := TcpPayVia(p, a);
    x := Fire(p, Micro(At(TcpPay)), b);
    LeapVia(p, 17, a, 18, TcpPayDelay, b, 19, TcpPay, At(TcpPay), x);
  }

  lemma TcpGtpuLeaps(p: Packet, a: Regs, c: nat) returns (b: Regs, x: Regs)
    requires TcpFlagsLoaded(p, a, c) && AfterTcp(p, c) == Gtpu(Outer)
    ensures Leaps(p, 17, a, 19, b, Gtpu(Outer), x) && Enabled(p, Gtpu(Outer), 19, a.view.cursor)
  {
    TcpFlagsTable(p, c);
    b := GtpuVia(p, a);
    x := Fire(p, Micro(At(Gtpu(Outer))), b);
    LeapVia(p, 17, a, 18, GtpuDelay, b, 19, Gtpu(Outer), At(Gtpu(Outer)), x);
  }

  lemma TcpDirectLeaps(p: Packet, a: Regs, c: nat, t: State) returns (x: Regs)
    requires TcpFlagsLoaded(p, a, c) && AfterTcp(p, c) == t && !t.TcpPay? && !t.Gtpu?
    ensures Leaps(p, 17, a, 18, a, t, x) && Enabled(p, t, 18, a.view.cursor)
  {
    TcpFlagsTable(p, c);
    x := Fire(p, Micro(At(t)), a);
    Leap(p, 17, a, 18, t, At(t), x);
  }

  lemma TcpFlagsLeaps(p: Packet, a: Regs, c: nat, t: State) returns (j: nat, b: Regs, x: Regs)
    requires TcpFlagsLoaded(p, a, c) && t == AfterTcp(p, c)
    ensures Leaps(p, 17, a, j, b, t, x) && Enabled(p, t, j, a.view.cursor)
  {
    if t.TcpPay? {
      j := 19;
      b, x := TcpPayLeaps(p, a, c);
    } else if t.Gtpu? {
      j := 19;
      assert t == Gtpu(Outer);
      b, x := TcpGtpuLeaps(p, a, c);
    } else {
      j, b := 18, a;
      x := TcpDirectLeaps(p, a, c, t);
    }
  }

  lemma TcpFlagsStep(p: Packet, s: State, k: nat, st: Regs, a: Regs) returns (t: State, j: nat, b: Regs, x: Regs)
    requires IsTcpFlags(s) && Enabled(p, s, k, st.view.cursor) && a == Fire(p, Micro(At(s)), st)
    ensures Leaps(p, k, a, j, b, t, x) && Run(p, s, st.view) == Run(p, t, b.view) && Enabled(p, t, j, b.view.cursor)
  {
    var c := st.view.cursor;
    TcpFlagsFires(p, st, s, a);
    TcpFlagsLoads(p, st, s, a);
    t := AfterTcp(p, c);
    j, b, x := TcpFlagsLeaps(p, a, c, t);
    RunStep(p, s, st.view, a, t);
  }

  lemma NextProtoStep(p: Packet, d: Depth, k: nat, st: Regs, a: Regs) returns (t: State, j: nat, b: Regs, x: Regs)
    requires Enabled(p, NextProto(d), k, st.view.cursor) && a == Fire(p, Micro(At(NextProto(d))), st)
    ensures Leaps(p, k, a, j, b, t, x) && Run(p, NextProto(d), st.view) == Run(p, t, b.view)
    ensures Enabled(p, t, j, b.view.cursor)
  {
    var c := st.view.cursor + 9;
    NextProtoFires(p, st, d, a);
    t := AfterIpv4(d, Byte(p, c));
    j, b, x := NextProtoLeaps(p, k, a, d, c, t);
    RunStep(p, NextProto(d), st.view, a, t);
  }

  // ---- Every state that leads on directly ----

  lemma EnabledDepth(p: Packet, s: State, k: nat, c: nat)
    requires Enabled(p, s, k, c)
    ensures !s.Mac2? && s != Etype(D2) && s != IPv4(D2) && s != CheckFrag(D2)
    ensures s != FragHead(D2) && s != Frag(D2) && s != Udp(D2)
  {}

  lemma EthernetStep(p: Packet, s: State, k: nat, st: Regs)
    requires IsEthernet(s) && !s.Start? && !s.Arp? && Enabled(p, s, k, st.view.cursor)
    ensures Leads(p, s, k, st)
  {
    hide Leads, Enabled;
    EnabledDepth(p, s, k, st.view.cursor);
    match s
    case MacMaybeBc => MacMaybeBcStep(p, k, st);
    case MacMc => MacMcStep(p, k, st);
    case MacBc => MacBcStep(p, k, st);
    case MacDone => MacDoneStep(p, k, st);
    case CTag => CTagStep(p, k, st);
    case STag => STagStep(p, k, st);
    case CTagDouble => CTagDoubleStep(p, k, st);
    case Etype(d) => if d.D0? { EtypeOuterStep(p, k, st); } else { EtypeInnerStep(p, k, st); }
    case Mac1 => Mac1Step(p, k, st);
    case HdrTooShort => HdrTooShortStep(p, k, st);
  }

  lemma Ipv4Step(p: Packet, s: State, k: nat, st: Regs)
    requires IsIpv4(s) && !s.NextProto? && s != FragHead(D0) && Enabled(p, s, k, st.view.cursor)
    ensures Leads(p, s, k, st)
  {
    hide Leads, Enabled;
    EnabledDepth(p, s, k, st.view.cursor);
    match s
    case IPv4(d) => if d.D0? { IPv4OuterStep(p, k, st); } else { IPv4InnerStep(p, k, st); }
    case CheckFrag(d) => if d.D0? { CheckFragOuterStep(p, k, st); } else { CheckFragInnerStep(p, k, st); }
    case FragHead(d) =>
      assert d == D1;
      FragHeadInnerStep(p, k, st);
    case Frag(d) => FragStep(p, k, st, d, s);
    case IpFrag => IpFragStep(p, k, st);
  }

  lemma TransportStep(p: Packet, s: State, k: nat, st: Regs)
    requires IsTransport(s) && !IsTcpFlags(s) && Enabled(p, s, k, st.view.cursor)
    ensures Leads(p, s, k, st)
  {
    hide Leads, Enabled;
    EnabledDepth(p, s, k, st.view.cursor);
    match s
    case Tcp => TcpStep(p, k, st);
    case TcpRst => TcpRstStep(p, k, st);
    case TcpAck => TcpAckStep(p, k, st);
    case TcpRstAck => TcpRstAckStep(p, k, st);
    case Udp(d) => if d.D0? { UdpOuterStep(p, k, st); } else { UdpInnerStep(p, k, st); }
    case Vxlan => VxlanStep(p, k, st);
  }

  lemma GtpuOuterStep(p: Packet, s: State, k: nat, st: Regs)
    requires s == Gtpu(Outer) || s == GtpuOptKeep(Outer) || s == GtpuCheckIpVer(Outer) || s == GtpuOptExt(Outer)
          || s == Ext1Type0(Outer) || s == Ext1Type1(Outer) || s == Ext1(Outer) || s == Ext1Next(Outer)
          || s == ExtLast(Outer) || s == ExtLastNext(Outer)
    requires Enabled(p, s, k, st.view.cursor)
    ensures Leads(p, s, k, st)
  {
    hide Leads;
    match s
    case Gtpu(_) => GtpuStep(p, k, st, Outer, s);
    case GtpuOptKeep(_) => GtpuOptKeepOuterStep(p, k, st);
    case GtpuCheckIpVer(_) => GtpuCheckIpVerOuterStep(p, k, st);
    case GtpuOptExt(_) => OptExtStep(p, k, st, Outer);
    case Ext1Type0(_) => Ext1Step(p, k, st, Outer, s);
    case Ext1Type1(_) => Ext1Step(p, k, st, Outer, s);
    case Ext1(_) => Ext1Step(p, k, st, Outer, s);
    case Ext1Next(_) => Ext1NextStep(p, k, st, Outer);
    case ExtLast(_) => ExtLastStep(p, k, st, Outer, s);
    case ExtLastNext(_) => ExtLastNextOuterStep(p, k, st);
  }

  lemma GtpuInnerStep(p: Packet, s: State, k: nat, st: Regs)
    requires s == Gtpu(Inner) || s == GtpuOptKeep(Inner) || s == GtpuCheckIpVer(Inner) || s == GtpuOptExt(Inner)
          || s == Ext1Type0(Inner) || s == Ext1Type1(Inner) || s == Ext1(Inner) || s == Ext1Next(Inner)
          || s == ExtLast(Inner) || s == ExtLastNext(Inner)
    requires Enabled(p, s, k, st.view.cursor)
    ensures Leads(p, s, k, st)
  {
    hide Leads;
    match s
    case Gtpu(_) => GtpuStep(p, k, st, Inner, s);
    case GtpuOptKeep(_) => GtpuOptKeepInnerStep(p, k, st);
    case GtpuCheckIpVer(_) => GtpuCheckIpVerInnerStep(p, k, st);
    case GtpuOptExt(_) => OptExtStep(p, k, st, Inner);
    case Ext1Type0(_) => Ext1Step(p, k, st, Inner, s);
    case Ext1Type1(_) => Ext1Step(p, k, st, Inner, s);
    case Ext1(_) => Ext1Step(p, k, st, Inner, s);
    case Ext1Next(_) => Ext1NextStep(p, k, st, Inner);
    case ExtLast(_) => ExtLastStep(p, k, st, Inner, s);
    case ExtLastNext(_) => ExtLastNextInnerStep(p, k, st);
  }

  lemma FragHeadRun(p: Packet, v: View)
    ensures Run(p, FragHead(D0), v) == Run(p, Frag(D0), v.Set(PFLAG_9))
  {}

  lemma FragRun(p: Packet, v: View)
    ensures Run(p, Frag(D0), v) == Run(p, IpFrag, ExtractIpv4(p, D0, v))
  {}

  lemma IpFragRun(p: Packet, v: View)
    ensures Run(p, IpFrag, v) == Run(p, Pay, v.Set(PFLAG_9))
  {}

  /** FragHead of the outer layer sets a flag the compiled node does not: the state IpFrag, which always follows,
      sets it anyway. */
  lemma FragHeadOuterDrops(p: Packet, v: View)
    ensures Run(p, FragHead(D0), v) == Run(p, Frag(D0), v)
  {
    hide Run;
    var w := v.Set(PFLAG_9);
    var x, y := ExtractIpv4(p, D0, w), ExtractIpv4(p, D0, v);
    FragHeadRun(p, v);
    FragRun(p, v);
    FragRun(p, w);
    IpFragRun(p, x);
    IpFragRun(p, y);
    assert x.Set(PFLAG_9) == y.Set(PFLAG_9);
  }

  lemma FragHeadOuterFires(p: Packet, k: nat, st: Regs, a: Regs)
    requires Enabled(p, FragHead(D0), k, st.view.cursor) && a == Fire(p, Micro(At(FragHead(D0))), st)
    ensures !a.done && a.view == st.view && Lands(k, a, 8, Frag(D0)) && Enabled(p, Frag(D0), 8, a.view.cursor)
  {}

  lemma FragHeadOuterStep(p: Packet, k: nat, st: Regs, a: Regs) returns (c: Regs)
    requires Enabled(p, FragHead(D0), k, st.view.cursor) && a == Fire(p, Micro(At(FragHead(D0))), st)
    ensures Leaps(p, k, a, 8, a, Frag(D0), c) && Run(p, FragHead(D0), st.view) == Run(p, Frag(D0), a.view)
    ensures Enabled(p, Frag(D0), 8, a.view.cursor)
  {
    FragHeadOuterFires(p, k, st, a);
    FragHeadOuterDrops(p, st.view);
    c := Fire(p, Micro(At(Frag(D0))), a);
    Leap(p, k, a, 8, Frag(D0), At(Frag(D0)), c);
  }

  lemma DirectStep(p: Packet, s: State, k: nat, st: Regs)
    requires !Terminal(s) && !s.Arp? && s != FragHead(D0) && !s.NextProto? && !IsTcpFlags(s)
    requires Enabled(p, s, k, st.view.cursor)
    ensures Leads(p, s, k, st)
  {
    hide Leads;
    if IsEthernet(s) { EthernetStep(p, s, k, st); }
    else if IsIpv4(s) { Ipv4Step(p, s, k, st); }
    else if IsTransport(s) { TransportStep(p, s, k, st); }
    else if s.GtpuOptNoExt? { GtpuOptNoExtStep(p, k, st); }
    else if s.ExtNotRecognized? { ExtNotRecognizedStep(p, k, st); }
    else if s.g.Outer? { GtpuOuterStep(p, s, k, st); }
    else { GtpuInnerStep(p, s, k, st); }
  }

  lemma DirectLeap(p: Packet, s: State, k: nat, st: Regs, a: Regs) returns (t: State, j: nat, c: Regs)
    requires !Terminal(s) && !s.Arp? && s != FragHead(D0) && !s.NextProto? && !IsTcpFlags(s)
    requires Enabled(p, s, k, st.view.cursor) && a == Fire(p, Micro(At(s)), st)
    ensures Leaps(p, k, a, j, a, t, c) && Run(p, s, st.view) == Run(p, t, a.view) && Enabled(p, t, j, a.view.cursor)
  {
    DirectStep(p, s, k, st);
    t := Select(p, s, st.view.cursor);
    j := Landing(s, k, t);
    c := Fire(p, Micro(At(t)), a);
    Leap(p, k, a, j, t, At(t), c);
    RunStep(p, s, st.view, a, t);
  }

  /** One step of the simulation. */
  lemma OneStep(p: Packet, s: State, k: nat, st: Regs, a: Regs) returns (t: State, j: nat, b: Regs, c: Regs)
    requires !Terminal(s) && !s.Arp? && Enabled(p, s, k, st.view.cursor) && a == Fire(p, Micro(At(s)), st)
    ensures Leaps(p, k, a, j, b, t, c) && Run(p, s, st.view) == Run(p, t, b.view) && Enabled(p, t, j, b.view.cursor)
  {
    if s == FragHead(D0) {
      t, j, b := Frag(D0), 8, a;
      c := FragHeadOuterStep(p, k, st, a);
    } else if s.NextProto? {
      t, j, b, c := NextProtoStep(p, s.d, k, st, a);
    } else if IsTcpFlags(s) {
      t, j, b, c := TcpFlagsStep(p, s, k, st, a);
    } else {
      b := a;
      t, j, c := DirectLeap(p, s, k, st, a);
    }
  }

  /** The node of an accepting state, or of ARP, stops the machine in agreement with the source. */
  lemma Stops(p: Packet, s: State, k: nat, st: Regs, a: Regs)
    requires Terminal(s) || s.Arp?
    requires Enabled(p, s, k, st.view.cursor) && a == Fire(p, Micro(At(s)), st)
    ensures var (t, v) := Run(p, s, st.view); Agrees(a, t, v)
  {
    if s.Arp? { assert Run(p, Arp, st.view) == Run(p, ArpPay, WriteEthernet(Arp, st.view)); }
  }

  /** The simulation: from the firing of the node of `s` both runs end in agreement. */
  lemma {:induction false} Simulates(p: Packet, s: State, k: nat, st: Regs, a: Regs)
    requires Enabled(p, s, k, st.view.cursor) && k < STAGES && a == Fire(p, Micro(At(s)), st)
    ensures var (t, v) := Run(p, s, st.view); Agrees(RunFrom(p, k + 1, a), t, v)
    decreases STAGES - k
  {
    if Terminal(s) || s.Arp? {
      Stops(p, s, k, st, a);
    } else {
      var t, j, b, c := OneStep(p, s, k, st, a);
      Simulates(p, t, j, b, c);
    }
  }

  lemma StartStep(p: Packet, a: Regs)
    requires a == Fire(p, Micro(At(Start)), INIT)
    ensures var t := Select(p, Start, 0);
      && Mirrors(p, Start, EMPTY, a, t) && Lands(0, a, if t.MacDone? then 2 else 1, t)
      && Enabled(p, t, if t.MacDone? then 2 else 1, 0)
  {}

  /** The main result: for every frame the compiled stages stop at the node, with the flags, markers, depth, header
      starts and payload start, at which the source parser accepts. */
  lemma CompiledRefinesSource(p: Packet)
    ensures var (s, v) := Parse(p); Agrees(ParseCompiled(p), s, v)
  {
    var a := Fire(p, Micro(At(Start)), INIT);
    StartStep(p, a);
    var t := Select(p, Start, 0);
    var j := if t.MacDone? then 2 else 1;
    var c := Fire(p, Micro(At(t)), a);
    Leap(p, 0, a, j, t, At(t), c);
    RunStep(p, Start, EMPTY, a, t);
    Simulates(p, t, j, a, c);
    assert Stage(p, 0, INIT) == a;
  }
}
