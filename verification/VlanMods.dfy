/** The six VLAN edits of p4files/rh_mvp.p4 on frame bytes, as the MOD profiles of p4files/rh_mvp.s lay them out, and
    what the parser makes of the result. */
module VlanMods {
  import opened Packets
  import opened IdpfParser
  import opened ParserFacts
  import opened TagFacts

  /** Tag control information: priority, drop eligibility and VLAN identifier, section 9.6 of IEEE 802.1Q. */
  datatype Tci = Tci(pcp: bv3, dei: bv1, vid: bv12)

  function TciWord(t: Tci): bv16 {
    ((t.pcp as bv16) << 13) | ((t.dei as bv16) << 12) | (t.vid as bv16)
  }

  function WordTci(w: bv16): Tci {
    Tci((w >> 13) as bv3, ((w >> 12) & 1) as bv1, (w & 0xFFF) as bv12)
  }

  function Bytes16(w: bv16): Packet { [(w >> 8) as bv8, (w & 0xFF) as bv8] }

  /** A whole tag: type and tag control information. */
  function Tag(etype: bv16, t: Tci): Packet { Bytes16(etype) + Bytes16(TciWord(t)) }

  function Insert(f: Packet, i: nat, bytes: Packet): Packet
    requires i <= |f|
  {
    f[..i] + bytes + f[i..]
  }

  function Delete(f: Packet, i: nat, n: nat): Packet
    requires i + n <= |f|
  {
    f[..i] + f[i + n..]
  }

  /** The tag found at an offset. */
  function TciAt(p: Packet, i: nat): Tci { WordTci(Be16(p, i + 2)) }

  lemma TciRoundTrip(t: Tci)
    ensures WordTci(TciWord(t)) == t
  {}

  /** The word's bits: the top three are the priority, the next is drop eligibility, the low twelve the identifier. */
  lemma TciBits(t: Tci)
    ensures var w := TciWord(t);
      && w >> 13 == t.pcp as bv16 && w & 0x1000 == (if t.dei == 1 then 0x1000 else 0) && w & 0x0FFF == t.vid as bv16
  {}

  lemma Bytes16RoundTrip(w: bv16)
    ensures ((Bytes16(w)[0] as bv16) << 8) | (Bytes16(w)[1] as bv16) == w
  {}

  lemma TagReads(p: Packet, i: nat, etype: bv16, t: Tci)
    requires i + 4 <= |p| && p[i..i + 4] == Tag(etype, t)
    ensures Be16(p, i) == etype && TciAt(p, i) == t
  {
    assert p[i] == p[i..i + 4][0] && p[i + 1] == p[i..i + 4][1];
    assert p[i + 2] == p[i..i + 4][2] && p[i + 3] == p[i..i + 4][3];
    Bytes16RoundTrip(etype);
    Bytes16RoundTrip(TciWord(t));
    TciRoundTrip(t);
  }

  lemma DeleteInserted(f: Packet, i: nat, bytes: Packet)
    requires i <= |f|
    ensures Delete(Insert(f, i, bytes), i, |bytes|) == f
  {}

  lemma InsertShifts(f: Packet, i: nat, bytes: Packet)
    requires i <= |f|
    ensures SameFrom(f, Insert(f, i, bytes), i, |bytes|)
    ensures forall k: nat :: k < i ==> Byte(Insert(f, i, bytes), k) == Byte(f, k)
    ensures Insert(f, i, bytes)[i..i + |bytes|] == bytes
  {}

  // ---- The edits, at the headers the parser recorded ----

  /** `hdrs.etype[meta.common.depth]` */
  function EtypeSlot(v: View): Header { EtypeHdr(DepthOf(v)) }

  /** The frame holds a header of `n` bytes where the parser recorded it. */
  predicate Holds(f: Packet, v: View, h: Header, n: nat) {
    h in v.hdrs && v.hdrs[h] + n <= |f|
  }

  /** The frame holds `n` bytes of `hdrs.vlan_ext[meta.common.depth]` or of `hdrs.vlan_int[meta.common.depth]`.  The
      parser extracts tags into layer 0 alone, so in a tunnel there is no such header. */
  predicate HasTag(f: Packet, v: View, h: Header, n: nat) { DepthOf(v) == D0 && Holds(f, v, h, n) }

  function PushCtag(f: Packet, v: View, c: Tci): Packet
    requires Holds(f, v, EtypeSlot(v), 0)
  {
    Insert(f, v.hdrs[EtypeSlot(v)], Tag(ETYPE_VLAN_CTAG, c))
  }

  /** Two tags before the EtherType, the service tag outermost. */
  function PushCtagStag(f: Packet, v: View, c: Tci, s: Tci): Packet
    requires Holds(f, v, EtypeSlot(v), 0)
  {
    Insert(f, v.hdrs[EtypeSlot(v)], Tag(ETYPE_VLAN_STAG, s) + Tag(ETYPE_VLAN_CTAG, c))
  }

  function PushStag(f: Packet, v: View, s: Tci): Packet
    requires HasTag(f, v, VlanExt, 0)
  {
    Insert(f, v.hdrs[VlanExt], Tag(ETYPE_VLAN_STAG, s))
  }

  /** Removes the outermost tag: the edit of both single pops. */
  function PopOuter(f: Packet, v: View): Packet
    requires HasTag(f, v, VlanExt, 4)
  {
    Delete(f, v.hdrs[VlanExt], 4)
  }

  /** Removes both tags, the inner one first so that its offset is still good. */
  function PopCtagStag(f: Packet, v: View): Packet
    requires HasTag(f, v, VlanExt, 4) && HasTag(f, v, VlanInt, 4) && v.hdrs[VlanExt] + 4 <= v.hdrs[VlanInt]
  {
    Delete(Delete(f, v.hdrs[VlanInt], 4), v.hdrs[VlanExt], 4)
  }

  // ---- Round trips through the parser ----

  /** Everything behind the tags is as it was, `delta` bytes on. */
  ghost predicate SameInside(f: Packet, g: Packet, delta: int) {
    Parse(f).0 == Parse(g).0 && Twins(Parse(f).1, Parse(g).1, delta)
  }

  /** A tunnelled frame has an inner EtherType, behind the outer MAC header and EtherType. */
  predicate Low(s: State, v: View) {
    && v.cursor >= 14
    && ((v.depth == 1 && s != Etype(D1)) || s == IPv4(D1) ==> EtypeHdr(D1) in v.hdrs)
    && (EtypeHdr(D1) in v.hdrs ==> v.hdrs[EtypeHdr(D1)] >= 14)
  }

  lemma EthernetLow(p: Packet, s: State, v: View)
    requires IsEthernet(s) && Rank(s) >= 5 && Low(s, v)
    ensures Low(SelectEthernet(p, s, v.cursor), WriteEthernet(s, v))
  {}

  lemma Ipv4Low(p: Packet, s: State, v: View)
    requires IsIpv4(s) && Low(s, v)
    ensures Low(SelectIpv4(p, s, v.cursor), WriteIpv4(p, s, v))
  {}

  lemma TransportLow(p: Packet, s: State, v: View)
    requires IsTransport(s) && Low(s, v)
    ensures Low(SelectTransport(p, s, v.cursor), WriteTransport(p, s, v))
  {}

  lemma GtpuLow(p: Packet, s: State, v: View)
    requires IsGtpu(s) && Low(s, v)
    ensures Low(SelectGtpu(p, s, v.cursor), WriteGtpu(p, s, v))
  {}

  lemma NextLow(p: Packet, c: Config)
    requires Rank(c.state) >= 5 && Low(c.state, c.view)
    ensures Low(Next(p, c).state, Next(p, c).view)
  {
    var s, v := c.state, c.view;
    if Terminal(s) {
    } else if IsEthernet(s) {
      EthernetLow(p, s, v);
    } else if IsIpv4(s) {
      Ipv4Low(p, s, v);
    } else if IsTransport(s) {
      TransportLow(p, s, v);
    } else {
      GtpuLow(p, s, v);
    }
  }

  lemma {:induction false} LowKept(p: Packet, c: Config)
    requires Rank(c.state) >= 5 && Low(c.state, c.view)
    ensures Low(Outcome(p, c).state, Outcome(p, c).view)
    decreases 25 - Rank(c.state)
  {
    if !Terminal(c.state) {
      NextLow(p, c);
      NextKeepsOutcome(p, c);
      RankIncreases(p, c.state, c.view.cursor);
      LowKept(p, Next(p, c));
    }
  }

  /** Where an edit that goes before the EtherType goes. */
  lemma EtypeSlotAt(f: Packet)
    ensures var v := Parse(f).1;
      && EtypeSlot(v) in v.hdrs
      && (v.depth == 0 ==> v.hdrs[EtypeSlot(v)] == EtypeAt(f)) && (v.depth != 0 ==> v.hdrs[EtypeSlot(v)] >= 14)
  {
    ParseFromEtype(f);
    BehindEtypeRank(f);
    LowKept(f, BehindEtype(f));
    OutcomeFacts(f);
    FrontOfParse(f);
  }

  /** The inner EtherType is recorded right behind the addresses of the inner MAC header. */
  predicate InnerMac(s: State, v: View) {
    && (Rank(s) <= 12 ==> EtypeHdr(D1) !in v.hdrs)
    && (s == Etype(D1) ==> MacHdr(D1) in v.hdrs && v.cursor == v.hdrs[MacHdr(D1)] + 12)
    && (EtypeHdr(D1) in v.hdrs ==> MacHdr(D1) in v.hdrs && v.hdrs[EtypeHdr(D1)] == v.hdrs[MacHdr(D1)] + 12)
  }

  lemma EthernetInnerMac(p: Packet, s: State, v: View)
    requires IsEthernet(s) && Rank(s) >= 5 && InnerMac(s, v)
    ensures InnerMac(SelectEthernet(p, s, v.cursor), WriteEthernet(s, v))
  {}

  lemma Ipv4InnerMac(p: Packet, s: State, v: View)
    requires IsIpv4(s) && InnerMac(s, v)
    ensures InnerMac(SelectIpv4(p, s, v.cursor), WriteIpv4(p, s, v))
  {}

  /** Transport and GTP-U states record no MAC header and no EtherType, and the one of them before the inner MAC header
      goes to it or up. */
  lemma InnerMacFrame(s: State, v: View, t: State, w: View)
    requires InnerMac(s, v) && (Rank(t) <= 12 ==> Rank(s) <= 12) && t != Etype(D1)
    requires forall h :: h == MacHdr(D1) || h == EtypeHdr(D1) ==>
      (h in w.hdrs <==> h in v.hdrs) && (h in v.hdrs ==> w.hdrs[h] == v.hdrs[h])
    ensures InnerMac(t, w)
  {
    var m, e := MacHdr(D1), EtypeHdr(D1);
    assert (m in w.hdrs <==> m in v.hdrs) && (e in w.hdrs <==> e in v.hdrs);
  }

  lemma TransportWriteInner(p: Packet, s: State, v: View)
    requires IsTransport(s)
    ensures var w := WriteTransport(p, s, v);
      forall h :: h == MacHdr(D1) || h == EtypeHdr(D1) ==>
        (h in w.hdrs <==> h in v.hdrs) && (h in v.hdrs ==> w.hdrs[h] == v.hdrs[h])
  {}

  lemma TransportSelectInner(p: Packet, s: State, c: nat)
    requires IsTransport(s)
    ensures var t := SelectTransport(p, s, c); (Rank(t) <= 12 ==> Rank(s) <= 12) && t != Etype(D1)
  {}

  lemma TransportInnerMac(p: Packet, s: State, v: View)
    requires IsTransport(s) && InnerMac(s, v)
    ensures InnerMac(SelectTransport(p, s, v.cursor), WriteTransport(p, s, v))
  {
    hide InnerMac, SelectTransport, WriteTransport, Rank;
    TransportWriteInner(p, s, v);
    TransportSelectInner(p, s, v.cursor);
    InnerMacFrame(s, v, SelectTransport(p, s, v.cursor), WriteTransport(p, s, v));
  }

  lemma GtpuWriteInner(p: Packet, s: State, v: View)
    requires IsGtpu(s)
    ensures var w := WriteGtpu(p, s, v);
      forall h :: h == MacHdr(D1) || h == EtypeHdr(D1) ==>
        (h in w.hdrs <==> h in v.hdrs) && (h in v.hdrs ==> w.hdrs[h] == v.hdrs[h])
  {}

  lemma GtpuSelectInner(p: Packet, s: State, c: nat)
    requires IsGtpu(s)
    ensures var t := SelectGtpu(p, s, c); Rank(t) > 12
  {}

  lemma GtpuInnerMac(p: Packet, s: State, v: View)
    requires IsGtpu(s) && InnerMac(s, v)
    ensures InnerMac(SelectGtpu(p, s, v.cursor), WriteGtpu(p, s, v))
  {
    hide InnerMac, SelectGtpu, WriteGtpu;
    GtpuWriteInner(p, s, v);
    GtpuSelectInner(p, s, v.cursor);
    InnerMacFrame(s, v, SelectGtpu(p, s, v.cursor), WriteGtpu(p, s, v));
  }

  lemma NextInnerMac(p: Packet, c: Config)
    requires Rank(c.state) >= 5 && InnerMac(c.state, c.view)
    ensures InnerMac(Next(p, c).state, Next(p, c).view)
  {
    hide InnerMac, SelectEthernet, WriteEthernet, SelectIpv4, WriteIpv4, SelectTransport, WriteTransport, SelectGtpu,
         WriteGtpu;
    var s, v := c.state, c.view;
    if Terminal(s) {
    } else if IsEthernet(s) {
      EthernetInnerMac(p, s, v);
    } else if IsIpv4(s) {
      Ipv4InnerMac(p, s, v);
    } else if IsTransport(s) {
      TransportInnerMac(p, s, v);
    } else {
      GtpuInnerMac(p, s, v);
    }
  }

  lemma {:induction false} InnerMacKept(p: Packet, c: Config)
    requires Rank(c.state) >= 5 && InnerMac(c.state, c.view)
    ensures InnerMac(Outcome(p, c).state, Outcome(p, c).view)
    decreases 25 - Rank(c.state)
  {
    if !Terminal(c.state) {
      NextInnerMac(p, c);
      NextKeepsOutcome(p, c);
      RankIncreases(p, c.state, c.view.cursor);
      InnerMacKept(p, Next(p, c));
    }
  }

  /** The layer's own MAC header is recorded, and its EtherType twelve bytes behind it, or behind the tags when it is
      the outer one. */
  lemma EtypeBehindMac(f: Packet)
    ensures var v := Parse(f).1; var m := MacHdr(DepthOf(v));
      && EtypeSlot(v) in v.hdrs && m in v.hdrs && (v.depth == 0 ==> v.hdrs[m] == 0)
      && (v.depth != 0 || !Tagged(f) ==> v.hdrs[EtypeSlot(v)] == v.hdrs[m] + 12)
  {
    ParseFromEtype(f);
    BehindEtypeRank(f);
    InnerMacKept(f, BehindEtype(f));
    EtypeSlotAt(f);
    FrontOfParse(f);
  }

  lemma SameHead(f: Packet, g: Packet, n: nat)
    requires n >= 14 && forall k: nat :: k < n ==> Byte(g, k) == Byte(f, k)
    ensures Be16(g, 12) == Be16(f, 12)
  {}

  lemma WordShifts(f: Packet, g: Packet, c: nat, i: nat)
    requires SameFrom(f, g, c, 4) && c <= i
    ensures Be16(g, i + 4) == Be16(f, i)
  {
    assert Byte(f, i) == Byte(g, i + 4) && Byte(f, i + 1) == Byte(g, i + 1 + 4);
  }

  /** push_ctag: on every untagged frame the reparse finds a C-tag exactly when the frame is not a tunnel; then it
      finds the configured tag and everything behind it unchanged, and pop_ctag gives the frame back.  In a tunnel the
      tag goes before the inner EtherType, where neither parser nor pop looks for it. */
  lemma PushCtagRoundTrip(f: Packet, c: Tci)
    requires !Tagged(f) && Holds(f, Parse(f).1, EtypeSlot(Parse(f).1), 0)
    ensures var v := Parse(f).1; var g := PushCtag(f, v, c); var w := Parse(g).1;
      && (VlanExt in w.hdrs <==> v.depth == 0)
      && (v.depth == 0 ==>
            && EVLAN_8100 in w.flags && STAG !in w.flags && VLAN !in w.flags
            && HasTag(g, w, VlanExt, 4) && TciAt(g, w.hdrs[VlanExt]) == c
            && SameInside(f, g, 4)
            && PopOuter(g, w) == f)
  {
    var v := Parse(f).1;
    var i := v.hdrs[EtypeSlot(v)];
    var tag := Tag(ETYPE_VLAN_CTAG, c);
    var g := PushCtag(f, v, c);
    EtypeSlotAt(f);
    InsertShifts(f, i, tag);
    FrontOfParse(g);
    if v.depth == 0 {
      TagReads(g, 12, ETYPE_VLAN_CTAG, c);
      WordShifts(f, g, 12, 12);
      TagBlind(f, g);
      DeleteInserted(f, 12, tag);
    } else {
      SameHead(f, g, i);
    }
  }

  // ---- Where the tags go ----

  /** Where the EtherType of the frame's own layer is when no tag stands before it: behind the two addresses. */
  function TagPlace(v: View): nat
    requires MacHdr(DepthOf(v)) in v.hdrs
  {
    v.hdrs[MacHdr(DepthOf(v))] + 12
  }

  /** `g` is `f` with `n` bytes put in at `k`. */
  ghost predicate Widened(f: Packet, g: Packet, k: nat, n: nat) {
    && k <= |f| && |g| == |f| + n
    && (forall i :: 0 <= i < k ==> g[i] == f[i]) && (forall i :: k <= i < |f| ==> g[i + n] == f[i])
  }

  /** `g` is `f` with the C-tag `c` put in at `k`. */
  ghost predicate CtagPut(f: Packet, g: Packet, k: nat, c: Tci) {
    Widened(f, g, k, 4) && Be16(g, k) == 0x8100 && TciAt(g, k) == c
  }

  /** `g` is `f` with the S-tag `s` put in at `k`. */
  ghost predicate StagPut(f: Packet, g: Packet, k: nat, s: Tci) {
    Widened(f, g, k, 4) && Be16(g, k) == 0x88A8 && TciAt(g, k) == s
  }

  /** `g` is `f` with both put in at `k`, the S-tag in front of the C-tag. */
  ghost predicate BothPut(f: Packet, g: Packet, k: nat, c: Tci, s: Tci) {
    && Widened(f, g, k, 8) && Be16(g, k) == 0x88A8 && TciAt(g, k) == s && Be16(g, k + 4) == 0x8100
    && TciAt(g, k + 4) == c
  }

  /** push_ctag on every untagged frame, tunnelled or not: the C-tag with the configured bits stands twelve bytes behind
      the MAC header of the frame's own layer, and every other byte is as it was, in front of the tag where it was and
      behind it four bytes on. */
  lemma PushCtagBytes(f: Packet, c: Tci)
    requires !Tagged(f) && Holds(f, Parse(f).1, EtypeSlot(Parse(f).1), 0)
    ensures var v := Parse(f).1; var g := PushCtag(f, v, c);
      && MacHdr(DepthOf(v)) in v.hdrs && (v.depth == 0 ==> TagPlace(v) == 12)
      && CtagPut(f, g, TagPlace(v), c)
  {
    hide Parse, Be16, TciAt;
    EtypeBehindMac(f);
    var k := TagPlace(Parse(f).1);
    var tag := Tag(ETYPE_VLAN_CTAG, c);
    assert Insert(f, k, tag)[k..k + 4] == tag;
    TagReads(Insert(f, k, tag), k, ETYPE_VLAN_CTAG, c);
  }

  /** push_ctag_stag: likewise with eight bytes, the S-tag in front of the C-tag. */
  lemma PushCtagStagBytes(f: Packet, c: Tci, s: Tci)
    requires !Tagged(f) && Holds(f, Parse(f).1, EtypeSlot(Parse(f).1), 0)
    ensures var v := Parse(f).1; var g := PushCtagStag(f, v, c, s);
      && MacHdr(DepthOf(v)) in v.hdrs && (v.depth == 0 ==> TagPlace(v) == 12)
      && BothPut(f, g, TagPlace(v), c, s)
  {
    hide Parse, Be16, TciAt;
    EtypeBehindMac(f);
    var k := TagPlace(Parse(f).1);
    var outer, inner := Tag(ETYPE_VLAN_STAG, s), Tag(ETYPE_VLAN_CTAG, c);
    var g := Insert(f, k, outer + inner);
    assert g[k..k + 4] == outer && g[k + 4..k + 8] == inner;
    TagReads(g, k, ETYPE_VLAN_STAG, s);
    TagReads(g, k + 4, ETYPE_VLAN_CTAG, c);
  }

  lemma TwoTagsBytes(f: Packet, c: Tci, s: Tci)
    requires |f| >= 12
    ensures var g := Insert(f, 12, Tag(ETYPE_VLAN_STAG, s) + Tag(ETYPE_VLAN_CTAG, c));
      && |g| == |f| + 8 && Be16(g, 12) == ETYPE_VLAN_STAG && TciAt(g, 12) == s
      && Be16(g, 16) == ETYPE_VLAN_CTAG && TciAt(g, 16) == c
      && SameFrom(f, g, 12, 8) && Delete(Delete(g, 16, 4), 12, 4) == f
  {
    var outer, inner := Tag(ETYPE_VLAN_STAG, s), Tag(ETYPE_VLAN_CTAG, c);
    var g := Insert(f, 12, outer + inner);
    InsertShifts(f, 12, outer + inner);
    assert g[12..16] == outer && g[16..20] == inner;
    TagReads(g, 12, ETYPE_VLAN_STAG, s);
    TagReads(g, 16, ETYPE_VLAN_CTAG, c);
  }

  /** push_ctag_stag: likewise with two tags, the service tag outermost. */
  lemma PushCtagStagRoundTrip(f: Packet, c: Tci, s: Tci)
    requires !Tagged(f) && Holds(f, Parse(f).1, EtypeSlot(Parse(f).1), 0)
    ensures var v := Parse(f).1; var g := PushCtagStag(f, v, c, s); var w := Parse(g).1;
      && (VlanExt in w.hdrs <==> v.depth == 0)
      && (v.depth == 0 ==>
            && STAG in w.flags && VLAN in w.flags && EVLAN_8100 !in w.flags
            && HasTag(g, w, VlanExt, 4) && TciAt(g, w.hdrs[VlanExt]) == s
            && HasTag(g, w, VlanInt, 4) && TciAt(g, w.hdrs[VlanInt]) == c && w.hdrs[VlanExt] + 4 <= w.hdrs[VlanInt]
            && SameInside(f, g, 8)
            && PopCtagStag(g, w) == f)
  {
    var v := Parse(f).1;
    var g := PushCtagStag(f, v, c, s);
    EtypeSlotAt(f);
    FrontOfParse(g);
    if v.depth == 0 {
      TwoTagsBytes(f, c, s);
      TagBlind(f, g);
    } else {
      InsertShifts(f, v.hdrs[EtypeSlot(v)], Tag(ETYPE_VLAN_STAG, s) + Tag(ETYPE_VLAN_CTAG, c));
      SameHead(f, g, v.hdrs[EtypeSlot(v)]);
    }
  }

  lemma PushStagBytes(f: Packet, s: Tci)
    requires Be16(f, 12) == ETYPE_VLAN_CTAG && |f| >= 16
    ensures var g := Insert(f, 12, Tag(ETYPE_VLAN_STAG, s));
      && Be16(g, 12) == ETYPE_VLAN_STAG && TciAt(g, 12) == s
      && Be16(g, 16) == ETYPE_VLAN_CTAG && TciAt(g, 16) == TciAt(f, 12) && Be16(g, 20) == Be16(f, 16)
      && SameFrom(f, g, 12, 4) && Delete(g, 12, 4) == f
  {
    var tag := Tag(ETYPE_VLAN_STAG, s);
    var g := Insert(f, 12, tag);
    InsertShifts(f, 12, tag);
    DeleteInserted(f, 12, tag);
    TagReads(g, 12, ETYPE_VLAN_STAG, s);
    WordShifts(f, g, 12, 12);
    WordShifts(f, g, 12, 14);
    WordShifts(f, g, 12, 16);
  }

  lemma ThirdTagStops(g: Packet)
    requires DoubleTagged(g) && Be16(g, 20) == ETYPE_VLAN_CTAG
    ensures Parse(g) == (Pay, BehindEtype(g).view)
  {
    ParseFromEtype(g);
  }

  /** push_stag on a C-tagged frame acts exactly when the frame is not a tunnel.  With a single tag, everything behind
      the tags is then unchanged; a frame that already had two is left with its innermost tag in the place of the
      EtherType, and parsing stops there. */
  lemma PushStagInside(f: Packet, s: Tci)
    requires Be16(f, 12) == ETYPE_VLAN_CTAG && |f| >= 16
    ensures var v := Parse(f).1; HasTag(f, v, VlanExt, 0) <==> v.depth == 0
    ensures var v := Parse(f).1;
      v.depth == 0 ==>
        var g := PushStag(f, v, s);
        if DoubleTagged(f) then Parse(g) == (Pay, BehindEtype(g).view) else SameInside(f, g, 4)
  {
    FrontOfParse(f);
    PushStagBytes(f, s);
    if Parse(f).1.depth == 0 {
      var g := PushStag(f, Parse(f).1, s);
      if DoubleTagged(f) {
        ThirdTagStops(g);
      } else {
        TagBlind(f, g);
      }
    }
  }

  /** On every C-tagged frame outside a tunnel the reparse finds both tags, and pop_stag gives the frame back. */
  lemma PushStagRoundTrip(f: Packet, s: Tci)
    requires Be16(f, 12) == ETYPE_VLAN_CTAG && |f| >= 16
    ensures var v := Parse(f).1; HasTag(f, v, VlanExt, 0) <==> v.depth == 0
    ensures var v := Parse(f).1;
      v.depth == 0 ==>
        var g := PushStag(f, v, s); var w := Parse(g).1;
        && STAG in w.flags && VLAN in w.flags && EVLAN_8100 !in w.flags
        && HasTag(g, w, VlanExt, 4) && TciAt(g, w.hdrs[VlanExt]) == s
        && HasTag(g, w, VlanInt, 4) && TciAt(g, w.hdrs[VlanInt]) == TciAt(f, v.hdrs[VlanExt])
        && PopOuter(g, w) == f
  {
    FrontOfParse(f);
    PushStagBytes(f, s);
    PushStagInside(f, s);
    if Parse(f).1.depth == 0 { FrontOfParse(PushStag(f, Parse(f).1, s)); }
  }
}
