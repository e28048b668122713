/** What the bridge-port server answers: which requests it accepts, which calls decide on a create and on a delete, and
    what a call that was refused leaves behind. */
module PortAnswers {
  import opened Basics
  import opened Text
  import opened FxpRules
  import opened BridgePorts

  // ---- Texts that read as a number ----

  /** The text is the number in decimal, with zeros in front of it or none. */
  predicate Writes(d: string, n: nat) {
    var t := Decimal(n);
    |t| <= |d| && d[|d| - |t|..] == t && forall i :: 0 <= i < |d| - |t| ==> d[i] == '0'
  }

  /** ... and with a plus sign in front of that or none. */
  predicate Reads(s: string, n: nat) { Writes(s, n) || (s != "" && s[0] == '+' && Writes(s[1..], n)) }

  lemma {:induction false} ZeroText(d: string)
    requires AllDigits(d)
    ensures ParseDec(d) == 0 <==> forall i :: 0 <= i < |d| ==> d[i] == '0'
    decreases |d|
  {
    if d != "" {
      var init := d[..|d| - 1];
      ZeroText(init);
      assert forall i :: 0 <= i < |init| ==> init[i] == d[i];
    }
  }

  lemma LastDigit(n: nat)
    ensures Decimal(n) != "" && Decimal(n)[|Decimal(n)| - 1] == "0123456789"[n % 10]
    ensures Decimal(n)[..|Decimal(n)| - 1] == if n < 10 then "" else Decimal(n / 10)
  {
    var t := if n < 10 then "" else Decimal(n / 10);
    assert Decimal(n) == t + ["0123456789"[n % 10]];
  }

  /** Taking the last digit off both a text and a number. */
  lemma WritesStep(d: string, n: nat)
    requires |d| > 1 && n >= 10
    ensures Writes(d, n) <==> d[|d| - 1] == "0123456789"[n % 10] && Writes(d[..|d| - 1], n / 10)
  {
    hide Decimal;
    var t, u := Decimal(n), Decimal(n / 10);
    LastDigit(n);
    assert t == u + [t[|t| - 1]];
    if |t| <= |d| {
      SameTail(d, t);
      assert forall i :: 0 <= i < |d| - |t| ==> d[i] == d[..|d| - 1][i]; }
  }

  lemma SameTail(d: string, t: string)
    requires d != "" && t != "" && |t| <= |d|
    ensures var k, m := |d| - 1, |t| - 1;
      d[|d| - |t|..] == t <==> d[k] == t[m] && d[..k][|d| - |t|..] == t[..m]
  {
    var k, m := |d| - 1, |t| - 1;
    assert d[|d| - |t|..] == d[..k][|d| - |t|..] + [d[k]];
    assert t == t[..m] + [t[m]];
  }

  lemma WritesDigit(d: string, n: nat)
    requires d != "" && n < 10
    ensures Writes(d, n) <==> d[|d| - 1] == "0123456789"[n] && forall i :: 0 <= i < |d| - 1 ==> d[i] == '0'
  {
    LastDigit(n);
    assert Decimal(n) == ["0123456789"[n]];
    assert d[|d| - 1..] == [d[|d| - 1]];
  }

  lemma {:induction false} WrittenIsParsed(d: string, n: nat)
    requires d != "" && AllDigits(d)
    ensures ParseDec(d) == n <==> Writes(d, n)
    decreases |d|
  {
    hide Writes;
    var init := d[..|d| - 1];
    var last := (d[|d| - 1] as nat) - ('0' as nat);
    assert ParseDec(d) == 10 * ParseDec(init) + last && last < 10;
    DigitChar(n % 10);
    DigitChar(last);
    if n < 10 {
      ZeroText(init);
      WritesDigit(d, n);
      assert forall i :: 0 <= i < |init| ==> init[i] == d[i];
    } else if init == "" {
      WritesLong(d, n);
    } else {
      WrittenIsParsed(init, n / 10);
      WritesStep(d, n);
    }
  }

  lemma WritesLong(d: string, n: nat)
    requires |d| == 1 && n >= 10
    ensures !Writes(d, n)
  {
    LastDigit(n);
    DecimalDigits(n / 10);
  }

  lemma WritesDigits(d: string, n: nat)
    ensures Writes(d, n) ==> d != "" && AllDigits(d)
  {
    DecimalDigits(n);
    if Writes(d, n) {
      var k := |d| - |Decimal(n)|;
      forall i | 0 <= i < |d| ensures IsDigit(d[i]) {
        if i >= k { assert d[i] == d[k..][i - k]; }
      }
    }
  }

  lemma AtoiCases(s: string)
    ensures var signed := s != "" && (s[0] == '-' || s[0] == '+'); var digits := if signed then s[1..] else s;
      if digits == "" || !AllDigits(digits) then Atoi(s).None?
      else if signed && s[0] == '-' then Atoi(s).Some? ==> Atoi(s).value <= 0
      else if ParseDec(digits) > MAX_INT64 then Atoi(s).None?
      else Atoi(s).Some? && Atoi(s).value == ParseDec(digits)
  {}

  /** Which texts strconv.Atoi reads as a given positive number: those that write it, when it fits 64 bits. */
  lemma AtoiExactly(s: string, n: nat)
    requires n >= 1
    ensures Atoi(s) == Some(n) <==> Reads(s, n) && n < 0x8000_0000_0000_0000
  {
    hide Writes, Atoi;
    var signed := s != "" && (s[0] == '-' || s[0] == '+');
    var digits := if signed then s[1..] else s;
    AtoiCases(s);
    WritesDigits(s, n);
    WritesDigits(digits, n);
    if digits != "" && AllDigits(digits) { WrittenIsParsed(digits, n); }
    assert signed ==> !AllDigits(s) by { assert signed ==> !IsDigit(s[0]); }
  }

  // ---- Requests ----

  /** The text reads as a VLAN of its own, from 2 to 4094. */
  ghost predicate ReadsVlan(s: string) { exists n: nat :: 2 <= n <= 4094 && Reads(s, n) }

  lemma FirstVlanReads(s: string)
    ensures ValidVlan(FirstVlanId([s])) <==> ReadsVlan(s)
    ensures ReadsVlan(s) ==> FirstVlanId([s]) >= 0 && Reads(s, FirstVlanId([s]))
  {
    hide Atoi, Reads;
    if ReadsVlan(s) {
      var n: nat :| 2 <= n <= 4094 && Reads(s, n);
      AtoiExactly(s, n);
    }
    if ValidVlan(FirstVlanId([s])) {
      AtoiExactly(s, FirstVlanId([s]));
    }
  }

  /** Exactly these requests are accepted: two to six address bytes, the second one not zero, and a first logical bridge
      that reads as a number from 2 to 4094; that number is the VLAN.  The others are told the first of these that
      fails, the VSI last. */
  lemma AcceptedExactly(in_: Port)
    requires |in_.mac| != 1
    ensures Accepted(in_) <==>
      2 <= |in_.mac| <= 6 && in_.mac[1] != 0 && in_.bridges != [] && ReadsVlan(in_.bridges[0])
    ensures Accepted(in_) ==> Reads(in_.bridges[0], VlanOf(in_))
    ensures Check(in_) == Failure(InvalidMac) <==> |in_.mac| < 2 || |in_.mac| > 6
    ensures Check(in_) == Failure(NoVlanId) <==> 2 <= |in_.mac| <= 6 && in_.bridges == []
    ensures Check(in_) == Failure(InvalidVlan) <==>
      2 <= |in_.mac| <= 6 && in_.bridges != [] && !ReadsVlan(in_.bridges[0])
    ensures Check(in_) == Failure(InvalidVsi) <==>
      2 <= |in_.mac| <= 6 && in_.bridges != [] && ReadsVlan(in_.bridges[0]) && in_.mac[1] == 0
  {
    hide Atoi, Reads, ReadsVlan;
    if in_.bridges != [] {
      FirstVlanReads(in_.bridges[0]);
      assert FirstVlanId(in_.bridges) == FirstVlanId([in_.bridges[0]]);
    }
    assert |in_.mac| >= 2 ==> (VsiOf(in_.mac) < 1 <==> in_.mac[1] == 0);
  }

  // ---- Creates ----

  /** Only the link called `i` differs. */
  ghost predicate SameBut(links: Links, links': Links, i: string) {
    forall x :: x != i ==> (x in links' <==> x in links) && (x in links ==> links'[x] == links[x])
  }

  /** The calls that bring about the interface go through, and it is a VLAN interface. */
  predicate FindsOrAdds(links: Links, i: string, faults: set<Call>) {
    FindUplink !in faults && if i in links then FindVlan !in faults && links[i].VlanLink? else AddVlan !in faults
  }

  /** ... and those that put it into the bridge, short of setting it up. */
  predicate Enslaves(faults: set<Call>) { FindPort !in faults && FindBridge !in faults && SetMaster !in faults }

  /** When an accepted request for a new port is granted, and what is then there: the port as asked for, marked up, its
      interface in the bridge and up, and its rules behind those that were there before. */
  lemma CreateGranted(c: Config, s: State, in_: Port, faults: set<Call>)
    requires Accepted(in_) && in_.name !in s.ports
    ensures var (s', r) := Create(c, s, in_, faults); var i := Intf(in_);
      && (r.Reply? <==> FindsOrAdds(s.links, i, faults) && Enslaves(faults) && SetUp !in faults)
      && (r.Reply? ==>
            && r.port == in_.(up := true) && s'.ports == s.ports[in_.name := r.port]
            && SameBut(s.links, s'.links, i) && i in s'.links
            && s'.links[i] == VlanLink(if i in s.links then s.links[i].vlanId else VlanOf(in_), true, true)
            && s'.tables == RulesOf(c, in_) + s.tables)
  {
    hide RulesOf, Check, VlanOf, IntfName;
  }

  /** What a refused one leaves: the ports and the rules as they were, and the interface in the bridge if the calls got
      that far; and what it is told: a call that failed, or that the name belongs to a link of another kind.  A lookup
      that failed on an interface that is there is told as the failure to add it. */
  lemma CreateRefused(c: Config, s: State, in_: Port, faults: set<Call>)
    requires Accepted(in_) && in_.name !in s.ports && Create(c, s, in_, faults).1.Rejected?
    ensures var (s', r) := Create(c, s, in_, faults); var i := Intf(in_);
      && s'.ports == s.ports && s'.tables == s.tables && SameBut(s.links, s'.links, i)
      && (i in s'.links <==> i in s.links || FindsOrAdds(s.links, i, faults))
      && (i in s'.links ==>
            s'.links[i] ==
              if !FindsOrAdds(s.links, i, faults) then s.links[i]
              else if i in s.links then s.links[i].(enslaved := s.links[i].enslaved || Enslaves(faults))
              else VlanLink(VlanOf(in_), Enslaves(faults), false))
      && (r.error.CallFailed? ==> r.error.c in faults || (r.error.c == AddVlan && i in s.links && FindVlan in faults))
      && (!r.error.CallFailed? ==> r.error == NotVlanDevice && i in s.links && s.links[i].OtherLink?)
  {
    hide RulesOf, Check, VlanOf, IntfName;
  }

  /** A request that is not accepted is told so, also when a port of its name is there; an accepted one for a name that
      is taken is answered with the port as it is.  Neither changes anything. */
  lemma CreateUnneeded(c: Config, s: State, in_: Port, faults: set<Call>)
    requires |in_.mac| != 1
    ensures !Accepted(in_) ==> Create(c, s, in_, faults) == (s, Rejected(Check(in_).error))
    ensures Accepted(in_) && in_.name in s.ports ==> Create(c, s, in_, faults) == (s, Reply(s.ports[in_.name]))
  {
    hide Check;
  }

  // ---- Deletes ----

  /** When the delete of a live port succeeds, and what is then gone: the port, its rules, and its interface unless the
      last lookup failed. */
  lemma DeleteGranted(c: Config, s: State, name: string, faults: set<Call>)
    requires StoredAccepted(s) && name in s.ports
    ensures var (s', out) := Delete(c, s, name, faults); var i := Intf(s.ports[name]);
      && (out.Success? <==>
            && i in s.links && s.links[i].VlanLink?
            && FindForDelete !in faults && SetNoMaster !in faults && SetDown !in faults
            && (FindForRemove in faults || DelVlan !in faults))
      && (out.Success? ==>
            && s'.ports == s.ports - {name} && s'.tables == s.tables - RulesOf(c, s.ports[name]).Keys
            && SameBut(s.links, s'.links, i) && (i in s'.links <==> FindForRemove in faults)
            && (i in s'.links ==> s'.links[i] == s.links[i].(enslaved := false, up := false)))
  {
    hide RulesOf, Check, VlanOf, IntfName;
  }

  /** What a failed one leaves: port, rules and interface stay, the interface out of the bridge and down as far as the
      calls got; and what it is told. */
  lemma DeleteRefused(c: Config, s: State, name: string, faults: set<Call>)
    requires StoredAccepted(s) && name in s.ports && Delete(c, s, name, faults).1.Failure?
    ensures var (s', out) := Delete(c, s, name, faults); var i := Intf(s.ports[name]);
      && s'.ports == s.ports && s'.tables == s.tables && SameBut(s.links, s'.links, i)
      && (i in s'.links <==> i in s.links)
      && (i in s.links ==>
            s'.links[i] ==
              if s.links[i].OtherLink? || FindForDelete in faults || SetNoMaster in faults then s.links[i]
              else s.links[i].(enslaved := false, up := s.links[i].up && SetDown in faults))
      && (out.error.CallFailed? ==> out.error.c in faults || (out.error.c == FindForDelete && i !in s.links))
      && (!out.error.CallFailed? ==> out.error == NotVlanDevice && i in s.links && s.links[i].OtherLink?)
  {
    hide RulesOf, Check, VlanOf, IntfName;
  }
}
