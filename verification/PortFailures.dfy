/** The bridge-port server when calls of p4rt-ctl fail, which the rule client logs and the server never learns of. */
module PortFailures {
  import opened FxpRules
  import opened BridgePorts

  /** With no such failure the handlers are those of BridgePorts. */
  lemma CleanCalls(c: Config, s: State, in_: Port, name: string, faults: set<Call>)
    requires StoredAccepted(s) && |in_.mac| != 1
    ensures CreateWith(c, s, in_, faults, {}) == Create(c, s, in_, faults)
    ensures DeleteWith(c, s, name, faults, {}) == Delete(c, s, name, faults)
  {
    if Accepted(in_) {
      var rules := AddRuleSets(c, in_.mac, VlanOf(in_));
      AddSomeIsAll(s.tables, rules, {});
      AddAllIsRuleMap(c, in_.mac, VlanOf(in_), s.tables);
    }
    if name in s.ports {
      var port := s.ports[name];
      DelSomeIsAll(s.tables, DelRuleSets(c, port.mac, VlanOf(port)), {});
      DelAllIsRuleMap(c, port.mac, VlanOf(port), s.tables);
    }
  }

  // ---- Adds that fail ----

  predicate From(k: Key, a: Act, sets: map<string, Tables>) { exists n :: n in sets && k in sets[n] && sets[n][k] == a }

  /** Every entry is one of the rules of a live port. */
  predicate Within(tables: Tables, sets: map<string, Tables>) { forall k :: k in tables ==> From(k, tables[k], sets) }

  /** What is left of the agreement: the tables hold nothing but rules of live ports, though not all of them. */
  predicate Partly(c: Config, s: State) { PortsApart(c, s) && LinksHeld(s) && Within(s.tables, RuleSets(c, s)) }

  lemma OthersDisjoint(c: Config, s: State, in_: Port)
    requires Partly(c, s) && Fair(c, s, in_) && Accepted(in_) && in_.name !in s.ports
    ensures RulesOf(c, in_).Keys !! s.tables.Keys
  {
    forall k | k in s.tables ensures k !in RulesOf(c, in_) {
      var n :| n in RuleSets(c, s) && k in RuleSets(c, s)[n] && RuleSets(c, s)[n][k] == s.tables[k];
      ApartDisjoint(c, in_, s.ports[n]);
    }
  }

  lemma FromAdds(k: Key, a: Act, sets: map<string, Tables>, n: string, rules: Tables)
    requires n !in sets && (From(k, a, sets) || (k in rules && rules[k] == a))
    ensures From(k, a, sets[n := rules])
  {
    var sets' := sets[n := rules];
    if From(k, a, sets) {
      var m :| m in sets && k in sets[m] && sets[m][k] == a;
      assert m in sets' && k in sets'[m] && sets'[m][k] == a;
    } else {
      assert n in sets' && k in sets'[n];
    }
  }

  /** A create keeps that, whatever calls fail in it; and of the new port's rules exactly those are there for which a
      call went through. */
  lemma CreateStaysWithin(c: Config, s: State, in_: Port, faults: set<Call>, p4: Failing, s': State)
    requires Partly(c, s) && Fair(c, s, in_) && s' == CreateWith(c, s, in_, faults, p4).0
    ensures Partly(c, s')
    ensures in_.name !in s.ports && in_.name in s'.ports ==>
      Accepted(in_) && forall k :: k in RulesOf(c, in_) ==>
        (k in s'.tables <==> Came(k, AddRuleSets(c, in_.mac, VlanOf(in_)), p4))
  {
    if Accepted(in_) && in_.name !in s.ports {
      AttachKeepsHeld(s, in_, faults, s');
      if in_.name in s'.ports {
        CreateKeepsApart(c, s, in_, s');
        RuleSetsAdd(c, s, in_, s');
        OthersDisjoint(c, s, in_);
        AddedWithin(c, s, in_, p4, s'.tables);
      } else {
        assert RuleSets(c, s') == RuleSets(c, s);
      }
    }
  }

  lemma AddedWithin(c: Config, s: State, in_: Port, p4: Failing, tables: Tables)
    requires StoredAccepted(s) && Within(s.tables, RuleSets(c, s)) && Accepted(in_) && in_.name !in s.ports
    requires RulesOf(c, in_).Keys !! s.tables.Keys
    requires tables == AddSome(s.tables, AddRuleSets(c, in_.mac, VlanOf(in_)), p4)
    ensures Within(tables, RuleSets(c, s)[in_.name := RulesOf(c, in_)])
    ensures forall k :: k in RulesOf(c, in_) ==> (k in tables <==> Came(k, AddRuleSets(c, in_.mac, VlanOf(in_)), p4))
  {
    forall k | k in tables ensures From(k, tables[k], RuleSets(c, s)[in_.name := RulesOf(c, in_)]) {
      AddSomeExactly(c, in_.mac, VlanOf(in_), s.tables, p4, k);
      FromAdds(k, tables[k], RuleSets(c, s), in_.name, RulesOf(c, in_));
    }
    forall k | k in RulesOf(c, in_) ensures k in tables <==> Came(k, AddRuleSets(c, in_.mac, VlanOf(in_)), p4) {
      AddSomeExactly(c, in_.mac, VlanOf(in_), s.tables, p4, k);
    }
  }

  lemma OtherAfterDelete(c: Config, s: State, name: string, faults: set<Call>, n: string, k: Key, s': State)
    requires PortsApart(c, s) && s' == Delete(c, s, name, faults).0
    requires n in s.ports && n != name && k in RulesOf(c, s.ports[n])
    ensures n in s'.ports && s'.ports[n] == s.ports[n]
    ensures (k in s'.tables <==> k in s.tables) && (k in s.tables ==> s'.tables[k] == s.tables[k])
  {
    if name in s.ports {
      ApartDisjoint(c, s.ports[n], s.ports[name]);
      assert s'.tables == s.tables || s'.tables == s.tables - RulesOf(c, s.ports[name]).Keys;
    }
  }

  /** So does a delete in which none fails, and it takes no entry of another port. */
  lemma DeleteStaysWithin(c: Config, s: State, name: string, faults: set<Call>, s': State)
    requires Partly(c, s) && s' == Delete(c, s, name, faults).0
    ensures Partly(c, s')
    ensures forall n, k :: n in s.ports && n != name && k in RulesOf(c, s.ports[n]) ==>
      (k in s'.tables <==> k in s.tables) && (k in s.tables ==> s'.tables[k] == s.tables[k])
  {
    forall n, k | n in s.ports && n != name && k in RulesOf(c, s.ports[n])
      ensures (k in s'.tables <==> k in s.tables) && (k in s.tables ==> s'.tables[k] == s.tables[k])
    {
      OtherAfterDelete(c, s, name, faults, n, k, s');
    }
    DeleteKeepsPartly(c, s, name, faults, s');
  }

  lemma DeleteKeepsPartly(c: Config, s: State, name: string, faults: set<Call>, s': State)
    requires Partly(c, s) && s' == Delete(c, s, name, faults).0
    ensures Partly(c, s')
  {
    if name in s.ports {
      DetachLinks(s.links, Intf(s.ports[name]), faults);
      if name in s'.ports {
        assert RuleSets(c, s') == RuleSets(c, s);
      } else {
        DeleteKeepsApart(c, s, name, s');
        DeletedHeld(c, s, name, faults, s');
        RuleSetsRemove(c, s, name, s');
        DeletedWithin(s.tables, RuleSets(c, s), name);
      }
    }
  }

  lemma DeletedHeld(c: Config, s: State, name: string, faults: set<Call>, s': State)
    requires PortsApart(c, s) && LinksHeld(s) && name in s.ports && StoredAccepted(s')
    requires s'.ports == s.ports - {name} && s'.links == Detach(s.links, Intf(s.ports[name]), faults).0
    ensures LinksHeld(s')
  {
    DetachLinks(s.links, Intf(s.ports[name]), faults);
    forall n | n in s'.ports ensures Intf(s'.ports[n]) in s'.links && s'.links[Intf(s'.ports[n])].VlanLink? {
      ApartDisjoint(c, s.ports[n], s.ports[name]);
    }
  }

  lemma DeletedWithin(tables: Tables, sets: map<string, Tables>, n: string)
    requires Within(tables, sets) && n in sets
    ensures Within(tables - sets[n].Keys, sets - {n})
  {
    var tables', sets' := tables - sets[n].Keys, sets - {n};
    forall k | k in tables' ensures From(k, tables'[k], sets') {
      var m :| m in sets && k in sets[m] && sets[m][k] == tables[k];
      assert m in sets' && k in sets'[m] && sets'[m][k] == tables[k];
    }
  }

  // ---- Runs ----

  datatype AnyOp = AnyCreate(in_: Port, faults: set<Call>, p4: Failing) | AnyDelete(name: string, faults: set<Call>)

  function AnyStep(c: Config, s: State, op: AnyOp): (r: State)
    requires StoredAccepted(s) && (op.AnyCreate? ==> |op.in_.mac| != 1)
    ensures StoredAccepted(r)
  {
    match op
    case AnyCreate(in_, faults, p4) => CreateWith(c, s, in_, faults, p4).0
    case AnyDelete(name, faults) => Delete(c, s, name, faults).0
  }

  predicate AnyFair(c: Config, s: State, ops: seq<AnyOp>)
    requires StoredAccepted(s)
    decreases |ops|
  {
    ops != [] ==> (ops[0].AnyCreate? ==> Fair(c, s, ops[0].in_)) && AnyFair(c, AnyStep(c, s, ops[0]), ops[1..])
  }

  function AnyRun(c: Config, s: State, ops: seq<AnyOp>): (r: State)
    requires StoredAccepted(s) && AnyFair(c, s, ops)
    ensures StoredAccepted(r)
    decreases |ops|
  {
    if ops == [] then s else AnyRun(c, AnyStep(c, s, ops[0]), ops[1..])
  }

  lemma AnyStepStaysWithin(c: Config, s: State, op: AnyOp)
    requires Partly(c, s) && (op.AnyCreate? ==> Fair(c, s, op.in_))
    ensures Partly(c, AnyStep(c, s, op))
  {
    match op
    case AnyCreate(in_, faults, p4) => CreateStaysWithin(c, s, in_, faults, p4, AnyStep(c, s, op));
    case AnyDelete(name, faults) => DeleteStaysWithin(c, s, name, faults, AnyStep(c, s, op));
  }

  /** Over any sequence of calls, with any calls failing in the creates, the tables hold nothing but rules of live
      ports. */
  lemma {:induction false} RunsStayWithin(c: Config, s: State, ops: seq<AnyOp>)
    requires Partly(c, s) && AnyFair(c, s, ops)
    ensures Partly(c, AnyRun(c, s, ops))
    decreases |ops|
  {
    if ops != [] {
      AnyStepStaysWithin(c, s, ops[0]);
      RunsStayWithin(c, AnyStep(c, s, ops[0]), ops[1..]);
    }
  }

  lemma OtherAfterCreate(c: Config, s: State, in_: Port, faults: set<Call>, p4: Failing, n: string, k: Key, s': State)
    requires PortsApart(c, s) && Fair(c, s, in_) && s' == CreateWith(c, s, in_, faults, p4).0
    requires n in s.ports && k in RulesOf(c, s.ports[n])
    ensures n in s'.ports && s'.ports[n] == s.ports[n] && (k in s'.tables <==> k in s.tables)
  {
    if Accepted(in_) && in_.name !in s.ports {
      ApartDisjoint(c, in_, s.ports[n]);
      AddSomeExactly(c, in_.mac, VlanOf(in_), s.tables, p4, k);
      assert s'.tables == s.tables || s'.tables == AddSome(s.tables, AddRuleSets(c, in_.mac, VlanOf(in_)), p4);
    }
  }

  lemma OtherEntries(c: Config, s: State, op: AnyOp, n: string, k: Key, s': State)
    requires Partly(c, s) && (op.AnyCreate? ==> Fair(c, s, op.in_)) && s' == AnyStep(c, s, op)
    requires n in s.ports && !(op.AnyDelete? && op.name == n) && k in RulesOf(c, s.ports[n])
    ensures n in s'.ports && s'.ports[n] == s.ports[n] && (k in s'.tables <==> k in s.tables)
  {
    match op
    case AnyCreate(in_, faults, p4) => OtherAfterCreate(c, s, in_, faults, p4, n, k, s');
    case AnyDelete(name, faults) => OtherAfterDelete(c, s, name, faults, n, k, s');
  }

  /** A rule whose calls failed when its port was made is not made up for: until the port is deleted, whatever creates
      come, of the port itself or of others, its entry is there exactly when it was. */
  lemma {:induction false} EntriesAsCreated(c: Config, s: State, ops: seq<AnyOp>, n: string, k: Key)
    requires Partly(c, s) && AnyFair(c, s, ops) && n in s.ports && k in RulesOf(c, s.ports[n])
    requires forall i :: 0 <= i < |ops| ==> !(ops[i].AnyDelete? && ops[i].name == n)
    ensures var s' := AnyRun(c, s, ops);
      n in s'.ports && s'.ports[n] == s.ports[n] && (k in s'.tables <==> k in s.tables)
    decreases |ops|
  {
    if ops != [] {
      var s1 := AnyStep(c, s, ops[0]);
      AnyStepStaysWithin(c, s, ops[0]);
      OtherEntries(c, s, ops[0], n, k, s1);
      EntriesAsCreated(c, s1, ops[1..], n, k);
    }
  }

  // ---- Deletes that fail ----

  lemma {:induction false} DelSomeMembers(t: Tables, keys: seq<Key>, fails: Failing, k: Key)
    ensures var u := DelSome(t, keys, fails);
      && (k in u <==> k in t && !exists i :: 0 <= i < |keys| && i !in fails && keys[i] == k)
      && (k in u ==> u[k] == t[k])
  {
    if keys != [] {
      var n := |keys| - 1;
      var init := keys[..n];
      DelSomeMembers(t, init, fails, k);
      assert forall i :: 0 <= i < n ==> init[i] == keys[i];
      if exists i :: 0 <= i < |init| && i !in fails && init[i] == k {
        var i :| 0 <= i < |init| && i !in fails && init[i] == k;
        assert keys[i] == k;
      }
    }
  }

  lemma LeftAfterDelete(c: Config, s: State, name: string, faults: set<Call>, p4: Failing, k: Key)
    requires StoredAccepted(s) && name in s.ports && k in s.tables
    requires forall i :: 0 <= i < |DelRuleSets(c, s.ports[name].mac, VlanOf(s.ports[name]))| && i !in p4 ==>
      DelRuleSets(c, s.ports[name].mac, VlanOf(s.ports[name]))[i] != k
    ensures var s1 := DeleteWith(c, s, name, faults, p4).0; k in s1.tables && s1.tables[k] == s.tables[k]
  {
    DelSomeMembers(s.tables, DelRuleSets(c, s.ports[name].mac, VlanOf(s.ports[name])), p4, k);
  }

  lemma KeptByCreate(c: Config, s: State, in_: Port, faults: set<Call>, k: Key)
    requires |in_.mac| != 1 && k in s.tables
    ensures var s1 := CreateWith(c, s, in_, faults, {}).0; k in s1.tables && s1.tables[k] == s.tables[k]
  {
    if Accepted(in_) { AddSomeExactly(c, in_.mac, VlanOf(in_), s.tables, {}, k); }
  }

  /** A delete whose call for the first table fails succeeds all the same, forgets the port and leaves that entry
      behind, whatever else it removes; and the next port with that VSI that is stored is then sent under the old VLAN,
      as its own rule is refused. */
  lemma LeftoverWins(c: Config, s: State, name: string, faults: set<Call>, p4: Failing, in_: Port, g: set<Call>, k: Key)
    requires StoredAccepted(s) && name in s.ports && 0 in p4 && Delete(c, s, name, faults).1.Success?
    requires Accepted(in_) && VsiOf(in_.mac) == VsiOf(s.ports[name].mac)
    requires k == Key(TxFromHost, VsiOf(in_.mac), 0) && k in s.tables
    requires s.tables[k] == AddVlanAndSend(VlanOf(s.ports[name]), VportForVsi(c.portMuxVsi))
    ensures var (s1, out) := DeleteWith(c, s, name, faults, p4); var (s2, reply) := CreateWith(c, s1, in_, g, {});
      && out.Success? && s1.ports == s.ports - {name} && k in s1.tables && k in s2.tables
      && (reply.Reply? ==> in_.name in s2.ports)
      && s2.tables[k] == AddVlanAndSend(VlanOf(s.ports[name]), VportForVsi(c.portMuxVsi))
  {
    LeftAfterDelete(c, s, name, faults, p4, k);
    KeptByCreate(c, DeleteWith(c, s, name, faults, p4).0, in_, g, k);
  }
}
