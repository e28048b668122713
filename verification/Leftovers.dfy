/** The entries of the FXP tables over runs of the server in which any call of p4rt-ctl may fail, in creates and in
    deletes: which are there, from which port, and by which failed call an entry outlives its port. */
module Leftovers {
  import opened FxpRules
  import opened BridgePorts
  import opened PortFailures

  datatype P4Op =
    | P4Create(in_: Port, faults: set<Call>, p4: Failing)
    | P4Delete(name: string, faults: set<Call>, p4: Failing)

  predicate Legal(op: P4Op) { op.P4Create? ==> |op.in_.mac| != 1 }

  function P4Step(c: Config, s: Stored, op: P4Op): Stored
    requires Legal(op)
  {
    match op
    case P4Create(in_, faults, p4) => CreateWith(c, s, in_, faults, p4).0
    case P4Delete(name, faults, p4) => DeleteWith(c, s, name, faults, p4).0
  }

  // ---- One step ----

  predicate DelGoes(keys: seq<Key>, p4: Failing, k: Key) {
    exists i :: 0 <= i < |keys| && i !in p4 && keys[i] == k
  }

  /** A create that stores its port. */
  predicate Stores(s: Stored, op: P4Op) {
    && op.P4Create? && Accepted(op.in_) && op.in_.name !in s.ports
    && Attach(s.links, Intf(op.in_), VlanOf(op.in_), op.faults).1.Success?
  }

  /** A delete that forgets a port. */
  predicate Forgets(s: Stored, op: P4Op) {
    op.P4Delete? && op.name in s.ports && Detach(s.links, Intf(s.ports[op.name]), op.faults).1.Success?
  }

  /** ... and an add, or a delete, of the key goes through in it. */
  predicate Puts(c: Config, s: Stored, op: P4Op, k: Key) {
    Stores(s, op) && Came(k, AddRuleSets(c, op.in_.mac, VlanOf(op.in_)), op.p4)
  }

  predicate Takes(c: Config, s: Stored, op: P4Op, k: Key) {
    Forgets(s, op) && DelGoes(DelRuleSets(c, s.ports[op.name].mac, VlanOf(s.ports[op.name])), op.p4, k)
  }

  lemma PutIsRule(c: Config, s: Stored, op: P4Op, k: Key)
    requires Puts(c, s, op, k)
    ensures k in RulesOf(c, op.in_)
  {
    RulesInMap(c, op.in_.mac, VlanOf(op.in_));
  }

  /** After any call, whatever fails in it: an entry is there exactly when it was and was not taken, or was put; and an
      entry that was there is not changed. */
  lemma EntriesAfter(c: Config, s: Stored, op: P4Op, k: Key)
    requires Legal(op)
    ensures var t := P4Step(c, s, op).tables;
      && (k in t <==> (k in s.tables && !Takes(c, s, op, k)) || Puts(c, s, op, k))
      && (k in t && k in s.tables ==> t[k] == s.tables[k])
      && (k in t && k !in s.tables ==> k in RulesOf(c, op.in_) && t[k] == RulesOf(c, op.in_)[k])
  {
    match op
    case P4Create(in_, faults, p4) =>
      if Accepted(in_) { AddSomeExactly(c, in_.mac, VlanOf(in_), s.tables, p4, k); }
    case P4Delete(name, faults, p4) =>
      if name in s.ports {
        DelSomeMembers(s.tables, DelRuleSets(c, s.ports[name].mac, VlanOf(s.ports[name])), p4, k);
      }
  }

  // ---- Runs ----

  /** A run: the calls, and the state of the server before each and at the end. */
  datatype Trace = Trace(ops: seq<P4Op>, states: seq<Stored>)

  /** The run starts with empty tables.  Nothing is asked of the ports. */
  predicate IsTrace(c: Config, t: Trace) {
    && |t.states| == |t.ops| + 1 && t.states[0].ports == map[] && t.states[0].tables == map[]
    && forall i {:trigger t.ops[i]} :: 0 <= i < |t.ops| ==>
         Legal(t.ops[i]) && t.states[i + 1] == P4Step(c, t.states[i], t.ops[i])
  }

  /** Call `i` put the entry, which was not there, and no call up to `j` took it. */
  predicate PutSince(c: Config, t: Trace, i: nat, j: nat, k: Key)
    requires |t.states| == |t.ops| + 1 && j <= |t.ops|
  {
    && i < j && k !in t.states[i].tables && Puts(c, t.states[i], t.ops[i], k)
    && forall m :: i < m < j ==> !Takes(c, t.states[m], t.ops[m], k)
  }

  lemma TraceStep(c: Config, t: Trace, j: nat)
    requires IsTrace(c, t) && j < |t.ops|
    ensures Legal(t.ops[j]) && t.states[j + 1] == P4Step(c, t.states[j], t.ops[j])
  {
    var _ := t.ops[j];
  }

  /** An entry that was put and not taken is there, as the rule of the port it was put for. */
  lemma {:induction false} PutStays(c: Config, t: Trace, i: nat, j: nat, k: Key)
    requires IsTrace(c, t) && j <= |t.ops| && PutSince(c, t, i, j, k)
    ensures k in RulesOf(c, t.ops[i].in_)
    ensures k in t.states[j].tables && t.states[j].tables[k] == RulesOf(c, t.ops[i].in_)[k]
    decreases j
  {
    hide P4Step, Puts, Takes, RulesOf;
    PutIsRule(c, t.states[i], t.ops[i], k);
    TraceStep(c, t, j - 1);
    EntriesAfter(c, t.states[j - 1], t.ops[j - 1], k);
    if i < j - 1 { PutStays(c, t, i, j - 1, k); }
  }

  /** Which entries are there, at every point of every run, whatever fails: exactly those that some create put and no
      delete has taken since. */
  lemma {:induction false} EntriesExactly(c: Config, t: Trace, j: nat, k: Key)
    requires IsTrace(c, t) && j <= |t.ops|
    ensures k in t.states[j].tables <==> exists i: nat :: PutSince(c, t, i, j, k)
    decreases j, 1
  {
    hide P4Step, Puts, Takes;
    if i: nat :| PutSince(c, t, i, j, k) { PutStays(c, t, i, j, k); }
    if j > 0 && k in t.states[j].tables {
      TraceStep(c, t, j - 1);
      EntriesAfter(c, t.states[j - 1], t.ops[j - 1], k);
      if k in t.states[j - 1].tables { StillSince(c, t, j - 1, j, k); } else { assert PutSince(c, t, j - 1, j, k); }
    }
  }

  lemma StillSince(c: Config, t: Trace, j: nat, next: nat, k: Key)
    requires IsTrace(c, t) && next == j + 1 <= |t.ops| && k in t.states[j].tables && k in t.states[next].tables
    ensures exists i: nat :: PutSince(c, t, i, next, k)
    decreases j, 2
  {
    hide P4Step, Puts, Takes;
    EntriesExactly(c, t, j, k);
    var i: nat :| PutSince(c, t, i, j, k);
    TraceStep(c, t, j);
    EntriesAfter(c, t.states[j], t.ops[j], k);
    NotBoth(c, t.states[j], t.ops[j], k);
    assert PutSince(c, t, i, next, k);
  }

  lemma NotBoth(c: Config, s: Stored, op: P4Op, k: Key)
    ensures !(Takes(c, s, op, k) && Puts(c, s, op, k))
  {}

  // ---- Entries that outlive their port ----

  /** Call `m` deleted the port, and every delete of the key failed in it. */
  predicate DeletedWithout(c: Config, t: Trace, m: nat, port: Port, k: Key)
    requires |t.states| == |t.ops| + 1 && m < |t.ops| && Accepted(port)
  {
    var s, op := t.states[m], t.ops[m];
    && op.P4Delete? && op.name == port.name && port.name in s.ports && s.ports[port.name] == port && Forgets(s, op)
    && !DelGoes(DelRuleSets(c, port.mac, VlanOf(port)), op.p4, k)
  }

  predicate Lives(s: Stored, port: Port) { port.name in s.ports && s.ports[port.name] == port }

  lemma PutLives(c: Config, s: Stored, op: P4Op, k: Key)
    requires Puts(c, s, op, k) && Legal(op)
    ensures Lives(P4Step(c, s, op), op.in_.(up := true))
  {}

  lemma LivesOn(c: Config, s: Stored, op: P4Op, port: Port)
    requires Legal(op) && Lives(s, port)
    ensures Lives(P4Step(c, s, op), port) || (Forgets(s, op) && op.name == port.name)
  {}

  lemma NotTaken(c: Config, t: Trace, m: nat, port: Port, k: Key)
    requires |t.states| == |t.ops| + 1 && m < |t.ops| && Lives(t.states[m], port)
    requires Forgets(t.states[m], t.ops[m]) && t.ops[m].name == port.name && !Takes(c, t.states[m], t.ops[m], k)
    ensures Accepted(port) && DeletedWithout(c, t, m, port, k)
  {}

  /** Some call between the two points did so. */
  predicate Outlived(c: Config, t: Trace, i: nat, j: nat, port: Port, k: Key)
    requires |t.states| == |t.ops| + 1 && j <= |t.ops| && Accepted(port)
  {
    exists m: nat :: i < m < j && DeletedWithout(c, t, m, port, k)
  }

  lemma OutlivedStep(c: Config, t: Trace, i: nat, j: nat, next: nat, port: Port, k: Key)
    requires IsTrace(c, t) && i < j < next <= |t.ops| && next == j + 1 && Accepted(port)
    requires !Takes(c, t.states[j], t.ops[j], k) && (Lives(t.states[j], port) || Outlived(c, t, i, j, port, k))
    ensures Lives(t.states[next], port) || Outlived(c, t, i, next, port, k)
  {
    hide P4Step, Takes, Forgets, DeletedWithout, Lives, Accepted, StoredAccepted;
    if Outlived(c, t, i, j, port, k) {
      var m: nat :| i < m < j && DeletedWithout(c, t, m, port, k);
      assert i < m < next && DeletedWithout(c, t, m, port, k);
    } else {
      TraceStep(c, t, j);
      LivesOn(c, t.states[j], t.ops[j], port);
      if !Lives(t.states[next], port) {
        NotTaken(c, t, j, port, k);
        assert i < j < next && DeletedWithout(c, t, j, port, k);
      }
    }
  }

  lemma PutSinceBefore(c: Config, t: Trace, i: nat, j: nat, k: Key)
    requires |t.states| == |t.ops| + 1 && i < j < |t.ops| && PutSince(c, t, i, j + 1, k)
    ensures PutSince(c, t, i, j, k) && !Takes(c, t.states[j], t.ops[j], k)
  {}

  lemma PutIsStored(c: Config, s: Stored, op: P4Op, k: Key)
    requires Puts(c, s, op, k) && Legal(op)
    ensures Accepted(op.in_.(up := true)) && Lives(P4Step(c, s, op), op.in_.(up := true))
  {
    UpIsSame(op.in_);
    PutLives(c, s, op, k);
  }

  /** By which call an entry outlives its port: as long as it has not been taken, either the port it was put for is
      still stored, or a delete forgot that port while every delete of the entry failed in it. */
  lemma {:induction false} OutlivesByFailedDelete(c: Config, t: Trace, i: nat, j: nat, k: Key, port: Port)
    requires IsTrace(c, t) && j <= |t.ops| && PutSince(c, t, i, j, k) && port == t.ops[i].in_.(up := true)
    ensures Accepted(port) && (Lives(t.states[j], port) || Outlived(c, t, i, j, port, k))
    decreases j
  {
    hide P4Step, Takes, Puts, Lives, Outlived, Accepted, StoredAccepted;
    TraceStep(c, t, i);
    PutIsStored(c, t.states[i], t.ops[i], k);
    if i < j - 1 {
      PutSinceBefore(c, t, i, j - 1, k);
      OutlivesByFailedDelete(c, t, i, j - 1, k, port);
      OutlivedStep(c, t, i, j - 1, j, port, k);
    }
  }
}
