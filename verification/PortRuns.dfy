/** Runs of the bridge-port server from its start, and when a live port's interface is in the bridge and up. */
module PortRuns {
  import opened FxpRules
  import opened BridgePorts

  function Started(hostLinks: Links): State { State(map[], hostLinks, map[]) }

  /** From the start, whatever links the host has, over any fair sequence of calls with any calls failing in each:
      server, links and tables agree. */
  lemma RunsAgree(c: Config, hostLinks: Links, ops: seq<Op>)
    requires FairRun(c, Started(hostLinks), ops)
    ensures Inv(c, RunOps(c, Started(hostLinks), ops))
  {
    ServerStartsAgreed(c, hostLinks);
    RunsKeepInv(c, Started(hostLinks), ops);
  }

  // ---- Ports in service ----

  /** The port's interface is in the bridge and up. */
  predicate Serving(s: State, n: string)
    requires StoredAccepted(s) && n in s.ports
  {
    var i := Intf(s.ports[n]);
    i in s.links && s.links[i].VlanLink? && s.links[i].enslaved && s.links[i].up
  }

  /** A delete of the port that gets as far as taking its interface out of the bridge, whether it fails later or not. */
  predicate TakesDown(op: Op, n: string) {
    op.DeleteOp? && op.name == n && FindForDelete !in op.faults && SetNoMaster !in op.faults
  }

  predicate FairOp(c: Config, s: State, op: Op)
    requires StoredAccepted(s)
  {
    op.CreateOp? ==> Fair(c, s, op.in_)
  }

  lemma AttachFrame(links: Links, name: string, vlan: nat, faults: set<Call>, x: string)
    requires x in links && x != name
    ensures var (links', _) := Attach(links, name, vlan, faults); x in links' && links'[x] == links[x]
  {}

  /** A create that makes a port puts it in service. */
  lemma CreateServes(c: Config, s: State, in_: Port, faults: set<Call>)
    requires StoredAccepted(s) && |in_.mac| != 1 && in_.name !in s.ports && Create(c, s, in_, faults).1.Reply?
    ensures var s' := Create(c, s, in_, faults).0; in_.name in s'.ports && Serving(s', in_.name)
  {
    UpIsSame(in_);
  }

  lemma DetachServing(links: Links, name: string, faults: set<Call>)
    requires name in links && links[name].VlanLink? && Detach(links, name, faults).1.Failure?
    ensures var links' := Detach(links, name, faults).0;
      && name in links' && links'[name].VlanLink?
      && (links'[name].enslaved && links'[name].up <==>
            links[name].enslaved && links[name].up && (FindForDelete in faults || SetNoMaster in faults))
  {}

  lemma OtherCreate(c: Config, s: State, in_: Port, faults: set<Call>, n: string, s': State)
    requires Inv(c, s) && Fair(c, s, in_) && n in s.ports && in_.name != n && s' == Create(c, s, in_, faults).0
    ensures n in s'.ports && s'.ports[n] == s.ports[n] && (Serving(s', n) <==> Serving(s, n))
  {
    hide Attach, AddPort, EnsureVlan, RulesOf, Check;
    if Accepted(in_) && in_.name !in s.ports {
      ApartDisjoint(c, in_, s.ports[n]);
      AttachFrame(s.links, Intf(in_), VlanOf(in_), faults, Intf(s.ports[n]));
      assert s'.links == Attach(s.links, Intf(in_), VlanOf(in_), faults).0;
    }
  }

  lemma OtherDelete(c: Config, s: State, name: string, faults: set<Call>, n: string, s': State)
    requires Inv(c, s) && n in s.ports && name != n && s' == Delete(c, s, name, faults).0
    ensures n in s'.ports && s'.ports[n] == s.ports[n] && (Serving(s', n) <==> Serving(s, n))
  {
    if name in s.ports {
      ApartDisjoint(c, s.ports[name], s.ports[n]);
      DetachLinks(s.links, Intf(s.ports[name]), faults);
      assert s'.links == Detach(s.links, Intf(s.ports[name]), faults).0;
    }
  }

  lemma OwnDelete(c: Config, s: State, n: string, faults: set<Call>, s': State)
    requires Inv(c, s) && n in s.ports && s' == Delete(c, s, n, faults).0
    ensures n in s'.ports ==> s'.ports[n] == s.ports[n]
    ensures n in s'.ports ==>
      (Serving(s', n) <==> Serving(s, n) && (FindForDelete in faults || SetNoMaster in faults))
    ensures FindForDelete in faults || SetNoMaster in faults ==> n in s'.ports
  {
    var i := Intf(s.ports[n]);
    if Detach(s.links, i, faults).1.Failure? {
      DetachServing(s.links, i, faults);
      assert s' == s.(links := Detach(s.links, i, faults).0);
    }
  }

  /** After any call, with any calls failing in it, a port that stays live is in service exactly when it was before
      and the call was no delete of it that reached its interface: a failed delete leaves the port stored and its
      rules installed, and out of the bridge. */
  lemma ServingExactly(c: Config, s: State, op: Op, n: string, s': State)
    requires Inv(c, s) && FairOp(c, s, op) && n in s.ports && s' == Step(c, s, op)
    ensures n in s'.ports ==> (Serving(s', n) <==> Serving(s, n) && !TakesDown(op, n))
    ensures !TakesDown(op, n) ==> n in s'.ports
  {
    match op
    case CreateOp(in_, faults) => if in_.name != n { OtherCreate(c, s, in_, faults, n, s'); }
    case DeleteOp(name, faults) =>
      if name != n { OtherDelete(c, s, name, faults, n, s'); } else { OwnDelete(c, s, n, faults, s'); }
  }

  /** So a port in service stays live and in service until a delete of it reaches its interface. */
  lemma {:induction false} ServesUntilTakenDown(c: Config, s: State, ops: seq<Op>, n: string)
    requires Inv(c, s) && FairRun(c, s, ops) && n in s.ports && Serving(s, n)
    requires forall i :: 0 <= i < |ops| ==> !TakesDown(ops[i], n)
    ensures n in RunOps(c, s, ops).ports && Serving(RunOps(c, s, ops), n)
    decreases |ops|
  {
    if ops != [] {
      var s1 := Step(c, s, ops[0]);
      ServingExactly(c, s, ops[0], n, s1);
      match ops[0] {
        case CreateOp(in_, faults) => CreateKeepsInv(c, s, in_, faults);
        case DeleteOp(name, faults) => DeleteKeepsInv(c, s, name, faults);
      }
      ServesUntilTakenDown(c, s1, ops[1..], n);
    }
  }
}
