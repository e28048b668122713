/** The bridge-port server started again: its ports are in memory and gone, while links and FXP tables stay as its
    earlier life left them. */
module PortRestart {
  import opened FxpRules
  import opened BridgePorts

  /** What a restart makes of a state. */
  function Restarted(s: State): State { State(map[], s.links, s.tables) }

  /** A request for a port of the earlier life. */
  predicate AsBefore(s: State, in_: Port) { in_.name in s.ports && s.ports[in_.name] == in_.(up := true) }

  /** On the way back to `s`: some of its ports are stored again, the tables are as they were, and the VLAN interfaces
      of all its ports are there. */
  predicate Recovering(s: State, u: State)
    requires StoredAccepted(s)
  {
    && StoredAccepted(u) && u.tables == s.tables
    && (forall n :: n in u.ports ==> n in s.ports && u.ports[n] == s.ports[n])
    && (forall n :: n in s.ports ==> Intf(s.ports[n]) in u.links && u.links[Intf(s.ports[n])].VlanLink?)
  }

  lemma RestartBegins(c: Config, s: State)
    requires Inv(c, s)
    ensures Recovering(s, Restarted(s))
  {}

  lemma AttachKeepsLinks(links: Links, name: string, vlan: nat, faults: set<Call>, x: string)
    requires x in links && links[x].VlanLink?
    ensures var links' := Attach(links, name, vlan, faults).0; x in links' && links'[x].VlanLink?
  {}

  lemma InstalledAdds(t: Tables, m: Tables)
    requires Installed(t, m)
    ensures m + t == t
  {}

  lemma RulesAreThere(c: Config, s: State, in_: Port)
    requires Inv(c, s) && AsBefore(s, in_) && Accepted(in_)
    ensures RulesOf(c, in_) + s.tables == s.tables
  {
    hide RulesOf, Inv, Check;
    LivePortInstalled(c, s, in_.name);
    RulesOfUp(c, in_);
    InstalledAdds(s.tables, RulesOf(c, in_));
  }

  lemma AcceptedBefore(s: State, in_: Port)
    requires StoredAccepted(s) && AsBefore(s, in_)
    ensures Accepted(in_) && VlanOf(s.ports[in_.name]) == VlanOf(in_) && Intf(s.ports[in_.name]) == Intf(in_)
  {}

  /** A port of the earlier life that is asked for again, whatever netlink calls fail: its rules are there already and
      nothing changes in the tables; without faults it is stored again and in the bridge and up. */
  lemma Recreated(c: Config, s: State, u: State, in_: Port, faults: set<Call>)
    requires Inv(c, s) && Recovering(s, u) && AsBefore(s, in_)
    ensures Accepted(in_) && Fair(c, u, in_) && Recovering(s, Create(c, u, in_, faults).0)
    ensures faults == {} ==> in_.name in Create(c, u, in_, faults).0.ports
  {
    hide RulesOf, Inv, Attach, Check, IntfName;
    AcceptedIfAgreed(c, s);
    AcceptedBefore(s, in_);
    RulesAreThere(c, s, in_);
    FairAgain(c, s, u, in_);
    AttachSucceeds(u.links, Intf(in_), VlanOf(in_));
    var u' := Create(c, u, in_, faults).0;
    forall n | n in s.ports ensures Intf(s.ports[n]) in u'.links && u'.links[Intf(s.ports[n])].VlanLink? {
      AttachKeepsLinks(u.links, Intf(in_), VlanOf(in_), faults, Intf(s.ports[n]));
    }
  }

  lemma AttachSucceeds(links: Links, name: string, vlan: nat)
    requires name in links && links[name].VlanLink?
    ensures Attach(links, name, vlan, {}).1.Success?
  {}

  lemma FairAgain(c: Config, s: State, u: State, in_: Port)
    requires Inv(c, s) && Recovering(s, u) && AsBefore(s, in_)
    ensures Fair(c, u, in_)
  {
    AcceptedBefore(s, in_);
    forall n | n in u.ports && n != in_.name ensures Apart(c, in_, u.ports[n]) {
      assert Apart(c, s.ports[in_.name], s.ports[n]);
    }
  }

  /** A port that is not asked for again: a delete of it is answered with success and does nothing, and its entries
      stay. */
  lemma ForgottenStays(c: Config, s: State, u: State, n: string, faults: set<Call>)
    requires Inv(c, s) && Recovering(s, u) && n in s.ports && n !in u.ports
    ensures Delete(c, u, n, faults) == (u, Success) && Installed(u.tables, RulesOf(c, s.ports[n]))
  {
    hide RulesOf, Inv;
    LivePortInstalled(c, s, n);
  }

  // ---- Runs after a restart ----

  /** Creates of ports of the earlier life, with any calls failing, and deletes of names that are not stored. */
  predicate Recreates(c: Config, s: State, u: State, ops: seq<Op>)
    requires StoredAccepted(u)
    decreases |ops|
  {
    ops != [] ==>
      && (match ops[0] case CreateOp(in_, _) => |in_.mac| != 1 && AsBefore(s, in_) case DeleteOp(n, _) => n !in u.ports)
      && Recreates(c, s, Step(c, u, ops[0]), ops[1..])
  }

  lemma {:induction false} RecreatesRecover(c: Config, s: State, u: State, ops: seq<Op>)
    requires Inv(c, s) && Recovering(s, u) && Recreates(c, s, u, ops)
    ensures FairRun(c, u, ops) && Recovering(s, RunOps(c, u, ops))
    decreases |ops|
  {
    if ops != [] {
      match ops[0] {
        case CreateOp(in_, faults) => Recreated(c, s, u, in_, faults);
        case DeleteOp(_, _) =>
      }
      RecreatesRecover(c, s, Step(c, u, ops[0]), ops[1..]);
    }
  }

  /** The tables have an entry for the VLAN of every port. */
  lemma OwnsVlan(c: Config, a: Port)
    requires Accepted(a)
    ensures Key(VlanPushMod, VlanOf(a), 0) in RulesOf(c, a)
  {}

  lemma MissingDisagrees(c: Config, s: State, u: State, n: string)
    requires Inv(c, s) && Recovering(s, u) && n in s.ports && n !in u.ports
    ensures !Inv(c, u)
  {
    var k := Key(VlanPushMod, VlanOf(s.ports[n]), 0);
    OwnsVlan(c, s.ports[n]);
    ForgottenStays(c, s, u, n, {});
    if Inv(c, u) {
      var m :| m in RuleSets(c, u) && k in RuleSets(c, u)[m];
      ApartDisjoint(c, s.ports[m], s.ports[n]);
      assert false;
    }
  }

  lemma CompleteAgrees(c: Config, s: State, u: State)
    requires Inv(c, s) && Recovering(s, u) && u.ports == s.ports
    ensures Inv(c, u)
  {
    assert RuleSets(c, u) == RuleSets(c, s);
  }

  /** After a restart, over any run in which ports of the earlier life are asked for again and others are deleted, with
      any calls failing: the tables stay as they were; and server, links and tables agree again exactly when every port
      of the earlier life is stored again.  The entries of any other are there for good, as no delete of it reaches
      them. */
  lemma RestartAgreesExactly(c: Config, s: State, ops: seq<Op>)
    requires Inv(c, s) && Recreates(c, s, Restarted(s), ops)
    ensures FairRun(c, Restarted(s), ops)
    ensures var u := RunOps(c, Restarted(s), ops); u.tables == s.tables && (Inv(c, u) <==> u.ports == s.ports)
  {
    RestartBegins(c, s);
    RecreatesRecover(c, s, Restarted(s), ops);
    var u := RunOps(c, Restarted(s), ops);
    if n :| n in s.ports && n !in u.ports {
      MissingDisagrees(c, s, u, n);
    } else {
      NoneMissing(s, u);
      CompleteAgrees(c, s, u);
    }
  }

  lemma NoneMissing(s: State, u: State)
    requires StoredAccepted(s) && Recovering(s, u) && forall n :: n in s.ports ==> n in u.ports
    ensures u.ports == s.ports
  {}
}
