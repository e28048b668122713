/** A node's plugin and its bridge-port server together: each add that gets that far asks the server for its VF's port,
    each delete that gets that far asks it to delete the port, and the call may fail on the way there, in the server or
    on the way back. */
module NodeRuns {
  import opened Basics
  import opened VfConfig
  import opened VfLinks
  import opened CniLifecycle
  import opened CniOutcomes
  import opened CniRetries
  import opened PortRequests
  import B = BridgePorts
  import F = FxpRules
  import R = PortRuns

  /** The server's configuration, and the VFs that are added: the PF of each and its index. */
  datatype Host = Host(fxp: F.Config, vfs: set<Pci>, master: Pci -> string, id: Pci -> nat)

  function VfOf(host: Host, p: Pci, mac: Mac): Vf { Vf(host.master(p), host.id(p), mac) }

  function NameOf(host: Host, p: Pci): string { PortName(VfOf(host, p, [])) }

  /** No two of the VFs are given one port name; PortNamesCollide says which would be. */
  predicate DistinctNames(host: Host) {
    forall p, q :: p in host.vfs && q in host.vfs && NameOf(host, p) == NameOf(host, q) ==> p == q
  }

  type Server = B.Stored

  /** One call of the server: whether it gets there, which netlink calls fail in it, and whether the answer comes
      back. */
  datatype Rpc = Rpc(sent: bool, faults: set<B.Call>, answered: bool)

  // ---- What a command asks of the server ----

  ghost function Asked(host: Host, s: State, e: Event, faults: set<B.Call>): (op: Option<B.Op>)
    ensures op.Some? && op.value.CreateOp? ==> |op.value.in_.mac| in {6, 8, 20}
  {
    match e
    case AddEvent(a, c, dpdk, f) =>
      if Records(s, a, c, dpdk, f) && Dial !in f.calls && OrigOf(s.world, c.pci).Address?
      then Some(B.CreateOp(Request(VfOf(host, c.pci, OrigOf(s.world, c.pci).mac)), faults)) else None
    case DelEvent(a, f) =>
      if Clears(s, a, f) && Dial !in f.calls
      then Some(B.DeleteOp(NameOf(host, s.cache[CacheKey(a)].conf.pci), faults)) else None
    case DeathEvent(_, _) => None
  }

  predicate Served(c: F.Config, sv: Server, op: B.Op)
    requires op.CreateOp? ==> |op.in_.mac| != 1
  {
    match op
    case CreateOp(in_, faults) => B.Create(c, sv, in_, faults).1.Reply?
    case DeleteOp(name, faults) => B.Delete(c, sv, name, faults).1.Success?
  }

  /** The server does what it was asked to. */
  ghost predicate Done(host: Host, s: State, sv: Server, e: Event, rpc: Rpc) {
    var op := Asked(host, s, e, rpc.faults);
    op.Some? && rpc.sent && Served(host.fxp, sv, op.value)
  }

  ghost function ServerAfter(host: Host, s: State, sv: Server, e: Event, rpc: Rpc): Server {
    var op := Asked(host, s, e, rpc.faults);
    if op.Some? && rpc.sent then B.Step(host.fxp, sv, op.value) else sv
  }

  /** The command takes the call for failed exactly when the server did not do it or the answer was lost. */
  ghost predicate Agrees(host: Host, s: State, sv: Server, e: Event, rpc: Rpc) {
    Asked(host, s, e, rpc.faults).Some? ==>
      match e
      case AddEvent(_, _, _, f) => CreatePort !in f.calls <==> Done(host, s, sv, e, rpc) && rpc.answered
      case DelEvent(_, f) => DeletePort !in f.calls <==> Done(host, s, sv, e, rpc) && rpc.answered
      case DeathEvent(_, _) => true
  }

  // ---- The VFs that a state knows ----

  predicate Known(host: Host, s: State) { forall k :: k in s.cache ==> s.cache[k].conf.pci in host.vfs }

  predicate AddsKnown(host: Host, e: Event) { e.AddEvent? ==> e.c.pci in host.vfs }

  lemma KnownKept(host: Host, r: Runtime, h: History, s: State, e: Event)
    requires Inv(r, h, s) && Allowed(r, h, s, e) && Known(host, s) && AddsKnown(host, e)
    ensures Known(host, Step(s, e))
  {
    match e
    case AddEvent(a, c, dpdk, f) => AddWrites(s, a, c, dpdk, f);
    case DelEvent(a, f) => DelLeaves(r, h, s, a, f, Del(s, a, f).0);
    case DeathEvent(_, _) =>
  }

  // ---- Ports with and without a record ----

  /** The VF's record names a live namespace. */
  predicate Covered(s: State, p: Pci) { p in s.records && s.records[p] in s.world.live }

  predicate HasPort(host: Host, sv: Server, p: Pci) { NameOf(host, p) in sv.ports }

  /** The command or event takes that away. */
  ghost predicate Uncovers(s: State, e: Event, p: Pci) {
    match e
    case AddEvent(_, c, _, f) => DropsRecord(s, e) && c.pci == p
    case DelEvent(a, f) => Clears(s, a, f) && s.cache[CacheKey(a)].conf.pci == p
    case DeathEvent(ns, _) => p in s.records && s.records[p] == ns
  }

  /** An add records the VF. */
  ghost predicate Covers(s: State, e: Event, p: Pci) {
    e.AddEvent? && e.c.pci == p && Records(s, e.a, e.c, e.dpdk, e.f)
  }

  lemma AddKeepsLive(r: Runtime, h: History, s: State, a: Args, c: AddConf, dpdk: bool, f: CniFaults)
    requires Inv(r, h, s) && Allowed(r, h, s, AddEvent(a, c, dpdk, f))
    ensures Add(s, a, c, dpdk, f).0.world.live == s.world.live
  {
    AddLeaves(r, h, s, a, c, dpdk, f);
  }

  lemma DelKeepsLive(r: Runtime, h: History, s: State, a: Args, f: CniFaults)
    requires Inv(r, h, s) && Allowed(r, h, s, DelEvent(a, f))
    ensures Del(s, a, f).0.world.live == s.world.live
  {
    DelLeaves(r, h, s, a, f, Del(s, a, f).0);
  }

  lemma CoveredAfter(r: Runtime, h: History, s: State, e: Event, p: Pci)
    requires Inv(r, h, s) && Allowed(r, h, s, e)
    ensures Covered(Step(s, e), p) <==> Covers(s, e, p) || (Covered(s, p) && !Uncovers(s, e, p))
  {
    match e
    case AddEvent(a, c, dpdk, f) =>
      AddKeepsLive(r, h, s, a, c, dpdk, f);
      AddWrites(s, a, c, dpdk, f);
    case DelEvent(a, f) =>
      DelKeepsLive(r, h, s, a, f);
      DelRecords(s, a, f);
    case DeathEvent(_, _) =>
  }

  lemma PortsOfStep(c: F.Config, sv: Server, op: B.Op, n: string)
    requires op.CreateOp? ==> |op.in_.mac| != 1
    ensures n in B.Step(c, sv, op).ports <==>
      match op
      case CreateOp(in_, _) => n in sv.ports || (in_.name == n && Served(c, sv, op))
      case DeleteOp(name, _) => n in sv.ports && !(name == n && Served(c, sv, op))
  {
    hide B.Attach, B.Detach, B.RulesOf, B.StoredAccepted, B.Check;
  }

  lemma AskedAbout(host: Host, s: State, e: Event, faults: set<B.Call>, p: Pci)
    requires DistinctNames(host) && Known(host, s) && AddsKnown(host, e) && p in host.vfs
    requires Asked(host, s, e, faults).Some?
    ensures match Asked(host, s, e, faults).value
            case CreateOp(in_, _) =>
              e.AddEvent? && Covers(s, e, e.c.pci) && (in_.name == NameOf(host, p) <==> e.c.pci == p)
            case DeleteOp(name, _) => e.DelEvent? && (name == NameOf(host, p) <==> Uncovers(s, e, p))
  {
    hide Finishes, Release, ResetFails, IsAllocated, OrigOf, HostName;
  }

  lemma PortAfter(host: Host, s: State, sv: Server, e: Event, rpc: Rpc, p: Pci)
    requires DistinctNames(host) && Known(host, s) && AddsKnown(host, e) && p in host.vfs
    ensures HasPort(host, ServerAfter(host, s, sv, e, rpc), p) <==>
      if e.AddEvent? then HasPort(host, sv, p) || (e.c.pci == p && Done(host, s, sv, e, rpc))
      else HasPort(host, sv, p) && !(Uncovers(s, e, p) && Done(host, s, sv, e, rpc))
  {
    hide Asked, Served, B.Step, NameOf, Uncovers, Covers, Known, DistinctNames;
    var op := Asked(host, s, e, rpc.faults);
    if op.Some? && rpc.sent {
      AskedAbout(host, s, e, rpc.faults, p);
      PortsOfStep(host.fxp, sv, op.value, NameOf(host, p));
    }
  }

  /** A port whose VF has no record that names a live namespace. */
  predicate LeftBehind(host: Host, s: State, sv: Server, p: Pci) { HasPort(host, sv, p) && !Covered(s, p) }

  /** The port goes, or its VF is recorded again. */
  ghost predicate Ends(host: Host, s: State, sv: Server, e: Event, rpc: Rpc, p: Pci) {
    Covers(s, e, p) || (e.DelEvent? && Uncovers(s, e, p) && Done(host, s, sv, e, rpc))
  }

  /** What one command or event makes of it, whatever fails: a port is left behind exactly when it was there, its VF
      was not covered or has just lost its record or namespace, and the port was not deleted with it. */
  lemma LeftBehindAfter(host: Host, r: Runtime, h: History, s: State, sv: Server, e: Event, rpc: Rpc, p: Pci)
    requires Inv(r, h, s) && Allowed(r, h, s, e) && DistinctNames(host) && Known(host, s) && AddsKnown(host, e)
    requires p in host.vfs
    ensures LeftBehind(host, Step(s, e), ServerAfter(host, s, sv, e, rpc), p) <==>
      HasPort(host, sv, p) && (!Covered(s, p) || Uncovers(s, e, p)) && !Ends(host, s, sv, e, rpc, p)
  {
    CoveredAfter(r, h, s, e, p);
    PortAfter(host, s, sv, e, rpc, p);
  }

  // ---- Runs of the node ----

  /** A run of the plugin, with the state of the server and the call to it at every step. */
  datatype NodeRun = NodeRun(run: Run, servers: seq<Server>, rpcs: seq<Rpc>)

  predicate Shaped(n: NodeRun) { |n.rpcs| == |n.run.events| && |n.servers| == |n.run.states| == |n.run.events| + 1 }

  ghost predicate IsNodeRun(host: Host, r: Runtime, n: NodeRun) {
    && IsRun(r, n.run) && DistinctNames(host)
    && Shaped(n) && n.servers[0].ports == map[] && n.servers[0].tables == map[]
    && forall i {:trigger n.run.events[i]} :: 0 <= i < |n.run.events| ==>
         && AddsKnown(host, n.run.events[i])
         && Agrees(host, n.run.states[i], n.servers[i], n.run.events[i], n.rpcs[i])
         && n.servers[i + 1] == ServerAfter(host, n.run.states[i], n.servers[i], n.run.events[i], n.rpcs[i])
  }

  lemma {:induction false} KnownAlways(host: Host, r: Runtime, n: NodeRun, j: nat)
    requires IsNodeRun(host, r, n) && j <= |n.run.events|
    ensures Known(host, n.run.states[j])
  {
    hide Inv, Allowed, Agrees, Known, AddsKnown;
    if j == 0 {
      assert Known(host, n.run.states[0]) by { NothingCached(host, n.run.states[0]); }
    } else {
      KnownAlways(host, r, n, j - 1);
      RunsAreSafe(r, n.run, j - 1);
      var e := n.run.events[j - 1];
      KnownKept(host, r, n.run.histories[j - 1], n.run.states[j - 1], e);
    }
  }

  lemma NothingCached(host: Host, s: State)
    requires s.cache == map[]
    ensures Known(host, s)
  {}

  /** At step `i` a port that is there loses its VF's record or namespace, and is not deleted with it. */
  ghost predicate Leaves(host: Host, n: NodeRun, i: nat, p: Pci)
    requires Shaped(n) && i < |n.run.events|
  {
    HasPort(host, n.servers[i], p) && Uncovers(n.run.states[i], n.run.events[i], p)
  }

  /** At step `i` that ends, or does not come about. */
  ghost predicate EndsAt(host: Host, n: NodeRun, i: nat, p: Pci)
    requires Shaped(n) && i < |n.run.events|
  {
    Ends(host, n.run.states[i], n.servers[i], n.run.events[i], n.rpcs[i], p)
  }

  ghost predicate LeftSince(host: Host, n: NodeRun, i: nat, j: nat, p: Pci)
    requires Shaped(n) && j <= |n.run.events|
  {
    i < j && Leaves(host, n, i, p) && forall k :: i <= k < j ==> !EndsAt(host, n, k, p)
  }

  lemma LeftBehindStep(host: Host, r: Runtime, n: NodeRun, j: nat, p: Pci)
    requires IsNodeRun(host, r, n) && j < |n.run.events| && p in host.vfs
    ensures LeftBehind(host, n.run.states[j + 1], n.servers[j + 1], p) <==>
      (LeftBehind(host, n.run.states[j], n.servers[j], p) || Leaves(host, n, j, p)) && !EndsAt(host, n, j, p)
  {
    hide Inv, Allowed, Agrees, Known, AddsKnown, DistinctNames, Covered, Uncovers, Ends, HasPort, ServerAfter;
    RunsAreSafe(r, n.run, j);
    KnownAlways(host, r, n, j);
    var e := n.run.events[j];
    LeftBehindAfter(host, r, n.run.histories[j], n.run.states[j], n.servers[j], e, n.rpcs[j], p);
  }

  lemma LeftSinceGrows(host: Host, n: NodeRun, j: nat, next: nat, p: Pci)
    requires Shaped(n) && j < |n.run.events| && next == j + 1
    ensures (exists i: nat :: LeftSince(host, n, i, next, p)) <==>
      ((exists i: nat :: LeftSince(host, n, i, j, p)) || Leaves(host, n, j, p)) && !EndsAt(host, n, j, p)
  {
    hide Leaves, EndsAt;
    if i: nat :| LeftSince(host, n, i, next, p) {
      assert i < j ==> LeftSince(host, n, i, j, p);
    }
    if !EndsAt(host, n, j, p) {
      if Leaves(host, n, j, p) { assert LeftSince(host, n, j, next, p); }
      if i: nat :| LeftSince(host, n, i, j, p) { assert LeftSince(host, n, i, next, p); }
    }
  }

  /** Which ports are left behind, at every point of every run of the node, whatever failed in it: exactly those whose
      VF lost its record or its namespace at some step while the port was there, and that were neither deleted then or
      later nor taken up by a later add of the VF. */
  lemma {:induction false} LeftBehindExactly(host: Host, r: Runtime, n: NodeRun, j: nat, p: Pci)
    requires IsNodeRun(host, r, n) && j <= |n.run.events| && p in host.vfs
    ensures LeftBehind(host, n.run.states[j], n.servers[j], p) <==> exists i: nat :: LeftSince(host, n, i, j, p)
  {
    if j == 0 {
      NoPortAtFirst(host, r, n, p);
    } else {
      hide IsNodeRun, LeftBehind, LeftSince;
      assert Shaped(n);
      LeftBehindExactly(host, r, n, j - 1, p);
      LeftBehindStep(host, r, n, j - 1, p);
      LeftSinceGrows(host, n, j - 1, j, p);
    }
  }

  /** A delete that failed at the server, or got no connection to it, has already removed the record and keeps its
      configuration; and until the attachment is added again no delete of it asks the server for anything, at whatever
      point of the run and whatever fails in it. */
  lemma RetriesAskNothing(host: Host, r: Runtime, run: Run, i: nat, j: nat, a: Args, f: CniFaults, g: CniFaults,
                          faults: set<B.Call>)
    requires IsRun(r, run) && i < j <= |run.events| && run.events[i] == DelEvent(a, f) && Clears(run.states[i], a, f)
    requires Dial in f.calls || DeletePort in f.calls
    requires forall k :: i < k < j ==> !AddsAgain(run.events[k], a)
    ensures !Del(run.states[i], a, f).1 && run.states[i + 1].cache == run.states[i].cache
    ensures Asked(host, run.states[j], DelEvent(a, g), faults) == None
  {
    hide Release, IsRun, AddsAgain;
    StepOf(r, run, i);
    RetriesClearNothing(r, run, i, j, a, f, g);
  }

  lemma StepOf(r: Runtime, run: Run, i: nat)
    requires IsRun(r, run) && i < |run.events|
    ensures run.states[i + 1] == Step(run.states[i], run.events[i])
  {
    var _ := run.events[i];
  }

  lemma NoPortAtFirst(host: Host, r: Runtime, n: NodeRun, p: Pci)
    requires IsNodeRun(host, r, n)
    ensures !HasPort(host, n.servers[0], p)
  {}

  // ---- A VF that is held is served ----

  /** What an add asks for is the port of one of these. */
  ghost predicate AsksFor(host: Host, s: State, e: Event, vs: set<Vf>) {
    e.AddEvent? && Records(s, e.a, e.c, e.dpdk, e.f) && Dial !in e.f.calls && OrigOf(s.world, e.c.pci).Address? ==>
      VfOf(host, e.c.pci, OrigOf(s.world, e.c.pci).mac) in vs
  }

  predicate AllValid(vs: set<Vf>) { forall v :: v in vs ==> v.Valid() }

  lemma ServerKeeps(host: Host, s: State, sv: Server, e: Event, rpc: Rpc, vs: set<Vf>)
    requires AllValid(vs) && Settled(vs) && AsksFor(host, s, e, vs) && B.Inv(host.fxp, sv) && StoredFrom(vs, sv)
    ensures var sv' := ServerAfter(host, s, sv, e, rpc); B.Inv(host.fxp, sv') && StoredFrom(vs, sv')
    ensures var op := Asked(host, s, e, rpc.faults); op.Some? ==> R.FairOp(host.fxp, sv, op.value)
  {
    hide B.Inv, StoredFrom, Settled, B.Create, B.Delete, B.Fair, Records, Clears;
    var op := Asked(host, s, e, rpc.faults);
    match op
    case None =>
    case Some(CreateOp(in_, faults)) =>
      var v := VfOf(host, e.c.pci, OrigOf(s.world, e.c.pci).mac);
      assert v in vs && in_ == Request(v) && v.Valid();
      B.AcceptedIfAgreed(host.fxp, sv);
      SettledIsFair(host.fxp, vs, sv, v);
      B.CreateKeepsInv(host.fxp, sv, in_, faults);
      CreateStoresFrom(host.fxp, vs, sv, v, faults, B.Create(host.fxp, sv, in_, faults).0);
    case Some(DeleteOp(name, faults)) =>
      B.DeleteKeepsInv(host.fxp, sv, name, faults);
      DeleteStoresFrom(host.fxp, vs, sv, name, faults, B.Delete(host.fxp, sv, name, faults).0);
  }

  lemma StepKeepsPort(c: F.Config, sv: Server, op: B.Op, n: string)
    requires n in sv.ports && (op.CreateOp? ==> |op.in_.mac| != 1) && (op.DeleteOp? ==> op.name != n)
    ensures n in B.Step(c, sv, op).ports && B.Step(c, sv, op).ports[n] == sv.ports[n]
  {
    hide B.Attach, B.Detach, B.RulesOf, B.Check;
  }

  /** While the VF is held, no command of another attachment takes its port away or out of service. */
  lemma PortKept(host: Host, r: Runtime, h: History, s: State, sv: Server, e: Event, rpc: Rpc, a: Args, p: Pci,
                 vs: set<Vf>)
    requires Inv(r, h, s) && Allowed(r, h, s, e) && DistinctNames(host) && Known(host, s) && AddsKnown(host, e)
    requires AllValid(vs) && Settled(vs) && AsksFor(host, s, e, vs) && B.Inv(host.fxp, sv) && StoredFrom(vs, sv)
    requires a.cid in r.netns && a.netns == r.netns[a.cid] && Held(s, a, p) && !Frees(e, a, p)
    requires p in host.vfs && HasPort(host, sv, p)
    ensures var sv' := ServerAfter(host, s, sv, e, rpc); var n := NameOf(host, p);
      n in sv'.ports && sv'.ports[n] == sv.ports[n] && (R.Serving(sv', n) <==> R.Serving(sv, n))
  {
    hide Inv, Allowed, Known, DistinctNames, Asked, B.Step, B.Inv, Settled, StoredFrom, R.Serving, R.FairOp, Covers;
    hide Uncovers, AsksFor;
    var op, n := Asked(host, s, e, rpc.faults), NameOf(host, p);
    if op.Some? && rpc.sent {
      StaysHeld(r, h, s, e, a, p);
      CoveredAfter(r, h, s, e, p);
      AskedAbout(host, s, e, rpc.faults, p);
      NotCoveredByDel(s, e, p);
      StepKeepsPort(host.fxp, sv, op.value, n);
      ServerKeeps(host, s, sv, e, rpc, vs);
      R.ServingExactly(host.fxp, sv, op.value, n, B.Step(host.fxp, sv, op.value));
    }
  }

  lemma NotCoveredByDel(s: State, e: Event, p: Pci)
    ensures Covers(s, e, p) ==> e.AddEvent?
  {}

  /** An add that gets as far as its port, whether or not it can print its result, has its VF's port: its own request,
      in service, unless there was a port of that name; that one it is answered with as it is.  Such a port was left
      behind, unless the add dropped the record of a VF in use. */
  lemma AddServes(host: Host, s: State, sv: Server, e: Event, rpc: Rpc)
    requires e.AddEvent? && NamesUnique(s.world) && Agrees(host, s, sv, e, rpc)
    requires Records(s, e.a, e.c, e.dpdk, e.f) && Ported(s.world, e.c.pci, e.f)
    ensures OrigOf(s.world, e.c.pci).Address? && (Covered(s, e.c.pci) ==> DropsRecord(s, e))
    ensures var sv', n := ServerAfter(host, s, sv, e, rpc), NameOf(host, e.c.pci);
      && n in sv'.ports
      && if HasPort(host, sv, e.c.pci) then sv' == sv
         else
           && sv'.ports[n] == Request(VfOf(host, e.c.pci, OrigOf(s.world, e.c.pci).mac)).(up := true)
           && R.Serving(sv', n)
  {
    hide Finishes, B.Attach, R.Serving, B.RulesOf;
    var in_ := Request(VfOf(host, e.c.pci, OrigOf(s.world, e.c.pci).mac));
    assert Asked(host, s, e, rpc.faults) == Some(B.CreateOp(in_, rpc.faults));
    if NameOf(host, e.c.pci) !in sv.ports { R.CreateServes(host.fxp, sv, in_, rpc.faults); }
  }

  /** A delete that gets to the record and succeeds leaves no port of its VF, whether or not the server knew it; and one
      that fails there leaves the port exactly when the server did not delete it. */
  lemma DelDrops(host: Host, s: State, sv: Server, e: Event, rpc: Rpc)
    requires e.DelEvent? && Clears(s, e.a, e.f) && Agrees(host, s, sv, e, rpc)
    ensures var p, sv' := s.cache[CacheKey(e.a)].conf.pci, ServerAfter(host, s, sv, e, rpc);
      var deletes := Dial !in e.f.calls && rpc.sent && B.Delete(host.fxp, sv, NameOf(host, p), rpc.faults).1.Success?;
      && (Del(s, e.a, e.f).1 ==> !HasPort(host, sv', p))
      && (HasPort(host, sv', p) <==> HasPort(host, sv, p) && !deletes)
  {
    hide Release, B.Detach, B.RulesOf, NameOf, B.StoredAccepted;
  }

  /** What the adds of a run ask for, a set of VFs any two of which, under different names, differ in index and VSI. */
  ghost predicate AsksOnlyFor(host: Host, n: NodeRun, vs: set<Vf>)
    requires Shaped(n)
  {
    && AllValid(vs) && Settled(vs)
    && forall i {:trigger n.run.events[i]} :: 0 <= i < |n.run.events| ==>
         AsksFor(host, n.run.states[i], n.run.events[i], vs)
  }

  lemma {:induction false} ServerAgrees(host: Host, r: Runtime, n: NodeRun, j: nat, vs: set<Vf>)
    requires IsNodeRun(host, r, n) && j <= |n.run.events| && AsksOnlyFor(host, n, vs)
    ensures B.Inv(host.fxp, n.servers[j]) && StoredFrom(vs, n.servers[j])
  {
    if j == 0 {
      B.ServerStartsAgreed(host.fxp, n.servers[0].links);
    } else {
      hide IsRun, Agrees, AddsKnown, DistinctNames, AsksFor, B.Inv, StoredFrom, ServerAfter, Settled, AllValid;
      ServerAgrees(host, r, n, j - 1, vs);
      var e := n.run.events[j - 1];
      ServerKeeps(host, n.run.states[j - 1], n.servers[j - 1], e, n.rpcs[j - 1], vs);
    }
  }

  lemma {:induction false} PortKeptUntil(host: Host, r: Runtime, n: NodeRun, i: nat, j: nat, a: Args, p: Pci,
                                         vs: set<Vf>)
    requires IsNodeRun(host, r, n) && i <= j <= |n.run.events| && AsksOnlyFor(host, n, vs) && p in host.vfs
    requires a.cid in r.netns && a.netns == r.netns[a.cid] && Held(n.run.states[i], a, p)
    requires forall k :: i <= k < j ==> !Frees(n.run.events[k], a, p)
    requires HasPort(host, n.servers[i], p)
    ensures B.Inv(host.fxp, n.servers[i]) && B.Inv(host.fxp, n.servers[j])
    ensures var m := NameOf(host, p);
      && m in n.servers[j].ports && n.servers[j].ports[m] == n.servers[i].ports[m]
      && (R.Serving(n.servers[j], m) <==> R.Serving(n.servers[i], m))
    decreases j
  {
    hide Inv, Allowed, Agrees, Known, AddsKnown, DistinctNames, AsksFor, B.Inv, StoredFrom, ServerAfter, Settled;
    hide AllValid, R.Serving, Frees, Held, IsNodeRun, AsksOnlyFor, IsRun, NameOf, B.Accepted;
    assert Shaped(n) && IsRun(r, n.run) by { IsShaped(host, r, n); }
    ServerAgrees(host, r, n, i, vs);
    if i < j {
      PortKeptUntil(host, r, n, i, j - 1, a, p, vs);
      HeldUntilFreed(r, n.run, i, j - 1, a, p);
      PortKeptStep(host, r, n, j - 1, a, p, vs);
    }
  }

  lemma PortKeptStep(host: Host, r: Runtime, n: NodeRun, k: nat, a: Args, p: Pci, vs: set<Vf>)
    requires IsNodeRun(host, r, n) && k < |n.run.events| && AsksOnlyFor(host, n, vs) && p in host.vfs
    requires a.cid in r.netns && a.netns == r.netns[a.cid] && Held(n.run.states[k], a, p)
    requires !Frees(n.run.events[k], a, p) && HasPort(host, n.servers[k], p) && B.Inv(host.fxp, n.servers[k])
    ensures B.Inv(host.fxp, n.servers[k + 1])
    ensures var m := NameOf(host, p);
      && m in n.servers[k + 1].ports && n.servers[k + 1].ports[m] == n.servers[k].ports[m]
      && (R.Serving(n.servers[k + 1], m) <==> R.Serving(n.servers[k], m))
  {
    hide Inv, Allowed, Agrees, Known, AddsKnown, DistinctNames, AsksFor, B.Inv, StoredFrom, ServerAfter, Settled;
    hide AllValid, R.Serving, Frees, Held, HasPort;
    RunsAreSafe(r, n.run, k);
    KnownAlways(host, r, n, k);
    ServerAgrees(host, r, n, k, vs);
    ServerAgrees(host, r, n, k + 1, vs);
    var e := n.run.events[k];
    PortKept(host, r, n.run.histories[k], n.run.states[k], n.servers[k], e, n.rpcs[k], a, p, vs);
  }

  lemma IsShaped(host: Host, r: Runtime, n: NodeRun)
    requires IsNodeRun(host, r, n)
    ensures Shaped(n) && IsRun(r, n.run)
  {}

  lemma PortedHolds(r: Runtime, h: History, s: State, a: Args, c: AddConf, dpdk: bool, f: CniFaults)
    requires Inv(r, h, s) && Allowed(r, h, s, AddEvent(a, c, dpdk, f))
    requires Records(s, a, c, dpdk, f) && Ported(s.world, c.pci, f)
    ensures Held(Add(s, a, c, dpdk, f).0, a, c.pci) && NamesUnique(s.world)
  {
    hide Records, Add, Held, Finishes, OrigOf;
    if Add(s, a, c, dpdk, f).1 {
      AddHolds(r, h, s, a, c, dpdk, f);
    } else {
      FailedAddEnds(s, a, c, dpdk, f);
    }
  }

  /** From an add that got its port, whether or not it could print its result, until its VF is freed, whatever
      other attachments do and whatever netlink calls, server calls and answers fail: the VF is in its pod and recorded,
      its port is live and the port's FXP rules are all installed; and unless there was a port under its name before,
      the port is the one it asked for, in the bridge and up. */
  lemma HeldIsServed(host: Host, r: Runtime, n: NodeRun, i: nat, j: nat, a: Args, c: AddConf, dpdk: bool, f: CniFaults,
                     vs: set<Vf>)
    requires IsNodeRun(host, r, n) && i < j <= |n.run.events| && AsksOnlyFor(host, n, vs)
    requires n.run.events[i] == AddEvent(a, c, dpdk, f)
    requires Records(n.run.states[i], a, c, dpdk, f) && Ported(n.run.states[i].world, c.pci, f)
    requires forall k :: i < k < j ==> !Frees(n.run.events[k], a, c.pci)
    ensures var m, sv := NameOf(host, c.pci), n.servers[j];
      && Held(n.run.states[j], a, c.pci) && m in sv.ports
      && B.Installed(sv.tables, B.RulesOf(host.fxp, sv.ports[m]))
      && OrigOf(n.run.states[i].world, c.pci).Address?
      && (!HasPort(host, n.servers[i], c.pci) ==>
            && sv.ports[m] == Request(VfOf(host, c.pci, OrigOf(n.run.states[i].world, c.pci).mac)).(up := true)
            && R.Serving(sv, m))
      && (HasPort(host, n.servers[i], c.pci) ==>
            && sv.ports[m] == n.servers[i].ports[m] && (R.Serving(sv, m) <==> R.Serving(n.servers[i], m)))
  {
    hide Inv, Agrees, DistinctNames, AsksOnlyFor, B.Inv, ServerAfter, R.Serving, Frees, Held, Add, OrigOf, B.RulesOf;
    hide B.Installed, Covered, Records, Ported;
    var e, s := n.run.events[i], n.run.states[i];
    RunsAreSafe(r, n.run, i);
    assert AddsKnown(host, e);
    PortedHolds(r, n.run.histories[i], s, a, c, dpdk, f);
    AddServes(host, s, n.servers[i], e, n.rpcs[i]);
    HeldUntilFreed(r, n.run, i + 1, j, a, c.pci);
    PortKeptUntil(host, r, n, i + 1, j, a, c.pci, vs);
    B.LivePortInstalled(host.fxp, n.servers[j], NameOf(host, c.pci));
  }
}
