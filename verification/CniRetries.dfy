/** What the deletes of an attachment can still do once its link has left the pod, or its VF's record was lost: never
    again get to a record, nor ask for a bridge port to go, until the attachment is added again. */
module CniRetries {
  import opened VfConfig
  import opened VfLinks
  import opened CniLifecycle
  import opened CniOutcomes

  /** A command of the attachment as the runtime gives it. */
  predicate IsAttached(r: Runtime, a: Args) {
    r.Names(a) && a.netns == r.netns[a.cid] && a.ifName in r.ifNames
  }

  /** No link has the interface name in the pod. */
  predicate Gone(s: State, a: Args) { !Exists(s.world, a.netns, a.ifName) }

  lemma GoneClearsNothing(s: State, a: Args, g: CniFaults)
    requires Gone(s, a)
    ensures !Clears(s, a, g) && Del(s, a, g).0.world == s.world
  {}

  // ---- Gone stays gone: the links are explained without the attachment ----

  lemma ExplainedWithout(r: Runtime, h: History, w: World, a: Args)
    requires r.Valid() && LinksKnown(r, h, w) && IsAttached(r, a) && !Exists(w, a.netns, a.ifName)
    ensures LinksKnown(r, h - {AttachmentOf(a)}, w)
  {
    var h' := h - {AttachmentOf(a)};
    forall p | p in w.links && w.links[p].ns != INIT && w.links[p].name in r.ifNames
      ensures Given(r, h', w.links[p].ns, w.links[p].name, p)
    {
      var c :| c in r.netns && r.netns[c] == w.links[p].ns
        && Attachment(c, w.links[p].name) in h && h[Attachment(c, w.links[p].name)] == p;
      assert At(w, p, w.links[p].ns, w.links[p].name);
      assert Attachment(c, w.links[p].name) in h';
    }
  }

  lemma UnexplainedIsGone(r: Runtime, h: History, w: World, a: Args)
    requires r.Valid() && WorldOk(w) && LinksKnown(r, h, w) && IsAttached(r, a) && AttachmentOf(a) !in h
    ensures !Exists(w, a.netns, a.ifName)
  {
    if Exists(w, a.netns, a.ifName) { FoundIsOwn(r, h, w, a); }
  }

  lemma GoneThroughAdd(r: Runtime, h: History, s: State, b: Args, c: AddConf, dpdk: bool, f: CniFaults, a: Args,
                       s': State)
    requires Inv(r, h, s) && Allowed(r, h, s, AddEvent(b, c, dpdk, f)) && IsAttached(r, a)
    requires Gone(s, a) && AttachmentOf(b) != AttachmentOf(a) && s' == Add(s, b, c, dpdk, f).0
    ensures Gone(s', a)
  {
    var alloc, host, h' := IsAllocated(s, c.pci, f), HostName(s.world, c.pci), h - {AttachmentOf(a)};
    if AttachmentOf(b) !in h { NothingLeftAtFirst(r, h, s, b, c.pci); }
    ExplainedWithout(r, h, s.world, a);
    if alloc.Free? && (host != "" || dpdk) {
      var s1 := s.(records := alloc.records);
      SetupAndFinishShape(r, h', s, b, c, host, f, s1);
      if s'.world != s.world { UnexplainedIsGone(r, h'[AttachmentOf(b) := c.pci], s'.world, a); }
    }
  }

  lemma GoneThroughDel(r: Runtime, h: History, s: State, b: Args, f: CniFaults, a: Args, s': State)
    requires Inv(r, h, s) && Permitted(r, h, s, DelEvent(b, f)) && IsAttached(r, a)
    requires Gone(s, a) && AttachmentOf(b) != AttachmentOf(a) && s' == Del(s, b, f).0
    ensures Gone(s', a)
  {
    var h' := h - {AttachmentOf(a)};
    ExplainedWithout(r, h, s.world, a);
    DelCases(s, b, f, s');
    if s' != s && s' != Forget(s, b, f) {
      ReleaseShape(r, h', s, b, s.cache[CacheKey(b)], f, s');
      if s'.world != s.world { UnexplainedIsGone(r, h', s'.world, a); }
    }
  }

  lemma GoneThroughDeath(r: Runtime, h: History, s: State, ns: Netns, after: World, a: Args)
    requires Inv(r, h, s) && Permitted(r, h, s, DeathEvent(ns, after)) && IsAttached(r, a) && Gone(s, a)
    ensures Gone(s.(world := after), a)
  {
    assert forall q :: q in after.links && At(after, q, a.netns, a.ifName) ==> At(s.world, q, a.netns, a.ifName);
  }

  /** An add of the attachment. */
  predicate AddsAgain(e: Event, a: Args) { e.AddEvent? && AttachmentOf(e.a) == AttachmentOf(a) }

  lemma GoneStays(r: Runtime, h: History, s: State, e: Event, a: Args)
    requires Inv(r, h, s) && Allowed(r, h, s, e) && IsAttached(r, a) && Gone(s, a) && !AddsAgain(e, a)
    ensures Gone(Step(s, e), a)
  {
    hide Inv, Add, Del, Gone;
    match e
    case AddEvent(b, c, dpdk, f) => GoneThroughAdd(r, h, s, b, c, dpdk, f, a, Add(s, b, c, dpdk, f).0);
    case DelEvent(b, f) =>
      if AttachmentOf(b) != AttachmentOf(a) {
        GoneThroughDel(r, h, s, b, f, a, Del(s, b, f).0);
      } else {
        OwnDelOfGone(s, b, f, a);
      }
    case DeathEvent(ns, after) => GoneThroughDeath(r, h, s, ns, after, a);
  }

  lemma OwnDelOfGone(s: State, b: Args, f: CniFaults, a: Args)
    requires Gone(s, a) && AttachmentOf(b) == AttachmentOf(a) && (b.netns == a.netns || b.netns == "")
    ensures Gone(Del(s, b, f).0, a)
  {
    if b.netns == a.netns { GoneClearsNothing(s, b, f); }
  }

  lemma {:induction false} GoneUntilAdded(r: Runtime, run: Run, i: nat, j: nat, a: Args)
    requires IsRun(r, run) && i <= j <= |run.events| && IsAttached(r, a) && Gone(run.states[i], a)
    requires forall k :: i <= k < j ==> !AddsAgain(run.events[k], a)
    ensures Gone(run.states[j], a)
    decreases j
  {
    hide Inv, Allowed, Gone, AddsAgain;
    if i < j {
      GoneUntilAdded(r, run, i, j - 1, a);
      RunsAreSafe(r, run, j - 1);
      var e := run.events[j - 1];
      GoneStays(r, run.histories[j - 1], run.states[j - 1], e, a);
    }
  }

  // ---- Retries of a delete ----

  lemma ClearedIsGone(r: Runtime, h: History, s: State, a: Args, f: CniFaults)
    requires Inv(r, h, s) && Allowed(r, h, s, DelEvent(a, f)) && Clears(s, a, f)
    ensures IsAttached(r, a) && Gone(Del(s, a, f).0, a)
  {
    var c, s' := s.cache[CacheKey(a)], Del(s, a, f).0;
    DelMoves(s, a, f);
    var p := Holder(s.world, a.netns, a.ifName);
    ReleaseMoves(s.world, p, c.host, c.conf.mac, c.orig, f.release);
    assert forall q :: q in s'.world.links && q != p ==> s'.world.links[q] == s.world.links[q];
  }

  /** A delete that got to the record, whether or not the server then deleted the port, is the last one that does: until
      the attachment is added again, no delete of it gets there, at whatever point of the run and whatever fails in
      it. */
  lemma RetriesClearNothing(r: Runtime, run: Run, i: nat, j: nat, a: Args, f: CniFaults, g: CniFaults)
    requires IsRun(r, run) && i < j <= |run.events| && run.events[i] == DelEvent(a, f) && Clears(run.states[i], a, f)
    requires forall k :: i < k < j ==> !AddsAgain(run.events[k], a)
    ensures !Clears(run.states[j], a, g)
  {
    hide Inv, Clears, Gone, AddsAgain;
    RunsAreSafe(r, run, i);
    ClearedIsGone(r, run.histories[i], run.states[i], a, f);
    GoneUntilAdded(r, run, i + 1, j, a);
    GoneClearsNothing(run.states[j], a, g);
  }

  // ---- A lost record ----

  /** The VF is in its pod without a record, or has left it. */
  predicate Lost(s: State, a: Args, p: Pci) {
    Gone(s, a) || (At(s.world, p, a.netns, a.ifName) && p !in s.records)
  }

  lemma LostClearsNothing(r: Runtime, h: History, s: State, a: Args, p: Pci, g: CniFaults)
    requires Inv(r, h, s) && IsAttached(r, a) && Lost(s, a, p)
    ensures !Clears(s, a, g)
  {
    if Gone(s, a) {
      GoneClearsNothing(s, a, g);
    } else {
      HolderIs(s.world, p, a.netns, a.ifName);
      FoundIsOwn(r, h, s.world, a);
    }
  }

  /** No add gets the VF while it is in the pod, as there is no host name to find. */
  lemma LostThroughAdd(r: Runtime, h: History, s: State, b: Args, c: AddConf, dpdk: bool, f: CniFaults, a: Args, p: Pci,
                       s': State)
    requires Inv(r, h, s) && Allowed(r, h, s, AddEvent(b, c, dpdk, f)) && IsAttached(r, a)
    requires At(s.world, p, a.netns, a.ifName) && p !in s.records && s' == Add(s, b, c, dpdk, f).0
    ensures Lost(s', a, p)
  {
    AddLeaves(r, h, s, b, c, dpdk, f);
    if c.pci == p { assert s' == s; }
  }

  lemma LostThroughDel(r: Runtime, h: History, s: State, b: Args, f: CniFaults, a: Args, p: Pci, s': State)
    requires Inv(r, h, s) && Permitted(r, h, s, DelEvent(b, f)) && IsAttached(r, a)
    requires At(s.world, p, a.netns, a.ifName) && p !in s.records && s' == Del(s, b, f).0
    ensures Lost(s', a, p)
  {
    DelLeaves(r, h, s, b, f, s');
    if s'.world != s.world && AttachmentOf(b) == AttachmentOf(a) {
      var q := h[AttachmentOf(b)];
      assert q == p;
      if x :| x in s'.world.links && At(s'.world, x, a.netns, a.ifName) { assert x == p; }
    }
  }

  lemma LostStays(r: Runtime, h: History, s: State, e: Event, a: Args, p: Pci)
    requires Inv(r, h, s) && Allowed(r, h, s, e) && IsAttached(r, a) && Lost(s, a, p) && !AddsAgain(e, a)
    ensures Lost(Step(s, e), a, p)
  {
    hide Inv, Add, Del;
    if Gone(s, a) {
      GoneStays(r, h, s, e, a);
    } else {
      match e
      case AddEvent(b, c, dpdk, f) => LostThroughAdd(r, h, s, b, c, dpdk, f, a, p, Add(s, b, c, dpdk, f).0);
      case DelEvent(b, f) => LostThroughDel(r, h, s, b, f, a, p, Del(s, b, f).0);
      case DeathEvent(ns, after) => LostThroughDeath(r, h, s, ns, after, a, p);
    }
  }

  lemma LostThroughDeath(r: Runtime, h: History, s: State, ns: Netns, after: World, a: Args, p: Pci)
    requires Inv(r, h, s) && Permitted(r, h, s, DeathEvent(ns, after)) && IsAttached(r, a)
    requires At(s.world, p, a.netns, a.ifName) && p !in s.records
    ensures Lost(s.(world := after), a, p)
  {
    assert forall q :: q in after.links && At(after, q, a.netns, a.ifName) ==> At(s.world, q, a.netns, a.ifName);
  }

  lemma {:induction false} LostUntilAdded(r: Runtime, run: Run, i: nat, j: nat, a: Args, p: Pci)
    requires IsRun(r, run) && i <= j <= |run.events| && IsAttached(r, a) && Lost(run.states[i], a, p)
    requires forall k :: i <= k < j ==> !AddsAgain(run.events[k], a)
    ensures Lost(run.states[j], a, p)
    decreases j
  {
    hide Inv, Allowed, Lost, AddsAgain;
    if i < j {
      LostUntilAdded(r, run, i, j - 1, a, p);
      RunsAreSafe(r, run, j - 1);
      var e := run.events[j - 1];
      LostStays(r, run.histories[j - 1], run.states[j - 1], e, a, p);
    }
  }

  /** When an add of a held VF drops its record, no delete of the attachment that holds it ever gets to remove a record
      or ask for the port to go, until that attachment is added again. */
  lemma LostRecordClearsNothing(r: Runtime, run: Run, i: nat, j: nat, a: Args, p: Pci, g: CniFaults)
    requires IsRun(r, run) && i < j <= |run.events| && IsAttached(r, a) && Held(run.states[i], a, p)
    requires run.events[i].AddEvent? && run.events[i].c.pci == p && Misjudges(run.events[i].f)
    requires forall k :: i < k < j ==> !AddsAgain(run.events[k], a)
    ensures !Clears(run.states[j], a, g)
  {
    hide Inv, Clears, AddsAgain;
    var e := run.events[i];
    RunsAreSafe(r, run, i);
    MisjudgedAdd(run.states[i], a, p, e.a, e.c, e.dpdk, e.f);
    LostUntilAdded(r, run, i + 1, j, a, p);
    RunsAreSafe(r, run, j);
    LostClearsNothing(r, run.histories[j], run.states[j], a, p, g);
  }
}
