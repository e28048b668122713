/** What single commands of CniLifecycle leave, exactly: when a delete is safe, when it gives the VF back, what an add
    writes, how a failed add ends, and when a delete undoes an add. */
module CniOutcomes {
  import opened VfConfig
  import opened VfLinks
  import opened CniLifecycle

  // ---- When a delete is safe, and when it gives the VF back ----

  /** The delete gets as far as removing the record of the VF that its cached configuration names. */
  ghost predicate Clears(s: State, a: Args, f: CniFaults) {
    && ReadCache !in f.calls && CacheKey(a) in s.cache && a.netns != "" && a.netns in s.world.live
    && var c := s.cache[CacheKey(a)];
      && !(c.conf.ipam && IpamDel in f.calls) && FindVfid !in f.calls && !ResetFails(c, f) && OpenNetns !in f.calls
      && Release(s.world, c.host, a.ifName, a.netns, c.conf.mac, c.orig, f.release).1
      && RemoveRecord !in f.calls && c.conf.pci in s.records
  }

  lemma DelRecords(s: State, a: Args, f: CniFaults)
    ensures Del(s, a, f).0.records
         == if Clears(s, a, f) then s.records - {s.cache[CacheKey(a)].conf.pci} else s.records
  {}

  lemma DelMoves(s: State, a: Args, f: CniFaults)
    requires Clears(s, a, f)
    ensures var c := s.cache[CacheKey(a)];
      Del(s, a, f).0.world == Release(s.world, c.host, a.ifName, a.netns, c.conf.mac, c.orig, f.release).0
  {}

  /** In any state with unique names whose records hold, a delete is safe exactly when, if it gets to a record that
      names a live namespace, the VF of that record is the link it found. */
  lemma DelSafeExactly(s: State, a: Args, f: CniFaults)
    requires NamesUnique(s.world) && RecordsHold(s) && a.netns != INIT
    ensures Safe(s, DelEvent(a, f), Del(s, a, f).0) <==>
      (Clears(s, a, f) && s.records[s.cache[CacheKey(a)].conf.pci] in s.world.live ==>
        At(s.world, s.cache[CacheKey(a)].conf.pci, a.netns, a.ifName))
  {
    DelRecords(s, a, f);
    if Clears(s, a, f) {
      var c := s.cache[CacheKey(a)];
      DelMoves(s, a, f);
      ReleaseMoves(s.world, Holder(s.world, a.netns, a.ifName), c.host, c.conf.mac, c.orig, f.release);
    }
  }

  /** So a delete whose file name is that of another attachment, which holds its VF, is unsafe whenever it gets that
      far. */
  lemma CollisionUnsafe(s: State, a: Args, b: Args, q: Pci, f: CniFaults)
    requires NamesUnique(s.world) && RecordsHold(s) && a.netns != INIT && (a.netns != b.netns || a.ifName != b.ifName)
    requires CacheKey(a) == CacheKey(b) && Clears(s, a, f) && s.cache[CacheKey(b)].conf.pci == q && Held(s, b, q)
    ensures !Safe(s, DelEvent(a, f), Del(s, a, f).0)
  {
    DelSafeExactly(s, a, f);
  }

  /** How an undisturbed delete of an attachment that holds its VF ends: it succeeds exactly when no address was
      configured and the host name is free where the link is and where it goes; and then the link is back, down, under
      its host name, and record and configuration are gone. */
  predicate Freed(s: State, a: Args, c: Cached, s': State, ok: bool)
    requires c.conf.pci in s.world.links
  {
    var p := c.conf.pci;
    && (ok <==> c.conf.mac.NoMac? && c.host != "" && !TakenBeside(s.world, p, a.netns, c.host)
                && !TakenBeside(s.world, p, INIT, c.host))
    && (ok ==> var link := s.world.links[p].(ns := INIT, name := c.host, up := false);
          s' == State(s.world.(links := s.world.links[p := link]), s.records - {p}, s.cache - {CacheKey(a)}))
  }

  lemma DelFrees(s: State, a: Args, c: Cached)
    requires NamesUnique(s.world) && INIT in s.world.live && a.netns != ""
    requires CacheKey(a) in s.cache && s.cache[CacheKey(a)] == c && Held(s, a, c.conf.pci)
    ensures var (s', ok) := Del(s, a, NO_CNI_FAULTS); Freed(s, a, c, s', ok)
  {
    var p, f := c.conf.pci, NO_CNI_FAULTS;
    HolderIs(s.world, p, a.netns, a.ifName);
    ReleaseLinkSucceeds(s.world, p, c.host, c.conf.mac, c.orig);
    if c.conf.mac.NoMac? && ReleaseLink(s.world, p, c.host, c.conf.mac, c.orig, NO_FAULTS).1 {
      ReleaseMoves(s.world, p, c.host, c.conf.mac, c.orig, NO_FAULTS);
      ReleaseEffect(s.world, p, c.host, c.conf.mac, c.orig, NO_FAULTS);
    }
  }

  // ---- What an add writes, and when it succeeds ----

  /** The add gets as far as caching its configuration. */
  ghost predicate Configures(s: State, a: Args, c: AddConf, dpdk: bool, f: CniFaults) {
    var host := HostName(s.world, c.pci);
    && VfInfo !in f.calls && IsAllocated(s, c.pci, f).Free? && (host != "" || dpdk)
    && OtherConf !in f.calls && EnvArgs !in f.calls && OpenNetns !in f.calls && a.netns in s.world.live
    && ApplyVf !in f.calls && Finishes(s.world, a, c, f)
  }

  ghost predicate Records(s: State, a: Args, c: AddConf, dpdk: bool, f: CniFaults) {
    Configures(s, a, c, dpdk, f) && SavePci !in f.calls
  }

  /** The effective address that the add remembers. */
  function OrigOf(w: World, pci: Pci): MacText {
    if HostName(w, pci) == "" then NoMac else Printed(w.links[pci].mac)
  }

  /** The bridge port is asked for and comes. */
  predicate Ported(w: World, pci: Pci, f: CniFaults) {
    Dial !in f.calls && OrigOf(w, pci).Address? && CreatePort !in f.calls
  }

  lemma FinishWrites(s: State, a: Args, c: Cached, f: CniFaults)
    ensures var (s', ok) := FinishAdd(s, a, c, f);
      var saved := !(c.conf.ipam && IpamAdd in f.calls) && SaveConf !in f.calls;
      var recorded := saved && SavePci !in f.calls;
      var ported := recorded && Dial !in f.calls && c.orig.Address? && CreatePort !in f.calls;
      && s'.cache == (if saved then s.cache[CacheKey(a) := c] else s.cache)
      && s'.records == (if recorded then s.records[c.conf.pci := a.netns] else s.records)
      && (ok <==> ported && PrintResult !in f.calls)
      && s'.world == if ported || (recorded && Dial in f.calls) then s.world
                     else Release(s.world, c.host, a.ifName, a.netns, c.conf.mac, c.orig, f.release).0
  {}

  lemma SetupRemembers(w: World, pci: Pci, a: Args, mac: MacText, f: LinkFaults)
    requires NamesUnique(w) && HostName(w, pci) != "" && Setup(w, HostName(w, pci), a.ifName, a.netns, mac, f).2
    ensures var (w', orig, _) := Setup(w, HostName(w, pci), a.ifName, a.netns, mac, f);
      orig == OrigOf(w, pci) && OnlyMoves(w, pci, w') && At(w', pci, a.netns, a.ifName)
  {
    HolderIs(w, pci, INIT, HostName(w, pci));
    SetupMoves(w, pci, a.ifName, a.netns, mac, f);
  }

  /** What is left to do behind the VF's attributes comes as far as caching the configuration. */
  ghost predicate Finishes(w: World, a: Args, c: AddConf, f: CniFaults) {
    var host := HostName(w, c.pci);
    && (host != "" ==> Setup(w, host, a.ifName, a.netns, c.mac, f.setup).2) && (c.ipam ==> IpamAdd !in f.calls)
    && SaveConf !in f.calls
  }

  lemma SetupAndFinishWrites(s: State, a: Args, c: AddConf, f: CniFaults, s': State, ok: bool)
    requires NamesUnique(s.world) && (s', ok) == SetupAndFinish(s, a, c, HostName(s.world, c.pci), f)
    ensures s'.cache == (if Finishes(s.world, a, c, f)
                         then s.cache[CacheKey(a) := Cached(c, HostName(s.world, c.pci), OrigOf(s.world, c.pci))]
                         else s.cache)
    ensures s'.records == (if Finishes(s.world, a, c, f) && SavePci !in f.calls then s.records[c.pci := a.netns]
                           else s.records)
    ensures ok <==> Finishes(s.world, a, c, f) && SavePci !in f.calls && Ported(s.world, c.pci, f)
                    && PrintResult !in f.calls
  {
    var host := HostName(s.world, c.pci);
    if host == "" {
      FinishWrites(s, a, Cached(c, host, NoMac), f);
    } else {
      var (w, orig, set_) := Setup(s.world, host, a.ifName, a.netns, c.mac, f.setup);
      if set_ { SetupRemembers(s.world, c.pci, a, c.mac, f.setup); }
      FinishWrites(s.(world := w), a, Cached(c, host, orig), f);
    }
  }

  /** Exactly when an add writes its configuration and its record, and when it succeeds; failing or not, what it wrote
      stays. */
  lemma AddWrites(s: State, a: Args, c: AddConf, dpdk: bool, f: CniFaults)
    requires NamesUnique(s.world)
    ensures var (s', ok) := Add(s, a, c, dpdk, f); var host := HostName(s.world, c.pci);
      && s'.cache == (if Configures(s, a, c, dpdk, f)
                      then s.cache[CacheKey(a) := Cached(c, host, OrigOf(s.world, c.pci))] else s.cache)
      && s'.records == (if Records(s, a, c, dpdk, f) then s.records[c.pci := a.netns]
                        else if VfInfo !in f.calls && IsAllocated(s, c.pci, f).Free? then s.records - {c.pci}
                        else s.records)
      && (ok <==> Records(s, a, c, dpdk, f) && Ported(s.world, c.pci, f) && PrintResult !in f.calls)
  {
    var alloc, host := IsAllocated(s, c.pci, f), HostName(s.world, c.pci);
    if VfInfo !in f.calls && alloc.Free? {
      assert alloc.records == s.records - {c.pci};
      var s1 := s.(records := alloc.records);
      var (s', ok) := SetupAndFinish(s1, a, c, host, f);
      SetupAndFinishWrites(s1, a, c, f, s', ok);
      assert s.records[c.pci := a.netns] == s1.records[c.pci := a.netns];
    }
  }

  /** From any state with unique names, an add is safe exactly when its check does not drop a record that names a live
      namespace, or the add writes the same record again. */
  lemma AddSafeExactly(s: State, a: Args, c: AddConf, dpdk: bool, f: CniFaults)
    requires NamesUnique(s.world)
    ensures var e := AddEvent(a, c, dpdk, f);
      Safe(s, e, Add(s, a, c, dpdk, f).0) <==>
        (DropsRecord(s, e) ==> Records(s, a, c, dpdk, f) && a.netns == s.records[c.pci])
  {
    AddWrites(s, a, c, dpdk, f);
  }

  /** So over whole runs: the one command that is not safe, whatever fails, is such an add. */
  lemma RunsAreSafeExactly(r: Runtime, run: Run, i: nat)
    requires IsRun(r, run) && i < |run.events|
    ensures var s, e := run.states[i], run.events[i];
      Safe(s, e, run.states[i + 1]) <==>
        (DropsRecord(s, e) ==> Records(s, e.a, e.c, e.dpdk, e.f) && e.a.netns == s.records[e.c.pci])
  {
    hide Safe, Records;
    var s, e := run.states[i], run.events[i];
    RunsAreSafe(r, run, i);
    if e.AddEvent? { AddSafeExactly(s, e.a, e.c, e.dpdk, e.f); }
  }

  /** Such an add of a VF that is held fails and takes the record, and leaves the VF in its pod; no delete can then get
      to the record, nor ask for the port to go. */
  lemma MisjudgedAdd(s: State, b: Args, p: Pci, a: Args, c: AddConf, dpdk: bool, f: CniFaults)
    requires Held(s, b, p) && b.netns != INIT && c.pci == p && Misjudges(f) && (dpdk ==> p !in s.world.links)
    ensures var s' := s.(records := s.records - {p});
      && Add(s, a, c, dpdk, f) == (s', false) && !Safe(s, AddEvent(a, c, dpdk, f), s')
      && At(s'.world, p, b.netns, b.ifName) && !Held(s', b, p)
      && forall g :: CacheKey(b) in s'.cache && s'.cache[CacheKey(b)].conf.pci == p ==> !Clears(s', b, g)
  {}

  /** The links that an add has set up, or not, when it comes to finish. */
  ghost function AfterSetup(s: State, a: Args, c: AddConf, f: CniFaults): World {
    var host := HostName(s.world, c.pci);
    if host == "" then s.world else Setup(s.world, host, a.ifName, a.netns, c.mac, f.setup).0
  }

  /** The release in the cleanup of an add whose record is written. */
  ghost function CleanupRelease(s: State, a: Args, c: AddConf, f: CniFaults): (World, bool) {
    var host, orig := HostName(s.world, c.pci), OrigOf(s.world, c.pci);
    Release(AfterSetup(s, a, c, f), host, a.ifName, a.netns, c.mac, orig, f.release)
  }

  /** That cleanup gives the link back. */
  ghost predicate GivesBack(s: State, a: Args, c: AddConf, f: CniFaults) { CleanupRelease(s, a, c, f).1 }

  lemma RecordedWorld(s: State, a: Args, c: AddConf, dpdk: bool, f: CniFaults)
    requires NamesUnique(s.world) && Records(s, a, c, dpdk, f)
    ensures Add(s, a, c, dpdk, f).0.world
         == if Ported(s.world, c.pci, f) || Dial in f.calls then AfterSetup(s, a, c, f)
            else CleanupRelease(s, a, c, f).0
  {
    var host := HostName(s.world, c.pci);
    if host != "" { SetupRemembers(s.world, c.pci, a, c.mac, f.setup); }
    var s1 := State(AfterSetup(s, a, c, f), IsAllocated(s, c.pci, f).records, s.cache);
    FinishWrites(s1, a, Cached(c, host, OrigOf(s.world, c.pci)), f);
  }

  // ---- The round trip ----

  lemma ReleaseUndone(w: World, w1: World, w2: World, a: Args, p: Pci, host: string, f: LinkFaults)
    requires NamesUnique(w) && At(w, p, INIT, host) && SetupLink(w, p, a.ifName, a.netns, NoMac, f) == (w1, true)
    requires p in w1.links && w2 == w1.(links := w1.links[p := w1.links[p].(ns := INIT, name := host, up := false)])
    ensures w2 == w.(links := w.links[p := w.links[p].(up := false)])
  {
    SetupMoves(w, p, a.ifName, a.netns, NoMac, f);
    SetupEffect(w, p, a.ifName, a.netns, NoMac, f);
  }

  lemma FreeAfterSetup(w: World, w1: World, a: Args, p: Pci, host: string, mac: MacText, f: LinkFaults)
    requires NamesUnique(w) && At(w, p, INIT, host) && SetupLink(w, p, a.ifName, a.netns, mac, f) == (w1, true)
    ensures OnlyMoves(w, p, w1) && At(w1, p, a.netns, a.ifName)
    ensures TakenBeside(w1, p, a.netns, host) <==> TakenBeside(w, p, a.netns, host)
    ensures !TakenBeside(w1, p, INIT, host)
  {
    SetupMoves(w, p, a.ifName, a.netns, mac, f);
    TakenSame(w, w1, p, a.netns, host);
    TakenSame(w, w1, p, INIT, host);
  }

  lemma UndoneBy(s: State, s1: State, a: Args, c: Cached, f: LinkFaults, s2: State, ok: bool)
    requires NamesUnique(s.world) && At(s.world, c.conf.pci, INIT, c.host) && c.host != ""
    requires SetupLink(s.world, c.conf.pci, a.ifName, a.netns, c.conf.mac, f) == (s1.world, true)
    requires s1.records == s.records[c.conf.pci := a.netns] && s1.cache == s.cache[CacheKey(a) := c]
    requires c.conf.pci in s1.world.links && Freed(s1, a, c, s2, ok)
    ensures ok <==> c.conf.mac.NoMac? && !TakenBeside(s.world, c.conf.pci, a.netns, c.host)
    ensures ok ==> s2.world == s.world.(links := s.world.links[c.conf.pci := s.world.links[c.conf.pci].(up := false)])
    ensures ok ==> s2.records == s.records - {c.conf.pci} && s2.cache == s.cache - {CacheKey(a)}
  {
    var p := c.conf.pci;
    FreeAfterSetup(s.world, s1.world, a, p, c.host, c.conf.mac, f);
    if ok {
      assert s2.records == s1.records - {p} == s.records - {p};
      assert s2.cache == s.cache[CacheKey(a) := c] - {CacheKey(a)} == s.cache - {CacheKey(a)};
      ReleaseUndone(s.world, s1.world, s2.world, a, p, c.host, f);
    }
  }

  /** What a successful add leaves. */
  lemma AddEffect(s: State, a: Args, c: AddConf, dpdk: bool, f: CniFaults, host: string, s1: State)
    requires NamesUnique(s.world) && (dpdk ==> c.pci !in s.world.links)
    requires Add(s, a, c, dpdk, f) == (s1, true) && host == HostName(s.world, c.pci)
    ensures host != "" && At(s.world, c.pci, INIT, host) && a.netns in s.world.live
    ensures SetupLink(s.world, c.pci, a.ifName, a.netns, c.mac, f.setup) == (s1.world, true)
    ensures s1.records == s.records[c.pci := a.netns]
    ensures s1.cache == s.cache[CacheKey(a) := Cached(c, host, OrigOf(s.world, c.pci))]
  {
    AddWrites(s, a, c, dpdk, f);
    RecordedWorld(s, a, c, dpdk, f);
    HolderIs(s.world, c.pci, INIT, host);
  }

  /** After a successful add, an undisturbed delete succeeds exactly when no address was configured and no other link of
      the pod has the VF's host name.  Then everything is as before the add, except that the link is down and that a
      record that named a dead namespace and a configuration left of the attachment are gone. */
  lemma DelUndoesAdd(s: State, a: Args, c: AddConf, dpdk: bool, f: CniFaults, s1: State)
    requires WorldOk(s.world) && a.netns != "" && (dpdk ==> c.pci !in s.world.links)
    requires Add(s, a, c, dpdk, f) == (s1, true)
    ensures var (s2, ok) := Del(s1, a, NO_CNI_FAULTS);
      && (ok <==> c.mac.NoMac? && !TakenBeside(s.world, c.pci, a.netns, HostName(s.world, c.pci)))
      && (ok ==> c.pci in s.world.links
                 && s2.world == s.world.(links := s.world.links[c.pci := s.world.links[c.pci].(up := false)])
                 && s2.records == s.records - {c.pci} && s2.cache == s.cache - {CacheKey(a)})
  {
    var host := HostName(s.world, c.pci);
    var (s2, ok) := Del(s1, a, NO_CNI_FAULTS);
    AddEffect(s, a, c, dpdk, f, host, s1);
    FreeAfterSetup(s.world, s1.world, a, c.pci, host, c.mac, f.setup);
    DelFrees(s1, a, Cached(c, host, OrigOf(s.world, c.pci)));
    UndoneBy(s, s1, a, Cached(c, host, OrigOf(s.world, c.pci)), f.setup, s2, ok);
  }

  // ---- Later in a run ----

  /** The cached configuration of an attachment that holds its VF stays until a delete of the attachment itself. */
  lemma CacheStays(r: Runtime, h: History, s: State, e: Event, a: Args)
    requires Inv(r, h, s) && Allowed(r, h, s, e) && r.Names(a) && AttachmentOf(a) in h && a.ifName in r.ifNames
    requires a.netns == r.netns[a.cid] && CacheKey(a) in s.cache && Held(s, a, s.cache[CacheKey(a)].conf.pci)
    requires !(e.DelEvent? && AttachmentOf(e.a) == AttachmentOf(a))
    ensures var s' := Step(s, e); CacheKey(a) in s'.cache && s'.cache[CacheKey(a)] == s.cache[CacheKey(a)]
  {
    match e
    case AddEvent(b, c, dpdk, f) =>
      AddLeaves(r, h, s, b, c, dpdk, f);
      if CacheKey(a) == CacheKey(b) { CacheKeyInjective(a, b); }
    case DelEvent(b, f) =>
      DelLeaves(r, h, s, b, f, Del(s, b, f).0);
      if CacheKey(a) == CacheKey(b) { CacheKeyInjective(a, b); }
    case DeathEvent(_, _) =>
  }

  /** Nothing frees the attachment's VF or touches its configuration between the two points of the run. */
  predicate LeftAlone(run: Run, i: nat, j: nat, a: Args, p: Pci)
    requires j <= |run.events|
  {
    forall k :: i <= k < j ==>
      !(run.events[k].DelEvent? && AttachmentOf(run.events[k].a) == AttachmentOf(a)) && !Frees(run.events[k], a, p)
  }

  lemma {:induction false} CacheKept(r: Runtime, run: Run, i: nat, j: nat, a: Args, p: Pci)
    requires IsRun(r, run) && i <= j <= |run.events| && LeftAlone(run, i, j, a, p)
    requires r.Names(a) && AttachmentOf(a) in run.histories[i] && a.ifName in r.ifNames
    requires a.netns == r.netns[a.cid] && CacheKey(a) in run.states[i].cache
    requires run.states[i].cache[CacheKey(a)].conf.pci == p && Held(run.states[i], a, p)
    ensures AttachmentOf(a) in run.histories[j] && CacheKey(a) in run.states[j].cache
    ensures run.states[j].cache[CacheKey(a)] == run.states[i].cache[CacheKey(a)]
    decreases j
  {
    hide Inv, Allowed, Held, Frees, CacheKey;
    if i < j {
      CacheKept(r, run, i, j - 1, a, p);
      HeldUntilFreed(r, run, i, j - 1, a, p);
      RunsAreSafe(r, run, j - 1);
      CacheStays(r, run.histories[j - 1], run.states[j - 1], run.events[j - 1], a);
    }
  }

  /** What a successful add of a run leaves: its VF held, and its configuration cached. */
  lemma HeldAndCached(r: Runtime, h: History, s: State, a: Args, c: AddConf, dpdk: bool, f: CniFaults, s': State)
    requires Inv(r, h, s) && Allowed(r, h, s, AddEvent(a, c, dpdk, f)) && Add(s, a, c, dpdk, f) == (s', true)
    ensures Held(s', a, c.pci) && CacheKey(a) in s'.cache
    ensures s'.cache[CacheKey(a)] == Cached(c, HostName(s.world, c.pci), OrigOf(s.world, c.pci))
  {
    hide Add, Held, HostName, OrigOf;
    AddHolds(r, h, s, a, c, dpdk, f);
    AddWrites(s, a, c, dpdk, f);
  }

  lemma HeldAndCachedLater(r: Runtime, run: Run, i: nat, j: nat, a: Args, c: AddConf, conf: Cached)
    requires IsRun(r, run) && i <= j <= |run.events| && LeftAlone(run, i, j, a, c.pci) && conf.conf == c
    requires r.Names(a) && AttachmentOf(a) in run.histories[i] && a.ifName in r.ifNames && a.netns == r.netns[a.cid]
    requires Held(run.states[i], a, c.pci) && CacheKey(a) in run.states[i].cache
    requires run.states[i].cache[CacheKey(a)] == conf
    ensures Held(run.states[j], a, c.pci) && CacheKey(a) in run.states[j].cache
    ensures run.states[j].cache[CacheKey(a)] == conf && WorldOk(run.states[j].world)
  {
    hide Held;
    RunsAreSafe(r, run, j);
    CacheKept(r, run, i, j, a, c.pci);
    HeldUntilFreed(r, run, i, j, a, c.pci);
  }

  /** However long after a successful add, whatever other attachments did meanwhile and whatever failed in it: an
      undisturbed delete gives the VF back exactly when no address was configured and its host name is free in the pod
      and on the host. */
  lemma DelFreesLater(r: Runtime, run: Run, i: nat, j: nat, a: Args, c: AddConf, dpdk: bool, f: CniFaults)
    requires IsRun(r, run) && i < j <= |run.events| && run.events[i] == AddEvent(a, c, dpdk, f)
    requires Add(run.states[i], a, c, dpdk, f).1 && LeftAlone(run, i + 1, j, a, c.pci)
    ensures var s, orig := run.states[j], OrigOf(run.states[i].world, c.pci);
      var (s', ok) := Del(s, a, NO_CNI_FAULTS);
      && c.pci in s.world.links && Freed(s, a, Cached(c, HostName(run.states[i].world, c.pci), orig), s', ok)
  {
    hide Add, Del, Freed, HostName, OrigOf, Inv;
    var s0, s1 := run.states[i], run.states[i + 1];
    var conf := Cached(c, HostName(s0.world, c.pci), OrigOf(s0.world, c.pci));
    RunsAreSafe(r, run, i);
    assert s1 == Step(s0, run.events[i]) == Add(s0, a, c, dpdk, f).0;
    HeldAndCached(r, run.histories[i], s0, a, c, dpdk, f, s1);
    HeldAndCachedLater(r, run, i + 1, j, a, c, conf);
    DelFrees(run.states[j], a, conf);
  }

  // ---- Failed adds ----

  /** How an add that failed after writing its record ends: with its VF stranded exactly when there is no link, or the
      bridge port did not come and the cleanup gave the link back; otherwise the link is in the pod, and held as by a
      successful add when only the result could not be printed, or when it exited without a connection and so without a
      cleanup. */
  lemma FailedAddEnds(s: State, a: Args, c: AddConf, dpdk: bool, f: CniFaults)
    requires NamesUnique(s.world) && a.netns != INIT && (dpdk ==> c.pci !in s.world.links)
    requires Records(s, a, c, dpdk, f) && !Add(s, a, c, dpdk, f).1
    ensures var s' := Add(s, a, c, dpdk, f).0;
      && (Stranded(s', c.pci, a.netns)
          <==> c.pci !in s.world.links || (Dial !in f.calls && !Ported(s.world, c.pci, f) && GivesBack(s, a, c, f)))
      && (!Stranded(s', c.pci, a.netns) ==> c.pci in s'.world.links && s'.world.links[c.pci].ns == a.netns)
      && (Ported(s.world, c.pci, f) || (Dial in f.calls && c.pci in s.world.links) ==> Held(s', a, c.pci))
  {
    var p, host, w1 := c.pci, HostName(s.world, c.pci), AfterSetup(s, a, c, f);
    AddWrites(s, a, c, dpdk, f);
    RecordedWorld(s, a, c, dpdk, f);
    if host != "" {
      SetupRemembers(s.world, p, a, c.mac, f.setup);
      HolderIs(w1, p, a.netns, a.ifName);
    }
    if Exists(w1, a.netns, a.ifName) {
      ReleaseMoves(w1, Holder(w1, a.netns, a.ifName), host, c.mac, OrigOf(s.world, p), f.release);
    }
  }

  /** When the cleanup, with nothing failing in it, gives the link back: exactly when there is a link with a host name
      that no other link of the pod has, and no address was configured or the VF's own one can be set again. */
  lemma GivesBackExactly(s: State, a: Args, c: AddConf, dpdk: bool, f: CniFaults)
    requires WorldOk(s.world) && Records(s, a, c, dpdk, f) && f.release == NO_FAULTS
    ensures var host := HostName(s.world, c.pci);
      GivesBack(s, a, c, f) <==>
        host != "" && !TakenBeside(s.world, c.pci, a.netns, host)
        && (c.mac.NoMac? || |s.world.links[c.pci].mac| in {6, 8, 20})
  {
    var p, w, host := c.pci, s.world, HostName(s.world, c.pci);
    if host != "" {
      SetupRemembers(w, p, a, c.mac, f.setup);
      ReleaseSucceeds(w, p, host, a.ifName, a.netns, c.mac, f.setup);
    } else if Exists(w, a.netns, a.ifName) {
      ReleaseLinkSucceeds(w, Holder(w, a.netns, a.ifName), host, c.mac, OrigOf(w, p));
    }
  }

  /** So an add that gets no bridge port, when nothing fails in its cleanup, strands its VF exactly when it had a
      connection and under that condition on its names and addresses. */
  lemma PortlessAddEnds(s: State, a: Args, c: AddConf, f: CniFaults)
    requires WorldOk(s.world) && a.netns != INIT && Records(s, a, c, false, f) && f.release == NO_FAULTS
    requires !Ported(s.world, c.pci, f)
    ensures c.pci in s.world.links && !Add(s, a, c, false, f).1
    ensures Stranded(Add(s, a, c, false, f).0, c.pci, a.netns) <==>
      Dial !in f.calls && !TakenBeside(s.world, c.pci, a.netns, HostName(s.world, c.pci))
      && (c.mac.NoMac? || |s.world.links[c.pci].mac| in {6, 8, 20})
  {
    AddWrites(s, a, c, false, f);
    FailedAddEnds(s, a, c, false, f);
    GivesBackExactly(s, a, c, false, f);
  }

  /** Whatever fails in the cleanup: a failed port strands the VF, when the link was given back and there was a
      connection to fail on. */
  lemma FailedPortStrands(s: State, a: Args, c: AddConf, f: CniFaults)
    requires NamesUnique(s.world) && a.netns != INIT && Records(s, a, c, false, f) && CreatePort in f.calls
    requires GivesBack(s, a, c, f)
    ensures var (s', ok) := Add(s, a, c, false, f); !ok && (Stranded(s', c.pci, a.netns) <==> Dial !in f.calls)
  {
    AddWrites(s, a, c, false, f);
    FailedAddEnds(s, a, c, false, f);
  }

  /** No add of a VF with a DPDK driver succeeds, as no effective address was read; and one strands its VF exactly
      when it gets to write its record. */
  lemma DpdkStrands(s: State, a: Args, c: AddConf, f: CniFaults)
    requires NamesUnique(s.world) && a.netns != INIT && c.pci !in s.world.links && c.pci !in s.records
    ensures var (s', ok) := Add(s, a, c, true, f); !ok && (Stranded(s', c.pci, a.netns) <==> Records(s, a, c, true, f))
  {
    AddWrites(s, a, c, true, f);
    if Records(s, a, c, true, f) { FailedAddEnds(s, a, c, true, f); }
  }
}
