/** What cmdDel and cmdAdd of sriov_cni/cmd/sriov/main.go answer and leave, exactly, whatever calls fail in them. */
module CniAnswers {
  import opened VfConfig
  import opened VfOptions
  import opened VfLinks
  import opened LinkMoves
  import opened CniLifecycle
  import opened CniOutcomes

  // ---- Deletes ----

  /** The delete has a cached configuration to work from. */
  predicate Loads(s: State, a: Args, f: CniFaults) { ReadCache !in f.calls && CacheKey(a) in s.cache }

  /** ... and gets past the address plugin, which runs if the configuration names one. */
  predicate PastIpam(s: State, a: Args, f: CniFaults) {
    Loads(s, a, f) && !(s.cache[CacheKey(a)].conf.ipam && IpamDel in f.calls)
  }

  /** ... and, told a namespace, past the look-up of the VF and its reset, which an address configured makes fail. */
  predicate PastReset(s: State, a: Args, f: CniFaults) {
    && PastIpam(s, a, f) && a.netns != "" && FindVfid !in f.calls && ResetVf !in f.calls
    && s.cache[CacheKey(a)].conf.mac.NoMac?
  }

  /** ... and releases the VF from a namespace that lives. */
  predicate Releases(s: State, a: Args, f: CniFaults) {
    PastReset(s, a, f) && a.netns in s.world.live && OpenNetns !in f.calls
  }

  ghost function Released(s: State, a: Args, f: CniFaults): (World, bool)
    requires Loads(s, a, f)
  {
    var c := s.cache[CacheKey(a)];
    Release(s.world, c.host, a.ifName, a.netns, c.conf.mac, c.orig, f.release)
  }

  /** The record is there and goes, and so does the bridge port. */
  predicate Unregisters(s: State, a: Args, f: CniFaults)
    requires Loads(s, a, f)
  {
    && RemoveRecord !in f.calls && s.cache[CacheKey(a)].conf.pci in s.records
    && Dial !in f.calls && DeletePort !in f.calls
  }

  /** When cmdDel succeeds: exactly without a cached configuration; or past the address plugin, when it is told no
      namespace; or past the reset, when the namespace is dead, or when VF, record and port all go. */
  lemma DelSucceedsExactly(s: State, a: Args, f: CniFaults)
    ensures Del(s, a, f).1 <==>
      || !Loads(s, a, f)
      || (PastIpam(s, a, f) && a.netns == "")
      || (PastReset(s, a, f) && a.netns !in s.world.live)
      || (Releases(s, a, f) && Released(s, a, f).1 && Unregisters(s, a, f))
  {
    hide Release;
  }

  /** What it leaves.  The links are those of the release, when it gets that far.  The record goes exactly behind a
      release that succeeded.  The configuration is forgotten, if its removal works, by every delete that gets past the
      address plugin, failing or not, except one that brings the VF back and then fails on its record or its port. */
  lemma DelLeavesExactly(s: State, a: Args, f: CniFaults)
    ensures var s' := Del(s, a, f).0;
      && s'.world == (if Releases(s, a, f) then Released(s, a, f).0 else s.world)
      && s'.records == (if Releases(s, a, f) && Released(s, a, f).1 && RemoveRecord !in f.calls
                        then s.records - {s.cache[CacheKey(a)].conf.pci} else s.records)
      && s'.cache == (if PastIpam(s, a, f) && CleanCache !in f.calls
                         && (Releases(s, a, f) && Released(s, a, f).1 ==> Unregisters(s, a, f))
                      then s.cache - {CacheKey(a)} else s.cache)
  {
    hide Release;
    if Loads(s, a, f) && s.cache[CacheKey(a)].conf.pci !in s.records {
      assert s.records - {s.cache[CacheKey(a)].conf.pci} == s.records;
    }
  }

  /** A delete repeated behind one that forgot its configuration, as every delete does that succeeds with reading and
      cleaning its cache: it succeeds and changes nothing, whatever fails in it. */
  lemma DelRepeats(s: State, a: Args, f: CniFaults, g: CniFaults)
    ensures var s' := Del(s, a, f).0;
      && (CacheKey(a) !in s'.cache ==> Del(s', a, g) == (s', true))
      && (Del(s, a, f).1 && ReadCache !in f.calls && CleanCache !in f.calls ==> CacheKey(a) !in s'.cache)
  {
    hide Release;
    DelSucceedsExactly(s, a, f);
    DelLeavesExactly(s, a, f);
  }

  // ---- The allocation check ----

  /** What the check says of a VF: failed when its record cannot be looked at, or names a namespace that is gone or
      cannot be opened and cannot be removed; allocated when the record names one that is opened; and otherwise free,
      with no record of it left. */
  lemma AllocationExactly(s: State, pci: Pci, f: CniFaults)
    ensures var r := IsAllocated(s, pci, f);
      var stale := pci in s.records && (s.records[pci] !in s.world.live || OpenRecorded in f.calls);
      && (r == CheckFailed <==> StatRecord in f.calls || (stale && RemoveStale in f.calls))
      && (r == Allocated <==> StatRecord !in f.calls && pci in s.records && !stale)
      && (r.Free? ==> r.records == s.records - {pci})
  {
    if pci !in s.records { assert s.records - {pci} == s.records; }
  }

  // ---- Adds ----

  /** The add gets as far as the link: the VF known and not allocated, configured, and the namespace open. */
  ghost predicate Begins(s: State, c: AddConf, ns: Netns, dpdk: bool, f: CniFaults) {
    && VfInfo !in f.calls && (HostName(s.world, c.pci) != "" || dpdk) && ns in s.world.live
    && StatRecord !in f.calls
    && (c.pci in s.records ==>
          (s.records[c.pci] !in s.world.live || OpenRecorded in f.calls) && RemoveStale !in f.calls)
    && OtherConf !in f.calls && EnvArgs !in f.calls && OpenNetns !in f.calls && ApplyVf !in f.calls
  }

  /** The effective address remembered where set-up stopped: none where it did not find its link. */
  function Remembered(s: State, c: AddConf, f: CniFaults): MacText {
    if FindLink in f.setup.calls then NoMac else OrigOf(s.world, c.pci)
  }

  /** Where an add leaves the links: untouched when it does not get to them; set up when it succeeds, when only its
      result is not printed and when it exits without a connection; and otherwise released by the cleanup, with what was
      remembered until then. */
  lemma AddLinksExactly(s: State, a: Args, c: AddConf, dpdk: bool, f: CniFaults)
    requires NamesUnique(s.world)
    ensures var w := Add(s, a, c, dpdk, f).0.world; var host := HostName(s.world, c.pci);
      w == if !Begins(s, c, a.netns, dpdk, f) then s.world
           else if Records(s, a, c, dpdk, f) && (Ported(s.world, c.pci, f) || Dial in f.calls)
           then AfterSetup(s, a, c, f)
           else Release(AfterSetup(s, a, c, f), host, a.ifName, a.netns, c.mac, Remembered(s, c, f), f.release).0
  {
    hide Release, SetupLink, Printed;
    if Begins(s, c, a.netns, dpdk, f) {
      var s1 := s.(records := IsAllocated(s, c.pci, f).records);
      LinksOfFinish(s1, a, c, f);
    }
  }

  lemma LinksOfFinish(s: State, a: Args, c: AddConf, f: CniFaults)
    requires NamesUnique(s.world)
    ensures var host := HostName(s.world, c.pci); var w := SetupAndFinish(s, a, c, host, f).0.world;
      w == if Finishes(s.world, a, c, f) && SavePci !in f.calls && (Ported(s.world, c.pci, f) || Dial in f.calls)
           then AfterSetup(s, a, c, f)
           else Release(AfterSetup(s, a, c, f), host, a.ifName, a.netns, c.mac, Remembered(s, c, f), f.release).0
  {
    hide Release, SetupLink, Printed;
    var host := HostName(s.world, c.pci);
    if host == "" {
      FinishWrites(s, a, Cached(c, host, NoMac), f);
    } else {
      HolderIs(s.world, c.pci, INIT, host);
      var (w, orig, _) := Setup(s.world, host, a.ifName, a.netns, c.mac, f.setup);
      FinishWrites(s.(world := w), a, Cached(c, host, orig), f);
    }
  }

  /** So an add that fails in its set-up, with no other link under the pod's interface name: the cleanup finds the link
      only when that already has the name, and then set-up failed on its address or on taking it up; one that stopped
      before is left where it stopped, down, under its temporary name on the host or in the pod if it got it. */
  lemma FailedSetupEnds(s: State, a: Args, c: AddConf, dpdk: bool, f: CniFaults)
    requires NamesUnique(s.world) && Begins(s, c, a.netns, dpdk, f) && a.netns != INIT
    requires HostName(s.world, c.pci) != "" && !TakenBeside(s.world, c.pci, a.netns, a.ifName)
    requires a.ifName != TempName(s.world.links[c.pci].index)
    requires !Setup(s.world, HostName(s.world, c.pci), a.ifName, a.netns, c.mac, f.setup).2
    ensures var w, w' := s.world, Add(s, a, c, dpdk, f).0.world; var l := w.links[c.pci];
      var temp := TempName(l.index); var g := f.setup.calls;
      var downed := FindLink !in g && SetDown !in g;
      var renamed := downed && SetTemp !in g && !TakenBeside(w, c.pci, INIT, temp);
      var moved := renamed && MoveIn !in g && !TakenBeside(w, c.pci, a.netns, temp);
      var named := moved && SetPodName !in g && a.ifName != "";
      && !Add(s, a, c, dpdk, f).1
      && (!named ==> w' == With(w, c.pci, l.(ns := if moved then a.netns else l.ns,
                                             name := if renamed then temp else l.name, up := l.up && !downed)))
      && (named ==> (!c.mac.NoMac? && !Settable(c.mac, f.setup)) || SetUp in g)
  {
    hide Release, SetupLink, Settable, SomeSets, TakenBeside;
    AddLinksExactly(s, a, c, dpdk, f);
    AddWrites(s, a, c, dpdk, f);
    HolderIs(s.world, c.pci, INIT, HostName(s.world, c.pci));
    SetupExactly(s.world, c.pci, a.ifName, a.netns, c.mac, f.setup);
    SetupMoves(s.world, c.pci, a.ifName, a.netns, c.mac, f.setup);
    var w := AfterSetup(s, a, c, f);
    TakenSame(s.world, w, c.pci, a.netns, a.ifName);
    if !At(w, c.pci, a.netns, a.ifName) {
      NoneFound(w, c.pci, HostName(s.world, c.pci), a, c.mac, Remembered(s, c, f), f.release);
    }
    UpAt(s.world, c.pci, s.world.links[c.pci], true);
  }

  lemma NoneFound(w: World, p: Pci, host: string, a: Args, mac: MacText, orig: MacText, f: LinkFaults)
    requires !TakenBeside(w, p, a.netns, a.ifName) && !At(w, p, a.netns, a.ifName)
    ensures Release(w, host, a.ifName, a.netns, mac, orig, f).0 == w
  {
    assert !Exists(w, a.netns, a.ifName);
  }
}
