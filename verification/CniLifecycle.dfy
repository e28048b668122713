/** The add and delete commands of the SR-IOV plugin, sriov_cni/cmd/sriov/main.go, over the VF links, the PCI allocation
    records and the cached configurations, with their early returns, deferred cleanups and shadowed errors. */
module CniLifecycle {
  import opened VfConfig
  import opened VfLinks

  datatype Args = Args(cid: string, ifName: string, netns: Netns)

  /** What an add configures: the VF, a MAC address or none, and whether an address plugin runs. */
  datatype AddConf = AddConf(pci: Pci, mac: MacText, ipam: bool)

  /** The configuration as it is written to the cache.  `orig` is the effective address that SetupVF remembered; the
      DPDK mode is not written, so a cached configuration is always taken for a kernel device. */
  datatype Cached = Cached(conf: AddConf, host: string, orig: MacText)

  datatype State = State(world: World, records: map<Pci, Netns>, cache: map<string, Cached>)

  /** The calls besides those on links that may fail, in the order of the two commands. */
  datatype CniCall =
    | VfInfo | StatRecord | OpenRecorded | RemoveStale | OtherConf | EnvArgs | OpenNetns | ApplyVf | IpamAdd | SaveConf
    | SavePci | Dial | CreatePort | PrintResult
    | ReadCache | IpamDel | FindVfid | ResetVf | RemoveRecord | DeletePort | CleanCache

  datatype CniFaults = CniFaults(calls: set<CniCall>, setup: LinkFaults, release: LinkFaults)

  const NO_CNI_FAULTS := CniFaults({}, NO_FAULTS, NO_FAULTS)

  /** The file name of a cached configuration. */
  function CacheKey(a: Args): string { a.cid + "-" + a.ifName }

  // ---- The allocation records ----

  datatype Allocation = Free(records: map<Pci, Netns>) | Allocated | CheckFailed

  /** `IsAllocated`: a record whose namespace is gone is removed on the way, and so is one whose namespace cannot be
      opened for another reason. */
  function IsAllocated(s: State, pci: Pci, f: CniFaults): Allocation {
    if StatRecord in f.calls then CheckFailed
    else if pci !in s.records then Free(s.records)
    else if s.records[pci] in s.world.live && OpenRecorded !in f.calls then Allocated
    else if RemoveStale in f.calls then CheckFailed
    else Free(s.records - {pci})
  }

  /** Calls that fail so that an add gets to the check, and the check takes a live namespace for a dead one and removes
      the record. */
  predicate Misjudges(f: CniFaults) {
    VfInfo !in f.calls && StatRecord !in f.calls && OpenRecorded in f.calls && RemoveStale !in f.calls
  }

  // ---- cmdAdd ----

  /** The name LoadConf finds for a VF: its link's, while that is in the initial namespace. */
  function HostName(w: World, pci: Pci): string {
    if pci in w.links && w.links[pci].ns == INIT then w.links[pci].name else ""
  }

  /** The deferred cleanup.  Records and cache are left as they are. */
  ghost function CleanedUp(s: State, a: Args, c: Cached, f: CniFaults): State {
    s.(world := Release(s.world, c.host, a.ifName, a.netns, c.conf.mac, c.orig, f.release).0)
  }

  /** The part of cmdAdd behind the link set-up; `ok` is false when the command returns an error, or exits where the
      connection cannot be made, which skips the cleanup. */
  ghost function FinishAdd(s: State, a: Args, c: Cached, f: CniFaults): (State, bool) {
    if (c.conf.ipam && IpamAdd in f.calls) || SaveConf in f.calls then (CleanedUp(s, a, c, f), false)
    else
      var s := s.(cache := s.cache[CacheKey(a) := c]);
      if SavePci in f.calls then (CleanedUp(s, a, c, f), false)
      else
        var s := s.(records := s.records[c.conf.pci := a.netns]);
        if Dial in f.calls then (s, false)
        else if !c.orig.Address? || CreatePort in f.calls then (CleanedUp(s, a, c, f), false)
        else (s, PrintResult !in f.calls)
  }

  /** The part of cmdAdd behind the VF's attributes; without a host name nothing is set up. */
  ghost function SetupAndFinish(s: State, a: Args, c: AddConf, host: string, f: CniFaults): (State, bool) {
    if host == "" then FinishAdd(s, a, Cached(c, host, NoMac), f)
    else
      var (w, orig, ok) := Setup(s.world, host, a.ifName, a.netns, c.mac, f.setup);
      var s, conf := s.(world := w), Cached(c, host, orig);
      if ok then FinishAdd(s, a, conf, f) else (CleanedUp(s, a, conf, f), false)
  }

  /** cmdAdd.  `dpdk` says whether the VF has a DPDK driver. */
  ghost function Add(s: State, a: Args, c: AddConf, dpdk: bool, f: CniFaults): (State, bool) {
    if VfInfo in f.calls then (s, false)
    else
      var alloc := IsAllocated(s, c.pci, f);
      if !alloc.Free? then (s, false)
      else
        var s := s.(records := alloc.records);
        var host := HostName(s.world, c.pci);
        if (host == "" && !dpdk) || OtherConf in f.calls || EnvArgs in f.calls || OpenNetns in f.calls
           || a.netns !in s.world.live || ApplyVf in f.calls
        then (s, false)
        else SetupAndFinish(s, a, c, host, f)
  }

  // ---- cmdDel ----

  /** The deferred removal of the cached configuration. */
  function Forget(s: State, a: Args, f: CniFaults): State {
    if CleanCache in f.calls then s else s.(cache := s.cache - {CacheKey(a)})
  }

  /** The reset of the VF's attributes: with an address configured it fails, because the address it would restore was
      never remembered (VfConfig.ResetWithoutFill). */
  predicate ResetFails(c: Cached, f: CniFaults) { ResetVf in f.calls || !c.conf.mac.NoMac? }

  /** The end of cmdDel: the VF back, its record removed, its bridge port deleted. */
  ghost function ReleaseAndForget(s: State, a: Args, c: Cached, f: CniFaults): (State, bool) {
    var (w, ok) := Release(s.world, c.host, a.ifName, a.netns, c.conf.mac, c.orig, f.release);
    var s := s.(world := w);
    if !ok then (Forget(s, a, f), false)
    else if RemoveRecord in f.calls || c.conf.pci !in s.records then (s, false)
    else
      var s := s.(records := s.records - {c.conf.pci});
      if Dial in f.calls || DeletePort in f.calls then (s, false) else (Forget(s, a, f), true)
  }

  /** cmdDel.  The errors of the middle part are shadowed: the command returns them, and the cached configuration is
      removed as if there had been none. */
  ghost function Del(s: State, a: Args, f: CniFaults): (State, bool) {
    if ReadCache in f.calls || CacheKey(a) !in s.cache then (s, true)
    else
      var c := s.cache[CacheKey(a)];
      if c.conf.ipam && IpamDel in f.calls then (s, false)
      else if a.netns == "" then (Forget(s, a, f), true)
      else if FindVfid in f.calls || ResetFails(c, f) then (Forget(s, a, f), false)
      else if a.netns !in s.world.live then (Forget(s, a, f), true)
      else if OpenNetns in f.calls then (Forget(s, a, f), false)
      else ReleaseAndForget(s, a, c, f)
  }

  // ---- The plugin ----

  class Plugin {
    const manager: LinkManager
    var records: map<Pci, Netns>
    var cache: map<string, Cached>

    constructor (w: World)
      ensures fresh(manager) && Now() == State(w, map[], map[])
    {
      manager := new LinkManager(w);
      records, cache := map[], map[];
    }

    function Now(): State
      reads this, manager
    {
      State(manager.Now(), records, cache)
    }

    method CheckAllocated(pci: Pci, f: CniFaults) returns (taken: bool, failed: bool)
      modifies `records
      ensures var alloc := IsAllocated(old(Now()), pci, f);
        && taken == alloc.Allocated? && failed == alloc.CheckFailed?
        && records == if alloc.Free? then alloc.records else old(records)
    {
      if StatRecord in f.calls {
        return false, true;
      }
      if pci !in records {
        return false, false;
      }
      if records[pci] !in manager.live || OpenRecorded in f.calls {
        if RemoveStale in f.calls {
          return false, true;
        }
        records := records - {pci};
        return false, false;
      }
      return true, false;
    }

    /** The deferred function of cmdAdd. */
    method CleanUp(a: Args, c: Cached, f: CniFaults)
      requires NamesUnique(manager.Now())
      modifies manager
      ensures Now() == CleanedUp(old(Now()), a, c, f) && NamesUnique(manager.Now())
    {
      var _ := manager.ReleaseVF(c.host, a.ifName, a.netns, c.conf.mac, c.orig, f.release);
    }

    method Complete(a: Args, c: Cached, f: CniFaults) returns (ok: bool)
      requires NamesUnique(manager.Now())
      modifies this, manager
      ensures (Now(), ok) == FinishAdd(old(Now()), a, c, f) && NamesUnique(manager.Now())
    {
      if c.conf.ipam && IpamAdd in f.calls {
        CleanUp(a, c, f);
        return false;
      }
      if SaveConf in f.calls {
        CleanUp(a, c, f);
        return false;
      }
      cache := cache[CacheKey(a) := c];
      if SavePci in f.calls {
        CleanUp(a, c, f);
        return false;
      }
      records := records[c.conf.pci := a.netns];
      if Dial in f.calls {
        return false;
      }
      if !c.orig.Address? {
        CleanUp(a, c, f);
        return false;
      }
      if CreatePort in f.calls {
        CleanUp(a, c, f);
        return false;
      }
      return PrintResult !in f.calls;
    }

    method CmdAdd(a: Args, c: AddConf, dpdk: bool, f: CniFaults) returns (ok: bool)
      requires NamesUnique(manager.Now())
      modifies this, manager
      ensures (Now(), ok) == Add(old(Now()), a, c, dpdk, f) && NamesUnique(manager.Now())
    {
      if VfInfo in f.calls {
        return false;
      }
      var taken, failed := CheckAllocated(c.pci, f);
      if taken || failed {
        return false;
      }
      var host := HostName(manager.Now(), c.pci);
      if host == "" && !dpdk {
        return false;
      }
      if OtherConf in f.calls || EnvArgs in f.calls || OpenNetns in f.calls || a.netns !in manager.live
          || ApplyVf in f.calls {
        return false;
      }
      var orig := NoMac;
      if host != "" {
        orig, ok := manager.SetupVF(host, a.ifName, a.netns, c.mac, f.setup);
        if !ok {
          CleanUp(a, Cached(c, host, orig), f);
          return;
        }
      }
      ok := Complete(a, Cached(c, host, orig), f);
    }

    method Clean(a: Args, f: CniFaults)
      modifies `cache
      ensures Now() == Forget(old(Now()), a, f)
    {
      if CleanCache !in f.calls {
        cache := cache - {CacheKey(a)};
      }
    }

    method CmdDel(a: Args, f: CniFaults) returns (ok: bool)
      requires NamesUnique(manager.Now())
      modifies this, manager
      ensures (Now(), ok) == Del(old(Now()), a, f) && NamesUnique(manager.Now())
    {
      if ReadCache in f.calls || CacheKey(a) !in cache {
        return true;
      }
      var c := cache[CacheKey(a)];
      if c.conf.ipam && IpamDel in f.calls {
        return false;
      }
      if a.netns == "" {
        Clean(a, f);
        return true;
      }
      if FindVfid in f.calls || ResetFails(c, f) {
        Clean(a, f);
        return false;
      }
      if a.netns !in manager.live {
        Clean(a, f);
        return true;
      }
      if OpenNetns in f.calls {
        Clean(a, f);
        return false;
      }
      ok := manager.ReleaseVF(c.host, a.ifName, a.netns, c.conf.mac, c.orig, f.release);
      if !ok {
        Clean(a, f);
        return;
      }
      if RemoveRecord in f.calls || c.conf.pci !in records {
        return false;
      }
      records := records - {c.conf.pci};
      if Dial in f.calls || DeletePort in f.calls {
        return false;
      }
      Clean(a, f);
      return true;
    }
  }

  // ---- Whole runs ----

  /** An attachment: the container and the interface. */
  datatype Attachment = Attachment(cid: string, ifName: string)

  function AttachmentOf(a: Args): Attachment { Attachment(a.cid, a.ifName) }

  /** What the runtime around the plugin guarantees: each container has one namespace of its own, which is not the
      initial one; interface names are taken from a fixed set without temporary names; and there is a dash in no
      container id or in no interface name. */
  datatype Runtime = Runtime(netns: map<string, Netns>, ifNames: set<string>) {
    predicate PlainIds() { forall c :: c in netns ==> '-' !in c }

    ghost predicate Valid() {
      && (forall c :: c in netns ==> netns[c] != INIT && netns[c] != "")
      && (forall c, d :: c in netns && d in netns && netns[c] == netns[d] ==> c == d)
      && (forall i: nat :: TempName(i) !in ifNames) && "" !in ifNames
      && (PlainIds() || forall n :: n in ifNames ==> '-' !in n)
    }

    /** The container and the interface of a command.  Where ids have dashes, only known interface names are used. */
    predicate Names(a: Args) { a.cid in netns && (PlainIds() || a.ifName in ifNames) }
  }

  lemma DashBounds(a: Args, b: Args)
    requires '-' !in b.cid && CacheKey(a) == CacheKey(b)
    ensures |b.cid| <= |a.cid|
  {
    var s := CacheKey(a);
    assert s[|a.cid|] == '-';
    assert forall i :: 0 <= i < |b.cid| ==> CacheKey(b)[i] == b.cid[i];
  }

  /** File names of cached configurations are distinct for distinct attachments, when neither id or neither interface
      name has a dash. */
  lemma CacheKeyInjective(a: Args, b: Args)
    requires ('-' !in a.cid && '-' !in b.cid) || ('-' !in a.ifName && '-' !in b.ifName)
    requires CacheKey(a) == CacheKey(b)
    ensures AttachmentOf(a) == AttachmentOf(b)
  {
    if '-' !in a.cid && '-' !in b.cid {
      DashBounds(a, b);
      DashBounds(b, a);
    } else {
      LastDashBounds(a, b);
      LastDashBounds(b, a);
    }
    var s := CacheKey(a);
    assert a.cid == s[..|a.cid|] && b.cid == s[..|b.cid|];
    assert a.ifName == s[|a.cid| + 1..] && b.ifName == s[|b.cid| + 1..];
  }

  lemma LastDashBounds(a: Args, b: Args)
    requires '-' !in b.ifName && CacheKey(a) == CacheKey(b)
    ensures |a.cid| <= |b.cid|
  {
    var s := CacheKey(a);
    assert s[|a.cid|] == '-';
    assert forall i :: |b.cid| < i < |s| ==> CacheKey(b)[i] == b.ifName[i - |b.cid| - 1];
  }

  /** When file names collide at all: exactly for the same attachment, or when one container id is the other one, a dash
      and a piece that the other's interface name begins with. */
  lemma KeysCollide(a: Args, b: Args)
    requires |a.cid| <= |b.cid|
    ensures CacheKey(a) == CacheKey(b) <==>
      AttachmentOf(a) == AttachmentOf(b)
      || (|a.cid| < |b.cid| && var t := b.cid[|a.cid| + 1..];
            b.cid == a.cid + "-" + t && a.ifName == t + "-" + b.ifName)
  {
    if |a.cid| == |b.cid| {
      if CacheKey(a) == CacheKey(b) { SameIdLength(a, b); }
    } else {
      var t := b.cid[|a.cid| + 1..];
      assert (a.cid + "-" + t) + "-" + b.ifName == a.cid + "-" + (t + "-" + b.ifName);
      if CacheKey(a) == CacheKey(b) { SplitKey(a, b, t); }
    }
  }

  lemma SameIdLength(a: Args, b: Args)
    requires |a.cid| == |b.cid| && CacheKey(a) == CacheKey(b)
    ensures AttachmentOf(a) == AttachmentOf(b)
  {
    var s := CacheKey(a);
    assert a.cid == s[..|a.cid|] && b.cid == s[..|b.cid|];
    assert a.ifName == s[|a.cid| + 1..] && b.ifName == s[|b.cid| + 1..];
  }

  lemma SplitKey(a: Args, b: Args, t: string)
    requires |a.cid| < |b.cid| && CacheKey(a) == CacheKey(b) && t == b.cid[|a.cid| + 1..]
    ensures b.cid == a.cid + "-" + t && a.ifName == t + "-" + b.ifName
  {
    var s, n := CacheKey(a), |a.cid|;
    assert a.cid == s[..n] && a.ifName == s[n + 1..] && s[n] == '-';
    assert b.cid == s[..|b.cid|] && b.cid[..n] == s[..n] && b.cid[n] == s[n];
    assert t == s[n + 1..|b.cid|] && s[|b.cid|..] == "-" + b.ifName;
    assert s[n + 1..] == s[n + 1..|b.cid|] + s[|b.cid|..];
  }

  /** An event: a command with the calls that fail in it, or the death of a namespace, whose links the kernel returns to
      the initial one under names of its choice. */
  datatype Event =
    | AddEvent(a: Args, c: AddConf, dpdk: bool, f: CniFaults)
    | DelEvent(a: Args, f: CniFaults)
    | DeathEvent(ns: Netns, after: World)

  ghost predicate Returned(w: World, ns: Netns, after: World) {
    && after.live == w.live - {ns} && after.links.Keys == w.links.Keys && NamesUnique(after)
    && forall p :: p in w.links ==>
         if w.links[p].ns == ns then after.links[p].ns == INIT else after.links[p] == w.links[p]
  }

  /** The history: which VF each attachment was last added with. */
  type History = map<Attachment, Pci>

  /** Whatever is left of the attachment, its cached configuration and the link under its name, is of the VF that is now
      added: so it is for a retry, and for an add after a delete that left nothing. */
  ghost predicate NothingElseLeft(s: State, a: Args, pci: Pci) {
    && (CacheKey(a) in s.cache ==> s.cache[CacheKey(a)].conf.pci == pci)
    && (Exists(s.world, a.netns, a.ifName) ==> At(s.world, pci, a.netns, a.ifName))
  }

  /** An event the runtime may cause: an attachment is added in its container's namespace, and added again with another
      VF only when nothing is left of it; a VF with a DPDK driver has no link; a delete names its container's namespace
      or none. */
  ghost predicate Permitted(r: Runtime, h: History, s: State, e: Event) {
    match e
    case AddEvent(a, c, dpdk, _) =>
      && a.cid in r.netns && a.netns == r.netns[a.cid] && a.ifName in r.ifNames
      && (AttachmentOf(a) in h ==> NothingElseLeft(s, a, c.pci)) && (dpdk ==> c.pci !in s.world.links)
    case DelEvent(a, _) => r.Names(a) && (a.netns == r.netns[a.cid] || a.netns == "")
    case DeathEvent(ns, after) => ns != INIT && Returned(s.world, ns, after)
  }

  /** A VF's name on the host is no pod interface name, unless it is the very one the VF is added under: that is the
      name under which a link comes back from a namespace that died. */
  predicate HostFits(r: Runtime, host: string, ifName: string) { host !in r.ifNames || host == ifName }

  /** The same where the host name of every VF that is added fits; HostNamesMatter shows what happens otherwise. */
  ghost predicate Allowed(r: Runtime, h: History, s: State, e: Event) {
    Permitted(r, h, s, e) && (e.AddEvent? ==> HostFits(r, HostName(s.world, e.c.pci), e.a.ifName))
  }

  ghost function Step(s: State, e: Event): State {
    match e
    case AddEvent(a, c, dpdk, f) => Add(s, a, c, dpdk, f).0
    case DelEvent(a, f) => Del(s, a, f).0
    case DeathEvent(_, after) => s.(world := after)
  }

  function Record(h: History, e: Event): History {
    match e
    case AddEvent(a, c, _, _) => h[AttachmentOf(a) := c.pci]
    case DelEvent(_, _) => h
    case DeathEvent(_, _) => h
  }

  // ---- The invariant ----

  ghost predicate WorldOk(w: World) { NamesUnique(w) && INIT in w.live }

  /** A VF whose record names a live namespace is in that namespace or back in the initial one. */
  predicate RecordsHold(s: State) {
    forall p :: p in s.records && s.records[p] in s.world.live && p in s.world.links ==>
      s.world.links[p].ns == INIT || s.world.links[p].ns == s.records[p]
  }

  /** Some container was given the VF as the interface, and has the namespace. */
  ghost predicate Given(r: Runtime, h: History, ns: Netns, ifName: string, p: Pci) {
    exists c :: c in r.netns && r.netns[c] == ns && Attachment(c, ifName) in h && h[Attachment(c, ifName)] == p
  }

  /** A link that has a pod interface name outside the initial namespace was added there under that name. */
  ghost predicate LinksKnown(r: Runtime, h: History, w: World) {
    forall p :: p in w.links && w.links[p].ns != INIT && w.links[p].name in r.ifNames ==>
      Given(r, h, w.links[p].ns, w.links[p].name, p)
  }

  /** A cached configuration is that of the attachment's add, and its host name is no pod interface name. */
  ghost predicate CacheKnown(r: Runtime, h: History, s: State) {
    forall a: Args :: r.Names(a) && CacheKey(a) in s.cache ==>
      && AttachmentOf(a) in h && h[AttachmentOf(a)] == s.cache[CacheKey(a)].conf.pci
      && a.ifName in r.ifNames && HostFits(r, s.cache[CacheKey(a)].host, a.ifName)
  }

  ghost predicate Inv(r: Runtime, h: History, s: State) {
    r.Valid() && WorldOk(s.world) && RecordsHold(s) && LinksKnown(r, h, s.world) && CacheKnown(r, h, s)
  }

  /** No record that names a live namespace is overwritten, or removed except by a delete in that namespace that moved
      the VF from there to the initial one. */
  ghost predicate Safe(s: State, e: Event, s': State) {
    forall p :: p in s.records && s.records[p] in s.world.live ==>
      || (p in s'.records && s'.records[p] == s.records[p])
      || (e.DelEvent? && e.a.netns == s.records[p] && p in s.world.links && p in s'.world.links
          && s.world.links[p].ns == s.records[p] && s'.world.links[p].ns == INIT)
  }

  /** The add that is not: its check takes the live namespace of the VF's record for a dead one. */
  predicate DropsRecord(s: State, e: Event) {
    e.AddEvent? && Misjudges(e.f) && e.c.pci in s.records && s.records[e.c.pci] in s.world.live
  }

  // ---- What a command does to the links ----

  predicate InReach(w: World, p: Pci, ns: Netns) {
    p in w.links ==> w.links[p].ns == INIT || w.links[p].ns == ns
  }

  /** Only link `p` changed, within `ns` and the initial namespace, and the history still explains every pod
      interface. */
  ghost predicate LinkStep(r: Runtime, h: History, w: World, p: Pci, ns: Netns, w': World) {
    && WorldOk(w') && w'.live == w.live && w'.links.Keys == w.links.Keys
    && (forall q :: q in w.links && q != p ==> w'.links[q] == w.links[q])
    && (p in w.links ==> w'.links[p] == w.links[p] || InReach(w', p, ns))
    && LinksKnown(r, h, w')
  }

  /** The link an attachment's delete or cleanup finds is the VF it was added with. */
  lemma FoundIsOwn(r: Runtime, h: History, w: World, a: Args)
    requires r.Valid() && WorldOk(w) && LinksKnown(r, h, w) && Exists(w, a.netns, a.ifName)
    requires a.cid in r.netns && a.netns == r.netns[a.cid] && a.ifName in r.ifNames
    ensures AttachmentOf(a) in h && h[AttachmentOf(a)] == Holder(w, a.netns, a.ifName)
  {
    var p := Holder(w, a.netns, a.ifName);
    var c :| c in r.netns && r.netns[c] == a.netns && Attachment(c, a.ifName) in h && h[Attachment(c, a.ifName)] == p;
    assert c == a.cid;
  }

  lemma KnownAfterMove(r: Runtime, h: History, w: World, p: Pci, w': World)
    requires LinksKnown(r, h, w) && OnlyMoves(w, p, w')
    requires w'.links[p].ns == INIT || w'.links[p].name !in r.ifNames || w'.links[p] == w.links[p]
          || (w'.links[p].ns == w.links[p].ns && w'.links[p].name == w.links[p].name)
    ensures LinksKnown(r, h, w')
  {
    forall q | q in w'.links && w'.links[q].ns != INIT && w'.links[q].name in r.ifNames
      ensures Given(r, h, w'.links[q].ns, w'.links[q].name, q)
    {
      assert w'.links[q].ns == w.links[q].ns && w'.links[q].name == w.links[q].name;
    }
  }

  /** ReleaseVF as an attachment's delete or cleanup runs it: it moves the VF the attachment was added with, out of the
      namespace it was added to, or nothing. */
  lemma ReleaseStep(r: Runtime, h: History, w: World, a: Args, c: Cached, f: LinkFaults, p: Pci, w': World, ok: bool)
    requires r.Valid() && WorldOk(w) && LinksKnown(r, h, w)
    requires a.cid in r.netns && a.netns == r.netns[a.cid] && a.ifName in r.ifNames && HostFits(r, c.host, a.ifName)
    requires AttachmentOf(a) in h && h[AttachmentOf(a)] == p
    requires (w', ok) == Release(w, c.host, a.ifName, a.netns, c.conf.mac, c.orig, f)
    ensures LinkStep(r, h, w, p, a.netns, w')
    ensures w' == w || At(w, p, a.netns, a.ifName)
    ensures ok ==> At(w, p, a.netns, a.ifName) && w'.links[p].ns == INIT
  {
    if Exists(w, a.netns, a.ifName) {
      FoundIsOwn(r, h, w, a);
      ReleaseMoves(w, p, c.host, c.conf.mac, c.orig, f);
      if FindLink !in f.calls { KnownAfterMove(r, h, w, p, w'); }
    }
  }

  /** SetupVF as an add runs it. */
  lemma SetupStep(r: Runtime, h: History, w: World, a: Args, c: AddConf, f: LinkFaults)
    requires r.Valid() && WorldOk(w) && LinksKnown(r, h, w) && a.ifName in r.ifNames
    requires a.cid in r.netns && a.netns == r.netns[a.cid]
    requires Exists(w, a.netns, a.ifName) ==> At(w, c.pci, a.netns, a.ifName)
    requires c.pci in w.links && w.links[c.pci].ns == INIT
    ensures var h' := h[AttachmentOf(a) := c.pci];
      var w' := Setup(w, w.links[c.pci].name, a.ifName, a.netns, c.mac, f).0;
      LinkStep(r, h', w, c.pci, a.netns, w') && InReach(w', c.pci, a.netns)
  {
    var p, h' := c.pci, h[AttachmentOf(a) := c.pci];
    HolderIs(w, p, INIT, w.links[p].name);
    SetupMoves(w, p, a.ifName, a.netns, c.mac, f);
    var w' := Setup(w, w.links[p].name, a.ifName, a.netns, c.mac, f).0;
    LinksKnownGrows(r, h, w, a, p);
    if At(w', p, a.netns, a.ifName) {
      KnownWithNew(r, h', w, a, p, w');
    } else {
      KnownAfterMove(r, h', w, p, w');
    }
  }

  lemma LinksKnownGrows(r: Runtime, h: History, w: World, a: Args, p: Pci)
    requires NamesUnique(w) && LinksKnown(r, h, w) && a.cid in r.netns && a.netns == r.netns[a.cid]
    requires Exists(w, a.netns, a.ifName) ==> At(w, p, a.netns, a.ifName)
    ensures LinksKnown(r, h[AttachmentOf(a) := p], w)
  {
    var h' := h[AttachmentOf(a) := p];
    forall q | q in w.links && w.links[q].ns != INIT && w.links[q].name in r.ifNames
      ensures Given(r, h', w.links[q].ns, w.links[q].name, q)
    {
      var c :| c in r.netns && r.netns[c] == w.links[q].ns
        && Attachment(c, w.links[q].name) in h && h[Attachment(c, w.links[q].name)] == q;
      if Attachment(c, w.links[q].name) == AttachmentOf(a) { assert At(w, q, a.netns, a.ifName); }
      assert Attachment(c, w.links[q].name) in h' && h'[Attachment(c, w.links[q].name)] == q;
    }
  }

  lemma KnownWithNew(r: Runtime, h: History, w: World, a: Args, p: Pci, w': World)
    requires LinksKnown(r, h, w) && OnlyMoves(w, p, w') && At(w', p, a.netns, a.ifName)
    requires a.cid in r.netns && r.netns[a.cid] == a.netns && AttachmentOf(a) in h && h[AttachmentOf(a)] == p
    ensures LinksKnown(r, h, w')
  {
    forall q | q in w'.links && w'.links[q].ns != INIT && w'.links[q].name in r.ifNames
      ensures Given(r, h, w'.links[q].ns, w'.links[q].name, q)
    {
      if q == p {
        assert Attachment(a.cid, a.ifName) in h;
      } else {
        assert w'.links[q] == w.links[q];
      }
    }
  }

  // ---- cmdAdd keeps the invariant ----

  /** What an add may leave once the allocation check has passed with `free`. */
  ghost predicate AddShape(r: Runtime, h: History, s: State, a: Args, c: AddConf, free: map<Pci, Netns>, s': State) {
    && LinkStep(r, h, s.world, c.pci, a.netns, s'.world)
    && (s'.records == free || (s'.records == free[c.pci := a.netns] && InReach(s'.world, c.pci, a.netns)))
    && (s'.cache == s.cache
        || exists d: Cached :: d.conf == c && HostFits(r, d.host, a.ifName) && s'.cache == s.cache[CacheKey(a) := d])
  }

  lemma CleanedUpShape(r: Runtime, h: History, s: State, a: Args, c: Cached, f: CniFaults, free: map<Pci, Netns>,
                       s1: State)
    requires r.Valid() && a.cid in r.netns && a.netns == r.netns[a.cid]
    requires a.ifName in r.ifNames && HostFits(r, c.host, a.ifName)
    requires AttachmentOf(a) in h && h[AttachmentOf(a)] == c.conf.pci && AddShape(r, h, s, a, c.conf, free, s1)
    ensures AddShape(r, h, s, a, c.conf, free, CleanedUp(s1, a, c, f))
  {
    var (w, ok) := Release(s1.world, c.host, a.ifName, a.netns, c.conf.mac, c.orig, f.release);
    ReleaseStep(r, h, s1.world, a, c, f.release, c.conf.pci, w, ok);
  }

  lemma FinishAddShape(r: Runtime, h: History, s: State, a: Args, c: Cached, f: CniFaults, free: map<Pci, Netns>,
                       s1: State)
    requires r.Valid() && a.cid in r.netns && a.netns == r.netns[a.cid]
    requires a.ifName in r.ifNames && HostFits(r, c.host, a.ifName)
    requires AttachmentOf(a) in h && h[AttachmentOf(a)] == c.conf.pci && InReach(s1.world, c.conf.pci, a.netns)
    requires AddShape(r, h, s, a, c.conf, free, s1) && s1.records == free && s1.cache == s.cache
    ensures AddShape(r, h, s, a, c.conf, free, FinishAdd(s1, a, c, f).0)
  {
    CleanedUpShape(r, h, s, a, c, f, free, s1);
    var s2 := s1.(cache := s1.cache[CacheKey(a) := c]);
    assert AddShape(r, h, s, a, c.conf, free, s2);
    CleanedUpShape(r, h, s, a, c, f, free, s2);
    var s3 := s2.(records := s2.records[c.conf.pci := a.netns]);
    assert AddShape(r, h, s, a, c.conf, free, s3);
    CleanedUpShape(r, h, s, a, c, f, free, s3);
  }

  lemma SetupAndFinishShape(r: Runtime, h: History, s: State, a: Args, c: AddConf, host: string, f: CniFaults,
                            s1: State)
    requires r.Valid() && WorldOk(s.world) && LinksKnown(r, h, s.world)
    requires a.cid in r.netns && a.netns == r.netns[a.cid] && a.ifName in r.ifNames && NothingElseLeft(s, a, c.pci)
    requires host == HostName(s.world, c.pci) && HostFits(r, host, a.ifName) && (host == "" ==> c.pci !in s.world.links)
    requires s1.world == s.world && s1.cache == s.cache
    ensures AddShape(r, h[AttachmentOf(a) := c.pci], s, a, c, s1.records, SetupAndFinish(s1, a, c, host, f).0)
  {
    var h' := h[AttachmentOf(a) := c.pci];
    LinksKnownGrows(r, h, s.world, a, c.pci);
    if host == "" {
      FinishAddShape(r, h', s, a, Cached(c, host, NoMac), f, s1.records, s1);
    } else {
      SetupStep(r, h, s.world, a, c, f.setup);
      var (w, orig, ok) := Setup(s.world, host, a.ifName, a.netns, c.mac, f.setup);
      var s2 := s1.(world := w);
      CleanedUpShape(r, h', s, a, Cached(c, host, orig), f, s1.records, s2);
      FinishAddShape(r, h', s, a, Cached(c, host, orig), f, s1.records, s2);
    }
  }

  /** Of an attachment that was never added nothing is left. */
  lemma NothingLeftAtFirst(r: Runtime, h: History, s: State, a: Args, pci: Pci)
    requires Inv(r, h, s) && a.cid in r.netns && a.netns == r.netns[a.cid] && a.ifName in r.ifNames
    requires AttachmentOf(a) !in h
    ensures NothingElseLeft(s, a, pci)
  {
    if Exists(s.world, a.netns, a.ifName) { FoundIsOwn(r, h, s.world, a); }
  }

  /** What an add leaves: nothing changed, or the allocation check passed and the shape above. */
  lemma AddLeaves(r: Runtime, h: History, s: State, a: Args, c: AddConf, dpdk: bool, f: CniFaults)
    requires Inv(r, h, s) && Allowed(r, h, s, AddEvent(a, c, dpdk, f))
    ensures var s', alloc := Add(s, a, c, dpdk, f).0, IsAllocated(s, c.pci, f); var h' := h[AttachmentOf(a) := c.pci];
      s' == s || (alloc.Free? && AddShape(r, h', s, a, c, alloc.records, s'))
  {
    var alloc := IsAllocated(s, c.pci, f);
    var host := HostName(s.world, c.pci);
    if AttachmentOf(a) !in h { NothingLeftAtFirst(r, h, s, a, c.pci); }
    if alloc.Free? {
      LinksKnownGrows(r, h, s.world, a, c.pci);
      if host != "" || dpdk { SetupAndFinishShape(r, h, s, a, c, host, f, s.(records := alloc.records)); }
    }
  }

  lemma CacheKnownGrows(r: Runtime, h: History, s: State, a: Args, c: AddConf, s': State)
    requires r.Valid() && CacheKnown(r, h, s) && a.cid in r.netns && a.ifName in r.ifNames
    requires CacheKey(a) in s.cache ==> s.cache[CacheKey(a)].conf.pci == c.pci
    requires s'.cache == s.cache
      || exists d: Cached :: d.conf == c && HostFits(r, d.host, a.ifName) && s'.cache == s.cache[CacheKey(a) := d]
    ensures CacheKnown(r, h[AttachmentOf(a) := c.pci], s')
  {
    var h' := h[AttachmentOf(a) := c.pci];
    forall b: Args | r.Names(b) && CacheKey(b) in s'.cache
      ensures AttachmentOf(b) in h' && h'[AttachmentOf(b)] == s'.cache[CacheKey(b)].conf.pci
      ensures b.ifName in r.ifNames && HostFits(r, s'.cache[CacheKey(b)].host, b.ifName)
    {
      if CacheKey(b) == CacheKey(a) { CacheKeyInjective(a, b); }
    }
  }

  lemma AddKeeps(r: Runtime, h: History, s: State, a: Args, c: AddConf, dpdk: bool, f: CniFaults)
    requires Inv(r, h, s) && Allowed(r, h, s, AddEvent(a, c, dpdk, f))
    ensures var e := AddEvent(a, c, dpdk, f);
      Inv(r, Record(h, e), Step(s, e)) && (!DropsRecord(s, e) ==> Safe(s, e, Step(s, e)))
  {
    if AttachmentOf(a) !in h { NothingLeftAtFirst(r, h, s, a, c.pci); }
    AddLeaves(r, h, s, a, c, dpdk, f);
    LinksKnownGrows(r, h, s.world, a, c.pci);
    CacheKnownGrows(r, h, s, a, c, Add(s, a, c, dpdk, f).0);
  }

  // ---- cmdDel keeps the invariant ----

  /** What a delete leaves: no link or record changed, or the attachment's VF moved out of the namespace it was added
      to; and the record is gone only if that VF reached the initial namespace. */
  ghost predicate DelShape(r: Runtime, h: History, s: State, a: Args, p: Pci, s': State) {
    || (s'.world == s.world && s'.records == s.records)
    || (&& At(s.world, p, a.netns, a.ifName) && LinkStep(r, h, s.world, p, a.netns, s'.world)
        && (s'.records == s.records || (s'.records == s.records - {p} && s'.world.links[p].ns == INIT)))
  }

  lemma ReleaseShape(r: Runtime, h: History, s: State, a: Args, c: Cached, f: CniFaults, s': State)
    requires r.Valid() && WorldOk(s.world) && LinksKnown(r, h, s.world)
    requires a.cid in r.netns && a.netns == r.netns[a.cid] && a.ifName in r.ifNames && HostFits(r, c.host, a.ifName)
    requires AttachmentOf(a) in h && h[AttachmentOf(a)] == c.conf.pci
    requires s' == ReleaseAndForget(s, a, c, f).0
    ensures DelShape(r, h, s, a, c.conf.pci, s') && (s'.cache == s.cache || s'.cache == s.cache - {CacheKey(a)})
  {
    var (w, ok) := Release(s.world, c.host, a.ifName, a.netns, c.conf.mac, c.orig, f.release);
    ReleaseStep(r, h, s.world, a, c, f.release, c.conf.pci, w, ok);
    var s1 := s.(world := w);
    if !ok {
      assert s'.world == w && s'.records == s.records;
    } else if RemoveRecord in f.calls || c.conf.pci !in s.records {
      assert s' == s1;
    } else {
      var s2 := s1.(records := s1.records - {c.conf.pci});
      assert s' == s2 || s' == Forget(s2, a, f);
    }
  }

  lemma DelCases(s: State, a: Args, f: CniFaults, s': State)
    requires s' == Del(s, a, f).0
    ensures s' == s || s' == Forget(s, a, f)
      || (CacheKey(a) in s.cache && a.netns != "" && s' == ReleaseAndForget(s, a, s.cache[CacheKey(a)], f).0)
  {}

  lemma DelLeaves(r: Runtime, h: History, s: State, a: Args, f: CniFaults, s': State)
    requires Inv(r, h, s) && Permitted(r, h, s, DelEvent(a, f)) && s' == Del(s, a, f).0
    ensures s'.cache == s.cache || s'.cache == s.cache - {CacheKey(a)}
    ensures (s'.world == s.world && s'.records == s.records)
      || (a.netns == r.netns[a.cid] && AttachmentOf(a) in h && DelShape(r, h, s, a, h[AttachmentOf(a)], s'))
  {
    DelCases(s, a, f, s');
    if s' != s && s' != Forget(s, a, f) {
      ReleaseShape(r, h, s, a, s.cache[CacheKey(a)], f, s');
    }
  }

  lemma DelKeeps(r: Runtime, h: History, s: State, a: Args, f: CniFaults)
    requires Inv(r, h, s) && Permitted(r, h, s, DelEvent(a, f))
    ensures var e := DelEvent(a, f); Inv(r, h, Step(s, e)) && Safe(s, e, Step(s, e))
  {
    DelLeaves(r, h, s, a, f, Del(s, a, f).0);
  }

  lemma DeathKeeps(r: Runtime, h: History, s: State, ns: Netns, after: World)
    requires Inv(r, h, s) && Permitted(r, h, s, DeathEvent(ns, after))
    ensures var e := DeathEvent(ns, after); Inv(r, h, Step(s, e)) && Safe(s, e, Step(s, e))
  {
    forall p | p in after.links && after.links[p].ns != INIT && after.links[p].name in r.ifNames
      ensures Given(r, h, after.links[p].ns, after.links[p].name, p)
    {
      assert after.links[p] == s.world.links[p];
    }
  }

  lemma StepKeeps(r: Runtime, h: History, s: State, e: Event)
    requires Inv(r, h, s) && Allowed(r, h, s, e)
    ensures Inv(r, Record(h, e), Step(s, e)) && (!DropsRecord(s, e) ==> Safe(s, e, Step(s, e)))
  {
    match e
    case AddEvent(a, c, dpdk, f) => AddKeeps(r, h, s, a, c, dpdk, f);
    case DelEvent(a, f) => DelKeeps(r, h, s, a, f);
    case DeathEvent(ns, after) => DeathKeeps(r, h, s, ns, after);
  }

  /** A run: the events, and the state and the history before each and at the end. */
  datatype Run = Run(events: seq<Event>, states: seq<State>, histories: seq<History>)

  /** The run starts with every VF in the initial namespace and nothing recorded or cached, and every event is
      allowed. */
  ghost predicate IsRun(r: Runtime, run: Run) {
    && r.Valid() && |run.states| == |run.histories| == |run.events| + 1
    && WorldOk(run.states[0].world) && run.states[0].records == map[] && run.states[0].cache == map[]
    && (forall p :: p in run.states[0].world.links ==> run.states[0].world.links[p].ns == INIT)
    && forall i {:trigger run.events[i]} :: 0 <= i < |run.events| ==>
         && Allowed(r, run.histories[i], run.states[i], run.events[i])
         && run.states[i + 1] == Step(run.states[i], run.events[i])
         && run.histories[i + 1] == Record(run.histories[i], run.events[i])
  }

  /** Whichever calls fail, in every run: but for an add whose check cannot open the live namespace of a record, no
      record that names a live namespace is overwritten, and one is removed only by a delete that has just moved its VF
      out of that namespace.  CniOutcomes.RunsAreSafeExactly says when that add is not safe. */
  lemma {:induction false} RunsAreSafe(r: Runtime, run: Run, i: nat)
    requires IsRun(r, run) && i <= |run.events|
    ensures Inv(r, run.histories[i], run.states[i])
    ensures i < |run.events| && !DropsRecord(run.states[i], run.events[i]) ==>
      Safe(run.states[i], run.events[i], run.states[i + 1])
  {
    if i > 0 {
      RunsAreSafe(r, run, i - 1);
      var _ := run.events[i - 1];
      StepKeeps(r, run.histories[i - 1], run.states[i - 1], run.events[i - 1]);
    }
    if i < |run.events| { StepKeeps(r, run.histories[i], run.states[i], run.events[i]); }
  }

  // ---- A VF stays where it was added ----

  /** The VF is in the pod namespace under the attachment's interface name, and its record names that namespace. */
  predicate Held(s: State, a: Args, p: Pci) {
    p in s.records && s.records[p] == a.netns && a.netns in s.world.live && At(s.world, p, a.netns, a.ifName)
  }

  lemma AddHolds(r: Runtime, h: History, s: State, a: Args, c: AddConf, dpdk: bool, f: CniFaults)
    requires Inv(r, h, s) && Allowed(r, h, s, AddEvent(a, c, dpdk, f)) && Add(s, a, c, dpdk, f).1
    ensures Held(Add(s, a, c, dpdk, f).0, a, c.pci)
    ensures !c.mac.NoMac? ==> MacCached(Add(s, a, c, dpdk, f).0, a)
  {
    var host := HostName(s.world, c.pci);
    if host != "" {
      HolderIs(s.world, c.pci, INIT, host);
      SetupMoves(s.world, c.pci, a.ifName, a.netns, c.mac, f.setup);
    }
    AddCachesMac(s, a, c, dpdk, f);
  }

  lemma AddCachesMac(s: State, a: Args, c: AddConf, dpdk: bool, f: CniFaults)
    requires Add(s, a, c, dpdk, f).1
    ensures !c.mac.NoMac? ==> MacCached(Add(s, a, c, dpdk, f).0, a)
  {}

  /** What frees a VF that is held: a delete of its attachment, the death of the namespace, or an add of the VF whose
      check misjudges the record. */
  predicate Frees(e: Event, a: Args, p: Pci) {
    match e
    case AddEvent(_, c, _, f) => c.pci == p && Misjudges(f)
    case DelEvent(b, _) => b == a
    case DeathEvent(ns, _) => ns == a.netns
  }

  lemma HeldThroughDel(r: Runtime, h: History, s: State, b: Args, f: CniFaults, a: Args, p: Pci, s': State)
    requires Inv(r, h, s) && Permitted(r, h, s, DelEvent(b, f)) && a.cid in r.netns && a.netns == r.netns[a.cid]
    requires Held(s, a, p) && b != a && s' == Del(s, b, f).0
    ensures Held(s', a, p)
  {
    DelLeaves(r, h, s, b, f, s');
    if s'.world != s.world || s'.records != s.records {
      assert h[AttachmentOf(b)] != p;
    }
  }

  lemma HeldThroughAdd(r: Runtime, h: History, s: State, b: Args, c: AddConf, dpdk: bool, f: CniFaults, a: Args, p: Pci,
                       s': State)
    requires Inv(r, h, s) && Allowed(r, h, s, AddEvent(b, c, dpdk, f)) && Held(s, a, p) && !(c.pci == p && Misjudges(f))
    requires s' == Add(s, b, c, dpdk, f).0
    ensures Held(s', a, p)
  {
    AddLeaves(r, h, s, b, c, dpdk, f);
    if c.pci == p { assert s' == s; }
  }

  lemma StaysHeld(r: Runtime, h: History, s: State, e: Event, a: Args, p: Pci)
    requires Inv(r, h, s) && Allowed(r, h, s, e) && a.cid in r.netns && a.netns == r.netns[a.cid]
    requires Held(s, a, p) && !Frees(e, a, p)
    ensures Held(Step(s, e), a, p)
  {
    hide Inv, Add, Del;
    match e
    case AddEvent(b, c, dpdk, f) => HeldThroughAdd(r, h, s, b, c, dpdk, f, a, p, Add(s, b, c, dpdk, f).0);
    case DelEvent(b, f) => HeldThroughDel(r, h, s, b, f, a, p, Del(s, b, f).0);
    case DeathEvent(_, _) =>
  }

  /** Once a VF is held, nothing any other attachment's add or delete does, failing or not, takes it away, but for an
      add of the same VF whose check misjudges its record. */
  lemma {:induction false} HeldUntilFreed(r: Runtime, run: Run, i: nat, j: nat, a: Args, p: Pci)
    requires IsRun(r, run) && i <= j <= |run.events| && a.cid in r.netns && a.netns == r.netns[a.cid]
    requires Held(run.states[i], a, p) && forall k :: i <= k < j ==> !Frees(run.events[k], a, p)
    ensures Held(run.states[j], a, p)
    decreases j
  {
    if i < j {
      HeldUntilFreed(r, run, i, j - 1, a, p);
      RunsAreSafe(r, run, j - 1);
      StaysHeld(r, run.histories[j - 1], run.states[j - 1], run.events[j - 1], a, p);
    }
  }

  // ---- VFs that are not freed ----

  /** An attachment whose VF has a configured address: every delete of it fails at the reset and, as the shadowed error
      makes it forget the configuration, the next one has nothing to go by. */
  predicate MacCached(s: State, a: Args) { CacheKey(a) in s.cache ==> !s.cache[CacheKey(a)].conf.mac.NoMac? }

  /** The death of the namespace, or an add of the VF whose check misjudges the record. */
  predicate TakesAway(e: Event, ns: Netns, p: Pci) {
    match e
    case AddEvent(_, c, _, f) => c.pci == p && Misjudges(f)
    case DelEvent(_, _) => false
    case DeathEvent(dead, _) => dead == ns
  }

  lemma MacStays(r: Runtime, h: History, s: State, e: Event, a: Args, p: Pci)
    requires Inv(r, h, s) && Allowed(r, h, s, e)
    requires r.Names(a) && a.netns == r.netns[a.cid] && AttachmentOf(a) in h
    requires Held(s, a, p) && MacCached(s, a) && !TakesAway(e, a.netns, p)
    ensures Held(Step(s, e), a, p) && MacCached(Step(s, e), a)
  {
    if !Frees(e, a, p) { StaysHeld(r, h, s, e, a, p); }
    match e
    case AddEvent(b, c, dpdk, f) =>
      AddLeaves(r, h, s, b, c, dpdk, f);
      if CacheKey(a) == CacheKey(b) { CacheKeyInjective(a, b); }
    case DelEvent(b, f) => DelLeaves(r, h, s, b, f, Del(s, b, f).0);
    case DeathEvent(_, _) =>
  }

  /** So a VF added with an address is in its pod until the namespace dies or its record is misjudged, whatever is
      deleted. */
  lemma {:induction false} MacHeldUntilDeath(r: Runtime, run: Run, i: nat, j: nat, a: Args, p: Pci)
    requires IsRun(r, run) && i <= j <= |run.events| && r.Names(a) && a.netns == r.netns[a.cid]
    requires Held(run.states[i], a, p) && MacCached(run.states[i], a) && AttachmentOf(a) in run.histories[i]
    requires forall k :: i <= k < j ==> !TakesAway(run.events[k], a.netns, p)
    ensures Held(run.states[j], a, p) && MacCached(run.states[j], a) && AttachmentOf(a) in run.histories[j]
    decreases j
  {
    if i < j {
      MacHeldUntilDeath(r, run, i, j - 1, a, p);
      RunsAreSafe(r, run, j - 1);
      MacStays(r, run.histories[j - 1], run.states[j - 1], run.events[j - 1], a, p);
    }
  }

  /** A VF whose record names a live namespace it is not in. */
  predicate Stranded(s: State, p: Pci, ns: Netns) {
    p in s.records && s.records[p] == ns && ns in s.world.live && (p in s.world.links ==> s.world.links[p].ns == INIT)
  }

  lemma StaysStranded(r: Runtime, h: History, s: State, e: Event, p: Pci, ns: Netns)
    requires Inv(r, h, s) && Allowed(r, h, s, e) && Stranded(s, p, ns) && !TakesAway(e, ns, p)
    ensures Stranded(Step(s, e), p, ns)
  {
    match e
    case AddEvent(b, c, dpdk, f) => AddLeaves(r, h, s, b, c, dpdk, f);
    case DelEvent(b, f) => DelLeaves(r, h, s, b, f, Del(s, b, f).0);
    case DeathEvent(_, _) =>
  }

  /** A stranded VF stays so, and no add gets it, until that namespace dies or the check of an add misjudges its record:
      deletes find no link to release. */
  lemma {:induction false} StrandedUntilDeath(r: Runtime, run: Run, i: nat, j: nat, p: Pci, ns: Netns)
    requires IsRun(r, run) && i <= j <= |run.events| && Stranded(run.states[i], p, ns)
    requires forall k :: i <= k < j ==> !TakesAway(run.events[k], ns, p)
    ensures Stranded(run.states[j], p, ns)
    ensures forall a, c: AddConf, dpdk, f :: c.pci == p && !Misjudges(f) ==>
      Add(run.states[j], a, c, dpdk, f) == (run.states[j], false)
    decreases j
  {
    if i < j {
      StrandedUntilDeath(r, run, i, j - 1, p, ns);
      RunsAreSafe(r, run, j - 1);
      StaysStranded(r, run.histories[j - 1], run.states[j - 1], run.events[j - 1], p, ns);
    }
  }
}
