/** Commands that several concrete runs have in common: a VF is added in vain by container c and then given to container
    d, and in the end a delete of c finds the other VF under its interface name. */
module TwoVfRuns {
  import opened VfConfig
  import opened VfLinks
  import opened CniLifecycle
  import opened TwoVfs

  const RUNTIME := Runtime(map["c" := "n", "d" := "m"], {"net1", "net2"})

  const C1 := Args("c", "net1", "n")
  const C2 := Args("c", "net2", "n")
  const D1 := Args("d", "net1", "m")

  const P := AddConf("p", NoMac, false)
  const X := AddConf("x", NoMac, false)

  const P_HOME := LinkP(INIT, "ens1", false)
  const CACHED_P := Cached(P, "ens1", Address(P_MAC, true))

  const NOT_SAVED := CniFaults({SavePci}, NO_FAULTS, NO_FAULTS)

  function Home(host: string): VfLink { LinkX(INIT, host, false) }

  /** The states before the first command, after it, and after the second; the second VF is on the host under a name. */
  function S0(host: string): State { State(Two(P_HOME, Home(host)), map[], map[]) }
  function S1(host: string): State { S0(host).(cache := map["c-net1" := CACHED_P]) }
  function S2(host: string): State {
    State(Two(LinkP("m", "net1", true), Home(host)), map["p" := "m"],
          map["c-net1" := CACHED_P, "d-net1" := CACHED_P])
  }

  const FIRST := AddEvent(C1, P, false, NOT_SAVED)
  const SECOND := AddEvent(D1, P, false, NO_CNI_FAULTS)
  const LAST := DelEvent(C1, NO_CNI_FAULTS)

  const H1: History := map[AttachmentOf(C1) := "p"]
  const H2: History := map[AttachmentOf(C1) := "p", AttachmentOf(D1) := "p"]

  lemma Keys()
    ensures CacheKey(C1) == "c-net1" && CacheKey(C2) == "c-net2" && CacheKey(D1) == "d-net1"
  {}

  lemma Starts(host: string)
    requires Plain(host) && host != "ens1"
    ensures RUNTIME.Valid() && Inv(RUNTIME, map[], S0(host))
  {
    NamesApart(P_HOME, Home(host));
    forall i: nat ensures TempName(i) !in RUNTIME.ifNames {
      TempIsNot(i, "net1");
      TempIsNot(i, "net2");
    }
  }

  lemma FirstAllowed(host: string)
    ensures Allowed(RUNTIME, map[], S0(host), FIRST) && Allowed(RUNTIME, H1, S1(host), SECOND)
    ensures Record(map[], FIRST) == H1 && Record(H1, SECOND) == H2
  {
    assert AttachmentOf(D1) !in H1;
  }

  /** The first add fails at its record; the cleanup brings the VF back, and the configuration stays cached. */
  lemma FirstAdd(host: string)
    requires Plain(host) && host != "ens1"
    ensures Step(S0(host), FIRST) == S1(host)
  {
    FirstSetup(host);
    assert HostName(S0(host).world, "p") == "ens1";
  }

  lemma FirstSetup(host: string)
    requires Plain(host) && host != "ens1"
    ensures SetupAndFinish(S0(host), C1, P, "ens1", NOT_SAVED) == (S1(host), false)
  {
    NamesApart(P_HOME, Home(host));
    SetupP(Home(host), "ens1", "net1", "n");
    FirstFinish(host);
  }

  lemma FirstFinish(host: string)
    requires Plain(host) && host != "ens1"
    ensures FinishAdd(S0(host).(world := Two(LinkP("n", "net1", true), Home(host))), C1, CACHED_P, NOT_SAVED)
         == (S1(host), false)
  {
    var up := LinkP("n", "net1", true);
    Keys();
    NamesApart(up, Home(host));
    HolderIs(Two(up, Home(host)), "p", "n", "net1");
    Changed(up, Home(host), LinkP("n", "net1", false));
    Renamed(LinkP("n", "net1", false), Home(host), "ens1");
    Moved(LinkP("n", "ens1", false), Home(host), INIT);
  }

  /** The second gives that VF to another pod. */
  lemma SecondAdd(host: string)
    requires Plain(host) && host != "ens1"
    ensures Step(S1(host), SECOND) == S2(host)
  {
    Keys();
    NamesApart(P_HOME, Home(host));
    SetupP(Home(host), "ens1", "net1", "m");
    assert HostName(S1(host).world, "p") == "ens1";
    assert S1(host).cache["d-net1" := CACHED_P] == S2(host).cache;
    assert map[]["p" := "m"] == S2(host).records;
  }

  lemma SecondHost(host: string)
    requires Plain(host)
    ensures HostName(S2(host).world, "x") == host && "n" in S2(host).world.live
  {}

  const LAST_WORLD := Two(LinkP("m", "net1", true), LinkX("n", "net1", false))
  const LAST_RELEASED := Two(LinkP("m", "net1", true), LinkX(INIT, "ens1", false))

  lemma LastRelease()
    ensures Release(LAST_WORLD, "ens1", "net1", "n", NoMac, Address(P_MAC, true), NO_FAULTS) == (LAST_RELEASED, true)
  {
    var p, x := LinkP("m", "net1", true), LinkX("n", "net1", false);
    NamesApart(p, x);
    HolderIs(Two(p, x), "x", "n", "net1");
    Changed(p, x, x);
    Renamed(p, x, "ens1");
    Moved(p, LinkX("n", "ens1", false), INIT);
  }

  /** In the end the second VF is in the first pod under the interface name; the delete of the first add takes it for
      the first VF, and removes the record of the one that is in the other pod. */
  lemma LastDel(s: State)
    requires s.world == LAST_WORLD && s.records == map["p" := "m"]
    requires "c-net1" in s.cache && s.cache["c-net1"] == CACHED_P
    ensures var s' := Step(s, LAST);
      && Held(s, D1, "p") && !Safe(s, LAST, s')
      && s'.world == LAST_RELEASED && s'.records == map[]
  {
    hide Release;
    Keys();
    LastRelease();
    assert s.records - {"p"} == map[];
    assert "p" in s.records && s.records["p"] in s.world.live;
  }
}
