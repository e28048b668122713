/** Why CniLifecycle.RunsAreSafe asks that an attachment is added again with another VF only when nothing is left of it:
    neither the cached configuration nor the link. */
module ReAddClash {
  import opened VfConfig
  import opened VfLinks
  import opened CniLifecycle
  import opened TwoVfs
  import opened TwoVfRuns

  const CACHED_X := Cached(X, "ens2", Address(X_MAC, true))

  // ---- A configuration is left ----

  const NAME_STAYS := LinkFaults({SetHostName}, i => ReadsBack)
  const UNCACHED_NOR_RENAMED := CniFaults({SaveConf}, NO_FAULTS, NAME_STAYS)
  const THIRD := AddEvent(C1, X, false, UNCACHED_NOR_RENAMED)
  const H3: History := H2[AttachmentOf(C1) := "x"]

  const S3 := S2("ens2").(world := Two(LinkP("m", "net1", true), LinkX("n", "net1", false)))

  /** The third add fails before its configuration is cached, and so does the rename in its cleanup: its VF is left in
      the pod, beside the configuration of the first add. */
  lemma ThirdAdd()
    ensures Step(S2("ens2"), THIRD) == S3
  {
    hide SetupAndFinish, HostName, Two;
    ThirdSetup();
    SecondHost("ens2");
  }

  lemma ThirdSetup()
    ensures SetupAndFinish(S2("ens2"), C1, X, "ens2", UNCACHED_NOR_RENAMED) == (S3, false)
  {
    var p := LinkP("m", "net1", true);
    NamesApart(p, Home("ens2"));
    SetupX(p, "ens2", "net1", "n");
    ThirdFinish(p);
  }

  lemma ThirdFinish(p: VfLink)
    requires p == LinkP("m", "net1", true)
    ensures FinishAdd(S2("ens2").(world := Two(p, LinkX("n", "net1", true))), C1, CACHED_X, UNCACHED_NOR_RENAMED)
         == (S3, false)
  {
    var up := LinkX("n", "net1", true);
    NamesApart(p, up);
    HolderIs(Two(p, up), "x", "n", "net1");
    Changed(p, up, LinkX("n", "net1", false));
  }

  /** What is asked of the third command, apart from what is left. */
  ghost predicate OtherwiseAllowed(s: State, a: Args, c: AddConf) {
    && a.cid in RUNTIME.netns && a.netns == RUNTIME.netns[a.cid] && a.ifName in RUNTIME.ifNames
    && HostFits(RUNTIME, HostName(s.world, c.pci), a.ifName)
  }

  lemma ThirdLeft()
    ensures OtherwiseAllowed(S2("ens2"), C1, X) && !Exists(S2("ens2").world, "n", "net1")
    ensures !NothingElseLeft(S2("ens2"), C1, "x") && Record(H2, THIRD) == H3 && Allowed(RUNTIME, H3, S3, LAST)
  {
    Keys();
  }

  /** Four commands from a start that satisfies the invariant.  Only the third is not allowed: the first left its
      configuration.  The last removes the record of a VF that is held by another pod and stays there. */
  lemma LeftConfigurationMatters()
    ensures RUNTIME.Valid() && Inv(RUNTIME, map[], S0("ens2"))
    ensures Allowed(RUNTIME, map[], S0("ens2"), FIRST) && Step(S0("ens2"), FIRST) == S1("ens2")
    ensures Allowed(RUNTIME, H1, S1("ens2"), SECOND) && Step(S1("ens2"), SECOND) == S2("ens2")
    ensures OtherwiseAllowed(S2("ens2"), C1, X) && !Exists(S2("ens2").world, "n", "net1")
    ensures Step(S2("ens2"), THIRD) == S3 && Allowed(RUNTIME, H3, S3, LAST)
    ensures Held(S3, D1, "p") && !Safe(S3, LAST, Step(S3, LAST))
    ensures At(Step(S3, LAST).world, "p", "m", "net1") && "p" !in Step(S3, LAST).records
  {
    Starts("ens2");
    FirstAllowed("ens2");
    FirstAdd("ens2");
    SecondAdd("ens2");
    ThirdLeft();
    ThirdAdd();
    LastDel(S3);
  }

  // ---- A link is left ----

  const DOWN_FAILS := LinkFaults({SetDown}, i => ReadsBack)
  const RELEASE_FAILS := CniFaults({}, NO_FAULTS, DOWN_FAILS)
  const ADD_P := AddEvent(C1, P, false, NO_CNI_FAULTS)
  const DEL_P := DelEvent(C1, RELEASE_FAILS)
  const ADD_X := AddEvent(C1, X, false, NO_CNI_FAULTS)

  const T1 := State(Two(LinkP("n", "net1", true), Home("ens2")), map["p" := "n"], map["c-net1" := CACHED_P])
  const T2 := T1.(cache := map[])
  const T3 := T2.(world := Two(LinkP(INIT, "ens2", false), LinkX("n", TempName(12), false)))

  lemma AddP()
    ensures Step(S0("ens2"), ADD_P) == T1
  {
    Keys();
    NamesApart(P_HOME, Home("ens2"));
    SetupP(Home("ens2"), "ens1", "net1", "n");
    assert HostName(S0("ens2").world, "p") == "ens1";
    assert map[]["p" := "n"] == T1.records;
  }

  /** The delete cannot release the link, and forgets the configuration. */
  lemma DelP()
    ensures Step(T1, DEL_P) == T2
  {
    Keys();
    NamesApart(LinkP("n", "net1", true), Home("ens2"));
    HolderIs(T1.world, "p", "n", "net1");
    assert T1.cache - {"c-net1"} == map[];
  }

  /** The set-up of the second VF stops where its interface name is taken, and leaves it under its temporary name. */
  lemma SetupBlocked()
    ensures Setup(T2.world, "ens2", "net1", "n", NoMac, NO_FAULTS)
         == (Two(LinkP("n", "net1", true), LinkX("n", TempName(12), false)), Address(X_MAC, true), false)
  {
    var p, x, temp := LinkP("n", "net1", true), Home("ens2"), TempName(12);
    TempIsNot(12, "net1");
    NamesApart(p, x);
    HolderIs(Two(p, x), "x", INIT, "ens2");
    Changed(p, x, x);
    Renamed(p, x, temp);
    Moved(p, LinkX(INIT, temp, false), "n");
    Others(p, LinkX("n", temp, false), "n", "net1");
  }

  /** The cleanup then releases the first VF, under the second one's host name. */
  lemma CleanupTakes()
    ensures Release(Two(LinkP("n", "net1", true), LinkX("n", TempName(12), false)), "ens2", "net1", "n", NoMac,
                    Address(X_MAC, true), NO_FAULTS)
         == (T3.world, true)
  {
    var p, x := LinkP("n", "net1", true), LinkX("n", TempName(12), false);
    TempIsNot(12, "net1");
    TempIsNot(12, "ens2");
    NamesApart(p, x);
    HolderIs(Two(p, x), "p", "n", "net1");
    Changed(p, x, LinkP("n", "net1", false));
    Renamed(LinkP("n", "net1", false), x, "ens2");
    Moved(LinkP("n", "ens2", false), x, INIT);
  }

  lemma AddXFails()
    ensures Step(T2, ADD_X) == T3
  {
    SetupBlocked();
    CleanupTakes();
    assert HostName(T2.world, "x") == "ens2";
    assert SetupAndFinish(T2, C1, X, "ens2", NO_CNI_FAULTS) == (T3, false);
  }

  /** Three commands from a start that satisfies the invariant.  Only the last is not allowed: the link of the first is
      left, and nothing else.  It takes that link out of its pod and strands it. */
  lemma LeftLinkMatters()
    ensures RUNTIME.Valid() && Inv(RUNTIME, map[], S0("ens2"))
    ensures Allowed(RUNTIME, map[], S0("ens2"), ADD_P) && Step(S0("ens2"), ADD_P) == T1
    ensures Allowed(RUNTIME, H1, T1, DEL_P) && Step(T1, DEL_P) == T2
    ensures OtherwiseAllowed(T2, C1, X) && CacheKey(C1) !in T2.cache && Step(T2, ADD_X) == T3
    ensures Held(T2, C1, "p") && !Frees(ADD_X, C1, "p") && !Held(T3, C1, "p") && Stranded(T3, "p", "n")
  {
    Starts("ens2");
    AddP();
    DelP();
    AddXFails();
  }
}
