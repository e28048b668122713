/** Why CniLifecycle.RunsAreSafe asks that no VF has a pod interface name on the host other than the one it is added
    under: four commands, each permitted and all but one allowed, after which a record that names a live namespace is
    gone although its VF is still there. */
module HostNameClash {
  import opened VfConfig
  import opened VfLinks
  import opened CniLifecycle
  import opened TwoVfs
  import opened TwoVfRuns

  const CACHED_X := Cached(X, "net1", Address(X_MAC, true))
  const MOVE_OUT_FAILS := LinkFaults({MoveOut}, i => ReadsBack)
  const NOT_SAVED_NOR_MOVED := CniFaults({SavePci}, NO_FAULTS, MOVE_OUT_FAILS)
  const THIRD := AddEvent(C2, X, false, NOT_SAVED_NOR_MOVED)
  const H3: History := H2[AttachmentOf(C2) := "x"]

  const S3 := State(Two(LinkP("m", "net1", true), LinkX("n", "net1", false)), map["p" := "m"],
                    S2("net1").cache["c-net2" := CACHED_X])

  /** The third add fails at its record, and so does the move in its cleanup: its VF is left in the first pod under its
      host name, which is that of the first pod's interface. */
  lemma ThirdAdd()
    ensures Step(S2("net1"), THIRD) == S3
  {
    hide SetupAndFinish, HostName, Two;
    ThirdSetup();
    SecondHost("net1");
  }

  lemma ThirdSetup()
    ensures SetupAndFinish(S2("net1"), C2, X, "net1", NOT_SAVED_NOR_MOVED) == (S3, false)
  {
    var p := LinkP("m", "net1", true);
    NamesApart(p, Home("net1"));
    SetupX(p, "net1", "net2", "n");
    ThirdFinish(p);
  }

  lemma ThirdFinish(p: VfLink)
    requires p == LinkP("m", "net1", true)
    ensures FinishAdd(S2("net1").(world := Two(p, LinkX("n", "net2", true))), C2, CACHED_X, NOT_SAVED_NOR_MOVED)
         == (S3, false)
  {
    var up := LinkX("n", "net2", true);
    Keys();
    NamesApart(p, up);
    HolderIs(Two(p, up), "x", "n", "net2");
    Changed(p, up, LinkX("n", "net2", false));
    Renamed(p, LinkX("n", "net2", false), "net1");
  }

  lemma ThirdPermitted()
    ensures Permitted(RUNTIME, H2, S2("net1"), THIRD) && !HostFits(RUNTIME, HostName(S2("net1").world, "x"), "net2")
    ensures Record(H2, THIRD) == H3 && Allowed(RUNTIME, H3, S3, LAST)
  {
    assert AttachmentOf(C2) !in H2;
  }

  /** Four commands from a start that satisfies the invariant.  Only the third is not allowed: its VF is called net1 on
      the host and added as net2.  The last removes the record of a VF that is held by another pod and stays there. */
  lemma HostNamesMatter()
    ensures RUNTIME.Valid() && Inv(RUNTIME, map[], S0("net1"))
    ensures Allowed(RUNTIME, map[], S0("net1"), FIRST) && Step(S0("net1"), FIRST) == S1("net1")
    ensures Allowed(RUNTIME, H1, S1("net1"), SECOND) && Step(S1("net1"), SECOND) == S2("net1")
    ensures Permitted(RUNTIME, H2, S2("net1"), THIRD) && !HostFits(RUNTIME, HostName(S2("net1").world, "x"), "net2")
    ensures Step(S2("net1"), THIRD) == S3 && Allowed(RUNTIME, H3, S3, LAST)
    ensures Held(S3, D1, "p") && !Safe(S3, LAST, Step(S3, LAST))
    ensures At(Step(S3, LAST).world, "p", "m", "net1") && "p" !in Step(S3, LAST).records
  {
    Starts("net1");
    FirstAllowed("net1");
    FirstAdd("net1");
    SecondAdd("net1");
    ThirdPermitted();
    ThirdAdd();
    LastDel(S3);
  }
}
