/** What becomes of two attachments whose cached configurations share a file name: container a with interface b-c, and
    container a-b with interface c.  Two adds succeed, and the delete of the first removes the record of the second. */
module KeyClash {
  import opened VfConfig
  import opened VfLinks
  import opened CniLifecycle
  import opened CniOutcomes
  import opened TwoVfs

  const A := Args("a", "b-c", "n")
  const B := Args("a-b", "c", "m")

  const P := AddConf("p", NoMac, false)
  const X := AddConf("x", NoMac, false)

  const CACHED_P := Cached(P, "ens1", Address(P_MAC, true))
  const CACHED_X := Cached(X, "ens2", Address(X_MAC, true))

  const S0 := State(Two(LinkP(INIT, "ens1", false), LinkX(INIT, "ens2", false)), map[], map[])
  const S1 := State(Two(LinkP("n", "b-c", true), LinkX(INIT, "ens2", false)), map["p" := "n"], map["a-b-c" := CACHED_P])
  const S2 := State(Two(LinkP("n", "b-c", true), LinkX("m", "c", true)), map["p" := "n", "x" := "m"],
                    map["a-b-c" := CACHED_X])

  lemma SameKey()
    ensures CacheKey(A) == CacheKey(B) == "a-b-c" && AttachmentOf(A) != AttachmentOf(B)
  {}

  lemma FirstAdd()
    ensures Add(S0, A, P, false, NO_CNI_FAULTS) == (S1, true)
  {
    SameKey();
    NamesApart(LinkP(INIT, "ens1", false), LinkX(INIT, "ens2", false));
    SetupP(LinkX(INIT, "ens2", false), "ens1", "b-c", "n");
    assert HostName(S0.world, "p") == "ens1";
  }

  /** The second add writes over the first one's configuration. */
  lemma SecondAdd()
    ensures Add(S1, B, X, false, NO_CNI_FAULTS) == (S2, true)
  {
    SameKey();
    NamesApart(LinkP("n", "b-c", true), LinkX(INIT, "ens2", false));
    SetupX(LinkP("n", "b-c", true), "ens2", "c", "m");
    SecondFinish();
    assert HostName(S1.world, "x") == "ens2";
    assert SetupAndFinish(S1, B, X, "ens2", NO_CNI_FAULTS) == (S2, true);
  }

  lemma SecondFinish()
    ensures FinishAdd(S1.(world := S2.world), B, CACHED_X, NO_CNI_FAULTS) == (S2, true)
  {
    SameKey();
    assert S1.cache["a-b-c" := CACHED_X] == S2.cache && S1.records["x" := "m"] == S2.records;
  }

  /** The delete of the first moves the first VF under the second one's host name. */
  lemma DelReleases()
    ensures Release(S2.world, "ens2", "b-c", "n", NoMac, Address(X_MAC, true), NO_FAULTS)
         == (Two(LinkP(INIT, "ens2", false), LinkX("m", "c", true)), true)
  {
    var p, x := LinkP("n", "b-c", true), LinkX("m", "c", true);
    NamesApart(p, x);
    HolderIs(Two(p, x), "p", "n", "b-c");
    Changed(p, x, LinkP("n", "b-c", false));
    Renamed(LinkP("n", "b-c", false), x, "ens2");
    Moved(LinkP("n", "ens2", false), x, INIT);
  }

  const RUNTIME := Runtime(map["a" := "n", "a-b" := "m"], {"b-c", "c"})
  const ADD_A := AddEvent(A, P, false, NO_CNI_FAULTS)
  const ADD_B := AddEvent(B, X, false, NO_CNI_FAULTS)
  const DEL_A := DelEvent(A, NO_CNI_FAULTS)
  const H1: History := map[AttachmentOf(A) := "p"]
  const H2: History := map[AttachmentOf(A) := "p", AttachmentOf(B) := "x"]

  /** The runtime is as it should be but for the dashes. */
  lemma OnlyDashes()
    ensures !RUNTIME.Valid() && RUNTIME.netns["a"] != RUNTIME.netns["a-b"] && INIT !in RUNTIME.netns.Values
    ensures Allowed(RUNTIME, map[], S0, ADD_A) && Allowed(RUNTIME, H1, S1, ADD_B)
    ensures RUNTIME.Names(A) && Allowed(RUNTIME, H2, S2, DEL_A)
  {
    SameKey();
    assert "a-b"[1] == '-' && "b-c"[1] == '-' && '-' in "a-b" && '-' in "b-c";
    assert "a-b" in RUNTIME.netns && "b-c" in RUNTIME.ifNames;
  }

  lemma BothHeld()
    ensures Held(S2, A, "p") && Held(S2, B, "x") && Clears(S2, A, NO_CNI_FAULTS)
  {
    SameKey();
    DelReleases();
  }

  /** Three commands, each with no call failing; the last removes the record of a VF that is held by another pod. */
  lemma DashesMatter()
    ensures Allowed(RUNTIME, map[], S0, ADD_A) && Add(S0, A, P, false, NO_CNI_FAULTS) == (S1, true)
    ensures Allowed(RUNTIME, H1, S1, ADD_B) && Add(S1, B, X, false, NO_CNI_FAULTS) == (S2, true)
    ensures Allowed(RUNTIME, H2, S2, DEL_A) && Held(S2, A, "p") && Held(S2, B, "x")
    ensures !Safe(S2, DEL_A, Step(S2, DEL_A)) && "x" !in Step(S2, DEL_A).records
  {
    SameKey();
    OnlyDashes();
    FirstAdd();
    SecondAdd();
    BothHeld();
    NamesApart(LinkP("n", "b-c", true), LinkX("m", "c", true));
    CollisionUnsafe(S2, A, B, "x", NO_CNI_FAULTS);
    DelRecords(S2, A, NO_CNI_FAULTS);
  }
}
