/** A run of two commands in which a VF that is held loses its record: the namespace it names is alive, and the check of
    the second add cannot open it. */
module LostRecord {
  import opened VfConfig
  import opened VfLinks
  import opened CniLifecycle
  import opened CniOutcomes
  import opened TwoVfs
  import opened TwoVfRuns
  import ReAddClash

  const NOT_OPENED := CniFaults({OpenRecorded}, NO_FAULTS, NO_FAULTS)
  const ADD := ReAddClash.ADD_P
  const AGAIN := AddEvent(D1, P, false, NOT_OPENED)

  const S: State := S0("ens2")
  const T: State := ReAddClash.T1
  const U: State := T.(records := map[])

  lemma AgainAllowed()
    ensures Allowed(RUNTIME, map[], S, ADD) && Allowed(RUNTIME, H1, T, AGAIN)
  {
    FirstAllowed("ens2");
    assert AttachmentOf(D1) !in H1;
  }

  /** Both commands are allowed from a start that satisfies the invariant.  The second asks for the VF for another pod,
      and fails; but the first pod's VF has no record then, and no delete gives up its port. */
  lemma RecordIsLost(g: CniFaults)
    ensures RUNTIME.Valid() && Inv(RUNTIME, map[], S)
    ensures Allowed(RUNTIME, map[], S, ADD) && Step(S, ADD) == T && Held(T, C1, "p")
    ensures Allowed(RUNTIME, H1, T, AGAIN) && Step(T, AGAIN) == U && !Safe(T, AGAIN, U)
    ensures At(U.world, "p", "n", "net1") && !Held(U, C1, "p") && !Clears(U, C1, g)
  {
    hide Add, Safe, Clears;
    Starts("ens2");
    AgainAllowed();
    ReAddClash.AddP();
    Keys();
    assert T.records - {"p"} == map[];
    MisjudgedAdd(T, C1, "p", D1, P, false, NOT_OPENED);
  }
}
