/** A run of the node in which a port is left behind: the request to delete it is lost, when the VF is already back and
    its record gone. */
module LostDelete {
  import opened Basics
  import opened VfConfig
  import opened VfLinks
  import opened CniLifecycle
  import opened CniOutcomes
  import opened CniRetries
  import opened TwoVfs
  import opened TwoVfRuns
  import opened PortRequests
  import opened NodeRuns
  import B = BridgePorts
  import F = FxpRules
  import ReAddClash

  const HOST := Host(F.Config(0, false), {"p"}, _ => "ens1", _ => 1)

  const LOST := CniFaults({DeletePort}, NO_FAULTS, NO_FAULTS)
  const ADD := ReAddClash.ADD_P
  const DEL := DelEvent(C1, LOST)

  const S: State := S0("ens2")
  const T: State := ReAddClash.T1
  const U: State := T.(world := S.world, records := map[])

  const PORT := Request(Vf("ens1", 1, P_MAC))
  const EMPTY_SERVER: B.State := B.State(map[], map[], map[])

  lemma GivenBack()
    ensures Release(T.world, "ens1", "net1", "n", NoMac, Address(P_MAC, true), NO_FAULTS) == (S.world, true)
  {
    var up := LinkP("n", "net1", true);
    NamesApart(up, Home("ens2"));
    HolderIs(Two(up, Home("ens2")), "p", "n", "net1");
    Changed(up, Home("ens2"), LinkP("n", "net1", false));
    Renamed(LinkP("n", "net1", false), Home("ens2"), "ens1");
    Moved(LinkP("n", "ens1", false), Home("ens2"), INIT);
  }

  lemma DelLost()
    ensures Clears(T, C1, LOST) && Step(T, DEL) == U
  {
    hide Release;
    Keys();
    GivenBack();
    assert T.records - {"p"} == map[];
  }

  lemma PluginRuns()
    ensures IsRun(RUNTIME, Run([ADD, DEL], [S, T, U], [map[], H1, H1]))
  {
    hide Add, Del, Inv, NamesUnique;
    Starts("ens2");
    StartsPlain();
    FirstAllowed("ens2");
    AllowedBoth();
    ReAddClash.AddP();
    DelLost();
  }

  lemma StartsPlain()
    ensures RUNTIME.Valid() && WorldOk(S.world) && NamesUnique(S.world)
  {
    Starts("ens2");
  }

  lemma AllowedBoth()
    ensures Allowed(RUNTIME, map[], S, ADD) && Allowed(RUNTIME, H1, T, DEL)
  {
    FirstAllowed("ens2");
  }

  // ---- The server ----

  const MADE := Rpc(true, {}, true)
  const DROPPED := Rpc(false, {}, false)

  const ADDED: B.State := B.Create(HOST.fxp, EMPTY_SERVER, PORT, {}).0

  lemma PortAccepted()
    ensures B.Accepted(PORT) && PORT.name == NameOf(HOST, "p")
  {
    RequestAccepted(Vf("ens1", 1, P_MAC));
  }

  lemma ServerAdds()
    ensures B.StoredAccepted(ADDED) && ADDED.ports == map[PORT.name := PORT.(up := true)]
    ensures B.Create(HOST.fxp, EMPTY_SERVER, PORT, {}).1.Reply?
  {
    hide B.RulesOf, B.Check;
    PortAccepted();
    B.UpIsSame(PORT);
    assert map[][PORT.name := PORT.(up := true)] == map[PORT.name := PORT.(up := true)];
  }

  lemma AddAsks()
    ensures Asked(HOST, S, ADD, {}) == Some(B.CreateOp(PORT, {}))
  {
    hide Records, Add, IsAllocated, NamesUnique;
    Starts("ens2");
    StartsPlain();
    ReAddClash.AddP();
    AddWrites(S, C1, P, false, NO_CNI_FAULTS);
    assert "p" in T.records && "p" !in S.records && "p" !in S.records - {"p"};
  }

  ghost function TheRun(): NodeRun
    requires B.StoredAccepted(ADDED)
  {
    NodeRun(Run([ADD, DEL], [S, T, U], [map[], H1, H1]), [EMPTY_SERVER, ADDED, ADDED], [MADE, DROPPED])
  }

  lemma AddStep()
    requires B.StoredAccepted(ADDED)
    ensures Agrees(HOST, S, EMPTY_SERVER, ADD, MADE) && ServerAfter(HOST, S, EMPTY_SERVER, ADD, MADE) == ADDED
  {
    hide Asked, B.Create;
    AddAsks();
    ServerAdds();
  }

  lemma DelStep(sv: Server)
    ensures Agrees(HOST, T, sv, DEL, DROPPED) && ServerAfter(HOST, T, sv, DEL, DROPPED) == sv
  {}

  lemma OneName()
    ensures DistinctNames(HOST)
  {}

  /** Both commands are allowed; in the end the VF is back on the host as before, neither recorded nor in any pod, the
      server has its port and rules, and no retry of the delete asks for them to go. */
  lemma PortIsLeft(g: CniFaults)
    ensures B.StoredAccepted(ADDED) && IsNodeRun(HOST, RUNTIME, TheRun())
    ensures U.world == S.world && U.records == map[] && LeftBehind(HOST, U, ADDED, "p") && !Clears(U, C1, g)
  {
    hide IsRun, Agrees, ServerAfter, DistinctNames, Release;
    ServerAdds();
    PortAccepted();
    PluginRuns();
    AddStep();
    DelStep(ADDED);
    OneName();
    TwoSteps();
    DelLost();
    RetriesClearNothing(RUNTIME, TheRun().run, 1, 2, C1, LOST, g);
  }

  lemma TwoSteps()
    requires B.StoredAccepted(ADDED)
    requires Agrees(HOST, S, EMPTY_SERVER, ADD, MADE) && Agrees(HOST, T, ADDED, DEL, DROPPED)
    requires ServerAfter(HOST, S, EMPTY_SERVER, ADD, MADE) == ADDED
    requires ServerAfter(HOST, T, ADDED, DEL, DROPPED) == ADDED
    requires IsRun(RUNTIME, TheRun().run) && DistinctNames(HOST)
    ensures IsNodeRun(HOST, RUNTIME, TheRun())
  {
    hide IsRun, Agrees, ServerAfter, DistinctNames;
    var n := TheRun();
    assert n.run.events[0] == ADD && n.run.events[1] == DEL;
  }
}
