/** Exactly where SetupVF and ReleaseVF of sriov_cni/pkg/sriov/sriov.go leave a VF's link, whatever calls fail. */
module LinkMoves {
  import opened Basics
  import opened Text
  import opened VfConfig
  import opened VfOptions
  import opened VfLinks

  /** The world with another link for the VF. */
  function With(w: World, p: Pci, l: VfLink): World
    requires p in w.links
  {
    w.(links := w.links[p := l])
  }

  // ---- The single calls, on a link that has been changed ----

  lemma RenameAt(w: World, p: Pci, l: VfLink, name: string, fails: bool)
    requires p in w.links
    ensures Rename(With(w, p, l), p, name, fails)
         == if !fails && name != "" && !TakenBeside(w, p, l.ns, name) then (With(w, p, l.(name := name)), true)
            else (With(w, p, l), false)
  {
    TakenSame(w, With(w, p, l), p, l.ns, name);
    assert With(w, p, l).links[p := l.(name := name)] == w.links[p := l.(name := name)];
  }

  lemma MoveAt(w: World, p: Pci, l: VfLink, ns: Netns, fails: bool)
    requires p in w.links
    ensures Move(With(w, p, l), p, ns, fails)
         == if !fails && ns in w.live && !TakenBeside(w, p, ns, l.name) then (With(w, p, l.(ns := ns)), true)
            else (With(w, p, l), false)
  {
    TakenSame(w, With(w, p, l), p, ns, l.name);
    assert With(w, p, l).links[p := l.(ns := ns)] == w.links[p := l.(ns := ns)];
  }

  /** The effective address can be set and confirmed. */
  predicate Settable(text: MacText, f: LinkFaults) {
    text.Address? && FindForMac !in f.calls && text.canonical && SomeConfirms(f.attempts)
  }

  /** The address after it was set, or tried to be. */
  function MacAfter(now: Mac, text: MacText, f: LinkFaults): Mac {
    if text.Address? && FindForMac !in f.calls && SomeSets(f.attempts) then text.mac else now
  }

  lemma MacAt(w: World, p: Pci, l: VfLink, text: MacText, f: LinkFaults)
    requires p in w.links
    ensures SetEffectiveMac(With(w, p, l), p, text, f)
         == (With(w, p, l.(mac := MacAfter(l.mac, text, f))), Settable(text, f))
  {
    if text.Address? { RoundsFrom(l.mac, text.mac, text.canonical, f.attempts, 0); }
    var m := MacAfter(l.mac, text, f);
    assert With(w, p, l).links[p := l.(mac := m)] == w.links[p := l.(mac := m)];
  }

  lemma UpAt(w: World, p: Pci, l: VfLink, up: bool)
    requires p in w.links
    ensures WithUp(With(w, p, l), p, up) == With(w, p, l.(up := up)) && With(w, p, w.links[p]) == w
  {
    assert With(w, p, l).links[p := l.(up := up)] == w.links[p := l.(up := up)];
    assert w.links[p := w.links[p]] == w.links;
  }

  // ---- The two operations ----

  /** The part inside the pod namespace. */
  lemma InPodAt(w: World, p: Pci, l: VfLink, podIf: string, mac: MacText, f: LinkFaults)
    requires p in w.links
    ensures var named := SetPodName !in f.calls && podIf != "" && !TakenBeside(w, p, l.ns, podIf);
      var ok := named && (mac.NoMac? || Settable(mac, f)) && SetUp !in f.calls;
      SetupInPod(With(w, p, l), p, podIf, mac, f)
      == (With(w, p, VfLink(l.ns, if named then podIf else l.name, if named then MacAfter(l.mac, mac, f) else l.mac,
                            ok || l.up, l.index)), ok)
  {
    hide SetEffectiveMac, SomeSets, Settable, TakenBeside, Rename, With, WithUp, SomeConfirms;
    RenameAt(w, p, l, podIf, SetPodName in f.calls);
    MacAt(w, p, l.(name := podIf), mac, f);
    UpAt(w, p, l.(name := podIf, mac := MacAfter(l.mac, mac, f)), true);
  }

  /** SetupVF takes the link down, gives it the temporary name, moves it, gives it the pod's name, sets the address and
      takes it up.  It succeeds exactly when no call fails, no other link has the temporary name on either side or the
      pod's name in the pod, the namespace lives and the configured address can be confirmed; and where it stops, the
      link is left as far as it got. */
  lemma SetupExactly(w: World, p: Pci, podIf: string, ns: Netns, mac: MacText, f: LinkFaults)
    requires p in w.links
    ensures var (w', ok) := SetupLink(w, p, podIf, ns, mac, f); var l := w.links[p];
      var temp := "temp_" + Decimal(l.index);
      var downed := SetDown !in f.calls;
      var renamed := downed && SetTemp !in f.calls && !TakenBeside(w, p, l.ns, temp);
      var moved := renamed && MoveIn !in f.calls && ns in w.live && !TakenBeside(w, p, ns, temp);
      var named := moved && SetPodName !in f.calls && podIf != "" && !TakenBeside(w, p, ns, podIf);
      && (ok <==> named && (mac.NoMac? || Settable(mac, f)) && SetUp !in f.calls)
      && w' == With(w, p, VfLink(if moved then ns else l.ns, if named then podIf else if renamed then temp else l.name,
                                 if named then MacAfter(l.mac, mac, f) else l.mac, ok || (l.up && !downed), l.index))
  {
    hide SetupInPod, MacAfter, Settable, TakenBeside, Rename, Move, With, WithUp;
    var l := w.links[p];
    var temp := TempName(l.index);
    assert temp != "";
    UpAt(w, p, l, false);
    RenameAt(w, p, l.(up := false), temp, SetTemp in f.calls);
    MoveAt(w, p, l.(up := false, name := temp), ns, MoveIn in f.calls);
    InPodAt(w, p, l.(up := false, name := temp, ns := ns), podIf, mac, f);
  }

  lemma RestoreAt(w: World, p: Pci, l: VfLink, mac: MacText, orig: MacText, f: LinkFaults)
    requires p in w.links
    ensures var ok := (mac.NoMac? || Settable(orig, f)) && MoveOut !in f.calls && INIT in w.live
        && !TakenBeside(w, p, INIT, l.name);
      RestoreAndMove(With(w, p, l), p, mac, orig, f)
      == (With(w, p, l.(mac := if mac.NoMac? then l.mac else MacAfter(l.mac, orig, f),
                        ns := if ok then INIT else l.ns)), ok)
  {
    hide SetEffectiveMac, MacAfter, Settable, TakenBeside, Move, With;
    MacAt(w, p, l, orig, f);
    MoveAt(w, p, if mac.NoMac? then l else l.(mac := MacAfter(l.mac, orig, f)), INIT, MoveOut in f.calls);
  }

  /** ReleaseVF takes the link down, gives it its host name while still in the pod, restores the address if one was
      configured and moves it out. */
  lemma ReleaseExactly(w: World, p: Pci, host: string, mac: MacText, orig: MacText, f: LinkFaults)
    requires p in w.links
    ensures var (w', ok) := ReleaseLink(w, p, host, mac, orig, f); var l := w.links[p];
      var downed := SetDown !in f.calls;
      var named := downed && SetHostName !in f.calls && host != "" && !TakenBeside(w, p, l.ns, host);
      && (ok <==> named && (mac.NoMac? || Settable(orig, f)) && MoveOut !in f.calls && INIT in w.live
                  && !TakenBeside(w, p, INIT, host))
      && w' == With(w, p, VfLink(if ok then INIT else l.ns, if named then host else l.name,
                                 if named && !mac.NoMac? then MacAfter(l.mac, orig, f) else l.mac,
                                 l.up && !downed, l.index))
  {
    hide RestoreAndMove, MacAfter, Settable, TakenBeside, Rename, With, WithUp;
    var l := w.links[p];
    UpAt(w, p, l, false);
    RenameAt(w, p, l.(up := false), host, SetHostName in f.calls);
    RestoreAt(w, p, l.(up := false, name := host), mac, orig, f);
  }

  /** Both operations are on the link that has the name, SetupVF in the initial namespace and ReleaseVF in the pod's,
      and fail, leaving everything alone, when there is none or the look-up fails.  The address remembered is the one
      the link has before anything is done to it. */
  lemma FoundByName(w: World, p: Pci, host: string, podIf: string, ns: Netns, mac: MacText, orig: MacText,
                    f: LinkFaults)
    requires NamesUnique(w)
    ensures At(w, p, INIT, host) && FindLink !in f.calls ==>
      var (w', ok) := SetupLink(w, p, podIf, ns, mac, f);
      Setup(w, host, podIf, ns, mac, f) == (w', Printed(w.links[p].mac), ok)
    ensures At(w, p, ns, podIf) && FindLink !in f.calls ==>
      Release(w, host, podIf, ns, mac, orig, f) == ReleaseLink(w, p, host, mac, orig, f)
    ensures FindLink in f.calls || (forall q :: q in w.links ==> !At(w, q, INIT, host)) ==>
      Setup(w, host, podIf, ns, mac, f) == (w, NoMac, false)
    ensures FindLink in f.calls || (forall q :: q in w.links ==> !At(w, q, ns, podIf)) ==>
      Release(w, host, podIf, ns, mac, orig, f) == (w, false)
  {
    if At(w, p, INIT, host) { HolderIs(w, p, INIT, host); }
    if At(w, p, ns, podIf) { HolderIs(w, p, ns, podIf); }
  }
}
