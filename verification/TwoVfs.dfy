/** Worlds of two VFs, for concrete runs. */
module TwoVfs {
  import opened Basics
  import opened VfConfig
  import opened VfLinks

  const P_MAC: Mac := [0x00, 0x08, 0x00, 0x00, 0x03, 0x14]
  const X_MAC: Mac := [0x00, 0x09, 0x00, 0x00, 0x03, 0x14]

  function LinkP(ns: Netns, name: string, up: bool): VfLink { VfLink(ns, name, P_MAC, up, 11) }

  function LinkX(ns: Netns, name: string, up: bool): VfLink { VfLink(ns, name, X_MAC, up, 12) }

  function Two(p: VfLink, x: VfLink): World { World(map["p" := p, "x" := x], {INIT, "n", "m"}) }

  lemma NamesApart(p: VfLink, x: VfLink)
    requires p.ns != x.ns || p.name != x.name
    ensures NamesUnique(Two(p, x))
  {}

  lemma Changed(p: VfLink, x: VfLink, l: VfLink)
    ensures Two(p, x).(links := Two(p, x).links["p" := l]) == Two(l, x)
    ensures Two(p, x).(links := Two(p, x).links["x" := l]) == Two(p, l)
  {
    assert Two(p, x).links["p" := l] == Two(l, x).links;
    assert Two(p, x).links["x" := l] == Two(p, l).links;
  }

  lemma Others(p: VfLink, x: VfLink, ns: Netns, name: string)
    ensures TakenBeside(Two(p, x), "p", ns, name) <==> x.ns == ns && x.name == name
    ensures TakenBeside(Two(p, x), "x", ns, name) <==> p.ns == ns && p.name == name
  {
    var w := Two(p, x);
    if x.ns == ns && x.name == name { assert At(w, "x", ns, name); }
    if p.ns == ns && p.name == name { assert At(w, "p", ns, name); }
  }

  /** A rename of either VF to a free name. */
  lemma Renamed(p: VfLink, x: VfLink, name: string)
    requires name != ""
    ensures p.ns != x.ns || x.name != name ==> Rename(Two(p, x), "p", name, false) == (Two(p.(name := name), x), true)
    ensures p.ns != x.ns || p.name != name ==> Rename(Two(p, x), "x", name, false) == (Two(p, x.(name := name)), true)
  {
    Others(p, x, p.ns, name);
    Others(p, x, x.ns, name);
    Changed(p, x, p.(name := name));
    Changed(p, x, x.(name := name));
  }

  /** A move of either VF to a namespace where its name is free. */
  lemma Moved(p: VfLink, x: VfLink, ns: Netns)
    requires ns in {INIT, "n", "m"}
    ensures x.ns != ns || x.name != p.name ==> Move(Two(p, x), "p", ns, false) == (Two(p.(ns := ns), x), true)
    ensures p.ns != ns || x.name != p.name ==> Move(Two(p, x), "x", ns, false) == (Two(p, x.(ns := ns)), true)
  {
    Others(p, x, ns, p.name);
    Others(p, x, ns, x.name);
    Changed(p, x, p.(ns := ns));
    Changed(p, x, x.(ns := ns));
  }

  /** A name that no temporary name is. */
  lemma TempIsNot(i: nat, name: string)
    requires name == "" || name[0] != 't'
    ensures TempName(i) != name
  {
    assert TempName(i)[0] == 't';
  }

  predicate Plain(name: string) { name != "" && name[0] != 't' }

  /** SetupVF of the first VF, where no name is in the way. */
  lemma SetupP(x: VfLink, host: string, podIf: string, ns: Netns)
    requires ns in {"n", "m"} && Plain(host) && Plain(podIf) && Plain(x.name)
    requires (x.ns != INIT || x.name != host) && (x.ns != ns || x.name != podIf)
    ensures Setup(Two(LinkP(INIT, host, false), x), host, podIf, ns, NoMac, NO_FAULTS)
         == (Two(LinkP(ns, podIf, true), x), Address(P_MAC, true), true)
  {
    var temp, home := TempName(11), LinkP(INIT, host, false);
    TempIsNot(11, x.name);
    NamesApart(home, x);
    HolderIs(Two(home, x), "p", INIT, host);
    Changed(home, x, home);
    Renamed(home, x, temp);
    Moved(LinkP(INIT, temp, false), x, ns);
    Renamed(LinkP(ns, temp, false), x, podIf);
    Changed(LinkP(ns, podIf, false), x, LinkP(ns, podIf, true));
  }

  /** SetupVF of the second one. */
  lemma SetupX(p: VfLink, host: string, podIf: string, ns: Netns)
    requires ns in {"n", "m"} && Plain(host) && Plain(podIf) && Plain(p.name)
    requires (p.ns != INIT || p.name != host) && (p.ns != ns || p.name != podIf)
    ensures Setup(Two(p, LinkX(INIT, host, false)), host, podIf, ns, NoMac, NO_FAULTS)
         == (Two(p, LinkX(ns, podIf, true)), Address(X_MAC, true), true)
  {
    var temp, home := TempName(12), LinkX(INIT, host, false);
    TempIsNot(12, p.name);
    NamesApart(p, home);
    HolderIs(Two(p, home), "x", INIT, host);
    Changed(p, home, home);
    Renamed(p, home, temp);
    Moved(p, LinkX(INIT, temp, false), ns);
    Renamed(p, LinkX(ns, temp, false), podIf);
    Changed(p, LinkX(ns, podIf, false), LinkX(ns, podIf, true));
  }
}
