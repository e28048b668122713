/** VF links moving between network namespaces: SetupVF and ReleaseVF of sriov_cni/pkg/sriov/sriov.go, step by step,
    with renames and moves that fail on a name already taken. */
module VfLinks {
  import opened Basics
  import opened Text
  import opened VfConfig

  type Pci = string
  type Netns = string

  /** The initial namespace, where the plugin runs. */
  const INIT: Netns := "initial"

  datatype VfLink = VfLink(ns: Netns, name: string, mac: Mac, up: bool, index: nat)

  /** The VF links by PCI address, and the network namespaces that exist. */
  datatype World = World(links: map<Pci, VfLink>, live: set<Netns>)

  predicate At(w: World, p: Pci, ns: Netns, name: string) {
    p in w.links && w.links[p].ns == ns && w.links[p].name == name
  }

  /** No two links share a name in a namespace. */
  predicate NamesUnique(w: World) {
    forall p, q :: p in w.links && q in w.links && p != q ==>
      w.links[p].ns != w.links[q].ns || w.links[p].name != w.links[q].name
  }

  /** Another link than `p` has the name. */
  predicate TakenBeside(w: World, p: Pci, ns: Netns, name: string) {
    exists q :: q in w.links && q != p && At(w, q, ns, name)
  }

  predicate Exists(w: World, ns: Netns, name: string) { exists q :: q in w.links && At(w, q, ns, name) }

  /** `LinkByName` in a namespace. */
  ghost function Holder(w: World, ns: Netns, name: string): (p: Pci)
    requires Exists(w, ns, name)
    ensures At(w, p, ns, name)
  {
    var q :| q in w.links && At(w, q, ns, name);
    q
  }

  lemma HolderIs(w: World, p: Pci, ns: Netns, name: string)
    requires NamesUnique(w) && At(w, p, ns, name)
    ensures Exists(w, ns, name) && Holder(w, ns, name) == p
  {}

  /** The netlink calls that may fail. */
  datatype LinkCall = FindLink | SetDown | SetTemp | MoveIn | SetPodName | FindForMac | SetUp | SetHostName | MoveOut

  datatype LinkFaults = LinkFaults(calls: set<LinkCall>, attempts: nat -> Attempt)

  const NO_FAULTS := LinkFaults({}, i => ReadsBack)

  function TempName(index: nat): string { "temp_" + Decimal(index) }

  // ---- Single calls ----

  function WithUp(w: World, p: Pci, up: bool): World
    requires p in w.links
  {
    w.(links := w.links[p := w.links[p].(up := up)])
  }

  /** `LinkSetName`; the kernel takes no empty name. */
  function Rename(w: World, p: Pci, name: string, fails: bool): (World, bool)
    requires p in w.links
  {
    if fails || name == "" || TakenBeside(w, p, w.links[p].ns, name) then (w, false)
    else (w.(links := w.links[p := w.links[p].(name := name)]), true)
  }

  /** `LinkSetNsFd` */
  function Move(w: World, p: Pci, ns: Netns, fails: bool): (World, bool)
    requires p in w.links
  {
    if fails || ns !in w.live || TakenBeside(w, p, ns, w.links[p].name) then (w, false)
    else (w.(links := w.links[p := w.links[p].(ns := ns)]), true)
  }

  /** `SetVFEffectiveMAC` on the link found by name. */
  function SetEffectiveMac(w: World, p: Pci, text: MacText, f: LinkFaults): (World, bool)
    requires p in w.links
  {
    if !text.Address? || FindForMac in f.calls then (w, false)
    else
      var (mac, ok) := Rounds(w.links[p].mac, text.mac, text.canonical, f.attempts, 0);
      (w.(links := w.links[p := w.links[p].(mac := mac)]), ok)
  }

  // ---- The two operations ----

  /** The part of SetupVF inside the pod namespace. */
  function SetupInPod(w: World, p: Pci, podIf: string, mac: MacText, f: LinkFaults): (World, bool)
    requires p in w.links
  {
    var (w, ok) := Rename(w, p, podIf, SetPodName in f.calls);
    if !ok then (w, false)
    else
      var (w, ok) := if mac.NoMac? then (w, true) else SetEffectiveMac(w, p, mac, f);
      if !ok || SetUp in f.calls then (w, false) else (WithUp(w, p, true), true)
  }

  /** SetupVF on link `p`. */
  function SetupLink(w: World, p: Pci, podIf: string, ns: Netns, mac: MacText, f: LinkFaults): (World, bool)
    requires p in w.links
  {
    if SetDown in f.calls then (w, false)
    else
      var (w, ok) := Rename(WithUp(w, p, false), p, TempName(w.links[p].index), SetTemp in f.calls);
      if !ok then (w, false)
      else
        var (w, ok) := Move(w, p, ns, MoveIn in f.calls);
        if !ok then (w, false) else SetupInPod(w, p, podIf, mac, f)
  }

  /** The end of ReleaseVF: the effective address back if it was changed, and out of the pod namespace. */
  function RestoreAndMove(w: World, p: Pci, mac: MacText, orig: MacText, f: LinkFaults): (World, bool)
    requires p in w.links
  {
    var (w, ok) := if mac.NoMac? then (w, true) else SetEffectiveMac(w, p, orig, f);
    if !ok then (w, false) else Move(w, p, INIT, MoveOut in f.calls)
  }

  /** ReleaseVF on link `p`; `orig` is the effective address remembered by SetupVF. */
  function ReleaseLink(w: World, p: Pci, host: string, mac: MacText, orig: MacText, f: LinkFaults): (World, bool)
    requires p in w.links
  {
    if SetDown in f.calls then (w, false)
    else
      var (w, ok) := Rename(WithUp(w, p, false), p, host, SetHostName in f.calls);
      if !ok then (w, false) else RestoreAndMove(w, p, mac, orig, f)
  }

  /** SetupVF: the link that has the host name in the initial namespace, its effective address remembered. */
  ghost function Setup(w: World, host: string, podIf: string, ns: Netns, mac: MacText, f: LinkFaults)
    : (World, MacText, bool)
  {
    if FindLink in f.calls || !Exists(w, INIT, host) then (w, NoMac, false)
    else
      var p := Holder(w, INIT, host);
      var (w', ok) := SetupLink(w, p, podIf, ns, mac, f);
      (w', Printed(w.links[p].mac), ok)
  }

  /** ReleaseVF: the link that has the interface name in the pod namespace. */
  ghost function Release(w: World, host: string, podIf: string, ns: Netns, mac: MacText, orig: MacText, f: LinkFaults)
    : (World, bool)
  {
    if FindLink in f.calls || !Exists(w, ns, podIf) then (w, false)
    else ReleaseLink(w, Holder(w, ns, podIf), host, mac, orig, f)
  }

  // ---- The manager ----

  /** The manager, acting on the links in place. */
  class LinkManager {
    var links: map<Pci, VfLink>
    var live: set<Netns>

    constructor (w: World)
      ensures Now() == w
    {
      links, live := w.links, w.live;
    }

    function Now(): World
      reads this
    {
      World(links, live)
    }

    method LinkByName(ns: Netns, name: string) returns (found: bool, p: Pci)
      requires NamesUnique(Now())
      ensures found <==> Exists(Now(), ns, name)
      ensures found ==> At(Now(), p, ns, name) && p == Holder(Now(), ns, name)
    {
      var rest := links.Keys;
      p := "";
      while rest != {}
        invariant rest <= links.Keys
        invariant forall q :: q in links && At(Now(), q, ns, name) ==> q in rest
      {
        p :| p in rest;
        if links[p].ns == ns && links[p].name == name {
          HolderIs(Now(), p, ns, name);
          return true, p;
        }
        rest := rest - {p};
      }
      return false, p;
    }

    method LinkSetName(p: Pci, name: string, fails: bool) returns (ok: bool)
      requires p in links && NamesUnique(Now())
      modifies `links
      ensures (Now(), ok) == Rename(old(Now()), p, name, fails) && p in links && NamesUnique(Now())
    {
      if fails || name == "" {
        return false;
      }
      var taken := exists q :: q in links && q != p && At(Now(), q, links[p].ns, name);
      if taken {
        return false;
      }
      links := links[p := links[p].(name := name)];
      return true;
    }

    method LinkSetNsFd(p: Pci, ns: Netns, fails: bool) returns (ok: bool)
      requires p in links && NamesUnique(Now())
      modifies `links
      ensures (Now(), ok) == Move(old(Now()), p, ns, fails) && p in links && NamesUnique(Now())
    {
      if fails || ns !in live {
        return false;
      }
      var taken := exists q :: q in links && q != p && At(Now(), q, ns, links[p].name);
      if taken {
        return false;
      }
      links := links[p := links[p].(ns := ns)];
      return true;
    }

    method SetVFEffectiveMAC(p: Pci, text: MacText, f: LinkFaults) returns (ok: bool)
      requires p in links && NamesUnique(Now())
      modifies `links
      ensures (Now(), ok) == SetEffectiveMac(old(Now()), p, text, f) && p in links && NamesUnique(Now())
    {
      if !text.Address? || FindForMac in f.calls {
        return false;
      }
      var retry, mac := 0, links[p].mac;
      while retry < MAC_RETRIES
        invariant retry <= MAC_RETRIES
        invariant Rounds(mac, text.mac, text.canonical, f.attempts, retry)
               == Rounds(links[p].mac, text.mac, text.canonical, f.attempts, 0)
      {
        var attempt := f.attempts(retry);
        if !attempt.SetFails? {
          mac := text.mac;
          if attempt.ReadsBack? && text.canonical {
            links := links[p := links[p].(mac := mac)];
            return true;
          }
        }
        retry := retry + 1;
      }
      links := links[p := links[p].(mac := mac)];
      return false;
    }

    /** The steps of SetupVF inside the pod namespace. */
    method ConfigureInPod(p: Pci, podIf: string, mac: MacText, f: LinkFaults) returns (ok: bool)
      requires p in links && NamesUnique(Now())
      modifies `links
      ensures (Now(), ok) == SetupInPod(old(Now()), p, podIf, mac, f) && NamesUnique(Now())
    {
      ok := LinkSetName(p, podIf, SetPodName in f.calls);
      if !ok {
        return;
      }
      if !mac.NoMac? {
        ok := SetVFEffectiveMAC(p, mac, f);
        if !ok {
          return;
        }
      }
      if SetUp in f.calls {
        return false;
      }
      links := links[p := links[p].(up := true)];
    }

    method SetupVF(host: string, podIf: string, ns: Netns, mac: MacText, f: LinkFaults)
      returns (orig: MacText, ok: bool)
      requires NamesUnique(Now())
      modifies `links
      ensures (Now(), orig, ok) == Setup(old(Now()), host, podIf, ns, mac, f) && NamesUnique(Now())
    {
      orig := NoMac;
      if FindLink in f.calls {
        return orig, false;
      }
      var found, p := LinkByName(INIT, host);
      if !found {
        return orig, false;
      }
      orig := Printed(links[p].mac);
      var tempName := TempName(links[p].index);
      if SetDown in f.calls {
        return orig, false;
      }
      links := links[p := links[p].(up := false)];
      ok := LinkSetName(p, tempName, SetTemp in f.calls);
      if !ok {
        return;
      }
      ok := LinkSetNsFd(p, ns, MoveIn in f.calls);
      if !ok {
        return;
      }
      ok := ConfigureInPod(p, podIf, mac, f);
    }

    method ReleaseVF(host: string, podIf: string, ns: Netns, mac: MacText, orig: MacText, f: LinkFaults)
      returns (ok: bool)
      requires NamesUnique(Now())
      modifies `links
      ensures (Now(), ok) == Release(old(Now()), host, podIf, ns, mac, orig, f) && NamesUnique(Now())
    {
      if FindLink in f.calls {
        return false;
      }
      var found, p := LinkByName(ns, podIf);
      if !found {
        return false;
      }
      if SetDown in f.calls {
        return false;
      }
      links := links[p := links[p].(up := false)];
      ok := LinkSetName(p, host, SetHostName in f.calls);
      if !ok {
        return;
      }
      if !mac.NoMac? {
        ok := SetVFEffectiveMAC(p, orig, f);
        if !ok {
          return;
        }
      }
      ok := LinkSetNsFd(p, INIT, MoveOut in f.calls);
    }
  }

  // ---- Names stay unique ----

  lemma OneLinkChanges(w: World, p: Pci, link: VfLink)
    requires NamesUnique(w) && p in w.links && !TakenBeside(w, p, link.ns, link.name)
    ensures NamesUnique(w.(links := w.links[p := link]))
  {
    var w' := w.(links := w.links[p := link]);
    forall q, r | q in w'.links && r in w'.links && q != r
      ensures w'.links[q].ns != w'.links[r].ns || w'.links[q].name != w'.links[r].name
    {
      if q == p { assert !At(w, r, link.ns, link.name); }
      if r == p { assert !At(w, q, link.ns, link.name); }
    }
  }

  /** What a step of one link does to the world: every other link stays as it is, and names stay unique. */
  ghost predicate OnlyMoves(w: World, p: Pci, w': World) {
    && p in w.links && NamesUnique(w') && w'.live == w.live && w'.links.Keys == w.links.Keys
    && forall q :: q in w.links && q != p ==> w'.links[q] == w.links[q]
  }

  lemma RenameMoves(w: World, p: Pci, name: string, fails: bool)
    requires p in w.links && NamesUnique(w)
    ensures OnlyMoves(w, p, Rename(w, p, name, fails).0)
  {
    if Rename(w, p, name, fails).1 { OneLinkChanges(w, p, w.links[p].(name := name)); }
  }

  lemma MoveMoves(w: World, p: Pci, ns: Netns, fails: bool)
    requires p in w.links && NamesUnique(w)
    ensures OnlyMoves(w, p, Move(w, p, ns, fails).0)
  {
    if Move(w, p, ns, fails).1 { OneLinkChanges(w, p, w.links[p].(ns := ns)); }
  }

  lemma AttrsMove(w: World, p: Pci, link: VfLink)
    requires p in w.links && NamesUnique(w) && link.ns == w.links[p].ns && link.name == w.links[p].name
    ensures OnlyMoves(w, p, w.(links := w.links[p := link]))
  {
    OneLinkChanges(w, p, link);
  }

  /** SetupVF moves no link but its own, wherever it stops, and leaves that one at one of four places. */
  lemma SetupMoves(w: World, p: Pci, podIf: string, ns: Netns, mac: MacText, f: LinkFaults)
    requires p in w.links && NamesUnique(w)
    ensures var (w', ok) := SetupLink(w, p, podIf, ns, mac, f); var temp := TempName(w.links[p].index);
      && OnlyMoves(w, p, w')
      && (At(w', p, w.links[p].ns, w.links[p].name) || At(w', p, w.links[p].ns, temp) || At(w', p, ns, temp)
          || At(w', p, ns, podIf))
      && (ok ==> At(w', p, ns, podIf) && w'.links[p].up && ns in w.live)
  {
    var w1 := WithUp(w, p, false);
    AttrsMove(w, p, w.links[p].(up := false));
    RenameMoves(w1, p, TempName(w.links[p].index), SetTemp in f.calls);
    var (w2, ok2) := Rename(w1, p, TempName(w.links[p].index), SetTemp in f.calls);
    MoveMoves(w2, p, ns, MoveIn in f.calls);
    var (w3, ok3) := Move(w2, p, ns, MoveIn in f.calls);
    if SetDown !in f.calls && ok2 && ok3 { SetupInPodMoves(w3, p, podIf, mac, f); }
  }

  lemma SetupInPodMoves(w: World, p: Pci, podIf: string, mac: MacText, f: LinkFaults)
    requires p in w.links && NamesUnique(w)
    ensures var (w', ok) := SetupInPod(w, p, podIf, mac, f);
      && OnlyMoves(w, p, w') && w'.links[p].ns == w.links[p].ns
      && (w'.links[p].name == w.links[p].name || w'.links[p].name == podIf)
      && (ok ==> w'.links[p].name == podIf && w'.links[p].up)
  {
    RenameMoves(w, p, podIf, SetPodName in f.calls);
    var (w1, ok1) := Rename(w, p, podIf, SetPodName in f.calls);
    var (w2, ok2) := if mac.NoMac? then (w1, true) else SetEffectiveMac(w1, p, mac, f);
    AttrsMove(w1, p, w2.links[p]);
    AttrsMove(w2, p, w2.links[p].(up := true));
  }

  /** ReleaseVF likewise; when it succeeds the link is down, in the initial namespace, under its host name. */
  lemma ReleaseMoves(w: World, p: Pci, host: string, mac: MacText, orig: MacText, f: LinkFaults)
    requires p in w.links && NamesUnique(w)
    ensures var (w', ok) := ReleaseLink(w, p, host, mac, orig, f);
      && OnlyMoves(w, p, w')
      && (At(w', p, w.links[p].ns, w.links[p].name) || At(w', p, w.links[p].ns, host) || At(w', p, INIT, host))
      && (ok ==> At(w', p, INIT, host) && !w'.links[p].up) && (!ok ==> w'.links[p].ns == w.links[p].ns)
  {
    var w1 := WithUp(w, p, false);
    AttrsMove(w, p, w.links[p].(up := false));
    RenameMoves(w1, p, host, SetHostName in f.calls);
    var (w2, ok2) := Rename(w1, p, host, SetHostName in f.calls);
    if SetDown !in f.calls && ok2 { RestoreMoves(w2, p, mac, orig, f); }
  }

  lemma RestoreMoves(w: World, p: Pci, mac: MacText, orig: MacText, f: LinkFaults)
    requires p in w.links && NamesUnique(w)
    ensures var (w', ok) := RestoreAndMove(w, p, mac, orig, f);
      && OnlyMoves(w, p, w') && w'.links[p].name == w.links[p].name && w'.links[p].up == w.links[p].up
      && w'.links[p].ns == if ok then INIT else w.links[p].ns
  {
    var (w1, ok1) := if mac.NoMac? then (w, true) else SetEffectiveMac(w, p, orig, f);
    AttrsMove(w, p, w1.links[p]);
    MoveMoves(w1, p, INIT, MoveOut in f.calls);
  }

  // ---- Undo ----

  lemma {:induction false} ConfirmedMac(w: World, p: Pci, text: MacText, f: LinkFaults)
    requires p in w.links && SetEffectiveMac(w, p, text, f).1
    ensures text.Address? && SetEffectiveMac(w, p, text, f).0 == w.(links := w.links[p := w.links[p].(mac := text.mac)])
  {
    ConfirmedRounds(w.links[p].mac, text.mac, text.canonical, f.attempts, 0);
  }

  /** What a successful SetupVF leaves. */
  lemma SetupEffect(w: World, p: Pci, podIf: string, ns: Netns, mac: MacText, f: LinkFaults)
    requires p in w.links && SetupLink(w, p, podIf, ns, mac, f).1
    ensures SetupLink(w, p, podIf, ns, mac, f).0.links
         == w.links[p := VfLink(ns, podIf, if mac.Address? then mac.mac else w.links[p].mac, true, w.links[p].index)]
  {
    var temp := TempName(w.links[p].index);
    var w1 := Rename(WithUp(w, p, false), p, temp, false).0;
    var w2 := Move(w1, p, ns, false).0;
    var w3 := Rename(w2, p, podIf, false).0;
    if !mac.NoMac? { ConfirmedMac(w3, p, mac, f); }
  }

  /** What a successful ReleaseVF leaves. */
  lemma ReleaseEffect(w: World, p: Pci, host: string, mac: MacText, orig: MacText, f: LinkFaults)
    requires p in w.links && ReleaseLink(w, p, host, mac, orig, f).1
    ensures ReleaseLink(w, p, host, mac, orig, f).0.links
         == var m := if mac.NoMac? then w.links[p].mac else if orig.Address? then orig.mac else [];
            w.links[p := VfLink(INIT, host, m, false, w.links[p].index)]
  {
    var w1 := Rename(WithUp(w, p, false), p, host, false).0;
    if !mac.NoMac? { ConfirmedMac(w1, p, orig, f); }
  }

  lemma ReleaseUndoesLink(w: World, p: Pci, host: string, podIf: string, ns: Netns, mac: MacText,
                          f: LinkFaults, g: LinkFaults, w1: World, w2: World)
    requires NamesUnique(w) && At(w, p, INIT, host) && SetupLink(w, p, podIf, ns, mac, f) == (w1, true)
    requires p in w1.links && ReleaseLink(w1, p, host, mac, Printed(w.links[p].mac), g) == (w2, true)
    ensures w2 == w.(links := w.links[p := w.links[p].(up := false)])
  {
    SetupMoves(w, p, podIf, ns, mac, f);
    SetupEffect(w, p, podIf, ns, mac, f);
    ReleaseMoves(w1, p, host, mac, Printed(w.links[p].mac), g);
    ReleaseEffect(w1, p, host, mac, Printed(w.links[p].mac), g);
  }

  /** A successful SetupVF and then a successful ReleaseVF bring the link back to the initial namespace under its host
      name with its original effective address, down, and leave every other link alone; with or without a configured
      address. */
  lemma ReleaseUndoesSetup(w: World, p: Pci, host: string, podIf: string, ns: Netns, mac: MacText,
                           f: LinkFaults, g: LinkFaults)
    requires NamesUnique(w) && At(w, p, INIT, host)
    ensures var (w1, orig, ok1) := Setup(w, host, podIf, ns, mac, f);
      var (w2, ok2) := Release(w1, host, podIf, ns, mac, orig, g);
      ok1 && ok2 ==> w2 == w.(links := w.links[p := w.links[p].(up := false)])
  {
    HolderIs(w, p, INIT, host);
    var (w1, orig, ok1) := Setup(w, host, podIf, ns, mac, f);
    if ok1 {
      SetupMoves(w, p, podIf, ns, mac, f);
      HolderIs(w1, p, ns, podIf);
      var (w2, ok2) := Release(w1, host, podIf, ns, mac, orig, g);
      if ok2 { ReleaseUndoesLink(w, p, host, podIf, ns, mac, f, g, w1, w2); }
    }
  }

  lemma TakenSame(w: World, w': World, p: Pci, ns: Netns, name: string)
    requires w'.links.Keys == w.links.Keys && forall q :: q in w.links && q != p ==> w'.links[q] == w.links[q]
    ensures TakenBeside(w', p, ns, name) <==> TakenBeside(w, p, ns, name)
  {
    assert forall q :: q in w.links && q != p ==> (At(w', q, ns, name) <==> At(w, q, ns, name));
  }

  lemma ReleaseLinkSucceeds(w: World, p: Pci, host: string, mac: MacText, orig: MacText)
    requires p in w.links && INIT in w.live
    ensures ReleaseLink(w, p, host, mac, orig, NO_FAULTS).1
       <==> host != "" && !TakenBeside(w, p, w.links[p].ns, host) && !TakenBeside(w, p, INIT, host)
            && (mac.NoMac? || (orig.Address? && orig.canonical))
  {
    var w1 := WithUp(w, p, false);
    TakenSame(w, w1, p, w.links[p].ns, host);
    var (w2, ok2) := Rename(w1, p, host, false);
    if ok2 {
      SettableMac(w2, p, orig);
      var (w3, _) := if mac.NoMac? then (w2, true) else SetEffectiveMac(w2, p, orig, NO_FAULTS);
      TakenSame(w, w3, p, INIT, host);
    }
  }

  lemma SettableMac(w: World, p: Pci, text: MacText)
    requires p in w.links
    ensures SetEffectiveMac(w, p, text, NO_FAULTS).1 <==> text.Address? && text.canonical
  {
    if text.Address? { NeverConfirmed(w.links[p].mac, text.mac, NO_FAULTS.attempts, 0); }
  }

  /** That release succeeds, with no call failing, exactly when no other link of the pod namespace has the host name
      and, if an address was configured, the original one can be set again. */
  lemma ReleaseSucceeds(w: World, p: Pci, host: string, podIf: string, ns: Netns, mac: MacText, f: LinkFaults)
    requires NamesUnique(w) && At(w, p, INIT, host) && host != "" && INIT in w.live
    requires Setup(w, host, podIf, ns, mac, f).2
    ensures var (w1, orig, _) := Setup(w, host, podIf, ns, mac, f);
      Release(w1, host, podIf, ns, mac, orig, NO_FAULTS).1
      <==> !TakenBeside(w, p, ns, host) && (mac.NoMac? || |w.links[p].mac| in {6, 8, 20})
  {
    HolderIs(w, p, INIT, host);
    var (w1, orig, _) := Setup(w, host, podIf, ns, mac, f);
    SetupMoves(w, p, podIf, ns, mac, f);
    HolderIs(w1, p, ns, podIf);
    TakenSame(w, w1, p, ns, host);
    TakenSame(w, w1, p, INIT, host);
    ReleaseLinkSucceeds(w1, p, host, mac, orig);
  }

  // ---- The cleanup of a failed add ----

  /** The deferred cleanup of a failed add releases whatever link has the interface name in the pod namespace.  If no
      other link had that name, no other link is touched. */
  lemma CleanupSparesOthers(w: World, p: Pci, host: string, podIf: string, ns: Netns, mac: MacText,
                            f: LinkFaults, g: LinkFaults)
    requires NamesUnique(w) && At(w, p, INIT, host) && !TakenBeside(w, p, ns, podIf)
    ensures var (w1, orig, _) := Setup(w, host, podIf, ns, mac, f);
      var w2 := Release(w1, host, podIf, ns, mac, orig, g).0;
      forall q :: q in w.links && q != p ==> q in w2.links && w2.links[q] == w.links[q]
  {
    HolderIs(w, p, INIT, host);
    SetupMoves(w, p, podIf, ns, mac, f);
    var (w1, orig, _) := Setup(w, host, podIf, ns, mac, f);
    TakenSame(w, w1, p, ns, podIf);
    if Exists(w1, ns, podIf) {
      assert Holder(w1, ns, podIf) == p;
      ReleaseMoves(w1, p, host, mac, orig, g);
    }
  }

  /** If another link had it, the add fails, and the cleanup takes that link down, although the add never touched it. */
  lemma CleanupTakesAnother(w: World, p: Pci, q: Pci, host: string, podIf: string, ns: Netns, mac: MacText,
                            f: LinkFaults)
    requires NamesUnique(w) && At(w, p, INIT, host) && At(w, q, ns, podIf) && q != p && ns != INIT
    ensures var (w1, orig, ok) := Setup(w, host, podIf, ns, mac, f);
      var w2 := Release(w1, host, podIf, ns, mac, orig, NO_FAULTS).0;
      !ok && q in w1.links && w1.links[q] == w.links[q] && q in w2.links && !w2.links[q].up
  {
    HolderIs(w, p, INIT, host);
    SetupMoves(w, p, podIf, ns, mac, f);
    var (w1, orig, ok) := Setup(w, host, podIf, ns, mac, f);
    HolderIs(w1, q, ns, podIf);
    ReleaseDowns(w1, q, host, mac, orig);
  }

  lemma ReleaseDowns(w: World, p: Pci, host: string, mac: MacText, orig: MacText)
    requires p in w.links
    ensures var w' := ReleaseLink(w, p, host, mac, orig, NO_FAULTS).0; p in w'.links && !w'.links[p].up
  {}
}
