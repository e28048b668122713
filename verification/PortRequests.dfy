/** The bridge-port requests of the CNI plugin, sriov_cni/cmd/sriov/main.go: the port is named after the PF and the VF's
    index, its VLAN is the index plus two, and its VSI is in the VF's address. */
module PortRequests {
  import opened Basics
  import opened Text
  import opened FxpRules
  import opened BridgePorts
  import opened PortRuns

  /** A VF as the plugin asks for it: its PF, its index and its effective address, which ParseMAC has read. */
  datatype Vf = Vf(master: string, id: nat, mac: Mac) {
    predicate Valid() { |mac| in {6, 8, 20} }
  }

  function PortName(v: Vf): string { v.master + Decimal(v.id) }

  function Request(v: Vf): Port { Port(PortName(v), v.mac, [Decimal(v.id + 2)], false) }

  // ---- Names ----

  lemma SplitName(v: Vf, w: Vf, d: string)
    requires |v.master| < |w.master| && d == w.master[|v.master|..]
    ensures PortName(v) == PortName(w) <==> w.master == v.master + d && Decimal(v.id) == d + Decimal(w.id)
  {
    var n, s := |v.master|, PortName(w);
    assert w.master == w.master[..n] + d && s[..n] == w.master[..n] && s[n..] == d + Decimal(w.id);
    assert PortName(v)[..n] == v.master && PortName(v)[n..] == Decimal(v.id);
    assert s == s[..n] + s[n..];
  }

  /** When two VFs are given the same port name: exactly when they are the same VF of the same PF, or the longer PF
      name is the shorter one and digits that the shorter one's VF index begins with. */
  lemma PortNamesCollide(v: Vf, w: Vf)
    requires |v.master| <= |w.master|
    ensures PortName(v) == PortName(w) <==>
      (v.master == w.master && v.id == w.id)
      || (|v.master| < |w.master| && var d := w.master[|v.master|..];
            w.master == v.master + d && Decimal(v.id) == d + Decimal(w.id))
  {
    if |v.master| == |w.master| {
      if PortName(v) == PortName(w) {
        assert v.master == PortName(v)[..|v.master|] && w.master == PortName(w)[..|w.master|];
        assert Decimal(v.id) == PortName(v)[|v.master|..] && Decimal(w.id) == PortName(w)[|w.master|..];
        DecimalInjective(v.id, w.id);
      }
    } else {
      SplitName(v, w, w.master[|v.master|..]);
    }
  }

  /** So never for PF names that do not end in a digit. */
  lemma LettersKeepApart(v: Vf, w: Vf)
    requires v.master != "" && !IsDigit(v.master[|v.master| - 1])
    requires w.master != "" && !IsDigit(w.master[|w.master| - 1])
    requires PortName(v) == PortName(w)
    ensures v.master == w.master && v.id == w.id
  {
    if v.master != w.master || v.id != w.id {
      if |v.master| <= |w.master| { LongerEndsInDigit(v, w); } else { LongerEndsInDigit(w, v); }
    }
  }

  lemma LongerEndsInDigit(v: Vf, w: Vf)
    requires |v.master| <= |w.master| && PortName(v) == PortName(w) && (v.master != w.master || v.id != w.id)
    ensures w.master != "" && IsDigit(w.master[|w.master| - 1])
  {
    PortNamesCollide(v, w);
    var d := w.master[|v.master|..];
    DecimalDigits(v.id);
    assert w.master[|w.master| - 1] == d[|d| - 1] == Decimal(v.id)[|d| - 1];
  }

  lemma EnsPortsCollide(a: Mac, b: Mac)
    ensures PortName(Vf("ens1", 11, a)) == PortName(Vf("ens11", 1, b)) == "ens111"
  {
    assert Decimal(11) == Decimal(1) + ['1'] && Decimal(1) == "" + ['1'];
  }

  /** The second of two such VFs gets no port of its own: its create is answered with the first one's. */
  lemma CollisionIsAnsweredWithOther(c: Config, s: State, v: Vf, w: Vf, f: set<Call>, g: set<Call>)
    requires StoredAccepted(s) && Accepted(Request(v)) && Accepted(Request(w)) && PortName(v) == PortName(w)
    requires PortName(v) !in s.ports && Create(c, s, Request(v), f).1.Reply?
    ensures var s' := Create(c, s, Request(v), f).0;
      Create(c, s', Request(w), g) == (s', Reply(Request(v).(up := true)))
  {}

  // ---- Requests ----

  /** A request is accepted exactly for a six-byte address whose second byte is not zero and an index up to 4092. */
  lemma RequestAccepted(v: Vf)
    requires v.Valid()
    ensures Accepted(Request(v)) <==> |v.mac| == 6 && v.mac[1] != 0 && v.id <= 4092
    ensures Accepted(Request(v)) ==> VlanOf(Request(v)) == v.id + 2
  {
    hide Atoi, Decimal;
    AtoiOfDecimal(v.id + 2);
    assert |v.mac| == 6 ==> (VsiOf(v.mac) < 1 <==> v.mac[1] == 0);
  }

  /** Two requests stay out of each other's entries exactly when the VFs differ in index and in VSI. */
  lemma RequestsApart(c: Config, v: Vf, w: Vf)
    requires v.Valid() && w.Valid() && Accepted(Request(v)) && Accepted(Request(w))
    ensures Apart(c, Request(v), Request(w)) <==> v.id != w.id && v.mac[1] != w.mac[1]
  {
    RequestAccepted(v);
    RequestAccepted(w);
    MacIntOnMacs(v.mac, w.mac);
  }

  lemma EnsIntf()
    ensures IntfName("ens111", 13) == "ens111_vlan13"
  {
    assert Decimal(13) == Decimal(1) + ['3'];
  }

  /** VF 11 of ens1 and VF 1 of ens11 are both accepted, under one name, with different VLANs. */
  lemma EnsPortsAccepted(a: Mac, b: Mac)
    requires |a| == 6 && |b| == 6 && a[1] != 0 && b[1] != 0
    ensures var v, w := Request(Vf("ens1", 11, a)), Request(Vf("ens11", 1, b));
      && Accepted(v) && Accepted(w) && VlanOf(v) == 13 && VlanOf(w) == 3 && v.name == w.name == "ens111"
      && Intf(v) == "ens111_vlan13"
  {
    hide Accepted, VlanOf, PortName, IntfName;
    RequestAccepted(Vf("ens1", 11, a));
    RequestAccepted(Vf("ens11", 1, b));
    EnsPortsCollide(a, b);
    EnsIntf();
  }

  /** So the second is answered with the first one's port, and when the second is deleted the first loses its port and
      its entries. */
  lemma EnsPortsShareOne(c: Config, links: Links, a: Mac, b: Mac, f: set<Call>)
    requires |a| == 6 && |b| == 6 && a[1] != 0 && b[1] != 0
    requires "ens111_vlan13" in links ==> links["ens111_vlan13"].VlanLink?
    ensures var v, w := Request(Vf("ens1", 11, a)), Request(Vf("ens11", 1, b));
      var (s, r) := Create(c, Started(links), v, {});
      && r == Reply(v.(up := true)) && Create(c, s, w, f) == (s, r)
      && var t := Delete(c, s, w.name, {}).0; t.ports == map[] && t.tables == map[]
  {
    EnsPortsAccepted(a, b);
    SharedPort(c, links, Vf("ens1", 11, a), Vf("ens11", 1, b), f);
  }

  lemma SharedPort(c: Config, links: Links, v: Vf, w: Vf, f: set<Call>)
    requires Accepted(Request(v)) && Accepted(Request(w)) && PortName(v) == PortName(w)
    requires Intf(Request(v)) in links ==> links[Intf(Request(v))].VlanLink?
    ensures var (s, r) := Create(c, Started(links), Request(v), {});
      && r == Reply(Request(v).(up := true)) && Create(c, s, Request(w), f) == (s, r)
      && var t := Delete(c, s, PortName(w), {}).0; t.ports == map[] && t.tables == map[]
  {
    hide Create, Delete, RulesOf;
    var p := Request(v);
    CreatedAndDeleted(c, Started(links), p);
    CollisionIsAnsweredWithOther(c, Started(links), v, w, {}, f);
    assert (RulesOf(c, p) + map[]) - RulesOf(c, p).Keys == map[];
  }

  // ---- Runs ----

  /** Every create of the run is the plugin's request for one of the VFs. */
  predicate RunOver(vfs: set<Vf>, ops: seq<Op>) {
    forall i :: 0 <= i < |ops| && ops[i].CreateOp? ==> exists v :: v in vfs && ops[i].in_ == Request(v)
  }

  /** Any two VFs whose requests are accepted under different names differ in index and in VSI. */
  predicate Settled(vfs: set<Vf>)
    requires forall v :: v in vfs ==> v.Valid()
  {
    forall v, w ::
      v in vfs && w in vfs && PortName(v) != PortName(w) && Accepted(Request(v)) && Accepted(Request(w)) ==>
        v.id != w.id && VsiOf(v.mac) != VsiOf(w.mac)
  }

  predicate StoredFrom(vfs: set<Vf>, s: State) {
    forall n :: n in s.ports ==> exists v :: v in vfs && s.ports[n] == Request(v).(up := true)
  }

  lemma SettledIsFair(c: Config, vfs: set<Vf>, s: State, v: Vf)
    requires (forall u :: u in vfs ==> u.Valid()) && Settled(vfs) && StoredAccepted(s) && StoredFrom(vfs, s) && v in vfs
    ensures Fair(c, s, Request(v))
  {
    RequestAccepted(v);
    if Accepted(Request(v)) {
      forall n | n in s.ports && n != PortName(v) ensures Apart(c, Request(v), s.ports[n]) {
        var w :| w in vfs && s.ports[n] == Request(w).(up := true);
        assert Accepted(Request(w)) && PortName(w) == n;
        RequestsApart(c, v, w);
        assert VlanOf(s.ports[n]) == VlanOf(Request(w));
      }
    }
  }

  lemma CreateStoresFrom(c: Config, vfs: set<Vf>, s: State, v: Vf, faults: set<Call>, s': State)
    requires StoredAccepted(s) && StoredFrom(vfs, s) && v in vfs && v.Valid()
    requires s' == Create(c, s, Request(v), faults).0
    ensures StoredFrom(vfs, s')
  {
    hide Attach, Check, RulesOf, StoredAccepted, Decimal;
    assert s'.ports == s.ports || s'.ports == s.ports[PortName(v) := Request(v).(up := true)];
  }

  lemma DeleteStoresFrom(c: Config, vfs: set<Vf>, s: State, name: string, faults: set<Call>, s': State)
    requires StoredAccepted(s) && StoredFrom(vfs, s) && s' == Delete(c, s, name, faults).0
    ensures StoredFrom(vfs, s')
  {
    assert s'.ports == s.ports || s'.ports == s.ports - {name};
  }

  lemma {:induction false} SettledRunsAreFair(c: Config, vfs: set<Vf>, s: State, ops: seq<Op>)
    requires (forall v :: v in vfs ==> v.Valid()) && Settled(vfs) && RunOver(vfs, ops)
    requires StoredAccepted(s) && StoredFrom(vfs, s)
    ensures FairRun(c, s, ops)
    decreases |ops|
  {
    if ops != [] {
      var s1 := Step(c, s, ops[0]);
      match ops[0] {
        case CreateOp(in_, faults) =>
          assert ops[0].in_ == in_;
          var v :| v in vfs && in_ == Request(v);
          SettledIsFair(c, vfs, s, v);
          CreateStoresFrom(c, vfs, s, v, faults, s1);
        case DeleteOp(name, faults) => DeleteStoresFrom(c, vfs, s, name, faults, s1);
      }
      assert RunOver(vfs, ops[1..]);
      SettledRunsAreFair(c, vfs, s1, ops[1..]);
    }
  }

  /** Two VFs that are not apart, added one after the other. */
  lemma UnsettledIsUnfair(c: Config, links: Links, v: Vf, w: Vf)
    requires v.Valid() && w.Valid() && PortName(v) != PortName(w) && Accepted(Request(v)) && Accepted(Request(w))
    requires !(v.id != w.id && VsiOf(v.mac) != VsiOf(w.mac))
    requires Intf(Request(v)) in links ==> links[Intf(Request(v))].VlanLink?
    ensures !FairRun(c, Started(links), [CreateOp(Request(v), {}), CreateOp(Request(w), {})])
  {
    var ops := [CreateOp(Request(v), {}), CreateOp(Request(w), {})];
    var s1 := Step(c, Started(links), ops[0]);
    FirstStored(c, links, Request(v));
    RequestsApart(c, w, v);
    assert !Apart(c, Request(w), s1.ports[PortName(v)]);
    assert ops[1..][0] == ops[1] && !FairRun(c, s1, ops[1..]);
  }

  lemma FirstStored(c: Config, links: Links, in_: Port)
    requires Accepted(in_) && (Intf(in_) in links ==> links[Intf(in_)].VlanLink?)
    ensures var s := Create(c, Started(links), in_, {}).0;
      in_.name in s.ports && s.ports[in_.name] == in_.(up := true) && VlanOf(s.ports[in_.name]) == VlanOf(in_)
  {
    UpIsSame(in_);
  }

  lemma OverBoth(vfs: set<Vf>, v: Vf, w: Vf)
    requires v in vfs && w in vfs
    ensures RunOver(vfs, [CreateOp(Request(v), {}), CreateOp(Request(w), {})])
  {}

  lemma UnsettledHasUnfair(c: Config, links: Links, vfs: set<Vf>) returns (ops: seq<Op>)
    requires (forall v :: v in vfs ==> v.Valid()) && !Settled(vfs)
    requires NoForeign(links, vfs)
    ensures RunOver(vfs, ops) && !FairRun(c, Started(links), ops)
  {
    var v, w :| v in vfs && w in vfs && PortName(v) != PortName(w) && Accepted(Request(v)) && Accepted(Request(w))
      && !(v.id != w.id && VsiOf(v.mac) != VsiOf(w.mac));
    hide FairRun, Accepted, RunOver;
    ops := [CreateOp(Request(v), {}), CreateOp(Request(w), {})];
    UnsettledIsUnfair(c, links, v, w);
    OverBoth(vfs, v, w);
  }

  /** No link of another kind has the name of an interface that a request would make. */
  predicate NoForeign(links: Links, vfs: set<Vf>)
    requires forall v :: v in vfs ==> v.Valid()
  {
    forall v :: v in vfs && Accepted(Request(v)) && Intf(Request(v)) in links ==> links[Intf(Request(v))].VlanLink?
  }

  /** The runs of the plugin meet what BridgePorts.RunsKeepInv asks for, all of them, exactly when the VFs are
      settled.  On a host with two PFs that asks for their VFs in use to differ in index. */
  lemma RunsAreFairExactly(c: Config, links: Links, vfs: set<Vf>)
    requires forall v :: v in vfs ==> v.Valid()
    requires NoForeign(links, vfs)
    ensures Settled(vfs) <==> forall ops :: RunOver(vfs, ops) ==> FairRun(c, Started(links), ops)
  {
    if Settled(vfs) {
      forall ops | RunOver(vfs, ops) ensures FairRun(c, Started(links), ops) {
        SettledRunsAreFair(c, vfs, Started(links), ops);
      }
    } else {
      var _ := UnsettledHasUnfair(c, links, vfs);
    }
  }
}
