/** The bridge-port server of ipu-plugin/pkg/ipuplugin: a keyed store of ports that has to agree with VLAN interfaces,
    bridge membership and FXP rules, while any netlink call may fail. */
module BridgePorts {
  import opened Basics
  import opened FxpRules
  import opened Text

  // ---- Numbers in text ----

  const MAX_INT64 := 0x7FFF_FFFF_FFFF_FFFF

  /** `strconv.Atoi` */
  function Atoi(s: string): Option<int> {
    var signed := s != "" && (s[0] == '-' || s[0] == '+');
    var digits := if signed then s[1..] else s;
    if digits == "" || !AllDigits(digits) then None
    else
      var n: int := ParseDec(digits);
      if signed && s[0] == '-' then (if n > MAX_INT64 + 1 then None else Some(-n))
      else if n > MAX_INT64 then None
      else Some(n)
  }

  /** `fmt.Sprintf("%s_vlan%d", name, vlan)` */
  function IntfName(name: string, vlan: nat): string { name + "_vlan" + Decimal(vlan) }

  /** A printed number reads back, when it fits 64 bits. */
  lemma AtoiOfDecimal(n: nat)
    ensures Atoi(Decimal(n)) == if n <= MAX_INT64 then Some(n) else None
  {
    DecimalDigits(n);
    ParseDecimal(n);
  }

  lemma IntfNameTail(name: string, vlan: nat)
    ensures var s, d := IntfName(name, vlan), |Decimal(vlan)|;
      && |s| == |name| + 5 + d && s[..|name|] == name && s[|name| + 5..] == Decimal(vlan) && s[|name| + 4] == 'n'
  {
    var p, d := name + "_vlan", Decimal(vlan);
    var s := IntfName(name, vlan);
    assert s == p + d && p[|name| + 4] == "_vlan"[4];
    assert s[..|name|] == p[..|name|] == name;
  }

  lemma IntfNameDigits(name: string, vlan: nat)
    ensures var s := IntfName(name, vlan); forall k :: |name| + 5 <= k < |s| ==> IsDigit(s[k])
  {
    DecimalDigits(vlan);
    var s, d := IntfName(name, vlan), Decimal(vlan);
    forall k | |name| + 5 <= k < |s| ensures IsDigit(s[k]) {
      assert s[k] == d[k - |name| - 5];
    }
  }

  lemma NoLetterInTail(s: string, i: nat, j: nat)
    requires 0 < i <= |s| && 0 < j <= |s| && s[j - 1] == 'n' && forall k :: i <= k < |s| ==> IsDigit(s[k])
    ensures j <= i
  {}

  /** Interface names never coincide for two different ports or VLANs, whatever the port names are. */
  lemma IntfNameInjective(a: string, v: nat, b: string, w: nat)
    requires IntfName(a, v) == IntfName(b, w)
    ensures a == b && v == w
  {
    IntfNameTail(a, v);
    IntfNameTail(b, w);
    IntfNameDigits(a, v);
    IntfNameDigits(b, w);
    var s := IntfName(a, v);
    NoLetterInTail(s, |a| + 5, |b| + 5);
    NoLetterInTail(s, |b| + 5, |a| + 5);
    DecimalInjective(v, w);
  }

  // ---- The host's links ----

  /** A VLAN interface, or a link of another kind that happens to have the name. */
  datatype Link = VlanLink(vlanId: nat, enslaved: bool, up: bool) | OtherLink

  type Links = map<string, Link>

  /** The netlink calls of the two handlers, each of which may fail. */
  datatype Call =
    | FindUplink | FindVlan | AddVlan | FindPort | FindBridge | SetMaster | SetUp
    | FindForDelete | SetNoMaster | SetDown | FindForRemove | DelVlan

  datatype Error = InvalidMac | NoVlanId | InvalidVlan | InvalidVsi | CallFailed(c: Call) | NotVlanDevice

  datatype Outcome = Success | Failure(error: Error)

  // ---- What each step does to the links, given the calls that fail ----

  function EnsureVlan(links: Links, name: string, vlan: nat, faults: set<Call>): (Links, Outcome) {
    if FindUplink in faults then (links, Failure(CallFailed(FindUplink)))
    else if FindVlan !in faults && name in links then
      if links[name].VlanLink? then (links, Success) else (links, Failure(NotVlanDevice))
    else if AddVlan in faults || name in links then (links, Failure(CallFailed(AddVlan)))
    else (links[name := VlanLink(vlan, false, false)], Success)
  }

  function AddPort(links: Links, name: string, faults: set<Call>): (Links, Outcome) {
    if FindPort in faults || name !in links then (links, Failure(CallFailed(FindPort)))
    else if !links[name].VlanLink? then (links, Failure(NotVlanDevice))
    else if FindBridge in faults then (links, Failure(CallFailed(FindBridge)))
    else if SetMaster in faults then (links, Failure(CallFailed(SetMaster)))
    else
      var links := links[name := links[name].(enslaved := true)];
      if SetUp in faults then (links, Failure(CallFailed(SetUp)))
      else (links[name := links[name].(up := true)], Success)
  }

  function DeletePort(links: Links, name: string, faults: set<Call>): (Links, Outcome) {
    if FindForDelete in faults || name !in links then (links, Failure(CallFailed(FindForDelete)))
    else if !links[name].VlanLink? then (links, Failure(NotVlanDevice))
    else if SetNoMaster in faults then (links, Failure(CallFailed(SetNoMaster)))
    else
      var links := links[name := links[name].(enslaved := false)];
      if SetDown in faults then (links, Failure(CallFailed(SetDown)))
      else (links[name := links[name].(up := false)], Success)
  }

  /** A lookup that fails is taken to mean that the interface is gone. */
  function RemoveVlan(links: Links, name: string, faults: set<Call>): (Links, Outcome) {
    if FindForRemove in faults || name !in links then (links, Success)
    else if DelVlan in faults then (links, Failure(CallFailed(DelVlan)))
    else (links - {name}, Success)
  }

  /** The link part of a create: the interface is there, then it is a port of the bridge. */
  function Attach(links: Links, name: string, vlan: nat, faults: set<Call>): (Links, Outcome) {
    var (links1, out) := EnsureVlan(links, name, vlan, faults);
    if out.Failure? then (links1, out) else AddPort(links1, name, faults)
  }

  /** The link part of a delete. */
  function Detach(links: Links, name: string, faults: set<Call>): (Links, Outcome) {
    var (links1, out) := DeletePort(links, name, faults);
    if out.Failure? then (links1, out) else RemoveVlan(links1, name, faults)
  }

  // ---- The handlers ----

  /** A bridge port as requested and as stored. */
  datatype Port = Port(name: string, mac: Mac, bridges: seq<string>, up: bool)

  datatype State = State(ports: map<string, Port>, links: Links, tables: Tables)

  datatype Reply = Reply(port: Port) | Rejected(error: Error)

  /** `getFirstVlanID` */
  function FirstVlanId(bridges: seq<string>): int
    requires bridges != []
  {
    var r := Atoi(bridges[0]);
    if r.Some? then r.value else 0
  }

  predicate ValidVlan(vlan: int) { 2 <= vlan <= 4094 }

  /** The checks that a request passes before anything is touched. */
  function Check(in_: Port): Outcome
    requires |in_.mac| != 1
  {
    if !ValidSize(in_.mac) then Failure(InvalidMac)
    else if in_.bridges == [] then Failure(NoVlanId)
    else if !ValidVlan(FirstVlanId(in_.bridges)) then Failure(InvalidVlan)
    else if VsiOf(in_.mac) < 1 then Failure(InvalidVsi)
    else Success
  }

  predicate Accepted(in_: Port) { |in_.mac| != 1 && Check(in_).Success? }

  function VlanOf(in_: Port): nat
    requires Accepted(in_)
  {
    FirstVlanId(in_.bridges)
  }

  function Intf(in_: Port): string
    requires Accepted(in_)
  {
    IntfName(in_.name, VlanOf(in_))
  }

  function RulesOf(c: Config, in_: Port): Tables
    requires Accepted(in_)
  {
    RuleMap(c, in_.mac, VlanOf(in_))
  }

  /** Stored ports have passed the checks. */
  predicate StoredAccepted(s: State) {
    forall n :: n in s.ports ==> s.ports[n].name == n && Accepted(s.ports[n])
  }

  type Stored = s: State | StoredAccepted(s) witness State(map[], map[], map[])

  /** What a create leaves, when adding its rules leaves `tables`. */
  function CreateLeaving(s: State, in_: Port, faults: set<Call>, tables: Tables): (r: (State, Reply))
    requires |in_.mac| != 1
    ensures StoredAccepted(s) ==> StoredAccepted(r.0)
  {
    var checked := Check(in_);
    if checked.Failure? then (s, Rejected(checked.error))
    else if in_.name in s.ports then (s, Reply(s.ports[in_.name]))
    else
      var (links, out) := Attach(s.links, Intf(in_), VlanOf(in_), faults);
      if out.Failure? then (s.(links := links), Rejected(out.error))
      else
        var port := in_.(up := true);
        (State(s.ports[in_.name := port], links, tables), Reply(port))
  }

  /** What a delete leaves, when deleting the port's rules leaves `tables`. */
  function DeleteLeaving(s: State, name: string, faults: set<Call>, tables: Tables): (r: (State, Outcome))
    requires StoredAccepted(s)
    ensures StoredAccepted(r.0)
  {
    if name !in s.ports then (s, Success)
    else
      var (links, out) := Detach(s.links, Intf(s.ports[name]), faults);
      if out.Failure? then (s.(links := links), out) else (State(s.ports - {name}, links, tables), Success)
  }

  /** The handlers when every call of `p4rt-ctl` succeeds. */
  function Create(c: Config, s: State, in_: Port, faults: set<Call>): (r: (State, Reply))
    requires |in_.mac| != 1
    ensures StoredAccepted(s) ==> StoredAccepted(r.0)
  {
    CreateLeaving(s, in_, faults, if Accepted(in_) then RulesOf(c, in_) + s.tables else s.tables)
  }

  function Delete(c: Config, s: State, name: string, faults: set<Call>): (r: (State, Outcome))
    requires StoredAccepted(s)
    ensures StoredAccepted(r.0)
  {
    DeleteLeaving(s, name, faults, if name in s.ports then s.tables - RulesOf(c, s.ports[name]).Keys else s.tables)
  }

  /** The handlers when the calls of `p4rt-ctl` in `p4` fail, by their place in the loop; the handlers do not learn of
      it. */
  function CreateWith(c: Config, s: State, in_: Port, faults: set<Call>, p4: Failing): (r: (State, Reply))
    requires |in_.mac| != 1
    ensures StoredAccepted(s) ==> StoredAccepted(r.0)
  {
    CreateLeaving(s, in_, faults,
                  if Accepted(in_) then AddSome(s.tables, AddRuleSets(c, in_.mac, VlanOf(in_)), p4) else s.tables)
  }

  function DeleteWith(c: Config, s: State, name: string, faults: set<Call>, p4: Failing): (r: (State, Outcome))
    requires StoredAccepted(s)
    ensures StoredAccepted(r.0)
  {
    DeleteLeaving(s, name, faults,
                  if name !in s.ports then s.tables
                  else DelSome(s.tables, DelRuleSets(c, s.ports[name].mac, VlanOf(s.ports[name])), p4))
  }

  // ---- The server ----

  class Server {
    const client: P4RtClient
    var ports: map<string, Port>
    var links: Links

    constructor (c: Config, hostLinks: Links)
      ensures fresh(client) && client.config == c && Now() == State(map[], hostLinks, map[])
    {
      client := new P4RtClient(c);
      ports, links := map[], hostLinks;
    }

    ghost function Now(): State
      reads this, client
    {
      State(ports, links, client.tables)
    }

    /** `createVlanInterface`, with the uplink lookup before it. */
    method CreateVlanInterface(name: string, vlan: nat, faults: set<Call>) returns (out: Outcome)
      modifies `links
      ensures (links, out) == EnsureVlan(old(links), name, vlan, faults)
    {
      if FindUplink in faults {
        return Failure(CallFailed(FindUplink));
      }
      if FindVlan !in faults && name in links {
        if !links[name].VlanLink? {
          return Failure(NotVlanDevice);
        }
        return Success;
      }
      if AddVlan in faults || name in links {
        return Failure(CallFailed(AddVlan));
      }
      links := links[name := VlanLink(vlan, false, false)];
      return Success;
    }

    method AddBridgePort(name: string, faults: set<Call>) returns (out: Outcome)
      modifies `links
      ensures (links, out) == AddPort(old(links), name, faults)
    {
      if FindPort in faults || name !in links {
        return Failure(CallFailed(FindPort));
      }
      if !links[name].VlanLink? {
        return Failure(NotVlanDevice);
      }
      if FindBridge in faults {
        return Failure(CallFailed(FindBridge));
      }
      if SetMaster in faults {
        return Failure(CallFailed(SetMaster));
      }
      links := links[name := links[name].(enslaved := true)];
      if SetUp in faults {
        return Failure(CallFailed(SetUp));
      }
      links := links[name := links[name].(up := true)];
      return Success;
    }

    method RemoveBridgePort(name: string, faults: set<Call>) returns (out: Outcome)
      modifies `links
      ensures (links, out) == DeletePort(old(links), name, faults)
    {
      if FindForDelete in faults || name !in links {
        return Failure(CallFailed(FindForDelete));
      }
      if !links[name].VlanLink? {
        return Failure(NotVlanDevice);
      }
      if SetNoMaster in faults {
        return Failure(CallFailed(SetNoMaster));
      }
      links := links[name := links[name].(enslaved := false)];
      if SetDown in faults {
        return Failure(CallFailed(SetDown));
      }
      links := links[name := links[name].(up := false)];
      return Success;
    }

    method RemoveVlanInterface(name: string, faults: set<Call>) returns (out: Outcome)
      modifies `links
      ensures (links, out) == RemoveVlan(old(links), name, faults)
    {
      if FindForRemove in faults || name !in links {
        return Success;
      }
      if DelVlan in faults {
        return Failure(CallFailed(DelVlan));
      }
      links := links - {name};
      return Success;
    }

    method CreateBridgePort(in_: Port, faults: set<Call>, p4: Failing) returns (reply: Reply)
      requires |in_.mac| != 1
      modifies this, client
      ensures (Now(), reply) == CreateWith(client.config, old(Now()), in_, faults, p4)
    {
      if !ValidSize(in_.mac) {
        return Rejected(InvalidMac);
      }
      var vfVsi := VsiOf(in_.mac);
      if in_.bridges == [] {
        return Rejected(NoVlanId);
      }
      var vlan := FirstVlanId(in_.bridges);
      if vlan < 2 || vlan > 4094 {
        return Rejected(InvalidVlan);
      }
      if vfVsi < 1 {
        return Rejected(InvalidVsi);
      }
      if in_.name in ports {
        return Reply(ports[in_.name]);
      }
      var vlanIntfName := IntfName(in_.name, vlan);
      var out := CreateVlanInterface(vlanIntfName, vlan, faults);
      if out.Failure? {
        return Rejected(out.error);
      }
      out := AddBridgePort(vlanIntfName, faults);
      if out.Failure? {
        return Rejected(out.error);
      }
      client.AddRules(in_.mac, vlan, p4);
      var port := in_.(up := true);
      ports := ports[in_.name := port];
      return Reply(port);
    }

    method DeleteBridgePort(name: string, faults: set<Call>, p4: Failing) returns (out: Outcome)
      requires StoredAccepted(Now())
      modifies this, client
      ensures (Now(), out) == DeleteWith(client.config, old(Now()), name, faults, p4)
    {
      if name !in ports {
        return Success;
      }
      var port := ports[name];
      var vlan := FirstVlanId(port.bridges);
      var vlanIntfName := IntfName(name, vlan);
      out := RemoveBridgePort(vlanIntfName, faults);
      if out.Failure? {
        return;
      }
      out := RemoveVlanInterface(vlanIntfName, faults);
      if out.Failure? {
        return;
      }
      client.DeleteRules(port.mac, vlan, p4);
      ports := ports - {name};
    }
  }

  // ---- What every operation keeps ----

  /** Two ports that differ in VSI and in VLAN and, on a Linux bridge, in the integer of their address; for six-byte
      addresses the last follows. */
  predicate Apart(c: Config, a: Port, b: Port)
    requires Accepted(a) && Accepted(b)
  {
    VsiOf(a.mac) != VsiOf(b.mac) && VlanOf(a) != VlanOf(b) && (c.linuxBridge ==> MacInt(a.mac) != MacInt(b.mac))
  }

  /** Any two live ports are apart. */
  predicate PortsApart(c: Config, s: State) {
    && StoredAccepted(s)
    && (forall n, m :: n in s.ports && m in s.ports && n != m ==> Apart(c, s.ports[n], s.ports[m]))
  }

  /** The rules of the live ports, by name. */
  function RuleSets(c: Config, s: State): map<string, Tables>
    requires StoredAccepted(s)
  {
    map n | n in s.ports :: RulesOf(c, s.ports[n])
  }

  predicate Installed(tables: Tables, rules: Tables) {
    forall k :: k in rules ==> k in tables && tables[k] == rules[k]
  }

  predicate Owned(k: Key, sets: map<string, Tables>) { exists n :: n in sets && k in sets[n] }

  /** The tables are exactly the union of the rule sets. */
  predicate IsUnion(tables: Tables, sets: map<string, Tables>) {
    && (forall n :: n in sets ==> Installed(tables, sets[n]))
    && (forall k :: k in tables ==> Owned(k, sets))
  }

  predicate TablesAgree(c: Config, s: State)
    requires StoredAccepted(s)
  {
    IsUnion(s.tables, RuleSets(c, s))
  }

  /** Every live port has its VLAN interface. */
  predicate LinksHeld(s: State)
    requires StoredAccepted(s)
  {
    forall n :: n in s.ports ==> Intf(s.ports[n]) in s.links && s.links[Intf(s.ports[n])].VlanLink?
  }

  predicate Inv(c: Config, s: State) { PortsApart(c, s) && TablesAgree(c, s) && LinksHeld(s) }

  /** A request the caller may make: if it is accepted at all, it is apart from every other live port. */
  predicate Fair(c: Config, s: State, in_: Port)
    requires StoredAccepted(s)
  {
    |in_.mac| != 1 && (Accepted(in_) ==> forall n :: n in s.ports && n != in_.name ==> Apart(c, in_, s.ports[n]))
  }

  lemma ApartDisjoint(c: Config, a: Port, b: Port)
    requires Accepted(a) && Accepted(b) && Apart(c, a, b)
    ensures RulesOf(c, a).Keys !! RulesOf(c, b).Keys && Intf(a) != Intf(b)
  {
    PortsDisjoint(c, a.mac, VlanOf(a), b.mac, VlanOf(b));
    if Intf(a) == Intf(b) { IntfNameInjective(a.name, VlanOf(a), b.name, VlanOf(b)); }
  }

  lemma AcceptedIfAgreed(c: Config, s: State)
    requires Inv(c, s)
    ensures StoredAccepted(s)
  {}

  lemma LivePortInstalled(c: Config, s: State, n: string)
    requires Inv(c, s) && n in s.ports
    ensures Accepted(s.ports[n]) && Installed(s.tables, RulesOf(c, s.ports[n]))
  {
    assert RuleSets(c, s)[n] == RulesOf(c, s.ports[n]);
  }

  /** For a port that is not live no entry is in the tables, and for a live one all are. */
  lemma LiveIffInstalled(c: Config, s: State, in_: Port)
    requires Inv(c, s) && Fair(c, s, in_) && Accepted(in_)
    requires in_.name in s.ports ==> s.ports[in_.name] == in_.(up := true)
    ensures in_.name in s.ports ==> Installed(s.tables, RulesOf(c, in_))
    ensures in_.name !in s.ports ==> RulesOf(c, in_).Keys !! s.tables.Keys
  {
    var sets := RuleSets(c, s);
    if in_.name in s.ports {
      assert sets[in_.name] == RulesOf(c, s.ports[in_.name]) == RulesOf(c, in_);
    } else {
      forall k | k in s.tables ensures k !in RulesOf(c, in_) {
        var n :| n in sets && k in sets[n];
        ApartDisjoint(c, in_, s.ports[n]);
      }
    }
  }

  lemma OwnedAdds(k: Key, sets: map<string, Tables>, n: string, rules: Tables)
    requires n !in sets && (Owned(k, sets) || k in rules)
    ensures Owned(k, sets[n := rules])
  {
    var sets' := sets[n := rules];
    if k in rules {
      assert n in sets' && k in sets'[n];
    } else {
      var m :| m in sets && k in sets[m];
      assert m in sets' && k in sets'[m];
    }
  }

  lemma InstalledAdds(tables: Tables, more: Tables, rules: Tables)
    requires Installed(tables, rules) && more.Keys !! tables.Keys
    ensures Installed(more + tables, rules)
  {}

  lemma UnionAdds(tables: Tables, sets: map<string, Tables>, n: string, rules: Tables)
    requires IsUnion(tables, sets) && n !in sets && rules.Keys !! tables.Keys
    ensures IsUnion(rules + tables, sets[n := rules])
  {
    var sets' := sets[n := rules];
    forall m | m in sets' ensures Installed(rules + tables, sets'[m]) {
      if m != n { InstalledAdds(tables, rules, sets[m]); }
    }
    forall k | k in rules + tables ensures Owned(k, sets') {
      OwnedAdds(k, sets, n, rules);
    }
  }

  lemma InstalledSpared(tables: Tables, less: Tables, rules: Tables)
    requires Installed(tables, rules) && rules.Keys !! less.Keys
    ensures Installed(tables - less.Keys, rules)
  {}

  lemma UnionRemoves(tables: Tables, sets: map<string, Tables>, n: string)
    requires IsUnion(tables, sets) && n in sets
    requires forall m :: m in sets && m != n ==> sets[m].Keys !! sets[n].Keys
    ensures IsUnion(tables - sets[n].Keys, sets - {n})
  {
    var sets' := sets - {n};
    forall m | m in sets' ensures Installed(tables - sets[n].Keys, sets'[m]) {
      InstalledSpared(tables, sets[n], sets[m]);
    }
    forall k | k in tables - sets[n].Keys ensures Owned(k, sets') {
      var m :| m in sets && k in sets[m];
      assert m in sets' && k in sets'[m];
    }
  }

  lemma AttachLinks(links: Links, name: string, vlan: nat, faults: set<Call>)
    ensures var (links', out) := Attach(links, name, vlan, faults);
      && (forall x :: x in links ==> x in links' && (links[x].VlanLink? ==> links'[x].VlanLink?))
      && (out.Success? ==> name in links' && links'[name].VlanLink?)
  {}

  lemma DetachLinks(links: Links, name: string, faults: set<Call>)
    ensures var (links', out) := Detach(links, name, faults);
      && (forall x :: x in links && x != name ==> x in links' && links'[x] == links[x])
      && (out.Failure? ==> forall x :: x in links ==> x in links' && (links[x].VlanLink? ==> links'[x].VlanLink?))
  {}

  lemma UpIsSame(in_: Port)
    requires Accepted(in_)
    ensures Accepted(in_.(up := true)) && VlanOf(in_.(up := true)) == VlanOf(in_)
  {}

  lemma CreateKeepsApart(c: Config, s: State, in_: Port, s': State)
    requires PortsApart(c, s) && Fair(c, s, in_) && Accepted(in_) && in_.name !in s.ports && StoredAccepted(s')
    requires s'.ports == s.ports[in_.name := in_.(up := true)]
    ensures PortsApart(c, s')
  {
    UpIsSame(in_);
    forall n, m | n in s'.ports && m in s'.ports && n != m ensures Apart(c, s'.ports[n], s'.ports[m]) {
      if n == in_.name {
        assert Apart(c, in_, s.ports[m]);
      } else if m == in_.name {
        assert Apart(c, in_, s.ports[n]);
      } else {
        assert Apart(c, s.ports[n], s.ports[m]);
      }
    }
  }

  lemma RulesOfUp(c: Config, in_: Port)
    requires Accepted(in_)
    ensures Accepted(in_.(up := true)) && RulesOf(c, in_.(up := true)) == RulesOf(c, in_)
  {}

  lemma RuleSetsAdd(c: Config, s: State, in_: Port, s': State)
    requires StoredAccepted(s) && StoredAccepted(s') && Accepted(in_)
    requires s'.ports == s.ports[in_.name := in_.(up := true)]
    ensures RuleSets(c, s') == RuleSets(c, s)[in_.name := RulesOf(c, in_)]
  {
    RulesOfUp(c, in_);
  }

  lemma CreateKeepsTables(c: Config, s: State, in_: Port, s': State)
    requires Inv(c, s) && Fair(c, s, in_) && Accepted(in_) && in_.name !in s.ports && StoredAccepted(s')
    requires s'.ports == s.ports[in_.name := in_.(up := true)] && s'.tables == RulesOf(c, in_) + s.tables
    ensures TablesAgree(c, s')
  {
    LiveIffInstalled(c, s, in_);
    UnionAdds(s.tables, RuleSets(c, s), in_.name, RulesOf(c, in_));
    RuleSetsAdd(c, s, in_, s');
  }

  lemma AttachKeepsHeld(s: State, in_: Port, faults: set<Call>, s': State)
    requires StoredAccepted(s) && StoredAccepted(s') && LinksHeld(s) && Accepted(in_) && in_.name !in s.ports
    requires var (links, out) := Attach(s.links, Intf(in_), VlanOf(in_), faults);
      s'.links == links && s'.ports == if out.Success? then s.ports[in_.name := in_.(up := true)] else s.ports
    ensures LinksHeld(s')
  {
    AttachLinks(s.links, Intf(in_), VlanOf(in_), faults);
    UpIsSame(in_);
    forall n | n in s'.ports ensures Intf(s'.ports[n]) in s'.links && s'.links[Intf(s'.ports[n])].VlanLink? {
      if n in s.ports { assert s'.ports[n] == s.ports[n]; }
    }
  }

  lemma OnlyLinksChange(c: Config, s: State, s': State)
    requires PortsApart(c, s) && TablesAgree(c, s) && s'.ports == s.ports && s'.tables == s.tables
    ensures PortsApart(c, s') && TablesAgree(c, s')
  {
    assert RuleSets(c, s') == RuleSets(c, s);
  }

  lemma AttachedKeepsInv(c: Config, s: State, in_: Port, faults: set<Call>, s': State)
    requires Inv(c, s) && Fair(c, s, in_) && Accepted(in_) && in_.name !in s.ports && StoredAccepted(s')
    requires var (links, out) := Attach(s.links, Intf(in_), VlanOf(in_), faults);
      s' == if out.Success? then State(s.ports[in_.name := in_.(up := true)], links, RulesOf(c, in_) + s.tables)
            else s.(links := links)
    ensures Inv(c, s')
  {
    AttachKeepsHeld(s, in_, faults, s');
    if in_.name in s'.ports {
      CreateKeepsApart(c, s, in_, s');
      CreateKeepsTables(c, s, in_, s');
    } else {
      OnlyLinksChange(c, s, s');
    }
  }

  /** CreateBridgePort keeps the agreement whatever call fails. */
  lemma CreateKeepsInv(c: Config, s: State, in_: Port, faults: set<Call>)
    requires Inv(c, s) && Fair(c, s, in_)
    ensures Inv(c, Create(c, s, in_, faults).0)
  {
    if Accepted(in_) && in_.name !in s.ports {
      AttachedKeepsInv(c, s, in_, faults, Create(c, s, in_, faults).0);
    }
  }

  lemma DeleteKeepsApart(c: Config, s: State, name: string, s': State)
    requires PortsApart(c, s) && StoredAccepted(s') && s'.ports == s.ports - {name}
    ensures PortsApart(c, s')
  {}

  lemma RuleSetsApart(c: Config, s: State, name: string)
    requires PortsApart(c, s) && name in s.ports
    ensures var sets := RuleSets(c, s); forall m :: m in sets && m != name ==> sets[m].Keys !! sets[name].Keys
  {
    forall m | m in s.ports && m != name ensures RulesOf(c, s.ports[m]).Keys !! RulesOf(c, s.ports[name]).Keys {
      ApartDisjoint(c, s.ports[m], s.ports[name]);
    }
  }

  lemma RuleSetsRemove(c: Config, s: State, name: string, s': State)
    requires StoredAccepted(s) && StoredAccepted(s') && s'.ports == s.ports - {name}
    ensures RuleSets(c, s') == RuleSets(c, s) - {name}
  {}

  lemma DeleteKeepsTables(c: Config, s: State, name: string, s': State)
    requires PortsApart(c, s) && TablesAgree(c, s) && name in s.ports && StoredAccepted(s')
    requires s'.ports == s.ports - {name} && s'.tables == s.tables - RulesOf(c, s.ports[name]).Keys
    ensures TablesAgree(c, s')
  {
    RuleSetsApart(c, s, name);
    UnionRemoves(s.tables, RuleSets(c, s), name);
    RuleSetsRemove(c, s, name, s');
  }

  /** DeleteBridgePort keeps the agreement whatever call fails. */
  lemma DeleteKeepsInv(c: Config, s: State, name: string, faults: set<Call>)
    requires Inv(c, s)
    ensures Inv(c, Delete(c, s, name, faults).0)
  {
    var (s', out) := Delete(c, s, name, faults);
    if name in s.ports {
      DetachLinks(s.links, Intf(s.ports[name]), faults);
      if out.Success? {
        DeleteKeepsApart(c, s, name, s');
        DeleteKeepsTables(c, s, name, s');
        forall n | n in s'.ports ensures Intf(s'.ports[n]) in s'.links && s'.links[Intf(s'.ports[n])].VlanLink? {
          ApartDisjoint(c, s.ports[n], s.ports[name]);
        }
      }
    }
  }

  // ---- Whole runs ----

  datatype Op = CreateOp(in_: Port, faults: set<Call>) | DeleteOp(name: string, faults: set<Call>)

  function Step(c: Config, s: State, op: Op): (r: State)
    requires StoredAccepted(s) && (op.CreateOp? ==> |op.in_.mac| != 1)
    ensures StoredAccepted(r)
  {
    match op
    case CreateOp(in_, faults) => Create(c, s, in_, faults).0
    case DeleteOp(name, faults) => Delete(c, s, name, faults).0
  }

  /** Every create of the run is fair at the time it is made. */
  predicate FairRun(c: Config, s: State, ops: seq<Op>)
    requires StoredAccepted(s)
    decreases |ops|
  {
    ops != [] ==> (ops[0].CreateOp? ==> Fair(c, s, ops[0].in_)) && FairRun(c, Step(c, s, ops[0]), ops[1..])
  }

  function RunOps(c: Config, s: State, ops: seq<Op>): (r: State)
    requires StoredAccepted(s) && FairRun(c, s, ops)
    ensures StoredAccepted(r)
    decreases |ops|
  {
    if ops == [] then s else RunOps(c, Step(c, s, ops[0]), ops[1..])
  }

  /** Over any sequence of calls, with any calls failing in each, the server, the links and the eight tables agree. */
  lemma {:induction false} RunsKeepInv(c: Config, s: State, ops: seq<Op>)
    requires Inv(c, s) && FairRun(c, s, ops)
    ensures Inv(c, RunOps(c, s, ops))
    decreases |ops|
  {
    if ops != [] {
      match ops[0] {
        case CreateOp(in_, faults) => CreateKeepsInv(c, s, in_, faults);
        case DeleteOp(name, faults) => DeleteKeepsInv(c, s, name, faults);
      }
      RunsKeepInv(c, Step(c, s, ops[0]), ops[1..]);
    }
  }

  lemma ServerStartsAgreed(c: Config, hostLinks: Links)
    ensures Inv(c, State(map[], hostLinks, map[]))
  {}

  lemma AttachDetach(links: Links, name: string, vlan: nat)
    requires name in links ==> links[name].VlanLink?
    ensures var (links', out) := Attach(links, name, vlan, {}); out.Success? && Detach(links', name, {}).1.Success?
  {}

  /** What a port is answered with, and what is left after it is created and deleted again. */
  lemma CreatedAndDeleted(c: Config, s: State, b: Port)
    requires Accepted(b) && StoredAccepted(s) && b.name !in s.ports
    requires Intf(b) in s.links ==> s.links[Intf(b)].VlanLink?
    ensures var (s1, r) := Create(c, s, b, {}); var s2 := Delete(c, s1, b.name, {}).0;
      && r == Reply(b.(up := true)) && s2.ports == s.ports
      && s2.tables == (RulesOf(c, b) + s.tables) - RulesOf(c, b).Keys
  {
    hide RulesOf, Attach, Detach;
    UpIsSame(b);
    RulesOfUp(c, b);
    AttachDetach(s.links, Intf(b), VlanOf(b));
    var s1 := Create(c, s, b, {}).0;
    assert s1.ports == s.ports[b.name := b.(up := true)] && s1.tables == RulesOf(c, b) + s.tables;
    assert Intf(b.(up := true)) == Intf(b);
  }

  /** Why a run has to be fair: with two ports live, deleting the second leaves the first its rules exactly when they
      are apart. */
  lemma DeleteSparesOther(c: Config, s: State, a: Port, b: Port)
    requires Accepted(a) && Accepted(b) && StoredAccepted(s) && a.name in s.ports && b.name !in s.ports
    requires s.ports[a.name] == a && s.tables == RulesOf(c, a) && (Intf(b) in s.links ==> s.links[Intf(b)].VlanLink?)
    ensures Delete(c, Create(c, s, b, {}).0, b.name, {}).0.tables == RulesOf(c, a) <==> Apart(c, a, b)
  {
    hide Create, Delete, RuleMap;
    CreatedAndDeleted(c, s, b);
    PortsDisjoint(c, a.mac, VlanOf(a), b.mac, VlanOf(b));
    DeleteUndoesAdd(c, b.mac, VlanOf(b), s.tables);
  }

  // ---- Retries ----

  lemma AttachRetried(links: Links, name: string, vlan: nat, faults: set<Call>)
    ensures Attach(Attach(links, name, vlan, faults).0, name, vlan, {}) == Attach(links, name, vlan, {})
  {
    var links1 := Attach(links, name, vlan, faults).0;
    if name in links && links[name].OtherLink? {
    } else {
      var done := if name in links then links[name].(enslaved := true, up := true) else VlanLink(vlan, true, true);
      assert Attach(links, name, vlan, {}).0 == links[name := done];
      assert Attach(links1, name, vlan, {}).0 == links[name := done];
    }
  }

  lemma DetachRetried(links: Links, name: string, faults: set<Call>)
    requires Detach(links, name, faults).1.Failure?
    ensures Detach(Detach(links, name, faults).0, name, {}) == Detach(links, name, {})
  {
    var links1 := Detach(links, name, faults).0;
    if name in links && links[name].VlanLink? {
      assert Detach(links, name, {}).0 == links - {name};
      assert Detach(links1, name, {}).0 == links - {name};
    }
  }

  /** A create that is made again without faults ends as if nothing had failed, reply and all. */
  lemma CreateRetried(c: Config, s: State, in_: Port, faults: set<Call>)
    requires |in_.mac| != 1
    ensures Create(c, Create(c, s, in_, faults).0, in_, {}) == Create(c, s, in_, {})
  {
    if Accepted(in_) && in_.name !in s.ports {
      AttachRetried(s.links, Intf(in_), VlanOf(in_), faults);
      if Attach(s.links, Intf(in_), VlanOf(in_), faults).1.Success? {
        AttachAgrees(s.links, Intf(in_), VlanOf(in_), faults);
      }
    }
  }

  /** Faults that did not stop a create changed nothing about it. */
  lemma AttachAgrees(links: Links, name: string, vlan: nat, faults: set<Call>)
    requires Attach(links, name, vlan, faults).1.Success?
    ensures Attach(links, name, vlan, faults) == Attach(links, name, vlan, {})
  {}

  /** So does a delete that failed. */
  lemma DeleteRetried(c: Config, s: State, name: string, faults: set<Call>)
    requires StoredAccepted(s) && Delete(c, s, name, faults).1.Failure?
    ensures Delete(c, Delete(c, s, name, faults).0, name, {}) == Delete(c, s, name, {})
  {
    DetachRetried(s.links, Intf(s.ports[name]), faults);
  }

  lemma DetachLeaks(links: Links, name: string, faults: set<Call>)
    requires Detach(links, name, faults).1.Success?
    ensures Detach(links, name, faults) == Detach(links, name, {}) <==> FindForRemove !in faults
    ensures FindForRemove in faults ==> name in Detach(links, name, faults).0
    ensures Detach(links, name, {}).1.Success?
  {}

  /** A delete that succeeded ends as if nothing had failed exactly when the lookup before the removal did not fail:
      that failure is taken for an interface already gone, and leaves the interface behind. */
  lemma DeleteLeaks(c: Config, s: State, name: string, faults: set<Call>)
    requires Inv(c, s) && name in s.ports && Delete(c, s, name, faults).1.Success?
    ensures Delete(c, s, name, faults) == Delete(c, s, name, {}) <==> FindForRemove !in faults
    ensures FindForRemove in faults ==> Intf(s.ports[name]) in Delete(c, s, name, faults).0.links
  {
    hide Detach, RulesOf;
    DetachLeaks(s.links, Intf(s.ports[name]), faults);
  }

  /** The interface left behind is taken up again by the next create of the same port, which ends as if it had gone. */
  lemma LeakHeals(c: Config, s: State, in_: Port, faults: set<Call>, leaked: Links)
    requires Accepted(in_) && in_.name !in s.ports && Intf(in_) !in s.links
    requires leaked == s.links[Intf(in_) := VlanLink(VlanOf(in_), false, false)]
    ensures Create(c, s.(links := leaked), in_, {}) == Create(c, s, in_, {})
  {
    var done := VlanLink(VlanOf(in_), true, true);
    assert Attach(s.links, Intf(in_), VlanOf(in_), {}).0 == s.links[Intf(in_) := done];
    assert Attach(leaked, Intf(in_), VlanOf(in_), {}).0 == s.links[Intf(in_) := done];
  }
}
