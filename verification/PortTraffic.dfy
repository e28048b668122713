/** What the FXP tables do to the packets of a bridge port.  The rules of ipu-plugin/pkg/p4rtclient name the tables and
    the actions of linux_networking_control, which is not part of this model; an action is taken at its word, and an
    edit that it points to happens when its modify entry is there. */
module PortTraffic {
  import opened Basics
  import opened Text
  import opened FxpRules
  import opened BridgePorts
  import opened PortRuns

  /** A VLAN tag, as vlan_push writes it. */
  datatype VlanTag = VlanTag(pcp: nat, dei: nat, vid: nat)

  /** How a packet leaves: its VLAN tag, if it has one, and the vport it is sent to. */
  datatype Sent = Sent(tag: Option<VlanTag>, vport: nat)

  function Pushed(t: Tables, ptr: nat): Option<VlanTag> {
    var k := Key(VlanPushMod, ptr, 0);
    if k in t && t[k].VlanPush? then Some(VlanTag(t[k].pcp, t[k].dei, t[k].vid)) else None
  }

  /** A control packet that a VSI sends. */
  function FromVsi(t: Tables, vsi: nat): Option<Sent> {
    var k := Key(TxFromHost, vsi, 0);
    if k in t && t[k].AddVlanAndSend? then Some(Sent(Pushed(t, t[k].vlan), t[k].vport)) else None
  }

  /** A tagged packet that the port multiplexer's VSI sends. */
  function FromMux(t: Tables, muxVsi: nat, tag: VlanTag): Option<Sent> {
    var k := Key(TxFromOvs, muxVsi, tag.vid);
    if k in t && t[k].RemoveVlanAndSend? then
      var pop := Key(VlanPopMod, t[k].vlan, 0);
      Some(Sent(if pop in t && t[pop].VlanPop? then None else Some(tag), t[k].vport))
    else None
  }

  function Destination(t: Tables, k: Key): Option<nat> {
    if k in t && t[k].SetDest? then Some(t[k].vport) else None
  }

  /** A looped-back packet, by the VSI it comes from and by the VSI it is for. */
  function LoopedFrom(t: Tables, vsi: nat): Option<nat> { Destination(t, Key(RxLoopbackFromHost, vsi, 0)) }

  function LoopedTo(t: Tables, vsi: nat): Option<nat> { Destination(t, Key(RxLoopbackFromOvs, vsi, 0)) }

  /** A frame to an address, in the two tables for a Linux bridge. */
  function Forwarded(t: Tables, mac: Mac): Option<nat> {
    var k := Key(L2FwdTx, MacInt(mac), 0);
    if k in t && t[k].L2Fwd? then Some(t[k].vport) else None
  }

  function Bypassed(t: Tables, mac: Mac): Option<nat> { Destination(t, Key(SemBypass, MacInt(mac), 0)) }

  /** The tables carry a port's packets: from its VSI with its VLAN to the multiplexer, from the multiplexer without it
      to the VSI, and on a Linux bridge from its address there too.  A VSI's vport is 16 above it. */
  ghost predicate Carries(c: Config, t: Tables, vsi: nat, vlan: nat, mac: Mac) {
    && FromVsi(t, vsi) == Some(Sent(Some(VlanTag(1, 0, vlan)), c.portMuxVsi + 16))
    && (forall pcp, dei :: FromMux(t, c.portMuxVsi, VlanTag(pcp, dei, vlan)) == Some(Sent(None, vsi + 16)))
    && LoopedFrom(t, vsi) == Some(c.portMuxVsi + 16) && LoopedTo(t, vsi) == Some(vsi + 16)
    && (c.linuxBridge ==> Forwarded(t, mac) == Some(vsi + 16) && Bypassed(t, mac) == Some(vsi + 16))
  }

  predicate Holds(t: Tables, k: Key, a: Act) { k in t && t[k] == a }

  /** The six entries that every port has, and the two it has on a Linux bridge, by their actions. */
  lemma EntriesOf(c: Config, mac: Mac, vlan: nat)
    requires 2 <= |mac| <= 6
    ensures var m := RuleMap(c, mac, vlan); var vsi := VsiOf(mac);
      && Holds(m, Key(TxFromHost, vsi, 0), AddVlanAndSend(vlan, c.portMuxVsi + 16))
      && Holds(m, Key(VlanPushMod, vlan, 0), VlanPush(1, 0, vlan))
      && Holds(m, Key(RxLoopbackFromHost, vsi, 0), SetDest(c.portMuxVsi + 16))
      && Holds(m, Key(TxFromOvs, c.portMuxVsi, vlan), RemoveVlanAndSend(vlan, vsi + 16))
      && Holds(m, Key(VlanPopMod, vlan, 0), VlanPop)
      && Holds(m, Key(RxLoopbackFromOvs, vsi, 0), SetDest(vsi + 16))
      && (c.linuxBridge ==>
            && Holds(m, Key(L2FwdTx, MacInt(mac), 0), L2Fwd(vsi + 16))
            && Holds(m, Key(SemBypass, MacInt(mac), 0), SetDest(vsi + 16)))
  {}

  lemma InstalledCarries(c: Config, t: Tables, mac: Mac, vlan: nat)
    requires 2 <= |mac| <= 6 && Installed(t, RuleMap(c, mac, vlan))
    ensures Carries(c, t, mac[1] as nat, vlan, mac)
  {
    hide RuleMap, MacInt;
    EntriesOf(c, mac, vlan);
  }

  lemma AcceptedSize(p: Port)
    requires Accepted(p)
    ensures 2 <= |p.mac| <= 6
  {}

  /** In every state in which server, links and tables agree, the packets of every live port are carried. */
  lemma LiveTraffic(c: Config, s: State, n: string)
    requires Inv(c, s) && n in s.ports
    ensures Accepted(s.ports[n]) && |s.ports[n].mac| >= 2
    ensures Carries(c, s.tables, s.ports[n].mac[1] as nat, VlanOf(s.ports[n]), s.ports[n].mac)
  {
    hide Carries, Installed;
    LivePortInstalled(c, s, n);
    AcceptedSize(s.ports[n]);
    InstalledCarries(c, s.tables, s.ports[n].mac, VlanOf(s.ports[n]));
  }

  /** ... and so after any fair sequence of calls from the start, with any netlink calls failing in each. */
  lemma RunsCarry(c: Config, hostLinks: Links, ops: seq<Op>, n: string)
    requires FairRun(c, Started(hostLinks), ops) && n in RunOps(c, Started(hostLinks), ops).ports
    ensures var s := RunOps(c, Started(hostLinks), ops);
      && Accepted(s.ports[n]) && |s.ports[n].mac| >= 2
      && Carries(c, s.tables, s.ports[n].mac[1] as nat, VlanOf(s.ports[n]), s.ports[n].mac)
  {
    hide Inv, Carries, RunOps, FairRun;
    RunsAgree(c, hostLinks, ops);
    LiveTraffic(c, RunOps(c, Started(hostLinks), ops), n);
  }

  // ---- Whose packets, and no one else's ----

  /** The live port has this VSI; ... this VLAN. */
  predicate HasVsi(s: State, n: string, vsi: nat)
    requires StoredAccepted(s)
  {
    n in s.ports && VsiOf(s.ports[n].mac) == vsi
  }

  predicate HasVlan(s: State, n: string, vlan: nat)
    requires StoredAccepted(s)
  {
    n in s.ports && VlanOf(s.ports[n]) == vlan
  }

  /** ... an address with this integer. */
  predicate HasAddress(s: State, n: string, mac: Mac)
    requires StoredAccepted(s)
  {
    n in s.ports && MacInt(s.ports[n].mac) == MacInt(mac)
  }

  lemma OwnerOf(c: Config, s: State, k: Key) returns (n: string)
    requires Inv(c, s) && k in s.tables
    ensures n in s.ports && Accepted(s.ports[n]) && k in RulesOf(c, s.ports[n])
  {
    assert Owned(k, RuleSets(c, s));
    n :| n in RuleSets(c, s) && k in RuleSets(c, s)[n];
  }

  /** The tables carry no other packets: those of a VSI and those for it exactly when a live port has it, those with a
      VLAN from the multiplexer exactly when a live port has the VLAN, and those to an address only on a Linux bridge
      and exactly when a live port has an address of the same integer. */
  lemma CarriesOnlyLive(c: Config, s: State, vsi: nat, tag: VlanTag, mac: Mac)
    requires Inv(c, s)
    ensures FromVsi(s.tables, vsi).Some? <==> exists n :: HasVsi(s, n, vsi)
    ensures LoopedFrom(s.tables, vsi).Some? <==> exists n :: HasVsi(s, n, vsi)
    ensures LoopedTo(s.tables, vsi).Some? <==> exists n :: HasVsi(s, n, vsi)
    ensures FromMux(s.tables, c.portMuxVsi, tag).Some? <==> exists n :: HasVlan(s, n, tag.vid)
    ensures Forwarded(s.tables, mac).Some? <==> c.linuxBridge && exists n :: HasAddress(s, n, mac)
    ensures Bypassed(s.tables, mac).Some? <==> c.linuxBridge && exists n :: HasAddress(s, n, mac)
  {
    CarriesOnlyVsi(c, s, vsi);
    CarriesOnlyVlan(c, s, tag);
    CarriesOnlyAddress(c, s, mac);
  }

  lemma CarriesOnlyVsi(c: Config, s: State, vsi: nat)
    requires Inv(c, s)
    ensures FromVsi(s.tables, vsi).Some? <==> exists n :: HasVsi(s, n, vsi)
    ensures LoopedFrom(s.tables, vsi).Some? <==> exists n :: HasVsi(s, n, vsi)
    ensures LoopedTo(s.tables, vsi).Some? <==> exists n :: HasVsi(s, n, vsi)
  {
    hide Inv, RulesOf, Accepted, VlanOf, MacInt;
    AcceptedIfAgreed(c, s);
    var t := if FromVsi(s.tables, vsi).Some? then TxFromHost
             else if LoopedFrom(s.tables, vsi).Some? then RxLoopbackFromHost else RxLoopbackFromOvs;
    if Key(t, vsi, 0) in s.tables {
      var n := OwnerOf(c, s, Key(t, vsi, 0));
      OwnedBy(c, s.ports[n], Key(t, vsi, 0));
      assert HasVsi(s, n, vsi);
    }
    if n :| HasVsi(s, n, vsi) { LiveTraffic(c, s, n); }
  }

  lemma CarriesOnlyVlan(c: Config, s: State, tag: VlanTag)
    requires Inv(c, s)
    ensures FromMux(s.tables, c.portMuxVsi, tag).Some? <==> exists n :: HasVlan(s, n, tag.vid)
  {
    hide Inv, RulesOf, Accepted, VlanOf, MacInt;
    AcceptedIfAgreed(c, s);
    if FromMux(s.tables, c.portMuxVsi, tag).Some? {
      var n := OwnerOf(c, s, Key(TxFromOvs, c.portMuxVsi, tag.vid));
      OwnedBy(c, s.ports[n], Key(TxFromOvs, c.portMuxVsi, tag.vid));
      assert HasVlan(s, n, tag.vid);
    }
    if n :| HasVlan(s, n, tag.vid) {
      LiveTraffic(c, s, n);
      assert tag == VlanTag(tag.pcp, tag.dei, tag.vid);
    }
  }

  lemma CarriesOnlyAddress(c: Config, s: State, mac: Mac)
    requires Inv(c, s)
    ensures Forwarded(s.tables, mac).Some? <==> c.linuxBridge && exists n :: HasAddress(s, n, mac)
    ensures Bypassed(s.tables, mac).Some? <==> c.linuxBridge && exists n :: HasAddress(s, n, mac)
  {
    hide Inv, RulesOf, Accepted, VlanOf, MacInt;
    AcceptedIfAgreed(c, s);
    var t := if Forwarded(s.tables, mac).Some? then L2FwdTx else SemBypass;
    if Key(t, MacInt(mac), 0) in s.tables {
      var n := OwnerOf(c, s, Key(t, MacInt(mac), 0));
      OwnedBy(c, s.ports[n], Key(t, MacInt(mac), 0));
      assert HasAddress(s, n, mac);
    }
    if n :| HasAddress(s, n, mac) {
      LiveTraffic(c, s, n);
      assert Forwarded(s.tables, s.ports[n].mac) == Forwarded(s.tables, mac);
      assert Bypassed(s.tables, s.ports[n].mac) == Bypassed(s.tables, mac);
    }
  }

  lemma OwnedBy(c: Config, p: Port, k: Key)
    requires Accepted(p) && k in RulesOf(c, p)
    ensures |p.mac| >= 2
    ensures k.table.TxFromHost? || k.table.RxLoopbackFromHost? || k.table.RxLoopbackFromOvs? ==> k.field == VsiOf(p.mac)
    ensures k.table.TxFromOvs? ==> k.vid == VlanOf(p)
    ensures k.table.L2FwdTx? || k.table.SemBypass? ==> c.linuxBridge && k.field == MacInt(p.mac)
  {
    hide VlanOf, MacInt;
    AcceptedSize(p);
    RuleKeys(c, p.mac, VlanOf(p), k);
  }

  /** What the multiplexer sends back with the tag it received comes to the port that sent the packet and to no other
      live port. */
  lemma BackToSender(c: Config, s: State, n: string, m: string)
    requires Inv(c, s) && n in s.ports && m in s.ports
    ensures Accepted(s.ports[n]) && Accepted(s.ports[m]) && |s.ports[n].mac| >= 2 && |s.ports[m].mac| >= 2
    ensures var out := FromVsi(s.tables, s.ports[n].mac[1] as nat);
      && out.Some? && out.value.tag.Some?
      && var back := FromMux(s.tables, c.portMuxVsi, out.value.tag.value);
         back.Some? && back.value.tag.None? && (back.value.vport == s.ports[m].mac[1] as nat + 16 <==> n == m)
  {
    hide FromVsi, FromMux, LoopedFrom, LoopedTo, Forwarded, Bypassed, VlanOf, TablesAgree, LinksHeld, MacInt, Check;
    LiveTraffic(c, s, n);
    LiveTraffic(c, s, m);
    if n != m { assert Apart(c, s.ports[n], s.ports[m]); }
  }

  lemma ExampleAccepted(in_: Port)
    requires |in_.mac| == 6 && in_.mac[1] == 8 && in_.bridges == ["5"]
    ensures Accepted(in_) && VlanOf(in_) == 5 && Accepted(in_.(up := true)) && VlanOf(in_.(up := true)) == 5
  {
    AtoiOfDecimal(5);
    assert Decimal(5) == "" + ['5'];
  }

  const EXAMPLE: Mac := [0x00, 0x08, 0x00, 0x00, 0x03, 0x14]

  lemma ExampleStored(c: Config, name: string)
    ensures var in_ := Port(name, EXAMPLE, ["5"], false); var s := Create(c, Started(map[]), in_, {}).0;
      Inv(c, s) && name in s.ports && s.ports[name] == in_.(up := true) && VlanOf(s.ports[name]) == 5
  {
    hide Inv, VlanOf, Check;
    var in_ := Port(name, EXAMPLE, ["5"], false);
    ExampleAccepted(in_);
    ServerStartsAgreed(c, map[]);
    CreateKeepsInv(c, Started(map[]), in_, {});
  }

  /** The address of the plugin's own example: packets of VSI 8 leave with VLAN 5 for vport 19, and those that come back
      with it leave without it for vport 24. */
  lemma ExampleTraffic(c: Config, name: string, tag: VlanTag)
    requires c.portMuxVsi == 3 && tag.vid == 5
    ensures var s := Create(c, Started(map[]), Port(name, EXAMPLE, ["5"], false), {}).0;
      && FromVsi(s.tables, 8) == Some(Sent(Some(VlanTag(1, 0, 5)), 19))
      && FromMux(s.tables, 3, tag) == Some(Sent(None, 24))
  {
    hide Inv, VlanOf, Check, Create, FromVsi, FromMux;
    ExampleStored(c, name);
    LiveTraffic(c, Create(c, Started(map[]), Port(name, EXAMPLE, ["5"], false), {}).0, name);
    assert tag == VlanTag(tag.pcp, tag.dei, 5);
  }
}
