/** The packets of an attachment: from the plugin's add to the tables of the card. */
module NodeTraffic {
  import opened Basics
  import opened CniLifecycle
  import opened CniOutcomes
  import opened PortRequests
  import opened NodeRuns
  import opened PortTraffic
  import B = BridgePorts

  lemma RequestCarries(host: Host, sv: Server, v: Vf, m: string)
    requires m in sv.ports && sv.ports[m] == Request(v).(up := true) && v.Valid()
    requires B.Installed(sv.tables, B.RulesOf(host.fxp, sv.ports[m]))
    ensures |v.mac| == 6 && Carries(host.fxp, sv.tables, v.mac[1] as nat, v.id + 2, v.mac)
  {
    hide Carries, B.VlanOf, B.Installed;
    B.UpIsSame(Request(v).(up := true).(up := false));
    assert sv.ports[m].(up := false) == Request(v);
    RequestBack(v);
    RequestAccepted(v);
    InstalledCarries(host.fxp, sv.tables, v.mac, v.id + 2);
  }

  lemma RequestBack(v: Vf)
    ensures B.Accepted(Request(v).(up := true)) <==> B.Accepted(Request(v))
    ensures B.Accepted(Request(v)) ==> B.VlanOf(Request(v).(up := true)) == B.VlanOf(Request(v))
  {}

  lemma AskedIsValid(host: Host, s: State, e: Event)
    requires e.AddEvent? && Records(s, e.a, e.c, e.dpdk, e.f) && Ported(s.world, e.c.pci, e.f)
    ensures OrigOf(s.world, e.c.pci).Address? && VfOf(host, e.c.pci, OrigOf(s.world, e.c.pci).mac).Valid()
  {
    hide Records;
    assert Asked(host, s, e, {}).Some?;
  }

  /** From an add that got a port of its own until its VF is freed, whatever other attachments do and whatever fails:
      packets of the VSI in the VF's address leave with the VLAN of the VF, two above its index, for the port
      multiplexer's vport, and those with that VLAN come back without it to the VF's. */
  lemma HeldTraffic(host: Host, r: Runtime, n: NodeRun, i: nat, j: nat, a: Args, c: AddConf, dpdk: bool, f: CniFaults,
                    vs: set<Vf>)
    requires IsNodeRun(host, r, n) && i < j <= |n.run.events| && AsksOnlyFor(host, n, vs)
    requires n.run.events[i] == AddEvent(a, c, dpdk, f) && !HasPort(host, n.servers[i], c.pci)
    requires Records(n.run.states[i], a, c, dpdk, f) && Ported(n.run.states[i].world, c.pci, f)
    requires forall k :: i < k < j ==> !Frees(n.run.events[k], a, c.pci)
    ensures var orig := OrigOf(n.run.states[i].world, c.pci);
      && orig.Address? && |orig.mac| == 6
      && Carries(host.fxp, n.servers[j].tables, orig.mac[1] as nat, host.id(c.pci) + 2, orig.mac)
  {
    hide Inv, IsRun, Agrees, DistinctNames, AddsKnown, ServerAfter, Frees, Held, OrigOf, B.RulesOf, B.Installed;
    hide Carries, Records, Ported, HasPort, NameOf, B.Accepted, Request;
    HeldIsServed(host, r, n, i, j, a, c, dpdk, f, vs);
    var v := VfOf(host, c.pci, OrigOf(n.run.states[i].world, c.pci).mac);
    assert v.Valid() by { AskedIsValid(host, n.run.states[i], n.run.events[i]); }
    RequestCarries(host, n.servers[j], v, NameOf(host, c.pci));
  }
}
