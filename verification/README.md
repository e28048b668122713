# Verified model of the IPU packet pipeline, bridge-port server and SR-IOV CNI

This Dafny project models three parts of the repository and proves what they are meant to guarantee.

**The FXP packet program.** `p4files/parser.p4` is modelled state by state (`IdpfParser`), and the 26 used stages of
its compiled form in `p4files/rh_mvp.s` rule by rule and node by node (`FxpParser`).  `Refinement` proves that the
stages compute what the source parser computes, for every byte string.  `ParserFacts` and `TagFacts` prove what every
run keeps: the header stack, the length arithmetic, the bound on the cursor, what the flags say about the bytes, and
that tags do not influence how the rest is parsed.  `Ptypes` and `TableSelection` follow the compiled classification
and table selection and compare it with the apply block of `p4files/rh_mvp.p4`.  `VlanMods` and `RhMvpControl` model the
VLAN edits and the control, and prove that edits and reparses undo each other.  `ParserMachines` and the class
`RhMvpControl.Control` are the same programs as machines that update fields in place, each proved against the functions.
`Egress` says of every frame which bytes the control leaves and which port it sends them to, one group of tables after the
other.  `TunnelFrames` holds concrete VXLAN frames on which source and output, or an edit and the parser, part ways.
`ArpRoundTrip` takes an ARP frame from a host out to the port multiplexer and back through the control, and
`ArpFromWire` one from the wire.

**The bridge-port server.** `FxpRules` models the FXP rule client and its eight tables, `BridgePorts` the server with
its VLAN interfaces and bridge membership.  Any netlink call may fail in any handler; every handler is described by the
state it leaves, and the agreement of server, links and tables is proved over all runs.  `PortRuns` starts those runs at
the start of the server and says when a live port is in service; `PortRequests` models the requests the CNI plugin makes
of the server, and says when its runs are of the kind the agreement asks for.  `PortFailures` lets calls of `p4rt-ctl`
fail as well, which the server never learns of, and says what of the agreement is left; `Leftovers` follows every entry
through runs in which they fail in creates and deletes.  `PortAnswers` says which requests are accepted, which calls
decide on a create and a delete, and what a refused one leaves.  `PortTraffic` reads the eight tables as what they do to
packets: those of a live port's VSI, and those that come back for it.  `PortRestart` starts the server again on the
links and tables of its earlier life.

**The SR-IOV CNI.** `VfConfig` models the VF's administrative attributes, `VfLinks` the VF links that move between
network namespaces, `VfLookup` the two loops of the utilities, and `CniLifecycle` the add and delete commands with the
allocation records, the cached configurations, the deferred cleanups and the shadowed error variables.  Faults are a set
of failing calls chosen freely for each command; whole runs interleave adds, deletes and namespace deaths.
`VfOptions` and `LinkMoves` give every attribute of a VF and the place of its link after an apply, a reset, a set-up and a
release, wherever those stop, and `CniAnswers` when the two commands succeed and what they leave.
`CniOutcomes` says exactly what single commands leave: when an add and when a delete is safe, when a delete gives the VF
back, what an add writes, how a failed add ends, and when a delete undoes an add.  `CniRetries` says that a delete which
got to the record is the last one that does, until the attachment is added again.

`HostNameClash`, `KeyClash` and `ReAddClash` are concrete runs that show why the run-level results of `CniLifecycle` ask
what they do: that a VF's name on the host is no pod interface name other than the one it is added under, that container
ids and interface names do not both have dashes, and that an attachment is added again with another VF only when neither
its configuration nor its link is left.  `LostRecord` is one in which a held VF loses its record.  `TwoVfs` and
`TwoVfRuns` are what they share.

**The node.** `NodeRuns` puts plugin and server together: each add that gets that far asks the server for its VF's port,
each delete that gets that far asks it to delete the port, and each call may be lost on the way, fail in the server, or
succeed and lose its answer.  It says which ports serve VFs that are held, and exactly which are left behind.
`NodeTraffic` follows the packets of such a VF through the tables.
`LostDelete` is a run in which one is.

## Conventions

- A frame is a sequence of bytes; reads past its end give zero, so the lemmas hold of every byte string and say of a
  frame long enough for its own headers what the hardware does.
- In a stage the lowest-numbered matching rule wins and a stage without a match does nothing; W registers are loaded
  with the first byte low, at the old HO plus an offset, before HO advances; SEM_MD2 keys are listed most significant
  bit first; a lookahead is relative to the cursor before the state's extracts (`p4files/protocols.p4:61-62`).
- Methods of the server and of the manager are atomic and come one after another.

## Where the code and its surroundings disagree

- `Parse_IPv4_Frag_Head_Depth0` sets `pflag_9` in the source and not in the output; the next state always sets it, so
  nothing is lost (`Refinement.FragHeadOuterDrops`).
- The compiled ARP node leaves HO at the ARP header, where the source has consumed it (`Refinement.CompiledRefinesSource`).
- Source and output select different tables for IPv4 headers whose length nibble is below five, for three packet types
  the compiler added without a group, and in VSI group 1 (`TableSelection.SelectionAgrees` says exactly when).
- The commented-out stores in the parser name its two destination flags after broadcast and multicast; a group address
  that starts with four bytes of ones and is not the broadcast address gets neither (`TagFacts.FrontOfParse`).
- `push_ctag` and `push_ctag_stag` on a VXLAN frame put the tag before the inner EtherType, where the parser does not
  look for tags (`VlanMods.PushCtagRoundTrip`, and `RhMvpControl.TunnelledPushIsLost` for a frame).
- `push_stag` and the pops index the tag headers by depth, and the parser extracts tags into layer 0 alone, so in a tunnel
  they find no header and leave the frame alone; the output's edits start at protocol 16, which names the outer tag at
  every depth, and go on to protocols that are not there in a tunnel.  The model follows the source.
- In `push_ctag_stag` the order of the two tags is taken from the output and the capture in `p4files/README.md:150`; the
  action body alone would not fix it.
- cmdAdd has the call of `FillOriginalVfInfo` commented out, so a reset restores zero values and fails when an address was
  configured (`VfConfig.ResetWithoutFill`), and a VF added with an address is never released by cmdDel
  (`CniLifecycle.MacHeldUntilDeath`, which says what else could take it).
- cmdAdd removes neither record nor cache when it fails after writing them (`CniOutcomes.AddWrites`,
  `CniOutcomes.FailedAddEnds`), and always fails in DPDK mode, as there is then no effective address to parse
  (`CniOutcomes.DpdkStrands`).
- The file name of a cached configuration joins container id and interface name with a dash, and both may have dashes
  (`CniLifecycle.KeysCollide`, `KeyClash.DashesMatter`); the bridge-port name joins PF name and VF index with nothing
  (`PortRequests.PortNamesCollide`).
- The VLAN of a bridge port is the VF's index plus two, whatever the PF (`PortRequests.RunsAreFairExactly`).
- The allocation check takes any failure to open a record's namespace for the end of that namespace, and removes the
  record, also of a VF that is in use; cmdDel tells the two apart.  So an add can take the record of a held VF, which
  stays in its pod (`CniOutcomes.AddSafeExactly`, `CniOutcomes.MisjudgedAdd`, and `LostRecord.RecordIsLost` for a run).
- Where the connection to the server cannot be made, both commands exit at once: an add then leaves its VF in the pod with
  record and configuration, without cleanup and without a port (`CniOutcomes.FailedAddEnds`).
- A delete removes the record before it asks for the port to go, so when that fails no retry asks again
  (`NodeRuns.RetriesAskNothing`, and `LostDelete.PortIsLeft` for a run).
- A server that is started again answers a delete of a port of its earlier life with success, and leaves its entries
  (`PortRestart.ForgottenStays`).
- Addresses of two to five bytes pass the server's checks; on a Linux bridge two of them can share the key of the address
  table although their VSIs and VLANs differ, as the integer loses leading zeros (`FxpRules.ShortMacsClash`).
- The cleanup of a failed add looks for the pod's interface name, so a link that the set-up left under its temporary name
  stays there, also in the pod (`CniAnswers.FailedSetupEnds`).
- `removeVlanInterface` takes any failed lookup for an interface already gone (`BridgePorts.DeleteLeaks`).

## Model

| member | source | states |
|---|---|---|
| Refinement.CompiledRefinesSource | p4files/rh_mvp.s:470-1854 | for every frame, the stages stop at the node of the state in which parser.p4 accepts, with the same flags, markers, depth and header offsets, the same payload start, and HO at the source cursor except that the ARP node leaves it 28 bytes back |
| Refinement.Simulates | p4files/rh_mvp.s:470-1854 | a stage that fired the node of a source state leads to the same outcome as the source run from there, through the nodes the compiler inserted |
| Refinement.OneStep | p4files/parser.p4:14-739 | each source transition is matched by one or two later stages, and the length checks hold by the time a length is used |
| Refinement.FragHeadOuterDrops | p4files/parser.p4:274-316 | the pflag_9 store that the output drops is made up for by the states that follow |
| Refinement.GtpuTable | p4files/rh_mvp.s:1171-1444 | the masked rules behind a GTP-U header match exactly when the source's select on version, flags and message type goes to that state |
| Refinement.OptExtTable | p4files/parser.p4:506-523 | the rules on the first extension type and PDU type decide as the source does |
| Refinement.Ext1Table | p4files/parser.p4:547-560 | likewise for the second extension |
| Refinement.TcpTable | p4files/parser.p4:319-331 | the rules on data offset, FIN and SYN decide as the source does |
| Refinement.ProtoTable | p4files/parser.p4:228-249 | the rules on the IPv4 protocol decide as the source does |
| Refinement.TcpFlagsTable | p4files/parser.p4:334-388 | the rules on RST, ACK and the port decide as the source does |
| IdpfParser.RankIncreases | p4files/parser.p4:14-739 | every transition goes to a state of a later compiled stage, so the parser terminates |
| ParserFacts.RunsTo | p4files/parser.p4:14-739 | every configuration of a run leads to the outcome of the run and has gained a rank for each transition |
| ParserFacts.AcceptsWithin25 | p4files/parser.p4:14-739 | every frame is accepted within 25 transitions |
| ParserFacts.LayersAlways | p4files/parser.p4:417-460 | in every configuration: no third-layer state or header, and inner IPv4 or UDP only above outer IPv4, UDP, VXLAN and inner MAC |
| ParserFacts.StackOfOutcome | p4files/parser.p4:722-739 | the Depth2 states are never entered |
| ParserFacts.WireAlways | p4files/parser.p4:153-264 | an IPv4 header is extracted exactly where the layer's EtherType says IPv4 and the length nibble is at least five, and the states that compute a length are entered only then |
| ParserFacts.MarksAlways | p4files/fxp_parser_hints.p4:73-108 | every marker stands for a header on the stack or for the outermost tag |
| ParserFacts.BehindAlways | p4files/parser.p4:128-146 | TCP, UDP and GTP-U states are entered only behind IPv4, and ARP is the last header, behind an EtherType that is not IPv4 |
| ParserFacts.OptionBytesExact | p4files/parser.p4:228-249 | the 32-bit length arithmetic is exact and fits the 40 option bytes exactly when the nibble is at least five, and wraps otherwise |
| ParserFacts.BoundedAlways | p4files/parser.p4:526-566 | the cursor stays within a bound fixed by the state |
| ParserFacts.LengthsAreSafe | p4files/parser.p4:288-388 | no length in any run underflows, every options field fits, and a frame consumes at most 2284 bytes |
| ParserFacts.AtMostTwoExts | p4files/parser.p4:506-581 | no run consumes more than two GTP-U extension headers |
| ParserFacts.OutcomeFacts | p4files/parser.p4:14-739 | all of these hold of the accepted view |
| ParserMachines.SourceParser.Step | p4files/parser.p4:14-739 | one state's assignments and extracts in place do what the state's functions say |
| ParserMachines.SourceParser.Run | p4files/parser.p4:14-739 | the machine accepts in the state and with the view of the parse |
| ParserMachines.StagedParser.RunStage | p4files/rh_mvp.s:470-1854 | one stage in place leaves the registers that its first matching rule gives |
| ParserMachines.StagedParser.Run | p4files/rh_mvp.s:470-1854 | the pipeline with FLAG_DONE leaves the registers of the staged run |
| ParserMachines.ParseBoth | p4files/rh_mvp.s:470-1854 | both machines, run on one frame, agree |
| TagFacts.FrontOfParse | p4files/parser.p4:14-125 | pflag_11 exactly for broadcast, pflag_10 exactly for a group address whose first four bytes are not all ones, tag flags and outer header offsets exactly as in the bytes |
| TagFacts.FlagsExclusive | p4files/parser.p4:75-98 | stag and evlan_8100 are never both set, nor the two destination flags |
| TagFacts.TagBlind | p4files/parser.p4:75-125 | two frames with the same bytes from the outer EtherType on are parsed alike, whatever tags they carry |
| Ptypes.PtypeOfParse | p4files/rh_mvp.s:271-468 | every frame the stages parse matches exactly one PTYPE rule, the one of its header stack; the reject rule and ptypes 50, 52, 53 and 255 are never given |
| Ptypes.RulesAreHints | p4files/fxp_parser_hints.p4:113-171 | every compiled rule has the markers and node of a hint, but for five added types and the reject type |
| Ptypes.HintsAreRules | p4files/fxp_parser_hints.p4:113-171 | every hint has exactly one compiled rule, with its markers and node |
| Ptypes.CompiledFacts | p4files/rh_mvp.s:470-1854 | the staged parser's own flags, header stack, IPv4 headers and payload bound, read off the bytes |
| TableSelection.ProfileIsMeaning | p4files/rh_mvp.s:2064-2113 | the first matching PROFILE entry on the digest is the stated function of direction, loopback, pass, tags and group |
| TableSelection.SelectionAgrees | p4files/rh_mvp.p4:434-479 | the compiled lookup list is the list of tables the apply block applies, in order, if and only if the frame is in no differing family; in VSI group 1 if and only if the pass and the frame meet none of the chain's guards |
| TableSelection.ShortIpDiffers | p4files/rh_mvp.p4:440-445 | a frame with a short IPv4 header for which they differ |
| TableSelection.CtagGtpuDiffers | p4files/rh_mvp.p4:476-479 | a C-tagged GTP-U frame for which they differ |
| TableSelection.CtagVxlanArpDiffers | p4files/rh_mvp.p4:471-474 | a C-tagged VXLAN frame with ARP inside for which they differ |
| TableSelection.CommsChannelDiffers | p4files/rh_mvp.p4:438-445 | a frame in VSI group 1 for which they differ |
| VlanMods.PushCtagRoundTrip | p4files/rh_mvp.p4:99-106 | on every untagged frame the reparse finds a C-tag iff the frame is not a tunnel; then it has the configured pcp, dei and vid, everything behind is parsed as before, and pop_ctag restores the frame; PushCtagBytes says where the tag stands, in a tunnel too |
| VlanMods.PushCtagStagRoundTrip | p4files/rh_mvp.s:2516-2546 | the same for two tags with the S-tag outermost and pop_ctag_stag |
| VlanMods.TciBits | p4files/rh_mvp.p4:99-106 | the configured priority, drop bit and identifier are the top three, the next and the low twelve bits of the tag |
| VlanMods.EtypeBehindMac | p4files/parser.p4:704-720 | in every parse the EtherType of the frame's own layer is recorded twelve bytes behind that layer's MAC header, unless tags stand between |
| VlanMods.PushCtagBytes | p4files/rh_mvp.p4:99-106 | on every untagged frame, tunnelled or not, the C-tag with the configured bits stands twelve bytes behind the MAC header of the frame's own layer, and every other byte is as it was, before the tag in place and behind it four on |
| VlanMods.PushCtagStagBytes | p4files/rh_mvp.p4:127-141 | likewise both tags, the S-tag in front of the C-tag, and eight bytes on |
| VlanMods.PushStagRoundTrip | p4files/rh_mvp.p4:143-150 | on a C-tagged frame push_stag acts iff the frame is no tunnel; then the reparse finds both tags with their values and pop_stag restores the frame |
| VlanMods.PushStagInside | p4files/rh_mvp.p4:143-150 | and then, with a single tag, everything behind is parsed as before; with two, parsing stops at the innermost |
| RhMvpControl.Control.Apply | p4files/rh_mvp.p4:434-491 | the apply block in place leaves the meta of the applied tables in order and the edit of its mod_action; the lemmas of Egress say which port and which bytes that is |
| RhMvpControl.TagDiscipline | p4files/rh_mvp.p4:219-257 | for every frame, pass and table contents, pushes of a C-tag fire only on untagged frames, push_stag and pop_ctag only behind 0x8100, pop_stag and pop_ctag_stag only behind 0x88A8 |
| RhMvpControl.CompiledTagDiscipline | p4files/rh_mvp.s:2029-2113 | the compiled selection keeps the same discipline, also where it differs from the source |
| RhMvpControl.OneGroup | p4files/rh_mvp.p4:434-479 | outside VSI group 1 at most one of the table groups is applied |
| RhMvpControl.PushedTagIsSeen | p4files/rh_mvp.p4:440-445 | for an untagged IPv4 frame whose VSI entry pushes a C-tag, the frame grows by four bytes and the parser sees the tag iff the frame is no tunnel |
| RhMvpControl.TunnelledPushIsLost | p4files/rh_mvp.p4:99-106 | a VXLAN frame in which the control puts the tag at offset 62, in front of the inner EtherType, where the parser does not see it |
| Egress.LastDecides | p4files/rh_mvp.p4:82-93 | of the tables applied to a frame, the last whose action is not NoAction decides on the port |
| Egress.FromHostIp | p4files/rh_mvp.p4:441-445 | an untagged IPv4 frame from a host goes where the destination table says, or else the VSI table, and never where the table of both does; it leaves with the C-tag of the VSI entry at its place, or as it came |
| Egress.FromHostArp | p4files/rh_mvp.p4:453-455 | an untagged ARP frame from a host goes where the ARP table says, with both tags of the entry at their place, or as it came |
| Egress.MuxRequest | p4files/rh_mvp.p4:446-448 | an ARP frame to a group address under an S-tag goes where the request table says, without its first four or eight bytes of tags as the entry asks, or as it came |
| Egress.MuxAnswer | p4files/rh_mvp.p4:449-452 | one to a single address always goes where the VSI table says; the table of destination and VSI decides on the pops only where that one misses |
| Egress.LoopbackSends | p4files/rh_mvp.p4:460-466 | a looped-back frame stays as it is, and goes where the port-mux loopback table says under an S-tag and otherwise always where the destination table says |
| Egress.FromWireArp | p4files/rh_mvp.p4:471-474 | an ARP frame under a C-tag gets the S-tag of its entry in front of it, and goes where the entry says |
| Egress.FromWireIp | p4files/rh_mvp.p4:476-479 | an IPv4 frame under a C-tag loses those four bytes and goes where its entry says |
| Egress.ReceiverSends | p4files/rh_mvp.p4:260-273 | that is the port of the entry for its port, VLAN and destination, or on a miss the management port |
| Egress.MuxSends | p4files/rh_mvp.p4:288-329 | a request goes to the port of the entry for its VSI and inner VLAN, an answer to that for its VSI, and both on a miss to the management port |
| Egress.OthersStay | p4files/rh_mvp.p4:434-491 | a frame that meets none of the chain's guards stays as it is and is sent nowhere |
| Egress.ChannelDecides | p4files/rh_mvp.p4:438-440 | in VSI group 1 the communication channel decides on the port of exactly those frames; every other one leaves as it would outside the group |
| RhMvpControl.OutAndIn | p4files/rh_mvp.p4:260-273 | an untagged IPv4 frame outside a tunnel whose VSI entry pushes a C-tag leaves with that tag, and a receiver hands on the original frame iff its VLAN table has an entry for its port, the pushed VLAN identifier and the destination |
| ArpRoundTrip.ArpOutAndBack | p4files/rh_mvp.p4:288-352 | an untagged ARP frame outside a tunnel whose VSI sends it to the port multiplexer leaves with the configured S-tag outside the configured C-tag; the multiplexer's pass gives the original frame back iff the deciding entry pops both tags, leaves the C-tag when it pops the S-tag, and leaves the frame alone when there is none |
| ArpFromWire.ArpInAndBack | p4files/rh_mvp.p4:272-340 | a C-tagged ARP frame from the wire outside a tunnel gets to the multiplexer with the configured S-tag outside; with one C-tag the original frame goes on iff the deciding entry pops the S-tag alone, one that pops both takes the C-tag off too, and without an entry, or behind two C-tags, the frame stays as it is |
| ArpRoundTrip.DecidingWins | p4files/rh_mvp.p4:447-462 | for a group destination the request table decides by VSI and inner VLAN; otherwise the VSI table decides, and the table of destination and VSI where that one misses |
| FxpRules.MacIntIsBase256 | ipu-plugin/pkg/p4rtclient/p4rtclient.go:157-163 | printing with colons, stripping and parsing in base 16 gives the positional value |
| FxpRules.MacIntOnMacs | ipu-plugin/pkg/p4rtclient/p4rtclient.go:157-163 | below 2^48 and injective on six-byte addresses |
| FxpRules.P4RtClient.AddRules | ipu-plugin/pkg/p4rtclient/p4rtclient.go:53-66 | the loop passes over calls that fail; when none fails it adds exactly the port's entries, absorbs the doubled one and changes no entry that is there; PortTraffic says what those entries do |
| FxpRules.P4RtClient.DeleteRules | ipu-plugin/pkg/p4rtclient/p4rtclient.go:68-81 | the loop passes over calls that fail; when none fails it removes exactly the port's keys |
| FxpRules.AddSomeExactly | ipu-plugin/pkg/p4rtclient/p4rtclient.go:53-66 | whatever calls fail, an add changes no entry and adds just those for which a call went through; the doubled one is kept out only if both its calls fail |
| FxpRules.DeleteUndoesSomeAdd | ipu-plugin/pkg/p4rtclient/p4rtclient.go:53-81 | a delete without failures undoes an add of which any part failed |
| FxpRules.AddAllIsRuleMap | ipu-plugin/pkg/p4rtclient/p4rtclient.go:83-118 | the add sequence, its duplicate included, equals one entry for each table, and PortTraffic.EntriesOf names the eight |
| FxpRules.DelAllIsRuleMap | ipu-plugin/pkg/p4rtclient/p4rtclient.go:120-151 | the delete sequence names the same keys |
| PortTraffic.EntriesOf | ipu-plugin/pkg/p4rtclient/p4rtclient.go:96-116 | the entries of a port by key and action, with a VSI's vport 16 above it |
| PortTraffic.LiveTraffic | ipu-plugin/pkg/p4rtclient/p4rtclient.go:97-106 | in every state in which server and tables agree, packets of a live port's VSI leave with priority 1 and the port's VLAN for the vport 16 above the port multiplexer's VSI, those the multiplexer sends with that VLAN leave without it for the vport 16 above the port's VSI, looped-back ones go to the same two, and on a Linux bridge frames to its address to the latter |
| PortTraffic.RunsCarry | ipu-plugin/pkg/ipuplugin/bridgeport.go:30-180 | so they do after any fair sequence of calls from the start of the server, whatever netlink calls fail |
| PortTraffic.CarriesOnlyLive | ipu-plugin/pkg/p4rtclient/p4rtclient.go:97-116 | and no others: packets of a VSI, for a VSI or with a VLAN are carried iff a live port has it, and frames to an address iff on a Linux bridge a live port has one of the same integer |
| PortTraffic.BackToSender | ipu-plugin/pkg/p4rtclient/p4rtclient.go:97-106 | what the multiplexer sends back with the tag it received goes to the VF that sent the packet and to no other live port's |
| PortTraffic.ExampleTraffic | ipu-plugin/pkg/ipuplugin/bridgeport.go:33-36 | address 00:08:00:00:03:14 with VLAN 5 and multiplexer VSI 3: vport 19 on the way out and 24 on the way back |
| FxpRules.PortsDisjoint | ipu-plugin/pkg/p4rtclient/p4rtclient.go:83-151 | two ports share no entry iff they differ in VSI, in VLAN and, on a Linux bridge, in the integers of their addresses, for all addresses of two to six bytes |
| FxpRules.SixBytesDisjoint | ipu-plugin/pkg/p4rtclient/p4rtclient.go:83-151 | for six-byte addresses VSI and VLAN decide |
| FxpRules.ShortMacsClash | ipu-plugin/pkg/p4rtclient/p4rtclient.go:109-117 | on a Linux bridge a shorter address and the same one behind a zero byte always share an entry |
| FxpRules.ShortMacsExample | ipu-plugin/pkg/p4rtclient/p4rtclient.go:109-117 | so do 1:2 and 0:1:2, whose VSIs are 2 and 1 |
| FxpRules.DeleteUndoesAdd | ipu-plugin/pkg/p4rtclient/p4rtclient.go:53-81 | deleting after adding restores the tables iff no key of the port was there before |
| Text.ParseDecimal | ipu-plugin/pkg/ipuplugin/bridgeport.go:93-98 | a printed number reads back |
| BridgePorts.AtoiOfDecimal | ipu-plugin/pkg/ipuplugin/bridgeport.go:199-206 | so does one printed into a logical bridge name |
| PortAnswers.AtoiExactly | ipu-plugin/pkg/ipuplugin/bridgeport.go:199-206 | a text reads as a given positive number iff it is that number below 2^63 in decimal, with zeros and a plus sign in front or none |
| PortAnswers.AcceptedExactly | ipu-plugin/pkg/ipuplugin/bridgeport.go:37-58 | a request is accepted iff its address has two to six bytes, the second not zero, and its first logical bridge reads as a number from 2 to 4094; which error each other one gets |
| BridgePorts.IntfNameInjective | ipu-plugin/pkg/ipuplugin/bridgeport.go:93-98 | interface names of different ports or VLANs never coincide |
| BridgePorts.Server.CreateBridgePort | ipu-plugin/pkg/ipuplugin/bridgeport.go:30-79 | the handler in place leaves the state and reply of its description, whatever netlink call and whatever call of p4rt-ctl fails |
| BridgePorts.Server.DeleteBridgePort | ipu-plugin/pkg/ipuplugin/bridgeport.go:150-180 | likewise, recomputing the interface name from the stored port |
| BridgePorts.Server.CreateVlanInterface | ipu-plugin/pkg/ipuplugin/bridgeport.go:87-130 | finds or adds the VLAN interface, or fails leaving the links alone |
| BridgePorts.Server.RemoveVlanInterface | ipu-plugin/pkg/ipuplugin/bridgeport.go:132-148 | removes it, taking a failed lookup for success |
| BridgePorts.Server.AddBridgePort | ipu-plugin/pkg/ipuplugin/linuxbridge.go:83-109 | sets the master, then brings the link up, stopping where a call fails |
| BridgePorts.Server.RemoveBridgePort | ipu-plugin/pkg/ipuplugin/linuxbridge.go:111-133 | the reverse |
| PortAnswers.CreateGranted | ipu-plugin/pkg/ipuplugin/bridgeport.go:64-79 | an accepted request for a new port is granted iff the calls it comes to go through and the interface is or becomes a VLAN interface; then the port is stored as asked for and marked up, its interface in the bridge and up, and its rules behind those there were |
| PortAnswers.CreateRefused | ipu-plugin/pkg/ipuplugin/bridgeport.go:64-72 | a refused one leaves ports and rules as they were and the interface as far as the calls got, and is told of a call that failed or of a link of another kind |
| PortAnswers.CreateUnneeded | ipu-plugin/pkg/ipuplugin/bridgeport.go:37-62 | a request that is not accepted, or for a name that is taken, changes nothing, and which of the two answers comes first |
| PortAnswers.DeleteGranted | ipu-plugin/pkg/ipuplugin/bridgeport.go:154-180 | the delete of a live port succeeds iff the calls it comes to go through and the interface is a VLAN interface; then port and rules are gone, and the interface unless its last lookup failed |
| PortAnswers.DeleteRefused | ipu-plugin/pkg/ipuplugin/bridgeport.go:165-173 | a failed one leaves port and rules, and the interface out of the bridge and down as far as the calls got |
| BridgePorts.CreateKeepsInv | ipu-plugin/pkg/ipuplugin/bridgeport.go:30-79 | a create, successful or not, keeps: tables are exactly the disjoint union of the live ports' rules, and every live port has its VLAN interface |
| BridgePorts.DeleteKeepsInv | ipu-plugin/pkg/ipuplugin/bridgeport.go:150-180 | so does a delete |
| BridgePorts.RunsKeepInv | ipu-plugin/pkg/ipuplugin/bridgeport.go:30-180 | over any sequence of calls with any netlink faults, when every accepted create is apart from the other live ports |
| PortRuns.RunsAgree | ipu-plugin/pkg/ipuplugin/bridgeport.go:30-180 | the same from the start of the server, whatever links the host has |
| PortRuns.ServingExactly | ipu-plugin/pkg/ipuplugin/linuxbridge.go:83-133 | after any call a live port's interface is in the bridge and up iff it was and the call was no delete of it that reached the interface, successful or not |
| PortRuns.ServesUntilTakenDown | ipu-plugin/pkg/ipuplugin/linuxbridge.go:83-133 | over runs, a port in service stays live and in service until such a delete |
| PortRuns.CreateServes | ipu-plugin/pkg/ipuplugin/bridgeport.go:56-79 | a create that makes a port puts it in service |
| PortRequests.PortNamesCollide | sriov_cni/cmd/sriov/main.go:231-240 | exactly when two VFs are given the same port name |
| PortRequests.LettersKeepApart | sriov_cni/cmd/sriov/main.go:231-240 | never for PF names that do not end in a digit |
| PortRequests.CollisionIsAnsweredWithOther | ipu-plugin/pkg/ipuplugin/bridgeport.go:60-62 | the second VF of that name is answered with the first one's port and nothing changes |
| PortRequests.EnsPortsShareOne | ipu-plugin/pkg/ipuplugin/bridgeport.go:60-62 | VF 11 of ens1 and VF 1 of ens11, both accepted: the second is answered with the first one's port, and deleting the second takes port and entries from the first |
| PortRequests.RequestAccepted | sriov_cni/cmd/sriov/main.go:226-240 | the server accepts a request iff the address has six bytes with a VSI and the index is at most 4092; its VLAN is the index plus two |
| PortRequests.RequestsApart | sriov_cni/cmd/sriov/main.go:226-240 | two accepted requests share no entry iff the VFs differ in index and VSI |
| PortRequests.RunsAreFairExactly | sriov_cni/cmd/sriov/main.go:221-245 | all runs of requests for a set of VFs are of the kind RunsKeepInv asks for iff any two of them under different names differ in index and VSI |
| BridgePorts.LiveIffInstalled | ipu-plugin/pkg/ipuplugin/bridgeport.go:30-180 | a name is in the store exactly when its rules are installed |
| BridgePorts.DeleteSparesOther | ipu-plugin/pkg/p4rtclient/p4rtclient.go:120-151 | deleting one of two live ports leaves the other its rules iff they differ in VSI, in VLAN and, on a Linux bridge, in the integers of their addresses |
| BridgePorts.CreateRetried | ipu-plugin/pkg/ipuplugin/bridgeport.go:30-79 | a create made again without faults ends as if nothing had failed, reply included |
| BridgePorts.DeleteRetried | ipu-plugin/pkg/ipuplugin/bridgeport.go:150-180 | so does a delete that failed |
| BridgePorts.DeleteLeaks | ipu-plugin/pkg/ipuplugin/bridgeport.go:132-148 | a delete that succeeded equals the fault-free one iff the last lookup did not fail; otherwise the interface is left behind |
| BridgePorts.LeakHeals | ipu-plugin/pkg/ipuplugin/bridgeport.go:106-130 | the next create of the port takes up what was left behind |
| PortFailures.CleanCalls | ipu-plugin/pkg/p4rtclient/p4rtclient.go:53-81 | with no call of p4rt-ctl failing the handlers are those of the agreement |
| PortFailures.CreateStaysWithin | ipu-plugin/pkg/p4rtclient/p4rtclient.go:53-66 | whatever calls fail in a create, the tables hold nothing but rules of live ports, and of the new port's exactly those for which a call went through |
| PortFailures.DeleteStaysWithin | ipu-plugin/pkg/p4rtclient/p4rtclient.go:68-81 | a delete without such failures keeps that, and spares the entries of the others |
| PortFailures.RunsStayWithin | ipu-plugin/pkg/ipuplugin/bridgeport.go:30-180 | over any sequence of calls with any failures in the creates |
| PortFailures.EntriesAsCreated | ipu-plugin/pkg/ipuplugin/bridgeport.go:60-62 | an entry that was not added with its port is not made up for until the port is deleted |
| PortFailures.LeftoverWins | ipu-plugin/pkg/p4rtclient/p4rtclient.go:53-81 | a delete whose first call fails succeeds, forgets the port and leaves the entry, and the next port with that VSI, when it is stored, is sent under the old VLAN |
| Leftovers.EntriesAfter | ipu-plugin/pkg/p4rtclient/p4rtclient.go:53-81 | after any call, whatever fails in it, an entry is there iff it was and no delete of it went through, or an add of it did for a port being stored; and none is changed |
| Leftovers.EntriesExactly | ipu-plugin/pkg/p4rtclient/p4rtclient.go:53-81 | at every point of every run, with any calls failing in creates and deletes and nothing asked of the ports, the entries are exactly those that some create put and no delete has taken since |
| Leftovers.PutStays | ipu-plugin/pkg/p4rtclient/p4rtclient.go:53-66 | and each is the rule of the port it was put for |
| Leftovers.OutlivesByFailedDelete | ipu-plugin/pkg/p4rtclient/p4rtclient.go:68-81 | as long as it is there, that port is stored, or was forgotten by a delete in which every call for the entry failed |
| PortRestart.Recreated | ipu-plugin/pkg/ipuplugin/bridgeport.go:56-79 | after a restart, a port of the earlier life asked for again changes no table, whatever netlink calls fail, and without faults is stored again |
| PortRestart.ForgottenStays | ipu-plugin/pkg/ipuplugin/bridgeport.go:150-160 | one that is not is deleted with success and without effect, and its entries stay |
| PortRestart.RestartAgreesExactly | ipu-plugin/pkg/ipuplugin/bridgeport.go:30-180 | over runs of both, the tables stay as they were, and server, links and tables agree again iff every port of the earlier life is stored again |
| NodeRuns.LeftBehindAfter | sriov_cni/cmd/sriov/main.go:205-361 | whatever fails in a command or death, a port is afterwards left without a record of a live namespace iff it was there, its VF was not covered or lost its record or namespace, and it was neither deleted nor its VF recorded |
| NodeRuns.LeftBehindExactly | sriov_cni/cmd/sriov/main.go:205-361 | at every point of every run of plugin and server, the ports left behind are exactly those whose VF lost its record or namespace at some step, to a delete, a death or an add that misjudged it, and that were neither deleted then or later nor taken up by a later add |
| NodeRuns.RetriesAskNothing | sriov_cni/cmd/sriov/main.go:333-358 | after a delete that failed at the server or got no connection, no delete of the attachment asks again, at any later point of a run, until it is added again |
| NodeRuns.AddServes | sriov_cni/cmd/sriov/main.go:205-249 | an add that gets its port has it live, and as it asked for it unless there was one under the name, which was left behind unless the add dropped the record of a VF in use |
| NodeRuns.DelDrops | sriov_cni/cmd/sriov/main.go:339-358 | a delete that gets to the record and succeeds leaves no port of its VF; one that fails there leaves the port iff the server did not delete it |
| NodeRuns.PortKept | sriov_cni/cmd/sriov/main.go:53-361 | while a VF is held, no command of another attachment, but for an add that misjudges its record, changes its port or takes it out of service |
| NodeRuns.HeldIsServed | sriov_cni/cmd/sriov/main.go:53-361 | from an add that got its port until its VF is freed, whatever fails: the VF is in its pod and recorded, the port live and all its FXP rules installed, and the port its own and in service unless there was one under its name |
| NodeTraffic.HeldTraffic | sriov_cni/cmd/sriov/main.go:226-245 | from an add that got a port of its own until its VF is freed, whatever fails: packets of the VSI in the VF's address leave with the VLAN two above its index for the port multiplexer, and come back with it to the VF |
| LostDelete.PortIsLeft | sriov_cni/cmd/sriov/main.go:333-358 | an add and a delete whose request is lost: the VF is back as before, its port stays, and no retry asks for it to go |
| VfLookup.GetVfid | sriov_cni/pkg/utils/utils.go:80-102 | the least index whose readable link resolves to the address, and GetPciAddress of it gives the address back; an error iff there is none |
| VfLookup.Retry | sriov_cni/pkg/utils/utils.go:394-404 | succeeds iff one of the attempts does, and stops at the first; no retries count as success |
| VfConfig.SriovManager.ApplyVFConfig | sriov_cni/pkg/sriov/sriov.go:220-300 | the attributes it leaves, wherever it stops, which VfOptions.AppliedExactly gives one by one |
| VfConfig.SriovManager.FillOriginalVfInfo | sriov_cni/pkg/sriov/sriov.go:303-316 | succeeds iff the PF and the VF are found, and otherwise leaves what was remembered |
| VfConfig.FillApplyReset | sriov_cni/pkg/sriov/sriov.go:220-373 | the manager that remembers, applies up to any error and resets successfully leaves its VF as it was |
| VfConfig.SriovManager.ResetVFConfig | sriov_cni/pkg/sriov/sriov.go:319-373 | the attributes it leaves, wherever it stops, which VfOptions.ResetExactly gives one by one |
| VfConfig.SriovManager.SetVFHardwareMAC | sriov_cni/pkg/utils/utils.go:336-362 | the rounds of setting the address and reading it back |
| VfConfig.ResetSets | sriov_cni/pkg/sriov/sriov.go:319-373 | a reset that succeeds puts every configured attribute to what is remembered, and no other |
| VfOptions.SetMacExactly | sriov_cni/pkg/utils/utils.go:336-362 | the address is set iff one of twenty rounds sets it, and the call succeeds iff one reads it back and it was written as the library prints it |
| VfOptions.AppliedExactly | sriov_cni/pkg/sriov/sriov.go:220-300 | an apply succeeds iff the PF is found, a configured address is confirmed, no call for a configured attribute fails and the link state is one of three; and each attribute has its configured value iff everything before it and its own call went through, in the order address, rates, spoof checking, trust, link state |
| VfOptions.ApplySets | sriov_cni/pkg/sriov/sriov.go:220-300 | an apply that succeeds leaves the configured address, the configured rates or 0, spoof checking and trust on iff so configured, link state 0, 1 or 2, and everything else as it was |
| VfOptions.ResetExactly | sriov_cni/pkg/sriov/sriov.go:319-373 | the same of a reset, with the remembered values and in the order spoof checking, address, trust, rates, link state |
| VfConfig.ResetUndoesApply | sriov_cni/pkg/sriov/sriov.go:220-373 | remembering, applying up to any error and resetting successfully restores the VF, for every configuration |
| VfConfig.ResetWithoutFill | sriov_cni/cmd/sriov/main.go:94-110 | without remembering, a reset succeeds iff no address is configured, and restores the VF iff every configured attribute was at its zero value |
| VfLinks.LinkManager.SetupVF | sriov_cni/pkg/sriov/sriov.go:62-146 | the links and the remembered address it leaves, wherever it stops; names stay unique |
| VfLinks.LinkManager.ReleaseVF | sriov_cni/pkg/sriov/sriov.go:149-207 | the links it leaves, wherever it stops; names stay unique |
| VfLinks.LinkManager.SetVFEffectiveMAC | sriov_cni/pkg/utils/utils.go:302-333 | the rounds of setting the effective address |
| VfLinks.LinkManager.LinkByName | sriov_cni/pkg/sriov/sriov.go:62-70 | finds the one link with the name in the namespace, if there is one |
| VfLinks.SetupMoves | sriov_cni/pkg/sriov/sriov.go:62-146 | a set-up moves no other link and leaves its own at one of four places; when it succeeds, up and in the pod under its name |
| VfLinks.ReleaseMoves | sriov_cni/pkg/sriov/sriov.go:149-207 | the same of a release; when it succeeds, down and in the initial namespace under the host name |
| LinkMoves.FoundByName | sriov_cni/pkg/sriov/sriov.go:62-174 | both act on the link of that name in the right namespace, and on none when there is none; the address remembered is the one before the set-up |
| LinkMoves.SetupExactly | sriov_cni/pkg/sriov/sriov.go:62-146 | a set-up succeeds iff no call fails, no other link has the temporary name on either side or the pod's name in the pod, the namespace lives and the address is confirmed; and namespace, name, address and state of the link wherever it stops |
| LinkMoves.ReleaseExactly | sriov_cni/pkg/sriov/sriov.go:149-207 | the same of a release |
| VfLinks.ReleaseUndoesSetup | sriov_cni/pkg/sriov/sriov.go:62-207 | a successful set-up and then release restore the links but for the link being down, with or without a configured address |
| VfLinks.ReleaseSucceeds | sriov_cni/pkg/sriov/sriov.go:149-207 | without faults that release succeeds iff no other link of the pod has the host name and, if an address was configured, the original one parses |
| VfLinks.CleanupSparesOthers | sriov_cni/cmd/sriov/main.go:99-111 | the cleanup of a failed add touches no other link if none had the interface name in the pod |
| VfLinks.CleanupTakesAnother | sriov_cni/cmd/sriov/main.go:99-111 | if one had it, the add fails and the cleanup takes that link down |
| CniLifecycle.Plugin.CmdAdd | sriov_cni/cmd/sriov/main.go:53-249 | links, records, cache and result it leaves, for every set of failing calls, with the cleanup that reads the shared error and is skipped by the exit without a connection |
| CniLifecycle.Plugin.CmdDel | sriov_cni/cmd/sriov/main.go:251-361 | likewise, with the shadowed errors; CniAnswers says when it succeeds and what it leaves |
| CniLifecycle.Plugin.CheckAllocated | sriov_cni/pkg/utils/pci_allocator.go:57-92 | a record whose namespace can be opened blocks; one whose namespace is dead or cannot be opened is removed |
| CniAnswers.AllocationExactly | sriov_cni/pkg/utils/pci_allocator.go:57-92 | when the check fails, when it says allocated, and that no record is left when it says free |
| CniAnswers.DelSucceedsExactly | sriov_cni/cmd/sriov/main.go:251-361 | cmdDel succeeds iff there is no cached configuration; or past the address plugin when it is told no namespace; or past the reset when the namespace is dead, or when VF, record and port all go |
| CniAnswers.DelLeavesExactly | sriov_cni/cmd/sriov/main.go:274-361 | its links, records and cache: the configuration is kept iff there was none to read, the address plugin or the removal failed, or the VF came back and then the record or the port did not go |
| CniAnswers.DelRepeats | sriov_cni/cmd/sriov/main.go:259-279 | a delete repeated after one that forgot its configuration, as each does that succeeds with reading and cleaning its cache, succeeds and changes nothing, whatever fails |
| CniAnswers.AddLinksExactly | sriov_cni/cmd/sriov/main.go:53-249 | the links an add leaves: untouched, set up, or released by the cleanup with what was remembered until then |
| CniAnswers.FailedSetupEnds | sriov_cni/cmd/sriov/main.go:99-127 | an add that fails before its link has the pod's name leaves it where the set-up stopped, down, under its temporary name if it got it, as the cleanup looks for the pod's name |
| CniLifecycle.CacheKeyInjective | sriov_cni/pkg/utils/utils.go:241-252 | cached configurations of different attachments have different file names when neither id or neither interface name has a dash |
| CniLifecycle.KeysCollide | sriov_cni/pkg/utils/utils.go:241-252 | exactly when two file names are the same |
| KeyClash.DashesMatter | sriov_cni/pkg/config/config.go:158-178 | two adds whose file names are the same both succeed, and the delete of the first removes the record of the second, which is still in its pod |
| CniLifecycle.FoundIsOwn | sriov_cni/cmd/sriov/main.go:99-106 | in a reachable state, the link found under the interface name is the VF the attachment was added with |
| CniLifecycle.AddKeeps | sriov_cni/cmd/sriov/main.go:53-249 | an add, failing or not, keeps the invariant; and overwrites or removes no record of a live namespace, but where its check cannot open that namespace |
| CniLifecycle.DelKeeps | sriov_cni/cmd/sriov/main.go:251-361 | a delete keeps it and removes such a record only when it has just moved its VF out of that namespace |
| CniOutcomes.DelSafeExactly | sriov_cni/cmd/sriov/main.go:251-361 | in any state with unique names whose records hold, a delete is safe iff, should it get to remove a live record, the VF of that record is the link it found |
| CniOutcomes.CollisionUnsafe | sriov_cni/cmd/sriov/main.go:259-338 | a delete that loads the configuration of another attachment which holds its VF, and gets that far, is unsafe |
| CniLifecycle.RunsAreSafe | sriov_cni/cmd/sriov/main.go:53-361 | both over whole runs of adds, deletes and namespace deaths: the invariant always, safety of every command but such an add |
| CniOutcomes.RunsAreSafeExactly | sriov_cni/cmd/sriov/main.go:53-361 | over whole runs, whatever fails, a command is unsafe iff it is an add whose check drops a record of a live namespace and that does not write the same record again |
| CniLifecycle.AddHolds | sriov_cni/cmd/sriov/main.go:205-213 | a successful add leaves its VF in the pod under the interface name, with its record |
| CniLifecycle.HeldUntilFreed | sriov_cni/pkg/config/config.go:56-72 | from then on nothing takes it away but its own delete, the death of the namespace, or an add of the VF whose check misjudges its record |
| CniLifecycle.MacHeldUntilDeath | sriov_cni/cmd/sriov/main.go:299-305 | a VF added with an address is not released by any delete before its namespace dies or its record is misjudged |
| CniOutcomes.DelFrees | sriov_cni/cmd/sriov/main.go:303-360 | the undisturbed delete of an attachment that holds its VF succeeds iff no address was configured and the host name is free in the pod and on the host; then link, record and configuration are given up |
| CniOutcomes.DelUndoesAdd | sriov_cni/cmd/sriov/main.go:53-361 | after a successful add, an undisturbed delete succeeds iff no address was configured and no other link of the pod has the host name; then all is as before but for the link being down |
| CniOutcomes.DelFreesLater | sriov_cni/cmd/sriov/main.go:53-361 | the same at any later point of a run, whatever other attachments did meanwhile |
| CniOutcomes.AddWrites | sriov_cni/cmd/sriov/main.go:61-249 | exactly when an add writes its configuration and its record, and when it succeeds; what it wrote stays |
| CniOutcomes.AddSafeExactly | sriov_cni/pkg/utils/pci_allocator.go:73-92 | from any state with unique names, an add overwrites or removes no record of a live namespace, iff its check drops none or it writes the same one again |
| CniOutcomes.MisjudgedAdd | sriov_cni/pkg/utils/pci_allocator.go:73-92 | an add of a held VF whose check cannot open the recorded namespace fails and removes the record; the VF stays in its pod, and no delete can get to a record |
| LostRecord.RecordIsLost | sriov_cni/pkg/config/config.go:64-72 | two allowed commands from a reachable start after which that is so |
| CniRetries.RetriesClearNothing | sriov_cni/cmd/sriov/main.go:323-338 | over runs, whatever fails: after a delete that got to the record no delete of the attachment does, until it is added again |
| CniRetries.LostRecordClearsNothing | sriov_cni/cmd/sriov/main.go:323-338 | nor does any after an add dropped the record of the VF the attachment holds |
| CniOutcomes.FailedAddEnds | sriov_cni/cmd/sriov/main.go:99-111 | an add that fails after writing its record strands its VF iff there is no link, or there was a connection, no bridge port came and the cleanup gave the link back; otherwise the link is in the pod, and held when the port came or there was no connection |
| CniOutcomes.GivesBackExactly | sriov_cni/pkg/sriov/sriov.go:149-207 | with nothing failing in the cleanup, it gives the link back iff there is one with a host name that no other link of the pod has, and no address was configured or the VF's own can be set again |
| CniOutcomes.PortlessAddEnds | sriov_cni/cmd/sriov/main.go:205-245 | so an add without its bridge port strands its VF iff it had a connection and that holds of its names and addresses |
| CniOutcomes.FailedPortStrands | sriov_cni/cmd/sriov/main.go:205-245 | in particular when the bridge port failed on a connection and the cleanup worked |
| CniOutcomes.DpdkStrands | sriov_cni/cmd/sriov/main.go:226-229 | an add in DPDK mode never succeeds, and strands its VF iff it gets to write its record |
| CniLifecycle.StrandedUntilDeath | sriov_cni/pkg/utils/pci_allocator.go:57-92 | such a VF is refused to every add, and no delete removes its record, until the namespace dies or the check of an add misjudges it |
| HostNameClash.HostNamesMatter | sriov_cni/cmd/sriov/main.go:99-111 | four commands of which only one adds a VF whose host name is another pod interface name; the last removes the record of another VF that stays in its pod |
| ReAddClash.LeftConfigurationMatters | sriov_cni/cmd/sriov/main.go:190-203 | four commands of which only one adds an attachment with another VF while its configuration is left; the last removes the record of a VF that stays in another pod |
| ReAddClash.LeftLinkMatters | sriov_cni/cmd/sriov/main.go:99-111 | likewise with a link left alone: the add takes that link out of its pod and strands its VF |

## Left out

- Truncated frames and hardware error paths (%ERROR, MIN_BYTES): reads past the end give zero here.
- Protocol slot 200 of some nodes and the CSUM and ASSOC settings of the PTYPE rules: no part of what is compared.
- The result of several lookup hits in one compiled profile: the comparison stops at which tables are looked in, and the
  precedence of their actions is not part of this model.
- The program linux_networking_control, whose tables the FXP rule client fills: PortTraffic takes the actions by their
  names and the comments beside the rules.
- Numbers of mod actions: they are identified by name, because two names share a number in the output.
- Pops of tags that are not there, pop_ctag under two C-tags and pop_ctag_stag of a lone S-tag: the frame is left alone,
  or loses its outermost tag.
- Pass numbers above three: the digest has two bits for them.
- What an unlisted packet type gets from PTYPE_GROUP: taken to be a group that no profile names.
- p4files/lnw_ct.p4 and the older build in p4files/rh_mvp_bk.s.
- One-byte addresses in bridge-port requests: they pass the size check and then have no second octet.
- BridgePorts.RunsKeepInv: asks each accepted create to differ from the other live ports in VSI, in VLAN and, on a Linux
  bridge, in the integer of its address, as DeleteSparesOther shows it must; and takes the calls of p4rt-ctl to succeed.
  PortFailures and Leftovers say what failing calls leave.
- NodeRuns.HeldIsServed: asks that the VFs added differ in port name, and those asked for in index and VSI, which
  PortNamesCollide and RunsAreFairExactly say when; takes the calls of p4rt-ctl to succeed, and PF name and index of a VF
  to stay the same, and the server not to be started again in between; PortRestart has that of the server alone.
- The bridge's own creation, UpdateBridgePort and the read-only handlers; the Open vSwitch bridge, which runs commands.
- Link names longer than the kernel allows, and links that are not VFs.
- VLAN attributes of VFs: setting them is commented out in the source.
- The allocation check and the rest of LoadConf are separate calls that can fail; the checks of its numeric and text
  options are one call that may fail.
- CniLifecycle.RunsAreSafe: asks that the host name of a VF is no pod interface name other than the one it is added
  under, that there are no dashes in container ids or none in interface names, and that an attachment is added again with
  another VF only when neither its configuration nor its link is left; HostNamesMatter, DashesMatter,
  LeftConfigurationMatters and LeftLinkMatters show what becomes of otherwise.  It asks that each container has one
  namespace of its own, and takes every namespace to exist from the start until it dies.
- The invalidation of layer 0 tag headers by pop_stag and pop_ctag_stag in a tunnel, beside the deletes by depth.
- What phy_ingress_vlan_dmac_table does with a tunnelled frame, whose key reads a tag header that is not there: taken to be
  a miss.
- VF attributes in whole runs: apply and reset are calls that may fail, and what they set is in VfConfig alone.
- Overlapping commands, IPAM internals, gRPC connections, the announcement of addresses, sleeps, logging and JSON.
