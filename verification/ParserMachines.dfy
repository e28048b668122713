/** Both parsers as machines that update their fields in place: the state machine of parser.p4, and the staged
    pipeline that rh_mvp.s programs.  Each is proved against the functions of its module. */
module ParserMachines {
  import opened Basics
  import opened Packets
  import opened IdpfParser
  import opened FxpParser
  import Refinement

  class SourceParser {
    const pkt: Packet
    var state: State
    var cursor: nat
    var depth: nat
    var flags: set<nat>
    var markers: set<nat>
    var hdrs: map<Header, nat>

    constructor (p: Packet)
      ensures pkt == p && state == Start && Out() == EMPTY
    {
      pkt, state := p, Start;
      cursor, depth, flags, markers, hdrs := 0, 0, {}, {}, map[];
    }

    function Out(): View
      reads this
    {
      View(cursor, depth, flags, markers, hdrs)
    }

    method Extract(h: Header, n: nat)
      modifies `cursor, `hdrs
      ensures cursor == old(cursor) + n && hdrs == old(hdrs)[h := old(cursor)]
    {
      hdrs := hdrs[h := cursor];
      cursor := cursor + n;
    }

    method ExtractIpv4Header(d: Depth)
      modifies `cursor, `hdrs
      ensures Out() == ExtractIpv4(pkt, d, old(Out()))
    {
      hdrs := hdrs[NextHdr(d) := cursor + 9];
      var options := OptionBytes(Byte(pkt, cursor) & 0x0F);
      Extract(Ipv4Hdr(d), 20);
      cursor := cursor + options;
    }

    method ExtractTcpHeader()
      modifies `cursor, `hdrs
      ensures Out() == ExtractTcp(pkt, old(Out()))
    {
      var options := OptionBytes(Byte(pkt, cursor + 12) >> 4);
      Extract(TcpHdr, 20);
      cursor := cursor + options;
    }

    method Destination()
      requires state.Start? || state.MacMaybeBc?
      modifies this
      ensures state == SelectEthernet(pkt, old(state), old(cursor))
      ensures Out() == WriteEthernet(old(state), old(Out()))
    {
      var c := cursor;
      match state
      case Start =>
        var w0, w1 := Be16(pkt, c), Be16(pkt, c + 2);
        if w0 == 0xFFFF && w1 == 0xFFFF {
          state := MacMaybeBc;
        } else if w0 & 0x0100 == 0x0100 {
          state := MacMc;
        } else {
          state := MacDone;
        }
      case MacMaybeBc =>
        state := if Be16(pkt, c + 4) == 0xFFFF then MacBc else MacDone;
    }

    method OuterMac()
      requires state.MacBc? || state.MacMc? || state.MacDone?
      modifies this
      ensures state == SelectEthernet(pkt, old(state), old(cursor))
      ensures Out() == WriteEthernet(old(state), old(Out()))
    {
      var c := cursor;
      match state
      case MacBc =>
        flags := flags + {PFLAG_11};
        Extract(MacHdr(D0), 12);
        state := AfterMac(Be16(pkt, c + 12));
      case MacMc =>
        flags := flags + {PFLAG_10};
        state := MacDone;
      case MacDone =>
        Extract(MacHdr(D0), 12);
        state := AfterMac(Be16(pkt, c + 12));
    }

    method OuterTag()
      requires state.STag? || state.CTag?
      modifies this
      ensures state == SelectEthernet(pkt, old(state), old(cursor))
      ensures Out() == WriteEthernet(old(state), old(Out()))
    {
      var c := cursor;
      match state
      case STag =>
        flags := flags + {STAG};
        Extract(VlanExt, 4);
        state := AfterTag(Be16(pkt, c + 4));
      case CTag =>
        markers := markers + {VLAN_D0};
        flags := flags + {EVLAN_8100};
        Extract(VlanExt, 4);
        state := AfterTag(Be16(pkt, c + 4));
    }

    method BehindTags()
      requires state.CTagDouble? || state.Etype?
      modifies this
      ensures state == SelectEthernet(pkt, old(state), old(cursor))
      ensures Out() == WriteEthernet(old(state), old(Out()))
    {
      var c := cursor;
      match state
      case CTagDouble =>
        flags := flags + {VLAN};
        Extract(VlanInt, 4);
        Extract(EtypeHdr(D0), 2);
        state := AfterEtype(D0, Be16(pkt, c + 4));
      case Etype(d) =>
        Extract(EtypeHdr(d), 2);
        state := AfterEtype(d, Be16(pkt, c));
    }

    method InnerMac()
      requires state.Mac1? || state.Mac2? || state.Arp? || state.HdrTooShort?
      modifies this
      ensures state == SelectEthernet(pkt, old(state), old(cursor))
      ensures Out() == WriteEthernet(old(state), old(Out()))
    {
      match state
      case Mac1 =>
        depth := 1;
        markers := markers + {MAC_D1};
        Extract(MacHdr(D1), 12);
        state := Etype(D1);
      case Mac2 =>
        depth := 2;
        Extract(MacHdr(D2), 12);
        state := Etype(D2);
      case Arp =>
        Extract(ArpHdr, 28);
        state := ArpPay;
      case HdrTooShort =>
        flags := flags + {PFLAG_2};
        state := Pay;
    }

    method Ipv4Check()
      requires state.IPv4? || state.CheckFrag?
      modifies this
      ensures state == SelectIpv4(pkt, old(state), old(cursor))
      ensures Out() == WriteIpv4(pkt, old(state), old(Out()))
    {
      var c := cursor;
      match state
      case IPv4(d) =>
        if !d.D0? {
          depth := if d.D1? then 1 else 2;
        }
        markers := markers + {if d.D0? then IPV4_D0 else if d.D1? then IPV4_D1 else IPV4_D2};
        var ihl := Byte(pkt, c) & 0x0F;
        state := if ihl & 0xC == 0 || ihl == 4 then HdrTooShort else CheckFrag(d);
      case CheckFrag(d) =>
        var mf, off := MoreFragments(pkt, c), FragmentOffset(pkt, c);
        if mf == 0 && off == 0 {
          state := NextProto(d);
        } else if mf == 1 && off == 0 {
          state := FragHead(d);
        } else {
          state := Frag(d);
        }
    }

    method Ipv4Extract()
      requires state.NextProto? || state.FragHead? || state.Frag? || state.IpFrag?
      modifies this
      ensures state == SelectIpv4(pkt, old(state), old(cursor))
      ensures Out() == WriteIpv4(pkt, old(state), old(Out()))
    {
      var c := cursor;
      match state
      case NextProto(d) =>
        ExtractIpv4Header(d);
        state := AfterIpv4(d, Byte(pkt, c + 9));
      case FragHead(d) =>
        flags := flags + {if d.D0? then PFLAG_9 else PFLAG_8};
        state := if d.D0? then Frag(D0) else Frag(D1);
      case Frag(d) =>
        ExtractIpv4Header(d);
        state := IpFrag;
      case IpFrag =>
        flags := flags + {PFLAG_9};
        state := Pay;
    }

    method TcpHeaderStates()
      requires state.Tcp? || state.TcpFin? || state.TcpSyn? || state.TcpFinSyn? || state.TcpNoFinSyn?
      modifies this
      ensures state == SelectTransport(pkt, old(state), old(cursor))
      ensures Out() == WriteTransport(pkt, old(state), old(Out()))
    {
      var c := cursor;
      match state
      case Tcp =>
        flags := flags + {TCP};
        state := TcpHeader(pkt, c);
      case TcpFin =>
        flags := flags + {TCP_FIN};
        ExtractTcpHeader();
        state := AfterTcp(pkt, c);
      case TcpSyn =>
        flags := flags + {TCP_SYN};
        ExtractTcpHeader();
        state := AfterTcp(pkt, c);
      case TcpFinSyn =>
        flags := flags + {TCP_FIN};
        flags := flags + {TCP_SYN};
        ExtractTcpHeader();
        state := AfterTcp(pkt, c);
      case TcpNoFinSyn =>
        ExtractTcpHeader();
        state := AfterTcp(pkt, c);
    }

    method TcpFlagStates()
      requires state.TcpRst? || state.TcpAck? || state.TcpRstAck?
      modifies this
      ensures state == SelectTransport(pkt, old(state), old(cursor))
      ensures Out() == WriteTransport(pkt, old(state), old(Out()))
    {
      match state
      case TcpRst =>
        flags := flags + {TCP_RST};
        state := TcpPay;
      case TcpAck =>
        flags := flags + {TCP_ACK};
        state := TcpPay;
      case TcpRstAck =>
        flags := flags + {TCP_RST};
        flags := flags + {TCP_ACK};
        state := TcpPay;
    }

    method UdpStates()
      requires state.Udp? || state.Vxlan?
      modifies this
      ensures state == SelectTransport(pkt, old(state), old(cursor))
      ensures Out() == WriteTransport(pkt, old(state), old(Out()))
    {
      var c := cursor;
      match state
      case Udp(d) =>
        Extract(UdpHdr(d), 8);
        var dport := Be16(pkt, c + 2);
        if dport == UDP_PORT_VXLAN && d.D0? {
          state := Vxlan;
        } else if dport == UDP_PORT_GTPU && !d.D2? {
          state := Gtpu(if d.D0? then Outer else Inner);
        } else {
          state := UdpPay;
        }
      case Vxlan =>
        flags := flags - {TUN_FLAG1_LOW} + {TUN_FLAG1_HIGH};
        markers := markers + {TUN_D0};
        Extract(VxlanHdr, 8);
        state := Mac1;
    }

    method GtpuHeaderStates()
      requires state.Gtpu? || state.GtpuOptNoExt? || state.GtpuOptKeep? || state.GtpuCheckIpVer? || state.GtpuOptExt?
      modifies this
      ensures state == SelectGtpu(pkt, old(state), old(cursor))
      ensures Out() == WriteGtpu(pkt, old(state), old(Out()))
    {
      var c := cursor;
      match state
      case Gtpu(g) =>
        markers := markers + {TUN_D1};
        flags := flags + {GTP};
        Extract(GtpHdr, 8);
        state := AfterGtpu(g, Byte(pkt, c), Byte(pkt, c + 1));
      case GtpuOptNoExt =>
        cursor := cursor + 4;
        state := Pay;
      case GtpuOptKeep(g) =>
        cursor := cursor + 4;
        state := GtpuCheckIpVer(g);
      case GtpuCheckIpVer(_) =>
        state := Pay;
      case GtpuOptExt(g) =>
        cursor := cursor + 3;
        state := AfterOptExt(g, Byte(pkt, c + 3), Byte(pkt, c + 5) >> 4);
    }

    method GtpuExt1States()
      requires state.Ext1Type0? || state.Ext1?
      modifies this
      ensures state == SelectGtpu(pkt, old(state), old(cursor))
      ensures Out() == WriteGtpu(pkt, old(state), old(Out()))
    {
      var c := cursor;
      match state
      case Ext1Type0(g) =>
        if g.Outer? {
          flags := flags + {GTP_EH_PDU};
        }
        cursor := cursor + ExtBytes(pkt, c);
        state := Ext1Next(g);
      case Ext1(g) =>
        cursor := cursor + ExtBytes(pkt, c);
        state := Ext1Next(g);
    }

    method GtpuExt1LinkState()
      requires state.Ext1Type1?
      modifies this
      ensures state == SelectGtpu(pkt, old(state), old(cursor))
      ensures Out() == WriteGtpu(pkt, old(state), old(Out()))
    {
      var g := state.g;
      if g.Outer? {
        flags := flags + {GTP_EH_PDU};
        flags := flags + {GTP_EH_PDU_LINK};
      }
      cursor := cursor + ExtBytes(pkt, cursor);
      state := Ext1Next(g);
    }

    method GtpuExtLastStates()
      requires state.Ext1Next? || state.ExtLast? || state.ExtLastNext? || state.ExtNotRecognized?
      modifies this
      ensures state == SelectGtpu(pkt, old(state), old(cursor))
      ensures Out() == WriteGtpu(pkt, old(state), old(Out()))
    {
      var c := cursor;
      match state
      case Ext1Next(g) =>
        state := AfterExt1(g, Byte(pkt, c));
      case ExtLast(g) =>
        cursor := cursor + ExtBytes(pkt, c);
        state := ExtLastNext(g);
      case ExtLastNext(_) =>
        cursor := cursor + 1;
        state := Pay;
      case ExtNotRecognized =>
        cursor := cursor + 1;
        state := Pay;
    }

    /** One transition. */
    method Step()
      requires !Terminal(state)
      modifies this
      ensures state == Select(pkt, old(state), old(cursor)) && Out() == Write(pkt, old(state), old(Out()))
    {
      if state.Start? || state.MacMaybeBc? {
        Destination();
      } else if state.MacBc? || state.MacMc? || state.MacDone? {
        OuterMac();
      } else if state.STag? || state.CTag? {
        OuterTag();
      } else if state.CTagDouble? || state.Etype? {
        BehindTags();
      } else if state.Mac1? || state.Mac2? || state.Arp? || state.HdrTooShort? {
        InnerMac();
      } else if state.IPv4? || state.CheckFrag? {
        Ipv4Check();
      } else if state.NextProto? || state.FragHead? || state.Frag? || state.IpFrag? {
        Ipv4Extract();
      } else if state.Tcp? || state.TcpFin? || state.TcpSyn? || state.TcpFinSyn? || state.TcpNoFinSyn? {
        TcpHeaderStates();
      } else if state.TcpRst? || state.TcpAck? || state.TcpRstAck? {
        TcpFlagStates();
      } else if state.Udp? || state.Vxlan? {
        UdpStates();
      } else if state.Gtpu? || state.GtpuOptNoExt? || state.GtpuOptKeep? || state.GtpuCheckIpVer? || state.GtpuOptExt? {
        GtpuHeaderStates();
      } else if state.Ext1Type0? || state.Ext1? {
        GtpuExt1States();
      } else if state.Ext1Type1? {
        GtpuExt1LinkState();
      } else {
        GtpuExtLastStates();
      }
    }

    /** The run to acceptance. */
    method Run()
      requires state == Start && Out() == EMPTY
      modifies this
      ensures (state, Out()) == Parse(pkt)
    {
      while !Terminal(state)
        invariant IdpfParser.Run(pkt, state, Out()) == Parse(pkt)
        decreases 25 - Rank(state)
      {
        RankIncreases(pkt, state, cursor);
        Step();
      }
    }
  }

  class StagedParser {
    const pkt: Packet
    var w0: bv16
    var w1: bv16
    var s6: nat
    var s5: nat
    var ho: nat
    var way: nat
    var flags: set<nat>
    var markers: set<nat>
    var slots: map<Header, nat>
    var payload: Option<nat>
    var nodeId: nat
    var done: bool

    constructor (p: Packet)
      ensures pkt == p && Now() == INIT
    {
      pkt := p;
      w0, w1, s6, s5 := 0, 0, 0, 0;
      ho, way, flags, markers, slots := 0, 0, {}, {}, map[];
      payload, nodeId, done := None, 0, false;
    }

    function Now(): Regs
      reads this
    {
      Regs(w0, w1, s6, s5, View(ho, way, flags, markers, slots), payload, nodeId, done)
    }

    method SetSlots(xs: seq<(Header, nat)>)
      requires |xs| <= 2
      modifies `slots
      ensures slots == Record(old(slots), ho, xs)
    {
      for i := 0 to |xs|
        invariant slots == Record(old(slots), ho, xs[..i])
      {
        slots := slots[xs[i].0 := ho + xs[i].1];
      }
      assert xs[..|xs|] == xs;
    }

    method SetFlags(e: Effect)
      modifies `flags, `markers
      ensures flags == (old(flags) - e.flagsOff) + e.flagsOn
      ensures markers == if e.noMarkers then {} else old(markers) + e.markers
    {
      flags := (flags - e.flagsOff) + e.flagsOn;
      markers := if e.noMarkers then {} else markers + e.markers;
    }

    /** The loads of W0 and W1, from the old HO. */
    method Load(e: Effect)
      modifies `w0, `w1
      ensures w0 == if e.w0.Some? then Le16(pkt, ho + e.w0.value) else old(w0)
      ensures w1 == if e.w1.Some? then Le16(pkt, ho + e.w1.value) else old(w1)
    {
      if e.w0.Some? {
        w0 := Le16(pkt, ho + e.w0.value);
      }
      if e.w1.Some? {
        w1 := Le16(pkt, ho + e.w1.value);
      }
    }

    method SetOutcome(e: Effect)
      modifies `payload, `nodeId, `done
      ensures payload == if e.payload.Some? then Some(ho + e.payload.value) else old(payload)
      ensures nodeId == if e.nodeId.Some? then e.nodeId.value else old(nodeId)
      ensures done == e.done
    {
      payload := if e.payload.Some? then Some(ho + e.payload.value) else payload;
      nodeId := if e.nodeId.Some? then e.nodeId.value else nodeId;
      done := e.done;
    }

    /** The state codes and WAY_SEL, and last the advance of HO. */
    method Move(e: Effect)
      modifies `s6, `s5, `way, `ho
      ensures s6 == (if e.s6.Some? then e.s6.value else old(s6)) && s5 == e.s5
      ensures way == if e.way.Some? then e.way.value else old(way)
      ensures ho == old(ho) + AluResult(e.alu, if e.w2.Some? then Le16(pkt, old(ho) + e.w2.value) else 0)
    {
      s6 := if e.s6.Some? then e.s6.value else s6;
      s5 := e.s5;
      way := if e.way.Some? then e.way.value else way;
      ho := ho + AluResult(e.alu, if e.w2.Some? then Le16(pkt, ho + e.w2.value) else 0);
    }

    /** The `set` and `alu` lines of one rule; HO moves last. */
    method Apply(e: Effect)
      requires |e.slots| <= 2
      modifies this
      ensures Now() == Fire(pkt, e, old(Now()))
    {
      SetFlags(e);
      SetSlots(e.slots);
      SetOutcome(e);
      Load(e);
      Move(e);
    }

    /** One stage: the first matching rule acts, and a stage without one does nothing. */
    method RunStage(k: nat)
      modifies this
      ensures Now() == Stage(pkt, k, old(Now()))
    {
      var n := Match(k, w0, w1, s6, s5);
      if n.Some? {
        SlotsFit(n.value);
        Apply(Micro(n.value));
      }
    }

    /** All stages in order, until FLAG_DONE. */
    method Run()
      requires Now() == INIT
      modifies this
      ensures Now() == ParseCompiled(pkt)
    {
      var k := 0;
      while k < STAGES && !done
        invariant k <= STAGES && RunFrom(pkt, k, Now()) == ParseCompiled(pkt)
        decreases STAGES - k
      {
        RunStage(k);
        k := k + 1;
      }
    }
  }

  /** No node sets more than two protocol slots. */
  lemma SlotsFit(n: Node)
    ensures |Micro(n).slots| <= 2
  {}

  /** Both machines on one frame: the pipeline that is loaded onto the card stops where the program's parser accepts. */
  method ParseBoth(p: Packet) returns (source: SourceParser, staged: StagedParser)
    ensures Terminal(source.state) && Refinement.Agrees(staged.Now(), source.state, source.Out())
  {
    source := new SourceParser(p);
    source.Run();
    staged := new StagedParser(p);
    staged.Run();
    Refinement.CompiledRefinesSource(p);
  }
}
