/** The FXP rule client of ipu-plugin/pkg/p4rtclient: the rules of one port, the loops that add and delete them, and how
    the rules of several ports share the eight tables. */
module FxpRules {
  import opened Basics

  // ---- The MAC address as an integer ----

  function HexDigit(d: bv8): char
    requires d < 16
  {
    "0123456789abcdef"[d as nat]
  }

  function HexByte(b: bv8): (s: string)
    ensures |s| == 2
  {
    [HexDigit(b >> 4), HexDigit(b & 0xF)]
  }

  /** `net.HardwareAddr.String`: two hex digits a byte, colons between. */
  function HardwareAddr(mac: Mac): string {
    if mac == [] then ""
    else if |mac| == 1 then HexByte(mac[0])
    else HexByte(mac[0]) + (":" + HardwareAddr(mac[1..]))
  }

  function StripColons(s: string): string {
    if s == "" then "" else (if s[0] == ':' then "" else [s[0]]) + StripColons(s[1..])
  }

  function HexValue(c: char): nat {
    if '0' <= c <= '9' then (c as nat) - ('0' as nat)
    else if 'a' <= c <= 'f' then (c as nat) - ('a' as nat) + 10
    else 0
  }

  /** `strconv.ParseUint(s, 16, 64)` on a string of lower-case hex digits, the only kind that reaches it. */
  function ParseHex(s: string): nat {
    if s == "" then 0 else 16 * ParseHex(s[..|s| - 1]) + HexValue(s[|s| - 1])
  }

  function MacInt(mac: Mac): nat { ParseHex(StripColons(HardwareAddr(mac))) }

  /** The positional value, most significant byte first. */
  function Base256(mac: Mac): nat {
    if mac == [] then 0 else 256 * Base256(mac[..|mac| - 1]) + mac[|mac| - 1] as nat
  }

  function Pow256(n: nat): nat { if n == 0 then 1 else 256 * Pow256(n - 1) }

  /** The digits of a MAC address without separators. */
  function HexDigits(mac: Mac): string {
    if mac == [] then "" else HexByte(mac[0]) + HexDigits(mac[1..])
  }

  lemma StripCons(c: char, s: string)
    ensures StripColons([c] + s) == if c == ':' then StripColons(s) else [c] + StripColons(s)
  {
    assert ([c] + s)[1..] == s;
  }

  lemma HexDigitIsNoColon(d: bv8)
    requires d < 16
    ensures HexDigit(d) != ':'
  {}

  lemma StripHexByte(b: bv8, s: string)
    ensures StripColons(HexByte(b) + s) == HexByte(b) + StripColons(s)
  {
    var hi, lo := HexDigit(b >> 4), HexDigit(b & 0xF);
    Nibbles(b);
    HexDigitIsNoColon(b >> 4);
    HexDigitIsNoColon(b & 0xF);
    assert HexByte(b) + s == [hi] + ([lo] + s);
    StripCons(hi, [lo] + s);
    StripCons(lo, s);
    assert HexByte(b) + StripColons(s) == [hi] + ([lo] + StripColons(s));
  }

  lemma {:induction false} StripHardwareAddr(mac: Mac)
    ensures StripColons(HardwareAddr(mac)) == HexDigits(mac)
  {
    if mac == [] {
    } else if |mac| == 1 {
      StripHexByte(mac[0], "");
      assert HexByte(mac[0]) + "" == HexByte(mac[0]);
      assert HexDigits(mac[1..]) == "";
    } else {
      StripHardwareAddr(mac[1..]);
      StripHexByte(mac[0], ":" + HardwareAddr(mac[1..]));
      StripCons(':', HardwareAddr(mac[1..]));
    }
  }

  lemma {:induction false} HexDigitsSnoc(mac: Mac, b: bv8)
    ensures HexDigits(mac + [b]) == HexDigits(mac) + HexByte(b)
  {
    var s := mac + [b];
    if mac == [] {
      assert s[1..] == [] && HexDigits(s) == HexByte(b) + HexDigits([]);
    } else {
      HexDigitsSnoc(mac[1..], b);
      assert s[1..] == mac[1..] + [b];
      assert HexDigits(s) == HexByte(mac[0]) + (HexDigits(mac[1..]) + HexByte(b));
    }
  }

  lemma ParseSnoc(s: string, c: char)
    ensures ParseHex(s + [c]) == 16 * ParseHex(s) + HexValue(c)
  {
    assert (s + [c])[..|s|] == s;
  }

  lemma HexDigitValue(d: bv8)
    requires d < 16
    ensures HexValue(HexDigit(d)) == d as nat
  {
    var n := d as nat;
    assert n == 0 || n == 1 || n == 2 || n == 3 || n == 4 || n == 5 || n == 6 || n == 7 || n == 8 || n == 9 || n == 10
      || n == 11 || n == 12 || n == 13 || n == 14 || n == 15;
  }

  lemma Nibbles(b: bv8)
    ensures b >> 4 < 16 && b & 0xF < 16
    ensures 16 * ((b >> 4) as nat) + (b & 0xF) as nat == b as nat
  {}

  lemma ParseHexByte(s: string, b: bv8)
    ensures ParseHex(s + HexByte(b)) == 256 * ParseHex(s) + b as nat
  {
    var hi, lo := HexDigit(b >> 4), HexDigit(b & 0xF);
    assert s + HexByte(b) == (s + [hi]) + [lo];
    ParseSnoc(s + [hi], lo);
    ParseSnoc(s, hi);
    Nibbles(b);
    HexDigitValue(b >> 4);
    HexDigitValue(b & 0xF);
  }

  lemma {:induction false} ParseHexDigits(mac: Mac)
    ensures ParseHex(HexDigits(mac)) == Base256(mac)
    decreases |mac|
  {
    if mac != [] {
      var init, b := mac[..|mac| - 1], mac[|mac| - 1];
      ParseHexDigits(init);
      HexDigitsSnoc(init, b);
      assert mac == init + [b];
      ParseHexByte(HexDigits(init), b);
    }
  }

  lemma {:induction false} Base256Bound(mac: Mac)
    ensures Base256(mac) < Pow256(|mac|)
  {
    if mac != [] { Base256Bound(mac[..|mac| - 1]); }
  }

  lemma LastByte(x: nat, b: bv8, y: nat, c: bv8)
    requires 256 * x + b as nat == 256 * y + c as nat
    ensures x == y && b == c
  {
    var m, n := b as nat, c as nat;
    assert m < 256 && n < 256;
    assert x == y;
  }

  lemma {:induction false} Base256Injective(a: Mac, b: Mac)
    requires |a| == |b| && Base256(a) == Base256(b)
    ensures a == b
    decreases |a|
  {
    if a != [] {
      var k := |a| - 1;
      LastByte(Base256(a[..k]), a[k], Base256(b[..k]), b[k]);
      Base256Injective(a[..k], b[..k]);
      assert a == a[..k] + [a[k]] && b == b[..k] + [b[k]];
    }
  }

  /** Printing with colons, stripping them and parsing in base 16 gives the positional value of the bytes. */
  lemma MacIntIsBase256(mac: Mac)
    ensures MacInt(mac) == Base256(mac)
  {
    StripHardwareAddr(mac);
    ParseHexDigits(mac);
  }

  /** On six-byte addresses it is below 2^48 and tells any two apart. */
  lemma MacIntOnMacs(a: Mac, b: Mac)
    requires |a| == 6 && |b| == 6
    ensures MacInt(a) < 0x1_0000_0000_0000
    ensures MacInt(a) == MacInt(b) <==> a == b
  {
    MacIntIsBase256(a);
    MacIntIsBase256(b);
    Base256Bound(a);
    assert Pow256(6) == 256 * Pow256(5) == 256 * 256 * Pow256(4) == 256 * 256 * 256 * Pow256(3);
    if MacInt(a) == MacInt(b) { Base256Injective(a, b); }
  }

  // ---- The rules of one port ----

  datatype Tbl =
    | TxFromHost | RxLoopbackFromHost | VlanPushMod | TxFromOvs | RxLoopbackFromOvs | VlanPopMod | L2FwdTx | SemBypass

  /** A match key: the table and its one or two match fields. */
  datatype Key = Key(table: Tbl, field: nat, vid: nat)

  datatype Act =
    | AddVlanAndSend(vlan: nat, vport: nat) | SetDest(vport: nat) | VlanPush(pcp: nat, dei: nat, vid: nat)
    | RemoveVlanAndSend(vlan: nat, vport: nat) | VlanPop | L2Fwd(vport: nat)

  type Tables = map<Key, Act>

  /** The client's configuration. */
  datatype Config = Config(portMuxVsi: nat, linuxBridge: bool)

  const VSI_TO_VPORT_OFFSET := 16

  function VportForVsi(vsi: nat): nat { vsi + VSI_TO_VPORT_OFFSET }

  predicate ValidSize(mac: Mac) { 1 <= |mac| <= 6 }

  /** The second octet is the VSI number.  A one-byte address passes the size check and has no second octet; it is not
      modelled. */
  function VsiOf(mac: Mac): nat
    requires |mac| >= 2
  {
    mac[1] as nat
  }

  function AddRuleSets(c: Config, mac: Mac, vlan: nat): seq<(Key, Act)>
    requires |mac| != 1
  {
    if !ValidSize(mac) then []
    else
      var vsi := VsiOf(mac);
      var vport, mux := VportForVsi(vsi), VportForVsi(c.portMuxVsi);
      [ (Key(TxFromHost, vsi, 0), AddVlanAndSend(vlan, mux)),
        (Key(TxFromHost, vsi, 0), AddVlanAndSend(vlan, mux)),
        (Key(RxLoopbackFromHost, vsi, 0), SetDest(mux)),
        (Key(VlanPushMod, vlan, 0), VlanPush(1, 0, vlan)),
        (Key(TxFromOvs, c.portMuxVsi, vlan), RemoveVlanAndSend(vlan, vport)),
        (Key(RxLoopbackFromOvs, vsi, 0), SetDest(vport)),
        (Key(VlanPopMod, vlan, 0), VlanPop) ]
      + if c.linuxBridge then
          [ (Key(L2FwdTx, MacInt(mac), 0), L2Fwd(vport)),
            (Key(SemBypass, MacInt(mac), 0), SetDest(vport)) ]
        else []
  }

  function DelRuleSets(c: Config, mac: Mac, vlan: nat): seq<Key>
    requires |mac| != 1
  {
    if !ValidSize(mac) then []
    else
      var vsi := VsiOf(mac);
      [ Key(TxFromHost, vsi, 0),
        Key(RxLoopbackFromHost, vsi, 0),
        Key(VlanPushMod, vlan, 0),
        Key(TxFromOvs, c.portMuxVsi, vlan),
        Key(RxLoopbackFromOvs, vsi, 0),
        Key(VlanPopMod, vlan, 0) ]
      + if c.linuxBridge then [Key(L2FwdTx, MacInt(mac), 0), Key(SemBypass, MacInt(mac), 0)] else []
  }

  /** `p4rt-ctl add-entry`: an entry whose key is already there is refused, and the error is only logged. */
  function AddEntry(t: Tables, k: Key, a: Act): Tables { if k in t then t else t[k := a] }

  /** `p4rt-ctl del-entry` */
  function DelEntry(t: Tables, k: Key): Tables { t - {k} }

  function AddAll(t: Tables, rules: seq<(Key, Act)>): Tables {
    if rules == [] then t
    else
      var r := rules[|rules| - 1];
      AddEntry(AddAll(t, rules[..|rules| - 1]), r.0, r.1)
  }

  function DelAll(t: Tables, keys: seq<Key>): Tables {
    if keys == [] then t else DelEntry(DelAll(t, keys[..|keys| - 1]), keys[|keys| - 1])
  }

  /** The calls of `p4rt-ctl` that fail, by their place in the loop. */
  type Failing = set<nat>

  predicate NoneOf(fails: Failing, n: nat) { forall i :: 0 <= i < n ==> i !in fails }

  /** The add loop: a call that fails is logged and passed over. */
  function AddSome(t: Tables, rules: seq<(Key, Act)>, fails: Failing): Tables {
    if rules == [] then t
    else
      var n := |rules| - 1;
      var u := AddSome(t, rules[..n], fails);
      if n in fails then u else AddEntry(u, rules[n].0, rules[n].1)
  }

  function DelSome(t: Tables, keys: seq<Key>, fails: Failing): Tables {
    if keys == [] then t
    else
      var n := |keys| - 1;
      var u := DelSome(t, keys[..n], fails);
      if n in fails then u else DelEntry(u, keys[n])
  }

  class P4RtClient {
    const config: Config
    var tables: Tables

    constructor (c: Config)
      ensures config == c && tables == map[]
    {
      config, tables := c, map[];
    }

    method AddRules(mac: Mac, vlan: nat, fails: Failing)
      requires |mac| != 1
      modifies `tables
      ensures tables == AddSome(old(tables), AddRuleSets(config, mac, vlan), fails)
      ensures NoneOf(fails, |AddRuleSets(config, mac, vlan)|) ==> tables == RuleMap(config, mac, vlan) + old(tables)
    {
      var rules := AddRuleSets(config, mac, vlan);
      for i := 0 to |rules|
        invariant tables == AddSome(old(tables), rules[..i], fails)
      {
        assert rules[..i + 1][..i] == rules[..i];
        if i !in fails {
          tables := AddEntry(tables, rules[i].0, rules[i].1);
        }
      }
      assert rules[..|rules|] == rules;
      if NoneOf(fails, |rules|) {
        AddSomeIsAll(old(tables), rules, fails);
        AddAllIsRuleMap(config, mac, vlan, old(tables));
      }
    }

    method DeleteRules(mac: Mac, vlan: nat, fails: Failing)
      requires |mac| != 1
      modifies `tables
      ensures tables == DelSome(old(tables), DelRuleSets(config, mac, vlan), fails)
      ensures NoneOf(fails, |DelRuleSets(config, mac, vlan)|) ==>
        tables == old(tables) - RuleMap(config, mac, vlan).Keys
    {
      var keys := DelRuleSets(config, mac, vlan);
      for i := 0 to |keys|
        invariant tables == DelSome(old(tables), keys[..i], fails)
      {
        assert keys[..i + 1][..i] == keys[..i];
        if i !in fails {
          tables := DelEntry(tables, keys[i]);
        }
      }
      assert keys[..|keys|] == keys;
      if NoneOf(fails, |keys|) {
        DelSomeIsAll(old(tables), keys, fails);
        DelAllIsRuleMap(config, mac, vlan, old(tables));
      }
    }
  }

  lemma {:induction false} AddSomeIsAll(t: Tables, rules: seq<(Key, Act)>, fails: Failing)
    requires NoneOf(fails, |rules|)
    ensures AddSome(t, rules, fails) == AddAll(t, rules)
  {
    if rules != [] { AddSomeIsAll(t, rules[..|rules| - 1], fails); }
  }

  lemma {:induction false} DelSomeIsAll(t: Tables, keys: seq<Key>, fails: Failing)
    requires NoneOf(fails, |keys|)
    ensures DelSome(t, keys, fails) == DelAll(t, keys)
  {
    if keys != [] { DelSomeIsAll(t, keys[..|keys| - 1], fails); }
  }

  /** The entries a port owns, one for each of the eight tables, or the first six when the bridge is not a Linux one. */
  function RuleMap(c: Config, mac: Mac, vlan: nat): Tables
    requires |mac| != 1
  {
    if !ValidSize(mac) then map[]
    else
      var vsi := VsiOf(mac);
      var vport, mux := VportForVsi(vsi), VportForVsi(c.portMuxVsi);
      map[ Key(TxFromHost, vsi, 0) := AddVlanAndSend(vlan, mux),
           Key(RxLoopbackFromHost, vsi, 0) := SetDest(mux),
           Key(VlanPushMod, vlan, 0) := VlanPush(1, 0, vlan),
           Key(TxFromOvs, c.portMuxVsi, vlan) := RemoveVlanAndSend(vlan, vport),
           Key(RxLoopbackFromOvs, vsi, 0) := SetDest(vport),
           Key(VlanPopMod, vlan, 0) := VlanPop ]
      + if c.linuxBridge then
          map[ Key(L2FwdTx, MacInt(mac), 0) := L2Fwd(vport),
               Key(SemBypass, MacInt(mac), 0) := SetDest(vport) ]
        else map[]
  }

  lemma {:induction false} AddAllMembers(t: Tables, rules: seq<(Key, Act)>, m: Tables)
    requires forall i :: 0 <= i < |rules| ==> rules[i].0 in m && m[rules[i].0] == rules[i].1
    ensures var u := AddAll(t, rules);
      && (forall k :: k in u ==> k in t || k in m)
      && (forall k :: k in t ==> k in u && u[k] == t[k])
      && (forall k :: k in u && k !in t ==> u[k] == m[k])
      && (forall i :: 0 <= i < |rules| ==> rules[i].0 in u)
  {
    if rules != [] {
      AddAllMembers(t, rules[..|rules| - 1], m);
    }
  }

  lemma {:induction false} DelAllMembers(t: Tables, keys: seq<Key>)
    ensures DelAll(t, keys) == t - (set i | 0 <= i < |keys| :: keys[i])
  {
    if keys != [] {
      var init := keys[..|keys| - 1];
      DelAllMembers(t, init);
      assert (set i | 0 <= i < |keys| :: keys[i]) == (set i | 0 <= i < |init| :: init[i]) + {keys[|keys| - 1]};
    }
  }

  lemma RulesCoverMap(c: Config, mac: Mac, vlan: nat)
    requires |mac| != 1 && ValidSize(mac)
    ensures var rules, m := AddRuleSets(c, mac, vlan), RuleMap(c, mac, vlan);
      forall k :: k in m ==> exists i :: 0 <= i < |rules| && rules[i].0 == k
  {
    var rules, m := AddRuleSets(c, mac, vlan), RuleMap(c, mac, vlan);
    forall k | k in m ensures exists i :: 0 <= i < |rules| && rules[i].0 == k {
      var i := match k.table
        case TxFromHost => 0 case RxLoopbackFromHost => 2 case VlanPushMod => 3 case TxFromOvs => 4
        case RxLoopbackFromOvs => 5 case VlanPopMod => 6 case L2FwdTx => 7 case SemBypass => 8;
      assert rules[i].0 == k;
    }
  }

  lemma RulesInMap(c: Config, mac: Mac, vlan: nat)
    requires |mac| != 1
    ensures var rules, m := AddRuleSets(c, mac, vlan), RuleMap(c, mac, vlan);
      forall i :: 0 <= i < |rules| ==> rules[i].0 in m && m[rules[i].0] == rules[i].1
  {}

  /** Adding the rules, the doubled one included, adds the port's entries and changes no entry that is there. */
  lemma AddAllIsRuleMap(c: Config, mac: Mac, vlan: nat, t: Tables)
    requires |mac| != 1
    ensures AddAll(t, AddRuleSets(c, mac, vlan)) == RuleMap(c, mac, vlan) + t
  {
    var rules, m := AddRuleSets(c, mac, vlan), RuleMap(c, mac, vlan);
    RulesInMap(c, mac, vlan);
    AddAllMembers(t, rules, m);
    if ValidSize(mac) { RulesCoverMap(c, mac, vlan); }
    MergedIsSum(AddAll(t, rules), m, t);
  }

  lemma MergedIsSum(u: Tables, m: Tables, t: Tables)
    requires forall k :: k in u <==> k in t || k in m
    requires forall k :: k in t ==> u[k] == t[k]
    requires forall k :: k in u && k !in t ==> u[k] == m[k]
    ensures u == m + t
  {}

  /** Deleting removes exactly the port's keys. */
  lemma DelAllIsRuleMap(c: Config, mac: Mac, vlan: nat, t: Tables)
    requires |mac| != 1
    ensures DelAll(t, DelRuleSets(c, mac, vlan)) == t - RuleMap(c, mac, vlan).Keys
  {
    var keys, m := DelRuleSets(c, mac, vlan), RuleMap(c, mac, vlan);
    DelAllMembers(t, keys);
    var ks := set i | 0 <= i < |keys| :: keys[i];
    forall k ensures k in ks <==> k in m {
      if k in m {
        var i := match k.table
          case TxFromHost => 0 case RxLoopbackFromHost => 1 case VlanPushMod => 2 case TxFromOvs => 3
          case RxLoopbackFromOvs => 4 case VlanPopMod => 5 case L2FwdTx => 6 case SemBypass => 7;
        assert keys[i] == k;
      }
    }
  }

  // ---- Several ports ----

  lemma RuleKeys(c: Config, mac: Mac, vlan: nat, k: Key)
    requires 2 <= |mac| <= 6
    ensures k in RuleMap(c, mac, vlan) <==>
      match k.table
      case TxFromHost => k == Key(TxFromHost, VsiOf(mac), 0)
      case RxLoopbackFromHost => k == Key(RxLoopbackFromHost, VsiOf(mac), 0)
      case VlanPushMod => k == Key(VlanPushMod, vlan, 0)
      case TxFromOvs => k == Key(TxFromOvs, c.portMuxVsi, vlan)
      case RxLoopbackFromOvs => k == Key(RxLoopbackFromOvs, VsiOf(mac), 0)
      case VlanPopMod => k == Key(VlanPopMod, vlan, 0)
      case L2FwdTx => c.linuxBridge && k == Key(L2FwdTx, MacInt(mac), 0)
      case SemBypass => c.linuxBridge && k == Key(SemBypass, MacInt(mac), 0)
  {}

  lemma SharedKey(c: Config, a: Mac, v: nat, b: Mac, w: nat, k: Key)
    requires 2 <= |a| <= 6 && 2 <= |b| <= 6 && k in RuleMap(c, a, v) && k in RuleMap(c, b, w)
    ensures VsiOf(a) == VsiOf(b) || v == w || (c.linuxBridge && MacInt(a) == MacInt(b))
  {
    RuleKeys(c, a, v, k);
    RuleKeys(c, b, w, k);
  }

  /** Two ports share no entry exactly when they differ in VSI and in VLAN and, on a Linux bridge, in the integer of
      their address. */
  lemma PortsDisjoint(c: Config, a: Mac, v: nat, b: Mac, w: nat)
    requires 2 <= |a| <= 6 && 2 <= |b| <= 6
    ensures RuleMap(c, a, v).Keys !! RuleMap(c, b, w).Keys
       <==> VsiOf(a) != VsiOf(b) && v != w && (c.linuxBridge ==> MacInt(a) != MacInt(b))
  {
    var m, n := RuleMap(c, a, v), RuleMap(c, b, w);
    var k := if VsiOf(a) == VsiOf(b) then Key(TxFromHost, VsiOf(a), 0)
             else if v == w then Key(VlanPopMod, v, 0) else Key(L2FwdTx, MacInt(a), 0);
    RuleKeys(c, a, v, k);
    RuleKeys(c, b, w, k);
    if k in m && k in n {
      assert k in m.Keys * n.Keys;
    } else {
      forall x | x in m.Keys ensures x !in n.Keys {
        if x in n { SharedKey(c, a, v, b, w, x); }
      }
    }
  }

  /** For addresses of six bytes the last condition follows from the first. */
  lemma SixBytesDisjoint(c: Config, a: Mac, v: nat, b: Mac, w: nat)
    requires |a| == 6 && |b| == 6
    ensures RuleMap(c, a, v).Keys !! RuleMap(c, b, w).Keys <==> VsiOf(a) != VsiOf(b) && v != w
  {
    PortsDisjoint(c, a, v, b, w);
    MacIntOnMacs(a, b);
  }

  lemma {:induction false} LeadingZero(mac: Mac)
    ensures Base256([0] + mac) == Base256(mac)
    decreases |mac|
  {
    var z := [0] + mac;
    if mac == [] {
      assert z == [0] && z[..0] == [];
    } else {
      LeadingZero(mac[..|mac| - 1]);
      assert z[..|z| - 1] == [0] + mac[..|mac| - 1] && z[|z| - 1] == mac[|mac| - 1];
    }
  }

  /** For shorter ones it does not, as a leading zero is lost in the integer: such two addresses always clash on a Linux
      bridge, also when their second bytes differ, as for 1:2 and 0:1:2. */
  lemma ShortMacsClash(c: Config, a: Mac, v: nat, w: nat)
    requires c.linuxBridge && 2 <= |a| <= 5
    ensures MacInt([0] + a) == MacInt(a) && !(RuleMap(c, a, v).Keys !! RuleMap(c, [0] + a, w).Keys)
  {
    MacIntIsBase256(a);
    MacIntIsBase256([0] + a);
    LeadingZero(a);
    PortsDisjoint(c, a, v, [0] + a, w);
  }

  lemma ShortMacsExample(c: Config, v: nat, w: nat)
    requires c.linuxBridge
    ensures VsiOf([1, 2]) == 2 && VsiOf([0, 1, 2]) == 1
    ensures !(RuleMap(c, [1, 2], v).Keys !! RuleMap(c, [0, 1, 2], w).Keys)
  {
    ShortMacsClash(c, [1, 2], v, w);
    assert [0] + [1, 2] == [0, 1, 2];
  }

  /** Deleting after adding restores the tables exactly when no key of the port was there before. */
  lemma DeleteUndoesAdd(c: Config, mac: Mac, vlan: nat, t: Tables)
    requires |mac| != 1
    ensures var m := RuleMap(c, mac, vlan); (m + t) - m.Keys == t <==> m.Keys !! t.Keys
  {
    var m := RuleMap(c, mac, vlan);
    if m.Keys !! t.Keys {
      assert (m + t) - m.Keys == t;
    } else {
      var k :| k in m.Keys && k in t.Keys;
      assert k !in (m + t) - m.Keys;
    }
  }

  // ---- Calls that fail ----

  /** Some call for the key went through. */
  predicate Came(k: Key, rules: seq<(Key, Act)>, fails: Failing) {
    exists i :: 0 <= i < |rules| && i !in fails && rules[i].0 == k
  }

  lemma {:induction false} AddSomeMembers(t: Tables, rules: seq<(Key, Act)>, fails: Failing, m: Tables, k: Key)
    requires forall i :: 0 <= i < |rules| ==> rules[i].0 in m && m[rules[i].0] == rules[i].1
    ensures var u := AddSome(t, rules, fails);
      && (k in u <==> k in t || Came(k, rules, fails))
      && (k in t ==> k in u && u[k] == t[k])
      && (k in u && k !in t ==> k in m && u[k] == m[k])
  {
    if rules != [] {
      var n := |rules| - 1;
      var init := rules[..n];
      AddSomeMembers(t, init, fails, m, k);
      if Came(k, init, fails) {
        var i :| 0 <= i < |init| && i !in fails && init[i].0 == k;
        assert rules[i].0 == k;
      }
      if Came(k, rules, fails) && !(n !in fails && rules[n].0 == k) {
        var i :| 0 <= i < |rules| && i !in fails && rules[i].0 == k;
        assert init[i].0 == k;
      }
    }
  }

  /** Whatever calls fail, an add changes no entry that is there and adds just those of the port's entries for which a
      call went through; the first one has two calls, so only the failure of both keeps it out. */
  lemma AddSomeExactly(c: Config, mac: Mac, vlan: nat, t: Tables, fails: Failing, k: Key)
    requires |mac| != 1
    ensures var u, m := AddSome(t, AddRuleSets(c, mac, vlan), fails), RuleMap(c, mac, vlan);
      && (k in u <==> k in t || Came(k, AddRuleSets(c, mac, vlan), fails))
      && (k in t ==> k in u && u[k] == t[k])
      && (k in u && k !in t ==> k in m && u[k] == m[k])
    ensures ValidSize(mac) ==>
      (Came(Key(TxFromHost, VsiOf(mac), 0), AddRuleSets(c, mac, vlan), fails) <==> 0 !in fails || 1 !in fails)
  {
    RulesInMap(c, mac, vlan);
    var rules := AddRuleSets(c, mac, vlan);
    AddSomeMembers(t, rules, fails, RuleMap(c, mac, vlan), k);
    if ValidSize(mac) { assert rules[0].0 == rules[1].0 == Key(TxFromHost, VsiOf(mac), 0); }
  }

  /** So a delete in which no call fails undoes any add, however much of it failed, when no key of the port was there
      before. */
  lemma DeleteUndoesSomeAdd(c: Config, mac: Mac, vlan: nat, t: Tables, fails: Failing)
    requires |mac| != 1 && RuleMap(c, mac, vlan).Keys !! t.Keys
    ensures AddSome(t, AddRuleSets(c, mac, vlan), fails) - RuleMap(c, mac, vlan).Keys == t
  {
    var u, m := AddSome(t, AddRuleSets(c, mac, vlan), fails), RuleMap(c, mac, vlan);
    forall k ensures k in u - m.Keys <==> k in t {
      AddSomeExactly(c, mac, vlan, t, fails, k);
      RulesInMap(c, mac, vlan);
    }
    forall k | k in t ensures (u - m.Keys)[k] == t[k] {
      AddSomeExactly(c, mac, vlan, t, fails, k);
    }
  }
}
