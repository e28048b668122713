/** The administrative configuration of a VF, sriov_cni/pkg/sriov/sriov.go: what ApplyVFConfig sets, what
    FillOriginalVfInfo remembers and what ResetVFConfig puts back, while any netlink call may fail. */
module VfConfig {
  import opened Basics

  /** A MAC address as text: none, text that does not parse, or an address, written as the library prints it or not. */
  datatype MacText = NoMac | Malformed | Address(mac: Mac, canonical: bool)

  /** The attributes of the VF on its PF.  The kernel reports trust as a number. */
  datatype VfAttrs = VfAttrs(mac: Mac, spoofchk: bool, trust: nat, minRate: nat, maxRate: nat, linkState: nat)

  /** `VfState`: the remembered attributes. */
  datatype VfState = VfState(adminMac: MacText, spoofchk: bool, trust: bool, minRate: nat, maxRate: nat, linkState: nat)

  const UNFILLED := VfState(NoMac, false, false, 0, 0, 0)

  /** The options of NetConf that concern the VF; an empty string or `None` leaves the attribute alone. */
  datatype Conf = Conf(
    mac: MacText, minRate: Option<nat>, maxRate: Option<nat>, spoofchk: string, trust: string, linkState: string,
    orig: VfState)

  // ---- Calls that may fail ----

  datatype Call = FindPf | FindVf | SetRate | SetSpoofchk | SetTrust | SetState

  /** One round of setting the address and reading it back. */
  datatype Attempt = SetFails | ReadFails | ReadsOther | ReadsBack

  datatype Faults = Faults(calls: set<Call>, attempts: nat -> Attempt)

  const MAC_RETRIES := 20

  const STATE_AUTO := 0
  const STATE_ENABLE := 1
  const STATE_DISABLE := 2

  // ---- The steps, each on the attributes ----

  /** The address after the rounds from `i` on, and whether one of them confirmed it.  A round that fails after the set
      leaves the new address; an address that is not written as the library prints it is never confirmed. */
  function Rounds(now: Mac, wanted: Mac, canonical: bool, attempts: nat -> Attempt, i: nat): (Mac, bool)
    decreases MAC_RETRIES - i
  {
    if i >= MAC_RETRIES then (now, false)
    else match attempts(i)
      case SetFails => Rounds(now, wanted, canonical, attempts, i + 1)
      case ReadFails => Rounds(wanted, wanted, canonical, attempts, i + 1)
      case ReadsOther => Rounds(wanted, wanted, canonical, attempts, i + 1)
      case ReadsBack => if canonical then (wanted, true) else Rounds(wanted, wanted, canonical, attempts, i + 1)
  }

  /** `SetVFHardwareMAC` */
  function SetMac(a: VfAttrs, text: MacText, f: Faults): (VfAttrs, bool) {
    if !text.Address? then (a, false)
    else
      var (mac, ok) := Rounds(a.mac, text.mac, text.canonical, f.attempts, 0);
      (a.(mac := mac), ok)
  }

  function RateOf(r: Option<nat>): nat { if r.Some? then r.value else 0 }

  predicate RateConfigured(c: Conf) { c.minRate.Some? || c.maxRate.Some? }

  function StateCode(s: string): Option<nat> {
    if s == "auto" then Some(STATE_AUTO) else if s == "enable" then Some(STATE_ENABLE)
    else if s == "disable" then Some(STATE_DISABLE) else None
  }

  function ApplyMac(a: VfAttrs, c: Conf, f: Faults): (VfAttrs, bool) {
    if c.mac.NoMac? then (a, true) else SetMac(a, c.mac, f)
  }

  function ApplyRate(a: VfAttrs, c: Conf, f: Faults): (VfAttrs, bool) {
    if !RateConfigured(c) then (a, true)
    else if SetRate in f.calls then (a, false)
    else (a.(minRate := RateOf(c.minRate), maxRate := RateOf(c.maxRate)), true)
  }

  function ApplySpoofchk(a: VfAttrs, c: Conf, f: Faults): (VfAttrs, bool) {
    if c.spoofchk == "" then (a, true)
    else if SetSpoofchk in f.calls then (a, false)
    else (a.(spoofchk := c.spoofchk == "on"), true)
  }

  function ApplyTrust(a: VfAttrs, c: Conf, f: Faults): (VfAttrs, bool) {
    if c.trust == "" then (a, true)
    else if SetTrust in f.calls then (a, false)
    else (a.(trust := if c.trust == "on" then 1 else 0), true)
  }

  function ApplyState(a: VfAttrs, c: Conf, f: Faults): (VfAttrs, bool) {
    if c.linkState == "" then (a, true)
    else if StateCode(c.linkState).None? || SetState in f.calls then (a, false)
    else (a.(linkState := StateCode(c.linkState).value), true)
  }

  /** The attributes when ApplyVFConfig returns, with or without an error. */
  function Applied(a: VfAttrs, c: Conf, f: Faults): (VfAttrs, bool) {
    if FindPf in f.calls then (a, false)
    else
      var (a, ok) := ApplyMac(a, c, f);
      if !ok then (a, false)
      else
        var (a, ok) := ApplyRate(a, c, f);
        if !ok then (a, false)
        else
          var (a, ok) := ApplySpoofchk(a, c, f);
          if !ok then (a, false)
          else
            var (a, ok) := ApplyTrust(a, c, f);
            if !ok then (a, false) else ApplyState(a, c, f)
  }

  /** `HardwareAddr.String` of an address, as `ParseMAC` takes it: only six, eight or twenty bytes read back. */
  function Printed(mac: Mac): MacText {
    if mac == [] then NoMac else if |mac| in {6, 8, 20} then Address(mac, true) else Malformed
  }

  /** `FillFromVfInfo` */
  function Fill(a: VfAttrs): VfState {
    VfState(Printed(a.mac), a.spoofchk, a.trust != 0, a.minRate, a.maxRate, a.linkState)
  }

  /** The attributes when ResetVFConfig returns. */
  function WasReset(a: VfAttrs, c: Conf, f: Faults): (VfAttrs, bool) {
    if FindPf in f.calls then (a, false)
    else if c.spoofchk != "" && SetSpoofchk in f.calls then (a, false)
    else
      var a := if c.spoofchk != "" then a.(spoofchk := c.orig.spoofchk) else a;
      var (a, ok) := if c.mac.NoMac? then (a, true) else SetMac(a, c.orig.adminMac, f);
      if !ok || (c.trust != "" && SetTrust in f.calls) then (a, false)
      else
        var a := if c.trust != "" then a.(trust := if c.orig.trust then 1 else 0) else a;
        if RateConfigured(c) && SetRate in f.calls then (a, false)
        else
          var a := if RateConfigured(c) then a.(minRate := c.orig.minRate, maxRate := c.orig.maxRate) else a;
          if c.linkState != "" && SetState in f.calls then (a, false)
          else (if c.linkState != "" then a.(linkState := c.orig.linkState) else a, true)
  }

  // ---- The manager ----

  /** The manager acting on one VF: the attributes it changes, and the remembered state it writes. */
  class SriovManager {
    var vf: VfAttrs
    var orig: VfState

    constructor (a: VfAttrs)
      ensures vf == a && orig == UNFILLED
    {
      vf, orig := a, UNFILLED;
    }

    method SetVFHardwareMAC(text: MacText, f: Faults) returns (ok: bool)
      modifies `vf
      ensures (vf, ok) == SetMac(old(vf), text, f)
    {
      if !text.Address? {
        return false;
      }
      var retry := 0;
      while retry < MAC_RETRIES
        invariant retry <= MAC_RETRIES && vf == old(vf).(mac := vf.mac)
        invariant Rounds(vf.mac, text.mac, text.canonical, f.attempts, retry)
               == Rounds(old(vf).mac, text.mac, text.canonical, f.attempts, 0)
      {
        var attempt := f.attempts(retry);
        if !attempt.SetFails? {
          vf := vf.(mac := text.mac);
          if attempt.ReadsBack? && text.canonical {
            return true;
          }
        }
        retry := retry + 1;
      }
      return false;
    }

    method ApplyVFConfig(c: Conf, f: Faults) returns (ok: bool)
      modifies `vf
      ensures (vf, ok) == Applied(old(vf), c, f)
    {
      if FindPf in f.calls {
        return false;
      }
      if !c.mac.NoMac? {
        ok := SetVFHardwareMAC(c.mac, f);
        if !ok {
          return;
        }
      }
      var minTxRate, maxTxRate, rateConfigured := 0, 0, false;
      if c.minRate.Some? {
        minTxRate, rateConfigured := c.minRate.value, true;
      }
      if c.maxRate.Some? {
        maxTxRate, rateConfigured := c.maxRate.value, true;
      }
      if rateConfigured {
        if SetRate in f.calls {
          return false;
        }
        vf := vf.(minRate := minTxRate, maxRate := maxTxRate);
      }
      if c.spoofchk != "" {
        if SetSpoofchk in f.calls {
          return false;
        }
        vf := vf.(spoofchk := c.spoofchk == "on");
      }
      if c.trust != "" {
        if SetTrust in f.calls {
          return false;
        }
        vf := vf.(trust := if c.trust == "on" then 1 else 0);
      }
      if c.linkState != "" {
        var state := StateCode(c.linkState);
        if state.None? || SetState in f.calls {
          return false;
        }
        vf := vf.(linkState := state.value);
      }
      return true;
    }

    /** Without the PF's link or the VF in its list, what was remembered stays. */
    method FillOriginalVfInfo(f: Faults) returns (ok: bool)
      modifies `orig
      ensures ok <==> FindPf !in f.calls && FindVf !in f.calls
      ensures orig == if ok then Fill(vf) else old(orig)
    {
      if FindPf in f.calls {
        return false;
      }
      if FindVf in f.calls {
        return false;
      }
      orig := VfState(Printed(vf.mac), vf.spoofchk, vf.trust != 0, vf.minRate, vf.maxRate, vf.linkState);
      return true;
    }

    method ResetVFConfig(c: Conf, f: Faults) returns (ok: bool)
      modifies `vf
      ensures (vf, ok) == WasReset(old(vf), c.(orig := orig), f)
    {
      if FindPf in f.calls {
        return false;
      }
      if c.spoofchk != "" {
        if SetSpoofchk in f.calls {
          return false;
        }
        vf := vf.(spoofchk := orig.spoofchk);
      }
      if !c.mac.NoMac? {
        ok := SetVFHardwareMAC(orig.adminMac, f);
        if !ok {
          return;
        }
      }
      if c.trust != "" {
        if SetTrust in f.calls {
          return false;
        }
        vf := vf.(trust := if orig.trust then 1 else 0);
      }
      if c.minRate.Some? || c.maxRate.Some? {
        if SetRate in f.calls {
          return false;
        }
        vf := vf.(minRate := orig.minRate, maxRate := orig.maxRate);
      }
      if c.linkState != "" {
        if SetState in f.calls {
          return false;
        }
        vf := vf.(linkState := orig.linkState);
      }
      return true;
    }
  }

  // ---- Undo ----

  /** The same attributes, trust taken as on or off. */
  predicate Same(a: VfAttrs, b: VfAttrs) {
    && a.mac == b.mac && a.spoofchk == b.spoofchk && (a.trust != 0 <==> b.trust != 0)
    && a.minRate == b.minRate && a.maxRate == b.maxRate && a.linkState == b.linkState
  }

  lemma {:induction false} ConfirmedRounds(now: Mac, wanted: Mac, canonical: bool, attempts: nat -> Attempt, i: nat)
    ensures Rounds(now, wanted, canonical, attempts, i).1 ==> Rounds(now, wanted, canonical, attempts, i).0 == wanted
    decreases MAC_RETRIES - i
  {
    if i < MAC_RETRIES {
      ConfirmedRounds(now, wanted, canonical, attempts, i + 1);
      ConfirmedRounds(wanted, wanted, canonical, attempts, i + 1);
    }
  }

  /** Text that is not written as the library prints it is never confirmed. */
  lemma {:induction false} NeverConfirmed(now: Mac, wanted: Mac, attempts: nat -> Attempt, i: nat)
    ensures !Rounds(now, wanted, false, attempts, i).1
    decreases MAC_RETRIES - i
  {
    if i < MAC_RETRIES {
      NeverConfirmed(now, wanted, attempts, i + 1);
      NeverConfirmed(wanted, wanted, attempts, i + 1);
    }
  }

  /** Attributes that no option configures stay as they are, however far an apply got. */
  lemma AppliedTouches(a: VfAttrs, c: Conf, f: Faults)
    ensures var b := Applied(a, c, f).0;
      && (c.mac.NoMac? ==> b.mac == a.mac) && (c.spoofchk == "" ==> b.spoofchk == a.spoofchk)
      && (c.trust == "" ==> b.trust == a.trust) && (c.linkState == "" ==> b.linkState == a.linkState)
      && (!RateConfigured(c) ==> b.minRate == a.minRate && b.maxRate == a.maxRate)
  {}

  /** A reset that succeeds puts every configured attribute to what is remembered, and no other. */
  lemma ResetSets(a: VfAttrs, c: Conf, f: Faults)
    requires WasReset(a, c, f).1
    ensures var b := WasReset(a, c, f).0;
      && (if c.mac.NoMac? then b.mac == a.mac else c.orig.adminMac.Address? && b.mac == c.orig.adminMac.mac)
      && b.spoofchk == (if c.spoofchk == "" then a.spoofchk else c.orig.spoofchk)
      && b.trust == (if c.trust == "" then a.trust else if c.orig.trust then 1 else 0)
      && b.minRate == (if RateConfigured(c) then c.orig.minRate else a.minRate)
      && b.maxRate == (if RateConfigured(c) then c.orig.maxRate else a.maxRate)
      && b.linkState == (if c.linkState == "" then a.linkState else c.orig.linkState)
  {
    var a1 := if c.spoofchk != "" then a.(spoofchk := c.orig.spoofchk) else a;
    if c.orig.adminMac.Address? {
      ConfirmedRounds(a1.mac, c.orig.adminMac.mac, c.orig.adminMac.canonical, f.attempts, 0);
    }
  }

  /** With the state remembered beforehand, a successful reset undoes any apply: whatever options were configured and
      wherever the apply stopped. */
  lemma ResetUndoesApply(a: VfAttrs, c: Conf, f: Faults, g: Faults)
    ensures var filled := c.(orig := Fill(a)); var b := Applied(a, filled, f).0;
      WasReset(b, filled, g).1 ==> Same(WasReset(b, filled, g).0, a)
  {
    var filled := c.(orig := Fill(a));
    var b := Applied(a, filled, f).0;
    AppliedTouches(a, filled, f);
    if WasReset(b, filled, g).1 { ResetSets(b, filled, g); }
  }

  /** What is remembered plays no part in an apply. */
  lemma AppliedIgnoresOrig(a: VfAttrs, c: Conf, f: Faults, o: VfState)
    ensures Applied(a, c.(orig := o), f) == Applied(a, c, f)
  {}

  /** The sequence the commands were written for: remember, apply, later reset.  If the first and the last succeed, the
      VF is as it was, wherever the apply stopped. */
  method FillApplyReset(m: SriovManager, c: Conf, f: Faults, g: Faults, h: Faults) returns (filled: bool, reset: bool)
    modifies m
    ensures filled && reset ==> Same(m.vf, old(m.vf))
    ensures !filled ==> m.vf == old(m.vf) && m.orig == old(m.orig)
    ensures filled <==> FindPf !in f.calls && FindVf !in f.calls
  {
    reset := false;
    filled := m.FillOriginalVfInfo(f);
    if filled {
      AppliedIgnoresOrig(m.vf, c, g, m.orig);
      ResetUndoesApply(m.vf, c, g, h);
      var _ := m.ApplyVFConfig(c, g);
      reset := m.ResetVFConfig(c, h);
    }
  }

  /** A confirming round is all that a reset of the address needs. */
  predicate Confirms(g: Faults) { g.calls == {} && g.attempts(0).ReadsBack? }

  /** The command itself never remembers the state.  Then, with no call failing, a reset succeeds exactly when no
      address is configured; and it restores the VF exactly when every attribute that is configured was at its zero
      value. */
  lemma ResetWithoutFill(a: VfAttrs, c: Conf, f: Faults, g: Faults)
    requires c.orig == UNFILLED && Confirms(g)
    ensures var b := Applied(a, c, f).0;
      && (WasReset(b, c, g).1 <==> c.mac.NoMac?)
      && (c.mac.NoMac? ==>
            (Same(WasReset(b, c, g).0, a) <==>
              && (c.spoofchk != "" ==> !a.spoofchk) && (c.trust != "" ==> a.trust == 0)
              && (RateConfigured(c) ==> a.minRate == 0 && a.maxRate == 0)
              && (c.linkState != "" ==> a.linkState == STATE_AUTO)))
  {
    AppliedTouches(a, c, f);
    var b := Applied(a, c, f).0;
    if WasReset(b, c, g).1 { ResetSets(b, c, g); }
  }
}
