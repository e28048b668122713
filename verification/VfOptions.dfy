/** Exactly what the configuration of a VF does, sriov_cni/pkg/sriov/sriov.go, whatever calls fail: when an apply and a
    reset succeed, and which value every attribute then has, or is left with where they stopped. */
module VfOptions {
  import opened Basics
  import opened VfConfig

  /** One of the twenty rounds sets the address; one of them reads it back. */
  predicate SomeSets(attempts: nat -> Attempt) { exists i: nat | i < 20 :: !attempts(i).SetFails? }

  predicate SomeConfirms(attempts: nat -> Attempt) { exists i: nat | i < 20 :: attempts(i).ReadsBack? }

  lemma {:induction false} RoundsFrom(now: Mac, wanted: Mac, canonical: bool, attempts: nat -> Attempt, i: nat)
    requires i <= 20
    ensures Rounds(now, wanted, canonical, attempts, i).0
         == if exists k | i <= k < 20 :: !attempts(k).SetFails? then wanted else now
    ensures Rounds(now, wanted, canonical, attempts, i).1
       <==> canonical && exists k | i <= k < 20 :: attempts(k).ReadsBack?
    decreases 20 - i
  {
    if i < 20 {
      RoundsFrom(now, wanted, canonical, attempts, i + 1);
      RoundsFrom(wanted, wanted, canonical, attempts, i + 1);
      assert attempts(i) == attempts(i);
    }
  }

  /** Setting an address: it is the new one as soon as one round sets it, and the call succeeds exactly when one reads
      it back and it was written as the library prints it. */
  lemma SetMacExactly(a: VfAttrs, text: MacText, f: Faults)
    ensures var (b, ok) := SetMac(a, text, f);
      && (ok <==> text.Address? && text.canonical && SomeConfirms(f.attempts))
      && b == a.(mac := if text.Address? && SomeSets(f.attempts) then text.mac else a.mac)
  {
    if text.Address? { RoundsFrom(a.mac, text.mac, text.canonical, f.attempts, 0); }
  }

  /** The address step succeeds: nothing to set, or an address that is confirmed. */
  predicate Addressed(wanted: bool, text: MacText, f: Faults) {
    !wanted || (text.Address? && text.canonical && SomeConfirms(f.attempts))
  }

  /** The step for one other attribute succeeds: nothing to set, or its call goes through. */
  predicate Stepped(wanted: bool, call: Call, f: Faults) { !wanted || call !in f.calls }

  lemma MacStep(a: VfAttrs, c: Conf, f: Faults)
    ensures ApplyMac(a, c, f)
         == (a.(mac := if c.mac.Address? && SomeSets(f.attempts) then c.mac.mac else a.mac),
             Addressed(!c.mac.NoMac?, c.mac, f))
  {
    hide SetMac;
    SetMacExactly(a, c.mac, f);
  }

  lemma RateStep(a: VfAttrs, c: Conf, f: Faults)
    ensures var (b, ok) := ApplyRate(a, c, f); var rates := c.minRate.Some? || c.maxRate.Some?;
      && (ok <==> Stepped(rates, SetRate, f))
      && b == a.(minRate := if !(ok && rates) then a.minRate else if c.minRate.Some? then c.minRate.value else 0,
                 maxRate := if !(ok && rates) then a.maxRate else if c.maxRate.Some? then c.maxRate.value else 0)
  {}

  lemma SpoofchkStep(a: VfAttrs, c: Conf, f: Faults)
    ensures var (b, ok) := ApplySpoofchk(a, c, f);
      && (ok <==> Stepped(c.spoofchk != "", SetSpoofchk, f))
      && b == a.(spoofchk := if ok && c.spoofchk != "" then c.spoofchk == "on" else a.spoofchk)
  {}

  /** ApplyVFConfig sets the address, the rates, spoof checking, trust and the link state, in this order, and stops at
      the first that fails.  So it succeeds exactly when the PF is found, every configured address can be confirmed, no
      call for a configured attribute fails and the link state is one of three; and each attribute has its configured
      value exactly when everything before it and its own call went through, and otherwise the value it had.  The
      address alone is left set when it is set and not confirmed. */
  lemma AppliedExactly(a: VfAttrs, c: Conf, f: Faults)
    ensures var (b, ok) := Applied(a, c, f);
      var rates := c.minRate.Some? || c.maxRate.Some?;
      var found := FindPf !in f.calls;
      var addressed := found && Addressed(!c.mac.NoMac?, c.mac, f);
      var rated := addressed && Stepped(rates, SetRate, f);
      var checked := rated && Stepped(c.spoofchk != "", SetSpoofchk, f);
      var trusted := checked && Stepped(c.trust != "", SetTrust, f);
      && (ok <==> trusted && (c.linkState in {"", "auto", "enable", "disable"})
                  && Stepped(c.linkState != "", SetState, f))
      && b.mac == (if found && c.mac.Address? && SomeSets(f.attempts) then c.mac.mac else a.mac)
      && b.minRate == (if !(rated && rates) then a.minRate else if c.minRate.Some? then c.minRate.value else 0)
      && b.maxRate == (if !(rated && rates) then a.maxRate else if c.maxRate.Some? then c.maxRate.value else 0)
      && b.spoofchk == (if checked && c.spoofchk != "" then c.spoofchk == "on" else a.spoofchk)
      && b.trust == (if !(trusted && c.trust != "") then a.trust else if c.trust == "on" then 1 else 0)
      && b.linkState == (if !(ok && c.linkState != "") then a.linkState
                         else if c.linkState == "auto" then 0 else if c.linkState == "enable" then 1 else 2)
  {
    hide ApplyMac, ApplyRate, SomeSets, Addressed;
    MacStep(a, c, f);
    var a1 := ApplyMac(a, c, f).0;
    RateStep(a1, c, f);
    var a2 := ApplyRate(a1, c, f).0;
    SpoofchkStep(a2, c, f);
  }

  /** What an apply that succeeds leaves. */
  lemma ApplySets(a: VfAttrs, c: Conf, f: Faults)
    requires Applied(a, c, f).1
    ensures var b := Applied(a, c, f).0; var rates := c.minRate.Some? || c.maxRate.Some?;
      && (if c.mac.NoMac? then b.mac == a.mac else c.mac.Address? && b.mac == c.mac.mac)
      && b.minRate == (if !rates then a.minRate else if c.minRate.Some? then c.minRate.value else 0)
      && b.maxRate == (if !rates then a.maxRate else if c.maxRate.Some? then c.maxRate.value else 0)
      && b.spoofchk == (if c.spoofchk == "" then a.spoofchk else c.spoofchk == "on")
      && b.trust == (if c.trust == "" then a.trust else if c.trust == "on" then 1 else 0)
      && c.linkState in {"", "auto", "enable", "disable"}
      && (c.linkState == "" ==> b.linkState == a.linkState) && (c.linkState == "auto" ==> b.linkState == 0)
      && (c.linkState == "enable" ==> b.linkState == 1) && (c.linkState == "disable" ==> b.linkState == 2)
  {
    hide Applied;
    AppliedExactly(a, c, f);
    if c.mac.Address? { assert SomeConfirms(f.attempts) ==> SomeSets(f.attempts); }
  }

  /** ResetVFConfig puts the remembered values back in another order: spoof checking, the address, trust, the rates and
      the link state; here too each attribute is put back exactly when everything before it and its own call went
      through. */
  lemma ResetExactly(a: VfAttrs, c: Conf, f: Faults)
    ensures var (b, ok) := WasReset(a, c, f); var o := c.orig;
      var rates := c.minRate.Some? || c.maxRate.Some?;
      var checked := FindPf !in f.calls && Stepped(c.spoofchk != "", SetSpoofchk, f);
      var addressed := checked && Addressed(!c.mac.NoMac?, o.adminMac, f);
      var trusted := addressed && Stepped(c.trust != "", SetTrust, f);
      var rated := trusted && Stepped(rates, SetRate, f);
      && (ok <==> rated && Stepped(c.linkState != "", SetState, f))
      && b.spoofchk == (if checked && c.spoofchk != "" then o.spoofchk else a.spoofchk)
      && b.mac == (if checked && !c.mac.NoMac? && o.adminMac.Address? && SomeSets(f.attempts) then o.adminMac.mac
                   else a.mac)
      && b.trust == (if !(trusted && c.trust != "") then a.trust else if o.trust then 1 else 0)
      && b.minRate == (if rated && rates then o.minRate else a.minRate)
      && b.maxRate == (if rated && rates then o.maxRate else a.maxRate)
      && b.linkState == (if ok && c.linkState != "" then o.linkState else a.linkState)
  {
    hide SetMac, SomeSets, SomeConfirms;
    SetMacExactly(if c.spoofchk != "" then a.(spoofchk := c.orig.spoofchk) else a, c.orig.adminMac, f);
  }
}
