/** Loops of sriov_cni/pkg/utils/utils.go: the search for a VF's index, its inverse, and the retry. */
module VfLookup {

  datatype Result<+T> = Ok(value: T) | Err

  // ---- sysfs ----

  /** A `virtfn` entry of a PF: missing, not a symbolic link, a link that cannot be read, or a link that resolves to a
      PCI address. */
  datatype Entry = Missing | NotALink | Unreadable | LinkTo(addr: string)

  /** A PF's directory: the VF count if it can be read, and the entries. */
  datatype Pf = Pf(numVfs: Result<nat>, entries: map<nat, Entry>) {
    function At(vf: nat): Entry { if vf in entries then entries[vf] else Missing }
  }

  /** `GetPciAddress` */
  function GetPciAddress(pf: Pf, vf: nat): Result<string> {
    match pf.At(vf)
    case Missing => Err
    case NotALink => Err
    case Unreadable => Err
    case LinkTo(addr) => Ok(addr)
  }

  /** `GetVfid`: the least index whose readable link resolves to the address; entries that cannot be read are passed
      over. */
  method GetVfid(pf: Pf, addr: string) returns (r: Result<nat>)
    ensures r.Ok? ==> pf.numVfs.Ok? && r.value < pf.numVfs.value && GetPciAddress(pf, r.value) == Ok(addr)
    ensures r.Ok? ==> forall vf :: 0 <= vf < r.value ==> GetPciAddress(pf, vf) != Ok(addr)
    ensures r.Err? <==> pf.numVfs.Err? || forall vf :: 0 <= vf < pf.numVfs.value ==> GetPciAddress(pf, vf) != Ok(addr)
  {
    if pf.numVfs.Err? {
      return Err;
    }
    for vf := 0 to pf.numVfs.value
      invariant forall i :: 0 <= i < vf ==> GetPciAddress(pf, i) != Ok(addr)
    {
      var entry := pf.At(vf);
      if entry.Missing? {
        continue;
      }
      if !entry.LinkTo? {
        continue;
      }
      if entry.addr == addr {
        return Ok(vf);
      }
    }
    return Err;
  }

  // ---- Retry ----

  /** Whether one of the first `n` attempts succeeds. */
  predicate AnyOf(attempts: nat -> bool, n: nat) { exists i :: 0 <= i < n && attempts(i) }

  /** `Retry`: calls until one succeeds, at most `retries` times.  With no retries it calls nothing and reports no
      error. */
  method Retry(retries: nat, attempts: nat -> bool) returns (ok: bool, calls: nat)
    ensures ok <==> retries == 0 || AnyOf(attempts, retries)
    ensures calls <= retries && forall i :: 0 <= i < calls - 1 ==> !attempts(i)
    ensures calls < retries ==> ok
    ensures calls > 0 ==> (ok <==> attempts(calls - 1))
  {
    ok, calls := true, 0;
    while calls < retries
      invariant calls <= retries && (ok <==> calls == 0)
      invariant forall i :: 0 <= i < calls ==> !attempts(i)
    {
      ok := attempts(calls);
      calls := calls + 1;
      if ok {
        return;
      }
    }
  }
}
