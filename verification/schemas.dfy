/** The request validators of `backend/schemas.py`: bounded integers and
    strings, the VM name and OS normalisation, the action whitelist and the
    credit adjustment range. A rejected request carries the fields that
    failed, in declaration order. */
module Schemas {
  import opened Wrappers
  import opened Text
  import VmManager

  predicate Within(x: int, lo: int, hi: int) {
    lo <= x <= hi
  }

  predicate LengthWithin(s: string, lo: nat, hi: nat) {
    lo <= |s| <= hi
  }

  // ---------------------------------------------------------------- VM fields

  const RamMin := 512
  const RamMax := 16384
  const DiskMin := 10
  const DiskMax := 500
  const CpuMin := 1
  const CpuMax := 8

  /** Removing the separators a VM name may use. */
  function NameCore(v: string): (r: string)
    ensures '-' !in r && '_' !in r
    ensures forall c :: c in r <==> c in v && c != '-' && c != '_'
  {
    RemoveChar(RemoveChar(v, '-'), '_')
  }

  /** The `name` field: 3 to 100 characters, then letters and digits apart
      from hyphens and underscores, stored in lower case. */
  function ValidateName(v: string): (r: Result<string, string>)
    ensures r.Ok? <==> LengthWithin(v, 3, 100) && IsAlnum(NameCore(v))
    ensures r.Ok? ==> |r.value| == |v| && IsLowerAscii(r.value)
    ensures r.Ok? ==> forall i :: 0 <= i < |v| ==> r.value[i] == LowerChar(v[i])
  {
    if !LengthWithin(v, 3, 100) then Err("name")
    else if !IsAlnum(NameCore(v)) then Err("VM name must contain only alphanumeric characters, hyphens, and underscores")
    else
      LowerIsLower(v);
      Ok(Lower(v))
  }

  /** Every character of an accepted name is a letter, a digit, `-` or `_`. */
  lemma ValidateNameCharset(v: string)
    requires ValidateName(v).Ok?
    ensures var n := ValidateName(v).value;
      forall i :: 0 <= i < |n| ==> IsAlnumChar(n[i]) || n[i] == '-' || n[i] == '_'
  {
    var n := ValidateName(v).value;
    forall i | 0 <= i < |n| ensures IsAlnumChar(n[i]) || n[i] == '-' || n[i] == '_' {
      if v[i] != '-' && v[i] != '_' {
        assert v[i] in NameCore(v);
      }
    }
  }

  lemma {:induction false} RemoveCharLower(s: string, c: char)
    requires !IsAlnumChar(c)
    ensures RemoveChar(Lower(s), c) == Lower(RemoveChar(s, c))
    decreases |s|
  {
    if |s| > 0 {
      RemoveCharLower(s[1..], c);
      assert Lower(s)[1..] == Lower(s[1..]);
      assert Lower(s)[0] == c <==> s[0] == c;
      if s[0] != c {
        assert Lower([s[0]] + RemoveChar(s[1..], c)) == [LowerChar(s[0])] + Lower(RemoveChar(s[1..], c));
      }
    }
  }

  lemma IsAlnumLower(s: string)
    ensures IsAlnum(Lower(s)) <==> IsAlnum(s)
  {
  }

  /** Case does not matter to the name check, so validating a stored name
      accepts it unchanged. */
  lemma ValidateNameIgnoresCase(v: string)
    ensures ValidateName(Lower(v)) == ValidateName(v) || (ValidateName(v).Err? && ValidateName(Lower(v)).Err?)
    ensures ValidateName(v).Ok? ==> ValidateName(ValidateName(v).value) == ValidateName(v)
  {
    RemoveCharLower(v, '-');
    RemoveCharLower(RemoveChar(v, '-'), '_');
    IsAlnumLower(NameCore(v));
    LowerIsLower(v);
  }

  const OsTypes: seq<string> := [
    "ubuntu", "ubuntu20", "ubuntu22", "centos", "centos7", "centos8",
    "debian", "debian10", "debian11"]

  /** The `os_type` field: 2 to 50 characters whose lower case form is one of
      the nine known OS names, stored in lower case. */
  function ValidateOsType(v: string): (r: Result<string, string>)
    ensures r.Ok? <==> LengthWithin(v, 2, 50) && Lower(v) in OsTypes
    ensures r.Ok? ==> r.value == Lower(v) && r.value in OsTypes
  {
    if !LengthWithin(v, 2, 50) then Err("os_type")
    else if Lower(v) !in OsTypes then Err("OS type must be one of the known OS names")
    else Ok(Lower(v))
  }

  /** The accepted OS names are exactly the keys of the box table. */
  lemma OsTypesAreBoxKeys()
    ensures (set o | o in OsTypes) == VmManager.BoxTable.Keys
  {
  }

  /** An accepted OS name always has its own entry in the box table, so the
      VM never falls back to the default box. */
  lemma AcceptedOsHasBox(v: string)
    requires ValidateOsType(v).Ok?
    ensures ValidateOsType(v).value in VmManager.BoxTable
    ensures VmManager.BoxFor(v) == VmManager.BoxTable[ValidateOsType(v).value]
  {
    OsTypesAreBoxKeys();
    assert ValidateOsType(v).value in set o | o in OsTypes;
  }

  lemma ValidateOsTypeIdempotent(v: string)
    requires ValidateOsType(v).Ok?
    ensures ValidateOsType(ValidateOsType(v).value) == ValidateOsType(v)
  {
    LowerIsLower(v);
  }

  datatype VmRequest = VmRequest(name: string, osType: string, ramMb: int, diskGb: int, cpuCores: int)

  /** A one-field error list when the field fails, else an empty one. */
  function Flag<T(!new)>(fails: bool, f: T): (r: seq<T>)
    ensures forall g :: g in r <==> fails && g == f
  {
    if fails then [f] else []
  }

  /** The fields of a VM request, in declaration order. */
  datatype VmField = Name | OsType | RamMb | DiskGb | CpuCores

  /** The fields of a VM request that fail, in declaration order. */
  function VmErrors(q: VmRequest): (r: seq<VmField>)
    ensures Name in r <==> ValidateName(q.name).Err?
    ensures OsType in r <==> ValidateOsType(q.osType).Err?
    ensures RamMb in r <==> !Within(q.ramMb, RamMin, RamMax)
    ensures DiskGb in r <==> !Within(q.diskGb, DiskMin, DiskMax)
    ensures CpuCores in r <==> !Within(q.cpuCores, CpuMin, CpuMax)
  {
    Flag(ValidateName(q.name).Err?, Name)
    + Flag(ValidateOsType(q.osType).Err?, OsType)
    + Flag(!Within(q.ramMb, RamMin, RamMax), RamMb)
    + Flag(!Within(q.diskGb, DiskMin, DiskMax), DiskGb)
    + Flag(!Within(q.cpuCores, CpuMin, CpuMax), CpuCores)
  }

  /** `VMCreate(...)`: the normalised request, or every failing field. */
  function ValidateVm(q: VmRequest): (r: Result<VmRequest, seq<VmField>>)
    ensures r.Ok? <==> && ValidateName(q.name).Ok? && ValidateOsType(q.osType).Ok?
                       && Within(q.ramMb, 512, 16384) && Within(q.diskGb, 10, 500) && Within(q.cpuCores, 1, 8)
    ensures r.Ok? ==> && r.value.name == Lower(q.name) && r.value.osType == Lower(q.osType)
                      && r.value.ramMb == q.ramMb && r.value.diskGb == q.diskGb && r.value.cpuCores == q.cpuCores
    ensures r.Err? ==> |r.error| > 0
  {
    var errors := VmErrors(q);
    if errors != [] then Err(errors)
    else
      assert Name !in errors && OsType !in errors;
      Ok(VmRequest(ValidateName(q.name).value, ValidateOsType(q.osType).value, q.ramMb, q.diskGb, q.cpuCores))
  }

  /** A validated request passes validation again unchanged. */
  lemma ValidateVmIdempotent(q: VmRequest)
    requires ValidateVm(q).Ok?
    ensures ValidateVm(ValidateVm(q).value) == ValidateVm(q)
  {
    ValidateNameIgnoresCase(q.name);
    ValidateOsTypeIdempotent(q.osType);
  }

  // ---------------------------------------------------------------- other requests

  const Actions: seq<string> := ["start", "stop", "restart", "destroy"]

  /** `VMAction`: the whole string must be one of the four action words. */
  function ValidateAction(a: string): (r: Result<string, string>)
    ensures r.Ok? <==> a == "start" || a == "stop" || a == "restart" || a == "destroy"
    ensures r.Ok? ==> r.value == a
  {
    if a in Actions then Ok(a) else Err("action")
  }

  datatype CreditAdjustment = CreditAdjustment(userId: int, amount: int, reason: Option<string>)

  /** `CreditAdjustment`: the amount lies within ten thousand either way. */
  function ValidateCreditAdjustment(c: CreditAdjustment): (r: Result<CreditAdjustment, string>)
    ensures r.Ok? <==> -10000 <= c.amount <= 10000
    ensures r.Ok? ==> r.value == c
  {
    if Within(c.amount, -10000, 10000) then Ok(c) else Err("amount")
  }

  datatype UserRequest = UserRequest(username: string, email: string, password: string)

  datatype UserField = Username | Email | Password

  /** The fields of a sign-up request that fail, in declaration order. */
  function UserErrors(u: UserRequest): (r: seq<UserField>)
    ensures Username in r <==> !LengthWithin(u.username, 3, 50)
    ensures Email in r <==> !LengthWithin(u.email, 5, 100)
    ensures Password in r <==> !LengthWithin(u.password, 8, 100)
  {
    Flag(!LengthWithin(u.username, 3, 50), Username)
    + Flag(!LengthWithin(u.email, 5, 100), Email)
    + Flag(!LengthWithin(u.password, 8, 100), Password)
  }

  /** `UserCreate(...)`: the request unchanged, or every failing field. */
  function ValidateUserCreate(u: UserRequest): (r: Result<UserRequest, seq<UserField>>)
    ensures r.Ok? <==> 3 <= |u.username| <= 50 && 5 <= |u.email| <= 100 && 8 <= |u.password| <= 100
    ensures r.Ok? ==> r.value == u
    ensures r.Err? ==> 0 < |r.error| <= 3
  {
    var errors := UserErrors(u);
    if errors != [] then Err(errors)
    else
      assert Username !in errors && Email !in errors && Password !in errors;
      Ok(u)
  }
}
