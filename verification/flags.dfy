/** The options every decode pass receives (`ProcessFlags`) and the four
    guard checks a pass calls on them before it touches the buffer. */
module Flags {
  import opened Outcomes
  import opened Memory

  /** The messages of the guards' `std::runtime_error`s. */
  const NoAutoDetectMessage := "Class does not support AutoDetectEndian"
  const NoProcessDataOutMessage := "Class does not support ProcessDataOut"
  const NoBigEndianMessage := "Class does not support BigEndian"
  const NoLittleEndianMessage := "Class does not support LittleEndian"

  datatype ProcessFlag = AutoDetectEndian | EnsureBigEndian | ProcessDataOut

  /** A set of flags, the address the current structure's offsets are
      relative to, and a caller-defined word (the exclusion bits of the
      container formats). The default is `{AutoDetectEndian}` with a null
      base and no user data. */
  datatype ProcessFlags = ProcessFlags(flags: set<ProcessFlag>, base: Ref, userData: bv32) {

    /** `*this == flag`: the flag is in the set. */
    predicate Has(flag: ProcessFlag) {
      flag in flags
    }

    /** `*this += flag`. */
    function With(flag: ProcessFlag): (r: ProcessFlags)
      ensures r.flags == flags + {flag} && r.base == base && r.userData == userData
    {
      this.(flags := flags + {flag})
    }

    /** `*this -= flag`. */
    function Without(flag: ProcessFlag): (r: ProcessFlags)
      ensures r.flags == flags - {flag} && r.base == base && r.userData == userData
    {
      this.(flags := flags - {flag})
    }

    /** `base = address`. */
    function Rebased(address: int): (r: ProcessFlags)
      ensures r.flags == flags && r.base == At(address) && r.userData == userData
    {
      this.(base := At(address))
    }

    /** Fails exactly when AutoDetectEndian is set. */
    function NoAutoDetect(): (r: Outcome)
      ensures r.Fail? <==> Has(AutoDetectEndian)
      ensures r.Fail? ==> r.error == Runtime(NoAutoDetectMessage)
    {
      if Has(AutoDetectEndian) then Fail(Runtime(NoAutoDetectMessage)) else Pass
    }

    /** Fails exactly when ProcessDataOut is set. */
    function NoProcessDataOut(): (r: Outcome)
      ensures r.Fail? <==> Has(ProcessDataOut)
      ensures r.Fail? ==> r.error == Runtime(NoProcessDataOutMessage)
    {
      if Has(ProcessDataOut) then Fail(Runtime(NoProcessDataOutMessage)) else Pass
    }

    /** Fails exactly when EnsureBigEndian is set. */
    function NoBigEndian(): (r: Outcome)
      ensures r.Fail? <==> Has(EnsureBigEndian)
      ensures r.Fail? ==> r.error == Runtime(NoBigEndianMessage)
    {
      if Has(EnsureBigEndian) then Fail(Runtime(NoBigEndianMessage)) else Pass
    }

    /** Fails exactly when EnsureBigEndian is not set. */
    function NoLittleEndian(): (r: Outcome)
      ensures r.Fail? <==> !Has(EnsureBigEndian)
      ensures r.Fail? ==> r.error == Runtime(NoLittleEndianMessage)
    {
      if !Has(EnsureBigEndian) then Fail(Runtime(NoLittleEndianMessage)) else Pass
    }
  }

  /** `ProcessClass(item)` with no flags given. */
  const DefaultFlags := ProcessFlags({AutoDetectEndian}, Null, 0)

  /** Bit `bit` of the user data: the exclusion flag with that enumerator
      value (`exLoads == ExcludeLoad::X`). */
  predicate Excluded(userData: bv32, bit: nat)
    requires bit < 32
  {
    (userData >> bit) & 1 == 1
  }

  /** Whatever the flags, exactly one of the two byte-order guards passes:
      a pass cannot demand both byte orders and still run. */
  lemma EndianGuardsExclusive(f: ProcessFlags)
    ensures f.NoBigEndian().Pass? <==> f.NoLittleEndian().Fail?
  {
  }

  /** The guards do not depend on `base` or `userData`, and adding or removing
      one flag changes only the guard of that flag. */
  lemma GuardsOnlyReadTheirFlag(f: ProcessFlags, g: ProcessFlag, b: Ref, u: bv32)
    ensures g != AutoDetectEndian ==>
      f.With(g).NoAutoDetect() == f.NoAutoDetect() && f.Without(g).NoAutoDetect() == f.NoAutoDetect()
    ensures g != ProcessDataOut ==>
      f.With(g).NoProcessDataOut() == f.NoProcessDataOut() && f.Without(g).NoProcessDataOut() == f.NoProcessDataOut()
    ensures g != EnsureBigEndian ==>
      f.With(g).NoBigEndian() == f.NoBigEndian() && f.With(g).NoLittleEndian() == f.NoLittleEndian()
    ensures f.(base := b, userData := u).NoAutoDetect() == f.NoAutoDetect()
    ensures f.(base := b, userData := u).NoLittleEndian() == f.NoLittleEndian()
  {
  }
}
