/** BDAT key/value tables (`source/bdat.cpp`): the decode passes that turn a
    big-endian table file into host order in place, and the lookups that run
    on a decoded table.

    Record layouts (`include/xenolib/bdat.hpp`), as offsets in bytes:
    - Header (36 bytes): id 0, version 4, flags 5, name 6 (16-bit offset),
      kvBlockStride 8, unk1Offset 10 (16-bit offset), unk1Size 12,
      keyValues 14 (16-bit offset), numKeyValues 16, unk3 18, numEncKeys 20,
      encKeys 22..24, strings 24 (32-bit offset), stringsSize 28,
      keyDescs 32 (16-bit offset), numKeyDescs 34.
    - KeyDesc (6 bytes): typeDesc 0, unk 2, name 4, all 16-bit offsets.
    - BaseTypeDesc: baseType 0. TypeDesc: type 1, offset 2 (16 bits).
      ArrayTypeDesc: numItems 4 (16 bits). FlagTypeDesc: index 1, null 2,
      value 4, belongsTo 6 (16-bit offset).
    - Collection: numDatas 0, fileSize 4, then numDatas 32-bit offsets. */
module Bdat {
  import opened Outcomes
  import opened Bytes
  import opened Memory
  import opened Flags
  import BdatCipher

  /** `CompileFourCC("BDAT")` read as a little-endian word. */
  const Id: nat := 0x54414442

  const HeaderSize: nat := 36
  const KeyDescSize: nat := 6
  const FlagTypeDescSize: nat := 8
  const TypeDescSize: nat := 4
  const ArrayTypeDescSize: nat := 6

  /** `BaseType` enumerators. */
  const Default: nat := 1
  const Array: nat := 2
  const Flag: nat := 3

  /** `DataType` enumerators. */
  const U8: nat := 1
  const U16: nat := 2
  const U32: nat := 3
  const I8: nat := 4
  const I16: nat := 5
  const I32: nat := 6
  const StringPtr: nat := 7
  const Float: nat := 8

  /** The header fields `FByteswapper(BDAT::Header)` swaps, in order. The
      first is the two bytes at offset 4 the swapper calls `unk0`; the
      header declaration has `version` and `flags` (one byte each) there. */
  const HeaderSwaps: seq<Field> := [
    Field(4, 2), Field(6, 2), Field(8, 2), Field(10, 2), Field(12, 2), Field(14, 2),
    Field(16, 2), Field(18, 2), Field(20, 2), Field(24, 4), Field(28, 4), Field(32, 2),
    Field(34, 2)]

  /** The header's pointer fields, in the order they are fixed up: name,
      unk1Offset, keyValues, strings, keyDescs. */
  const HeaderPointers: seq<Field> := [Field(6, 2), Field(10, 2), Field(14, 2), Field(24, 4), Field(32, 2)]

  /** The key descriptor's fields: name, unk, typeDesc; swapped and fixed up
      in this order. */
  const KeyDescFields: seq<Field> := [Field(4, 2), Field(2, 2), Field(0, 2)]

  /** `FByteswapper(ArrayTypeDesc)`: numItems, offset. */
  const ArrayTypeDescSwaps: seq<Field> := [Field(4, 2), Field(2, 2)]

  /** `FByteswapper(FlagTypeDesc)`: belongsTo, null, value. */
  const FlagTypeDescSwaps: seq<Field> := [Field(6, 2), Field(2, 2), Field(4, 2)]

  /** The bytes a value of type `t` occupies and `SwapValue` swaps: 2 for
      the 16-bit types, 4 for the 32-bit types, the float and the string
      offset, none for the 8-bit types; any other type is rejected. */
  function ValueSwapWidth(t: nat): (r: Result<nat>)
    ensures r.Ok? <==> U8 <= t <= Float
    ensures r.Err? ==> r.error == Runtime("Unhandled data type")
  {
    if t == I16 || t == U16 then Ok(2)
    else if t == I32 || t == U32 || t == Float || t == StringPtr then Ok(4)
    else if t == I8 || t == U8 then Ok(0)
    else Err(Runtime("Unhandled data type"))
  }

  /** The stride of an array of values of type `t` (`typeLen`). */
  function ArrayItemSize(t: nat): (r: Result<nat>)
    ensures r.Ok? ==> 1 <= r.value <= 4
  {
    if t == I16 || t == U16 then Ok(2)
    else if t == I32 || t == U32 || t == StringPtr || t == Float then Ok(4)
    else if t == I8 || t == U8 then Ok(1)
    else Err(Runtime("Unhandled data type"))
  }

  /** An array item is swapped in place exactly as a single value of its type
      is: both tables accept the same types, with the same error, and agree
      on the width of every type that is swapped at all; the 8-bit types are
      laid out one byte apart and never swapped. */
  lemma ArrayItemsSwapLikeValues(t: nat)
    ensures ArrayItemSize(t).Ok? <==> ValueSwapWidth(t).Ok?
    ensures ArrayItemSize(t).Err? ==> ArrayItemSize(t) == ValueSwapWidth(t)
    ensures ValueSwapWidth(t) == Ok(0) <==> ArrayItemSize(t) == Ok(1)
    ensures ValueSwapWidth(t).Ok? && ValueSwapWidth(t).value > 0 ==> ArrayItemSize(t) == ValueSwapWidth(t)
  {
  }


  /** The assertion `ProcessClass(FlagTypeDesc)` makes after the swap. */
  const NullNotZero: Error := Assertion("item.null == 0")

  /** The errors of the descriptor and value switches. */
  const UndefinedBaseType: Error := Runtime("Undefined base type")
  const UnhandledBaseType: Error := Runtime("Unhandled base data type")

  /** `ProcessClass(FlagTypeDesc)` on the descriptor at `d`, as a function
      of the buffer's bytes and references: the guards, the swap of
      belongsTo, null and value, the check that null is zero, and the fixup
      of belongsTo against `flags.base`. */
  function FlagTypeDescPass(s: seq<byte>, refs: map<nat, Ref>, d: nat, flags: ProcessFlags): (w: Step)
    requires d + FlagTypeDescSize <= |s|
    ensures |w.bytes| == |s|
  {
    if Guards(flags).Fail? then Step(Guards(flags), s, refs)
    else
      var t := SwapEach(s, d, FlagTypeDescSwaps);
      if U(t, d + 2, 2) != 0 then Step(Fail(NullNotZero), t, refs)
      else Step(Pass, t, FixOne(refs, t, d, Field(6, 2), flags.base))
  }

  method ProcessFlagTypeDesc(buf: Buffer, d: nat, flags: ProcessFlags) returns (r: Outcome)
    requires buf.Fits(d, FlagTypeDescSize)
    modifies buf, buf.bytes
    ensures Step(r, buf.bytes[..], buf.refs) == FlagTypeDescPass(old(buf.bytes[..]), old(buf.refs), d, flags)
  {
    r := Guards(flags);
    if r.Fail? {
      return;
    }
    buf.SwapList(d, FlagTypeDescSwaps);
    if U(buf.bytes[..], d + 2, 2) != 0 {
      return Fail(NullNotZero);
    }
    var _ := buf.Fixup(d + 6, 2, flags.base);
    return Pass;
  }

  /** The three guards every table pass starts with, in order: no
      ProcessDataOut, no AutoDetectEndian, and big-endian input; the first
      that fails decides the error. */
  function Guards(flags: ProcessFlags): (r: Outcome)
    ensures r.Fail? ==> r.error.Runtime?
  {
    if flags.NoProcessDataOut().Fail? then flags.NoProcessDataOut()
    else if flags.NoAutoDetect().Fail? then flags.NoAutoDetect()
    else flags.NoLittleEndian()
  }

  predicate GuardsPass(flags: ProcessFlags) {
    Guards(flags).Pass?
  }

  /** The guards pass exactly for big-endian flags without the other two. */
  lemma GuardsPassExactly(flags: ProcessFlags)
    ensures GuardsPass(flags) <==> flags.flags * {AutoDetectEndian, EnsureBigEndian, ProcessDataOut} == {EnsureBigEndian}
  {
    var all := {AutoDetectEndian, EnsureBigEndian, ProcessDataOut};
    if flags.flags * all == {EnsureBigEndian} {
      assert EnsureBigEndian in flags.flags * all;
      assert AutoDetectEndian !in flags.flags * all && ProcessDataOut !in flags.flags * all;
    }
    if GuardsPass(flags) {
      forall g: ProcessFlag
        ensures g in flags.flags * all <==> g == EnsureBigEndian
      {
        match g
        case AutoDetectEndian =>
        case EnsureBigEndian =>
        case ProcessDataOut =>
      }
      assert flags.flags * all == {EnsureBigEndian};
    }
  }

  /** `ProcessClass(BaseTypeDesc)` on the descriptor at `d`: after the
      guards, a Default descriptor has its offset swapped, an Array
      descriptor its item count and offset, a Flag descriptor is processed
      as one, and any other base type is rejected. */
  function BaseTypeDescPass(s: seq<byte>, refs: map<nat, Ref>, d: int, flags: ProcessFlags): (w: Step)
    ensures |w.bytes| == |s|
  {
    if Guards(flags).Fail? then Step(Guards(flags), s, refs)
    else if !(0 <= d < |s|) then Step(Fail(OutOfBounds), s, refs)
    else
      var bt := s[d] as nat;
      if bt == Default then
        if d + TypeDescSize <= |s| then Step(Pass, SwapAt(s, d + 2, 2), refs) else Step(Fail(OutOfBounds), s, refs)
      else if bt == Array then
        if d + ArrayTypeDescSize <= |s| then Step(Pass, SwapEach(s, d, ArrayTypeDescSwaps), refs)
        else Step(Fail(OutOfBounds), s, refs)
      else if bt == Flag then
        if d + FlagTypeDescSize <= |s| then FlagTypeDescPass(s, refs, d, flags) else Step(Fail(OutOfBounds), s, refs)
      else Step(Fail(UndefinedBaseType), s, refs)
  }

  /** A type descriptor pass changes no byte outside the largest type
      descriptor at `d`. */
  lemma BaseTypeDescBytes(s: seq<byte>, refs: map<nat, Ref>, d: int, flags: ProcessFlags)
    ensures var w := BaseTypeDescPass(s, refs, d, flags);
            forall i :: 0 <= i < |s| && w.bytes[i] != s[i] ==> 0 <= d <= i < d + FlagTypeDescSize
  {
    if GuardsPass(flags) && 0 <= d < |s| {
      var bt := s[d] as nat;
      if bt == Default && d + TypeDescSize <= |s| {
        SwapAtBytes(s, d + 2, 2);
      } else if bt == Array && d + ArrayTypeDescSize <= |s| {
        RecordFrame(s, d, ArrayTypeDescSwaps, ArrayTypeDescSize, FlagTypeDescSize);
      } else if bt == Flag && d + FlagTypeDescSize <= |s| {
        RecordFrame(s, d, FlagTypeDescSwaps, FlagTypeDescSize, FlagTypeDescSize);
      }
    }
  }

  /** A type descriptor pass changes no reference but that of a flag
      descriptor's belongsTo field, and it passes only on a base type the
      library knows. */
  lemma BaseTypeDescRefs(s: seq<byte>, refs: map<nat, Ref>, d: int, flags: ProcessFlags)
    ensures var w := BaseTypeDescPass(s, refs, d, flags);
            && (forall q :: q in w.refs && (q !in refs || w.refs[q] != refs[q]) ==> q == d + 6 && s[d] as nat == Flag)
            && (w.outcome.Pass? ==> 0 <= d < |s| && s[d] as nat in {Default, Array, Flag})
  {
  }

  /** The swaps of a record of `size` bytes at `d` change no byte outside
      the `bound` bytes from `d`. */
  lemma RecordFrame(s: seq<byte>, d: nat, fs: seq<Field>, size: nat, bound: nat)
    requires size <= bound && d + size <= |s| && FieldsFit(d, fs, d + size)
    ensures FieldsFit(d, fs, |s|)
    ensures forall i :: 0 <= i < |s| && SwapEach(s, d, fs)[i] != s[i] ==> d <= i < d + bound
  {
    forall i | 0 <= i < |s| && !(d <= i < d + size)
      ensures SwapEach(s, d, fs)[i] == s[i]
    {
      SwapEachFrame(s, d, fs, size, i);
    }
  }

  method ProcessBaseTypeDesc(buf: Buffer, d: int, flags: ProcessFlags) returns (r: Outcome)
    modifies buf, buf.bytes
    ensures Step(r, buf.bytes[..], buf.refs) == BaseTypeDescPass(old(buf.bytes[..]), old(buf.refs), d, flags)
  {
    r := Guards(flags);
    if r.Fail? {
      return;
    }
    if !buf.Fits(d, 1) {
      return Fail(OutOfBounds);
    }
    var bt := buf.bytes[d] as nat;
    if bt == Default {
      r := buf.Swap(d + 2, 2);
    } else if bt == Array {
      if !buf.Fits(d, ArrayTypeDescSize) {
        return Fail(OutOfBounds);
      }
      buf.SwapList(d, ArrayTypeDescSwaps);
      r := Pass;
    } else if bt == Flag {
      if !buf.Fits(d, FlagTypeDescSize) {
        return Fail(OutOfBounds);
      }
      r := ProcessFlagTypeDesc(buf, d, flags);
    } else {
      r := Fail(UndefinedBaseType);
    }
  }

  /** `ProcessClass(KeyDesc)` on the descriptor at `d`: after the guards,
      the descriptor's three offsets are swapped and fixed up against
      `flags.base`, and the type descriptor `typeDesc` now refers to is
      processed. */
  function KeyDescPass(s: seq<byte>, refs: map<nat, Ref>, d: int, flags: ProcessFlags): (w: Step)
    ensures |w.bytes| == |s|
  {
    if Guards(flags).Fail? then Step(Guards(flags), s, refs)
    else if !(0 <= d && d + KeyDescSize <= |s|) then Step(Fail(OutOfBounds), s, refs)
    else
      var t := SwapEach(s, d, KeyDescFields);
      var refs1 := FixEach(refs, t, d, KeyDescFields, flags.base);
      match RefOf(refs1, d)
      case Null => Step(Fail(NullReference), t, refs1)
      case Wild => Step(Fail(WildReference), t, refs1)
      case At(td) => BaseTypeDescPass(t, refs1, td, flags)
  }

  /** The type descriptor the typeDesc field of the key descriptor at `d`
      refers to once the descriptor is swapped and fixed up. */
  function TypeDescOf(s: seq<byte>, d: nat, flags: ProcessFlags): Ref
    requires d + KeyDescSize <= |s|
  {
    Resolve(flags.base, I(SwapEach(s, d, KeyDescFields), d, 2))
  }

  /** The typeDesc field of the key descriptor at `d` refers, once swapped
      and added to `flags.base`, to a byte of the buffer holding a known
      base type. */
  predicate KnownTypeDesc(s: seq<byte>, d: nat, flags: ProcessFlags)
    requires d + KeyDescSize <= |s|
  {
    && TypeDescOf(s, d, flags).At?
    && 0 <= TypeDescOf(s, d, flags).addr < |s|
    && SwapEach(s, d, KeyDescFields)[TypeDescOf(s, d, flags).addr] as nat in {Default, Array, Flag}
  }

  /** A key descriptor pass that succeeds found, behind the swapped typeDesc
      offset added to `flags.base`, a type descriptor of a known base type. */
  lemma KeyDescPassFound(s: seq<byte>, refs: map<nat, Ref>, d: int, flags: ProcessFlags)
    ensures KeyDescPass(s, refs, d, flags).outcome.Pass? ==>
              GuardsPass(flags) && 0 <= d && d + KeyDescSize <= |s| && KnownTypeDesc(s, d, flags)
  {
    var w := KeyDescPass(s, refs, d, flags);
    if w.outcome.Pass? {
      var t := SwapEach(s, d, KeyDescFields);
      var refs1 := FixEach(refs, t, d, KeyDescFields, flags.base);
      TypeDescResolved(s, refs, d, flags);
      BaseTypeDescRefs(t, refs1, TypeDescOf(s, d, flags).addr, flags);
    }
  }

  /** Whether it succeeds or not, a key descriptor pass changes no byte
      outside the key descriptor and the type descriptor its typeDesc field
      refers to. */
  lemma KeyDescPassFrame(s: seq<byte>, refs: map<nat, Ref>, d: int, flags: ProcessFlags)
    ensures var w := KeyDescPass(s, refs, d, flags);
            forall i :: 0 <= i < |s| && w.bytes[i] != s[i] ==>
              && 0 <= d && d + KeyDescSize <= |s|
              && (d <= i < d + KeyDescSize ||
                  (TypeDescOf(s, d, flags).At? && TypeDescOf(s, d, flags).addr <= i < TypeDescOf(s, d, flags).addr + FlagTypeDescSize))
  {
    if GuardsPass(flags) && 0 <= d && d + KeyDescSize <= |s| {
      var t := SwapEach(s, d, KeyDescFields);
      var refs1 := FixEach(refs, t, d, KeyDescFields, flags.base);
      TypeDescResolved(s, refs, d, flags);
      RecordFrame(s, d, KeyDescFields, KeyDescSize, KeyDescSize);
      var td := TypeDescOf(s, d, flags);
      if td.At? {
        BaseTypeDescBytes(t, refs1, td.addr, flags);
      }
    }
  }

  /** After the key descriptor's fixups its typeDesc field holds
      `TypeDescOf`. */
  lemma TypeDescResolved(s: seq<byte>, refs: map<nat, Ref>, d: nat, flags: ProcessFlags)
    requires d + KeyDescSize <= |s|
    ensures RefOf(FixEach(refs, SwapEach(s, d, KeyDescFields), d, KeyDescFields, flags.base), d) == TypeDescOf(s, d, flags)
  {
    assert d + 0 == d + KeyDescFields[2].offset;
    FixEachListed(refs, SwapEach(s, d, KeyDescFields), d, KeyDescFields, flags.base, 2);
  }

  method ProcessKeyDesc(buf: Buffer, d: int, flags: ProcessFlags) returns (r: Outcome)
    modifies buf, buf.bytes
    ensures Step(r, buf.bytes[..], buf.refs) == KeyDescPass(old(buf.bytes[..]), old(buf.refs), d, flags)
  {
    r := Guards(flags);
    if r.Fail? {
      return;
    }
    if !buf.Fits(d, KeyDescSize) {
      return Fail(OutOfBounds);
    }
    buf.SwapList(d, KeyDescFields);
    buf.FixupList(d, KeyDescFields, flags.base);
    match buf.RefAt(d)
    case Null => return Fail(NullReference);
    case Wild => return Fail(WildReference);
    case At(t) =>
      r := ProcessBaseTypeDesc(buf, t, flags);
  }

  /** The address `n` bytes past `r`. Pointer arithmetic on a null or
      meaningless pointer gives one that cannot be followed either. */
  function Advance(r: Ref, n: int): (q: Ref)
    ensures q.At? <==> r.At?
    ensures q.At? ==> q.addr == r.addr + n
    ensures !q.At? ==> q == r
  {
    match r
    case At(a) => At(a + n)
    case _ => r
  }

  /** `SwapValue` on the value of type `t` at `at`: a rejected type or an
      8-bit type changes nothing; otherwise the value is swapped when `at`
      can be followed, and a string offset is then fixed up against
      `base`. */
  function ValueStep(t: nat, at: Ref, base: Ref, s: seq<byte>, refs: map<nat, Ref>): (w: Step)
    ensures |w.bytes| == |s|
  {
    match ValueSwapWidth(t)
    case Err(e) => Step(Fail(e), s, refs)
    case Ok(n) =>
      if n == 0 then Step(Pass, s, refs)
      else match Follow(at, n, |s|)
        case Err(e) => Step(Fail(e), s, refs)
        case Ok(a) =>
          var s' := SwapAt(s, a, n);
          Step(Pass, s', if t == StringPtr then refs[a := Resolve(base, I(s', a, 4))] else refs)
  }

  /** A swapped value reads, in host order, as the big-endian value that
      was stored; nothing else changes, and a failed swap changes nothing. */
  lemma ValueStepMeaning(t: nat, at: Ref, base: Ref, s: seq<byte>, refs: map<nat, Ref>)
    requires ValueSwapWidth(t).Ok? && ValueSwapWidth(t).value > 0
    ensures var n := ValueSwapWidth(t).value;
            var w := ValueStep(t, at, base, s, refs);
            && (w.outcome.Pass? <==> at.At? && 0 <= at.addr && at.addr + n <= |s|)
            && (w.outcome.Fail? ==> w.bytes == s && w.refs == refs)
            && (w.outcome.Pass? ==>
                  && U(w.bytes, at.addr, n) == ReadBE(s[at.addr..at.addr + n])
                  && (forall i :: 0 <= i < |s| && !(at.addr <= i < at.addr + n) ==> w.bytes[i] == s[i])
                  && (t == StringPtr ==> w.refs == refs[at.addr := Resolve(base, I(w.bytes, at.addr, 4))])
                  && (t != StringPtr ==> w.refs == refs))
  {
    var n := ValueSwapWidth(t).value;
    if at.At? && 0 <= at.addr && at.addr + n <= |s| {
      ReadAfterSwap(s, at.addr, n);
      SwapAtBytes(s, at.addr, n);
    }
  }

  /** `SwapValue(itemOffset)` for a value of type `t` at `at`. */
  method SwapValue(buf: Buffer, t: nat, at: Ref, base: Ref) returns (r: Outcome)
    modifies buf, buf.bytes
    ensures Step(r, buf.bytes[..], buf.refs) == ValueStep(t, at, base, old(buf.bytes[..]), old(buf.refs))
  {
    match ValueSwapWidth(t)
    case Err(e) =>
      return Fail(e);
    case Ok(w) =>
      if w == 0 {
        return Pass;
      }
      match buf.Target(at, w)
      case Err(e) =>
        return Fail(e);
      case Ok(a) =>
        var _ := buf.Swap(a, w);
        if t == StringPtr {
          var _ := buf.Fixup(a, 4, base);
        }
        return Pass;
  }

  /** The fields of `n` consecutive `w`-byte array items. */
  function Items(n: nat, w: nat): (fs: seq<Field>)
    ensures |fs| == n && forall a :: 0 <= a < n ==> fs[a] == Field(a * w, w)
  {
    seq(n, a requires 0 <= a => Field(a * w, w))
  }

  lemma ItemsFit(p: nat, n: nat, w: nat, size: nat)
    requires w > 0 && p + n * w <= size
    ensures FieldsFit(p, Items(n, w), size)
  {
    forall a | 0 <= a < n
      ensures p + a * w + w <= size
    {
      MulSucc(a, w);
      MulMono(a + 1, n, w);
    }
  }

  /** The references after an array of `n` values of type `t` at `p` was
      swapped: each string offset fixed up against `base`. */
  function ArrayRefs(t: nat, refs: map<nat, Ref>, s: seq<byte>, p: nat, n: nat, w: nat, base: Ref): map<nat, Ref>
    requires w > 0 && p + n * w <= |s|
  {
    if t == StringPtr then
      ItemsFit(p, n, w, |s|);
      FixEach(refs, s, p, Items(n, w), base)
    else refs
  }

  /** How many of `n` consecutive `w`-byte items from `p` lie inside a
      buffer of `size` bytes before the first one that does not. */
  function Fitting(p: int, n: nat, w: nat, size: nat): (k: nat)
    requires w > 0
    ensures k <= n
    ensures k > 0 ==> 0 <= p && p + k * w <= size
    ensures k < n ==> !(0 <= p + k * w && p + k * w + w <= size)
    decreases n
  {
    if n == 0 || p < 0 || p + w > size then 0
    else
      var k := Fitting(p + w, n - 1, w, size);
      MulSucc(k, w);
      1 + k
  }

  /** Item `a` is the first that does not fit exactly when `a` items do. */
  lemma FittingIs(p: int, n: nat, w: nat, size: nat, a: nat)
    requires w > 0 && a <= n
    requires a > 0 ==> 0 <= p && p + a * w <= size
    requires a < n ==> !(0 <= p + a * w && p + a * w + w <= size)
    ensures Fitting(p, n, w, size) == a
  {
    var k := Fitting(p, n, w, size);
    if k < a {
      MulSucc(k, w);
      MulMono(k + 1, a, w);
    } else if a < k {
      MulSucc(a, w);
      MulMono(a + 1, k, w);
    }
  }

  /** The array loop `for (a < numItems) SwapValue(a * typeLen)` over `n`
      values of type `t` from `start`: the items of a swapped type form one
      run of swapped words, every string item is fixed up, and the loop
      stops at the first item that lies outside the buffer, with the items
      before it swapped. */
  function ArrayStep(t: nat, start: Ref, n: nat, base: Ref, s: seq<byte>, refs: map<nat, Ref>): (r: Step)
    requires ValueSwapWidth(t).Ok?
    ensures |r.bytes| == |s|
  {
    var w := ValueSwapWidth(t).value;
    if w == 0 || n == 0 then Step(Pass, s, refs)
    else match start
      case At(p) =>
        var k := Fitting(p, n, w, |s|);
        if k == 0 then Step(Fail(OutOfBounds), s, refs)
        else
          var s' := SwapRun(s, p, k, w);
          Step(if k == n then Pass else Fail(OutOfBounds), s', ArrayRefs(t, refs, s', p, k, w, base))
      case _ => Step(Fail(Follow(start, w, |s|).error), s, refs)
  }

  /** An array of a swapped type is swapped whole exactly when all of it
      lies in the buffer; otherwise the pass fails out of bounds. Either
      way no byte outside the array changes. */
  lemma ArrayStepMeaning(t: nat, p: int, n: nat, base: Ref, s: seq<byte>, refs: map<nat, Ref>)
    requires ValueSwapWidth(t).Ok? && ValueSwapWidth(t).value > 0 && n > 0
    ensures var w := ValueSwapWidth(t).value;
            var r := ArrayStep(t, At(p), n, base, s, refs);
            && (r.outcome.Pass? <==> 0 <= p && p + n * w <= |s|)
            && (r.outcome.Fail? ==> r.outcome == Fail(OutOfBounds))
            && (r.outcome.Pass? ==> r.bytes == SwapRun(s, p, n, w) && r.refs == ArrayRefs(t, refs, r.bytes, p, n, w, base))
            && (forall i :: 0 <= i < |s| && !(p <= i < p + n * w) ==> r.bytes[i] == s[i])
  {
    var w := ValueSwapWidth(t).value;
    var k := Fitting(p, n, w, |s|);
    if 0 <= p && p + n * w <= |s| {
      FittingIs(p, n, w, |s|, n);
    }
    if k > 0 {
      SwapRunFrame(s, p, k, w);
      MulMono(k, n, w);
    }
  }

  /** The items of the array are `typeLen` apart. */
  method SwapArrayItems(buf: Buffer, t: nat, start: Ref, n: nat, base: Ref) returns (r: Outcome)
    requires ArrayItemSize(t).Ok?
    modifies buf, buf.bytes
    ensures ValueSwapWidth(t).Ok?
    ensures Step(r, buf.bytes[..], buf.refs) == ArrayStep(t, start, n, base, old(buf.bytes[..]), old(buf.refs))
  {
    ArrayItemsSwapLikeValues(t);
    var w := ValueSwapWidth(t).value;
    ghost var s0, r0 := buf.bytes[..], buf.refs;
    var a := 0;
    while a < n
      invariant 0 <= a <= n
      invariant ArrayProgress(t, start, a, w, base, s0, r0, buf.bytes[..], buf.refs)
    {
      r := SwapArrayItem(buf, t, start, n, a, base, s0, r0);
      if r.Fail? {
        return;
      }
      a := a + 1;
    }
    r := Pass;
    ArrayDone(t, start, n, base, s0, r0, buf.bytes[..], buf.refs, w);
  }

  /** Item `a` of the array loop: `SwapValue(a * typeLen)`. */
  method SwapArrayItem(buf: Buffer, t: nat, start: Ref, n: nat, a: nat, base: Ref, ghost s0: seq<byte>, ghost r0: map<nat, Ref>)
    returns (r: Outcome)
    requires ArrayItemSize(t).Ok? && ValueSwapWidth(t).Ok? && a < n
    requires ArrayProgress(t, start, a, ValueSwapWidth(t).value, base, s0, r0, buf.bytes[..], buf.refs)
    modifies buf, buf.bytes
    ensures r.Pass? ==> ArrayProgress(t, start, a + 1, ValueSwapWidth(t).value, base, s0, r0, buf.bytes[..], buf.refs)
    ensures r.Fail? ==> Step(r, buf.bytes[..], buf.refs) == ArrayStep(t, start, n, base, s0, r0)
  {
    var w := ValueSwapWidth(t).value;
    ghost var before, refsBefore := buf.bytes[..], buf.refs;
    r := SwapValue(buf, t, Advance(start, a * ArrayItemSize(t).value), base);
    if r.Fail? {
      ArrayFailed(t, start, n, base, s0, r0, before, refsBefore, buf.bytes[..], buf.refs, r, a, w);
    } else {
      ArrayAdvanced(t, start, base, s0, r0, before, refsBefore, buf.bytes[..], buf.refs, a, w);
    }
  }

  /** The loop invariant of `SwapArrayItems` after `a` items. */
  predicate ArrayProgress(t: nat, start: Ref, a: nat, w: nat, base: Ref, s0: seq<byte>, r0: map<nat, Ref>,
                          s: seq<byte>, refs: map<nat, Ref>)
  {
    && |s| == |s0|
    && (w == 0 || a == 0 ==> s == s0 && refs == r0)
    && (w > 0 && a > 0 ==>
          && start.At? && 0 <= start.addr && start.addr + a * w <= |s0|
          && s == SwapRun(s0, start.addr, a, w)
          && refs == ArrayRefs(t, r0, s, start.addr, a, w, base))
  }

  lemma ArrayAdvanced(t: nat, start: Ref, base: Ref, s0: seq<byte>, r0: map<nat, Ref>,
                      before: seq<byte>, refsBefore: map<nat, Ref>, s: seq<byte>, refs: map<nat, Ref>, a: nat, w: nat)
    requires ValueSwapWidth(t) == Ok(w) && ArrayItemSize(t).Ok?
    requires ArrayProgress(t, start, a, w, base, s0, r0, before, refsBefore)
    requires Step(Pass, s, refs) == ValueStep(t, Advance(start, a * ArrayItemSize(t).value), base, before, refsBefore)
    ensures ArrayProgress(t, start, a + 1, w, base, s0, r0, s, refs)
  {
    ArrayItemsSwapLikeValues(t);
    if w > 0 {
      assert ArrayItemSize(t).value == w;
      assert start.At? by {
        ValueStepMeaning(t, Advance(start, a * w), base, before, refsBefore);
      }
      SwappedItem(t, start.addr + a * w, w, base, before, refsBefore, s, refs, Pass);
      RunStep(s0, before, start.addr, a, w);
      RefsStep(t, r0, before, refsBefore, refs, start.addr, a, w, base);
    }
  }

  lemma ArrayFailed(t: nat, start: Ref, n: nat, base: Ref, s0: seq<byte>, r0: map<nat, Ref>,
                    before: seq<byte>, refsBefore: map<nat, Ref>, s: seq<byte>, refs: map<nat, Ref>,
                    r: Outcome, a: nat, w: nat)
    requires ValueSwapWidth(t) == Ok(w) && ArrayItemSize(t).Ok? && a < n
    requires ArrayProgress(t, start, a, w, base, s0, r0, before, refsBefore)
    requires Step(r, s, refs) == ValueStep(t, Advance(start, a * ArrayItemSize(t).value), base, before, refsBefore)
    requires r.Fail?
    ensures Step(r, s, refs) == ArrayStep(t, start, n, base, s0, r0)
  {
    ArrayItemsSwapLikeValues(t);
    if start.At? {
      SwappedItem(t, start.addr + a * w, w, base, before, refsBefore, s, refs, r);
      FittingIs(start.addr, n, w, |s0|, a);
    }
  }

  lemma ArrayDone(t: nat, start: Ref, n: nat, base: Ref, s0: seq<byte>, r0: map<nat, Ref>,
                  s: seq<byte>, refs: map<nat, Ref>, w: nat)
    requires ValueSwapWidth(t) == Ok(w)
    requires ArrayProgress(t, start, n, w, base, s0, r0, s, refs)
    ensures Step(Pass, s, refs) == ArrayStep(t, start, n, base, s0, r0)
  {
    if w > 0 && n > 0 {
      FittingIs(start.addr, n, w, |s0|, n);
    }
  }

  /** Item `a` of a swapped type extends the swapped run by one word. */
  lemma RunStep(s0: seq<byte>, before: seq<byte>, p: nat, a: nat, w: nat)
    requires w > 0 && p + a * w + w <= |s0|
    requires a == 0 ==> before == s0
    requires a > 0 ==> before == SwapRun(s0, p, a, w)
    ensures p + (a + 1) * w <= |s0|
    ensures SwapAt(before, p + a * w, w) == SwapRun(s0, p, a + 1, w)
  {
    MulSucc(a, w);
    var q := p + a * w;
    if a == 0 {
      RunFirst(s0, p, w);
    } else {
      RunNext(s0, p, a, w, q, q + w);
    }
  }

  /** The run of one item is that item's swap. */
  lemma RunFirst(s0: seq<byte>, p: nat, w: nat)
    requires w > 0 && p + w <= |s0|
    ensures SwapAt(s0, p, w) == SwapRun(s0, p, 1, w)
  {
    assert s0[p..p] == [];
    assert SwapWords(s0[p..p], w) == [];
    assert s0 == s0[..p] + SwapWords(s0[p..p], w) + s0[p..];
    SwapRunStep(s0, s0, p, p, w, 0);
  }

  /** The swap of item `a` after the run of the first `a` items is the run
      of `a + 1` items, the run ending at `q` and then at `e`. */
  lemma RunNext(s0: seq<byte>, p: nat, a: nat, w: nat, q: nat, e: nat)
    requires w > 0 && q == p + a * w && e == q + w && e <= |s0| && e == p + (a + 1) * w
    ensures SwapAt(SwapRun(s0, p, a, w), q, w) == SwapRun(s0, p, a + 1, w)
  {
    SwapRunEnds(s0, p, a, w, q);
    SwapRunStep(s0, SwapRun(s0, p, a, w), p, q, w, a);
    SwapRunEnds(s0, p, a + 1, w, e);
  }

  /** `SwapRun` with the end of the run given. */
  lemma SwapRunEnds(s: seq<byte>, p: nat, n: nat, w: nat, e: nat)
    requires w > 0 && e == p + n * w && e <= |s|
    ensures SwapRun(s, p, n, w) == s[..p] + SwapWords(s[p..e], w) + s[e..]
  {
  }

  /** Item `a` extends the fixed-up string items by one. */
  lemma RefsStep(t: nat, r0: map<nat, Ref>, before: seq<byte>, refsBefore: map<nat, Ref>,
                 refsAfter: map<nat, Ref>, p: nat, a: nat, w: nat, base: Ref)
    requires ValueSwapWidth(t) == Ok(w) && w > 0
    requires p + a * w + w <= |before|
    requires a == 0 ==> refsBefore == r0
    requires a > 0 ==> refsBefore == ArrayRefs(t, r0, before, p, a, w, base)
    requires refsAfter == if t == StringPtr then
      refsBefore[p + a * w := Resolve(base, I(SwapAt(before, p + a * w, w), p + a * w, 4))]
      else refsBefore
    ensures p + (a + 1) * w <= |before|
    ensures refsAfter == ArrayRefs(t, r0, SwapAt(before, p + a * w, w), p, a + 1, w, base)
  {
    MulSucc(a, w);
    if t == StringPtr {
      StringItemsStep(r0, refsBefore, before, p, a, w, base);
    }
  }

  /** `ValueStep` for a swapped type at a known address. */
  lemma SwappedItem(t: nat, q: int, w: nat, base: Ref, s: seq<byte>, refs: map<nat, Ref>,
                    s': seq<byte>, refs': map<nat, Ref>, r: Outcome)
    requires ValueSwapWidth(t) == Ok(w) && w > 0
    requires Step(r, s', refs') == ValueStep(t, At(q), base, s, refs)
    ensures r.Pass? <==> 0 <= q && q + w <= |s|
    ensures r.Fail? ==> r == Fail(OutOfBounds) && s' == s && refs' == refs
    ensures r.Pass? ==> s' == SwapAt(s, q, w)
    ensures r.Pass? ==> refs' == if t == StringPtr then refs[q := Resolve(base, I(s', q, 4))] else refs
  {
  }

  /** One more string item: the fixups of the earlier items are not
      disturbed by the swap of the next one. */
  lemma ArrayRefsStep(r0: map<nat, Ref>, s: seq<byte>, p: nat, a: nat, w: nat, base: Ref)
    requires w > 0 && p + a * w + w <= |s|
    ensures FieldsFit(p, Items(a, w), |s|) && FieldsFit(p, Items(a + 1, w), |s|)
    ensures FixEach(r0, SwapAt(s, p + a * w, w), p, Items(a + 1, w), base) ==
            FixOne(FixEach(r0, s, p, Items(a, w), base), SwapAt(s, p + a * w, w), p, Field(a * w, w), base)
  {
    var s' := SwapAt(s, p + a * w, w);
    var fs, f := Items(a, w), Field(a * w, w);
    ItemsUnmoved(s, s', p, a, w, fs);
    ItemsSnoc(a, w);
    FixEachSnoc(r0, s', p, fs, f, base);
    FixEachReadsFields(r0, s', s, p, fs, base);
  }

  /** The references after string item `a` was swapped and fixed up. */
  lemma StringItemsStep(r0: map<nat, Ref>, refs: map<nat, Ref>, s: seq<byte>, p: nat, a: nat, w: nat, base: Ref)
    requires w == 4 && p + a * w + w <= |s|
    requires a == 0 ==> refs == r0
    requires a > 0 ==> refs == ArrayRefs(StringPtr, r0, s, p, a, w, base)
    ensures p + (a + 1) * w <= |s|
    ensures var s' := SwapAt(s, p + a * w, w);
      refs[p + a * w := Resolve(base, I(s', p + a * w, 4))] == ArrayRefs(StringPtr, r0, s', p, a + 1, w, base)
  {
    MulSucc(a, w);
    ArrayRefsStep(r0, s, p, a, w, base);
    assert Items(0, w) == [];
  }

  lemma ItemsSnoc(a: nat, w: nat)
    ensures Items(a + 1, w) == Items(a, w) + [Field(a * w, w)]
  {
  }

  /** Swapping item `a` leaves the items before it as they were. */
  lemma ItemsUnmoved(s: seq<byte>, s': seq<byte>, p: nat, a: nat, w: nat, fs: seq<Field>)
    requires w > 0 && p + a * w + w <= |s| && s' == SwapAt(s, p + a * w, w) && fs == Items(a, w)
    ensures FieldsFit(p, fs, |s|)
    ensures forall i :: 0 <= i < |fs| ==> I(s', p + fs[i].offset, fs[i].width) == I(s, p + fs[i].offset, fs[i].width)
  {
    ItemsFit(p, a, w, |s|);
    var q := p + a * w;
    SwapAtBytes(s, q, w);
    forall i | 0 <= i < |fs|
      ensures I(s', p + fs[i].offset, fs[i].width) == I(s, p + fs[i].offset, fs[i].width)
    {
      var x := p + i * w;
      MulSucc(i, w);
      MulMono(i + 1, a, w);
      assert s'[x..x + w] == s[x..x + w];
    }
  }
}
