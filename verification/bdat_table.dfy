/** The BDAT table and collection passes (`ProcessClass(Header)`,
    `ProcessClass(Collection)` in `source/bdat.cpp`): the header checks,
    swap and fixups, the decryption of the name and string sections, the
    key descriptors, and the swap of every value of every row. */
module BdatTable {
  import opened Outcomes
  import opened Bytes
  import opened Memory
  import opened Flags
  import opened Bdat
  import BdatCipher
  import Passes

  /** `FByteswapper(Collection)`: numDatas, fileSize. */
  const CollectionSwaps: seq<Field> := [Field(0, 4), Field(4, 4)]

  /** The first element of a collection's header table. */
  const CollectionSize: nat := 8

  /** The assertion the header pass makes after its swap. */
  const NumEncKeysNotTwo: Error := Assertion("item.numEncKeys == 2")

  /** The start of every header field group the header pass reads. */
  const NameField: nat := 6
  const StrideField: nat := 8
  const Unk1Field: nat := 10
  const KeyValuesField: nat := 14
  const NumKeyValuesField: nat := 16
  const NumEncKeysField: nat := 20
  const StringsField: nat := 24
  const StringsSizeField: nat := 28
  const KeyDescsField: nat := 32
  const NumKeyDescsField: nat := 34

  /** The bytes `DecryptSection(begin, end)` walks between two fixed-up
      pointers: from `begin` up to `end`. A null pointer sits below every
      address; walking up from it dereferences it. */
  function Between(b: Ref, e: Ref): (r: Result<(int, int)>)
    ensures b.At? && e.At? ==> r == Ok((b.addr, e.addr))
    ensures (b.Wild? || e.Wild?) <==> r == Err(WildReference)
    ensures r.Ok? && !b.At? ==> r.value.0 >= r.value.1
  {
    if b.Wild? || e.Wild? then Err(WildReference)
    else
      var x := if b.At? then b.addr else 0;
      var y := if e.At? then e.addr else 0;
      if b.Null? && x < y then Err(NullReference) else Ok((x, y))
  }

  /** The `size` bytes of the string pool at `p`. */
  function Pool(p: Ref, size: nat): (r: Result<(int, int)>)
    ensures r.Ok? <==> p.At?
    ensures r.Ok? ==> r.value == (p.addr, p.addr + size)
    ensures p.Null? ==> r == Err(NullReference)
    ensures p.Wild? ==> r == Err(WildReference)
  {
    match p
    case At(x) => Ok((x, x + size))
    case Null => Err(NullReference)
    case Wild => Err(WildReference)
  }

  /** The bytes of a table after its two sections were decrypted with the
      keys of the header at `h`, given what its name, unk1Offset and strings
      pointers refer to: first `[name, unk1Offset)`, then, when the
      (decrypted) stringsSize is not zero, the string pool. */
  function Decryption(s: seq<byte>, h: nat, name: Ref, unk1: Ref, strings: Ref): (res: (Outcome, seq<byte>))
    requires h + HeaderSize <= |s|
    ensures |res.1| == |s|
  {
    match Between(name, unk1)
    case Err(e) => (Fail(e), s)
    case Ok(section) =>
      if !BdatCipher.RangeOk(|s|, section.0, section.1) then (Fail(OutOfBounds), s)
      else
        var s1 := BdatCipher.DecryptedSection(s, h, section.0, section.1);
        var size := U(s1, h + StringsSizeField, 4);
        if size == 0 then (Pass, s1)
        else match Pool(strings, size)
          case Err(e) => (Fail(e), s1)
          case Ok(pool) =>
            if !BdatCipher.RangeOk(|s1|, pool.0, pool.1) then (Fail(OutOfBounds), s1)
            else (Pass, BdatCipher.DecryptedSection(s1, h, pool.0, pool.1))
  }

  /** Only the name section and, when stringsSize is not zero, the string
      pool are decrypted: a byte that changed lies in one of the two. */
  lemma DecryptionTouchesOnlySections(s: seq<byte>, h: nat, name: Ref, unk1: Ref, strings: Ref, i: nat)
    requires h + HeaderSize <= |s| && i < |s|
    requires Decryption(s, h, name, unk1, strings).1[i] != s[i]
    ensures Between(name, unk1).Ok?
    ensures var section := Between(name, unk1).value;
            || section.0 <= i < section.1
            || (BdatCipher.RangeOk(|s|, section.0, section.1) &&
                var size := U(BdatCipher.DecryptedSection(s, h, section.0, section.1), h + StringsSizeField, 4);
                && size != 0
                && strings.At? && strings.addr <= i < strings.addr + size)
  {
    var section := Between(name, unk1).value;
    BdatCipher.DecryptedSectionFrame(s, h, section.0, section.1);
    if !(section.0 <= i < section.1) {
      var s1 := BdatCipher.DecryptedSection(s, h, section.0, section.1);
      var size := U(s1, h + StringsSizeField, 4);
      if size != 0 && strings.At? {
        var pool := Pool(strings, size).value;
        if BdatCipher.RangeOk(|s1|, pool.0, pool.1) {
          BdatCipher.DecryptedSectionFrame(s1, h, pool.0, pool.1);
        }
      }
    }
  }

  /** `DecryptSection(begin, end)` with the keys of the header at `h`. */
  method DecryptSpan(buf: Buffer, h: nat, begin: int, end: int) returns (r: Outcome)
    requires h + HeaderSize <= buf.bytes.Length
    modifies buf.bytes
    ensures r.Pass? <==> BdatCipher.RangeOk(buf.bytes.Length, begin, end)
    ensures r.Pass? ==> buf.bytes[..] == BdatCipher.DecryptedSection(old(buf.bytes[..]), h, begin, end)
    ensures r.Fail? ==> r == Fail(OutOfBounds) && buf.bytes[..] == old(buf.bytes[..])
  {
    if !BdatCipher.RangeOk(buf.bytes.Length, begin, end) {
      return Fail(OutOfBounds);
    }
    BdatCipher.DecryptSection(buf.bytes, h, begin, end);
    return Pass;
  }

  /** The two `DecryptSection` calls of the header pass, on the pointers
      the header at `h` holds after its fixups. */
  method DecryptSections(buf: Buffer, h: nat) returns (r: Outcome)
    requires h + HeaderSize <= buf.bytes.Length
    modifies buf.bytes
    ensures (r, buf.bytes[..]) ==
            Decryption(old(buf.bytes[..]), h, buf.RefAt(h + NameField), buf.RefAt(h + Unk1Field), buf.RefAt(h + StringsField))
  {
    match Between(buf.RefAt(h + NameField), buf.RefAt(h + Unk1Field))
    case Err(e) =>
      return Fail(e);
    case Ok(section) =>
      r := DecryptSpan(buf, h, section.0, section.1);
      if r.Fail? {
        return;
      }
      var size := U(buf.bytes[..], h + StringsSizeField, 4);
      if size != 0 {
        match Pool(buf.RefAt(h + StringsField), size)
        case Err(e) =>
          return Fail(e);
        case Ok(pool) =>
          r := DecryptSpan(buf, h, pool.0, pool.1);
      }
  }

  /** The header fields the swapper and the fixups touch lie inside a
      header that fits. */
  lemma HeaderFieldsFit(h: nat, n: nat)
    requires h + HeaderSize <= n
    ensures FieldsFit(h, HeaderSwaps, n) && FieldsFit(h, HeaderPointers, n)
    ensures DistinctOffsets(HeaderPointers)
  {
  }

  /** `FByteswapper(Header)` on the header at `h`. */
  function SwappedHeader(s: seq<byte>, h: nat): (r: seq<byte>)
    requires h + HeaderSize <= |s|
    ensures |r| == |s|
  {
    HeaderFieldsFit(h, |s|);
    SwapEach(s, h, HeaderSwaps)
  }

  /** The references after the header's five pointers were fixed up
      against the header. */
  function FixedHeader(refs: map<nat, Ref>, s: seq<byte>, h: nat): map<nat, Ref>
    requires h + HeaderSize <= |s|
  {
    HeaderFieldsFit(h, |s|);
    FixEach(refs, s, h, HeaderPointers, At(h))
  }

  lemma SwappedHeaderIs(s0: seq<byte>, s: seq<byte>, h: nat)
    requires h + HeaderSize <= |s0| && FieldsFit(h, HeaderSwaps, |s0|) && s == SwapEach(s0, h, HeaderSwaps)
    ensures s == SwappedHeader(s0, h)
  {
  }

  lemma FixedHeaderIs(r0: map<nat, Ref>, r: map<nat, Ref>, s: seq<byte>, h: nat)
    requires h + HeaderSize <= |s| && FieldsFit(h, HeaderPointers, |s|) && r == FixEach(r0, s, h, HeaderPointers, At(h))
    ensures r == FixedHeader(r0, s, h)
  {
  }

  /** The checks the header pass makes before it touches anything: the
      header lies in the buffer, its id is "BDAT", and the guards pass. */
  function HeaderCheck(s: seq<byte>, h: int, flags: ProcessFlags): (r: Outcome)
    ensures r.Pass? ==> 0 <= h && h + HeaderSize <= |s|
  {
    if !(0 <= h && h + HeaderSize <= |s|) then Fail(OutOfBounds)
    else if U(s, h, 4) != Id then Fail(InvalidHeader(U(s, h, 4)))
    else Guards(flags)
  }

  /** A header is accepted exactly when it fits, carries the id "BDAT",
      and the flags demand big-endian and nothing else; a wrong id is
      reported with the id that was read, ahead of any flag problem. */
  lemma HeaderCheckExactly(s: seq<byte>, h: int, flags: ProcessFlags)
    ensures HeaderCheck(s, h, flags).Pass? <==>
              && 0 <= h && h + HeaderSize <= |s| && U(s, h, 4) == Id
              && flags.flags * {AutoDetectEndian, EnsureBigEndian, ProcessDataOut} == {EnsureBigEndian}
    ensures 0 <= h && h + HeaderSize <= |s| && U(s, h, 4) != Id ==> HeaderCheck(s, h, flags) == Fail(InvalidHeader(U(s, h, 4)))
  {
    GuardsPassExactly(flags);
  }

  /** The header pass up to its fixups: the checks, made before anything
      is touched, then the swap of the header, the check that there are two
      keys, and the fixups of the five pointers against the header. */
  method HeaderPrologue(buf: Buffer, h: int, flags: ProcessFlags) returns (r: Outcome)
    modifies buf, buf.bytes
    ensures HeaderCheck(old(buf.bytes[..]), h, flags).Fail? ==> r == HeaderCheck(old(buf.bytes[..]), h, flags) && Unchanged(buf)
    ensures HeaderCheck(old(buf.bytes[..]), h, flags).Pass? ==>
              var s := SwappedHeader(old(buf.bytes[..]), h);
              && buf.bytes[..] == s
              && (r.Pass? <==> U(s, h + NumEncKeysField, 2) == 2)
              && (r.Fail? ==> r == Fail(NumEncKeysNotTwo) && buf.refs == old(buf.refs))
              && (r.Pass? ==> buf.refs == FixedHeader(old(buf.refs), s, h))
  {
    if !buf.Fits(h, HeaderSize) {
      return Fail(OutOfBounds);
    }
    var id := U(buf.bytes[..], h, 4);
    if id != Id {
      return Fail(InvalidHeader(id));
    }
    :- Guards(flags);
    r := SwapHeader(buf, h);
  }

  /** The header's swap, the check that it has two keys, and its fixups. */
  method SwapHeader(buf: Buffer, h: nat) returns (r: Outcome)
    requires buf.Fits(h, HeaderSize)
    modifies buf, buf.bytes
    ensures buf.bytes[..] == SwappedHeader(old(buf.bytes[..]), h)
    ensures r.Pass? <==> U(buf.bytes[..], h + NumEncKeysField, 2) == 2
    ensures r.Fail? ==> r == Fail(NumEncKeysNotTwo) && buf.refs == old(buf.refs)
    ensures r.Pass? ==> buf.refs == FixedHeader(old(buf.refs), buf.bytes[..], h)
  {
    SwapHeaderFields(buf, h);
    if U(buf.bytes[..], h + NumEncKeysField, 2) != 2 {
      return Fail(NumEncKeysNotTwo);
    }
    FixHeaderPointers(buf, h);
    return Pass;
  }

  /** The header's swap, on the buffer. */
  method SwapHeaderFields(buf: Buffer, h: nat)
    requires buf.Fits(h, HeaderSize)
    modifies buf.bytes
    ensures buf.bytes[..] == SwappedHeader(old(buf.bytes[..]), h)
  {
    HeaderFieldsFit(h, buf.bytes.Length);
    ghost var s0 := buf.bytes[..];
    buf.SwapList(h, HeaderSwaps);
    SwappedHeaderIs(s0, buf.bytes[..], h);
  }

  /** The header's fixups, on the buffer. */
  method FixHeaderPointers(buf: Buffer, h: nat)
    requires buf.Fits(h, HeaderSize)
    modifies buf
    ensures buf.refs == FixedHeader(old(buf.refs), buf.bytes[..], h)
  {
    HeaderFieldsFit(h, buf.bytes.Length);
    buf.FixupList(h, HeaderPointers, At(h));
    FixedHeaderIs(old(buf.refs), buf.refs, buf.bytes[..], h);
  }

  /** After the header's fixups each of its five pointers refers to the
      header's address plus the offset the swapped field holds. */
  lemma HeaderPointersResolved(refs: map<nat, Ref>, s: seq<byte>, h: nat, j: nat)
    requires h + HeaderSize <= |s| && j < |HeaderPointers|
    ensures var f := HeaderPointers[j];
            var o := I(s, h + f.offset, f.width);
            && h + f.offset in FixedHeader(refs, s, h)
            && FixedHeader(refs, s, h)[h + f.offset] == (if o == 0 then Null else At(h + o))
  {
    HeaderFieldsFit(h, |s|);
    FixEachListed(refs, s, h, HeaderPointers, At(h), j);
  }

  /** The key descriptor loop `for (k < numKeyDescs) ProcessClass(ck[k])`
      from descriptor `k` on, over the `n` descriptors from `at`, after the
      step `w`: each descriptor is processed in turn, and the first whose
      pass fails stops the loop. */
  function KeyDescsPass(w: Step, at: Ref, k: nat, n: nat, flags: ProcessFlags): (r: Step)
    ensures |r.bytes| == |w.bytes|
    decreases n - k
  {
    if w.outcome.Fail? || k >= n then w
    else match Advance(at, k * KeyDescSize)
      case Null => Step(Fail(NullReference), w.bytes, w.refs)
      case Wild => Step(Fail(WildReference), w.bytes, w.refs)
      case At(d) => KeyDescsPass(KeyDescPass(w.bytes, w.refs, d, flags), at, k + 1, n, flags)
  }

  /** When the descriptor loop gets through, the guards passed and all the
      descriptors from `k` to `n` lie in the buffer, one after the other
      from `at`. */
  lemma {:induction false} KeyDescsFit(w: Step, at: Ref, k: nat, n: nat, flags: ProcessFlags)
    requires k < n && KeyDescsPass(w, at, k, n, flags).outcome.Pass?
    ensures at.At? && GuardsPass(flags)
    ensures 0 <= at.addr + k * KeyDescSize && at.addr + n * KeyDescSize <= |w.bytes|
    decreases n - k
  {
    KeyDescsUnfold(w, at, k, n, flags);
    var d := at.addr + k * KeyDescSize;
    var next := KeyDescPass(w.bytes, w.refs, d, flags);
    KeyDescPassFits(w.bytes, w.refs, d, flags);
    MulSucc(k, KeyDescSize);
    if k + 1 < n {
      KeyDescsFit(next, at, k + 1, n, flags);
    }
  }

  /** A descriptor pass that gets through had its guards pass and its
      descriptor inside the buffer. */
  lemma KeyDescPassFits(s: seq<byte>, refs: map<nat, Ref>, d: int, flags: ProcessFlags)
    requires KeyDescPass(s, refs, d, flags).outcome.Pass?
    ensures GuardsPass(flags) && 0 <= d && d + KeyDescSize <= |s|
  {
    KeyDescPassFound(s, refs, d, flags);
  }

  /** One turn of the descriptor loop that gets through: the loop had not
      failed yet, the descriptors are addressed, and the rest of the loop
      gets through after this descriptor's pass. */
  lemma KeyDescsUnfold(w: Step, at: Ref, k: nat, n: nat, flags: ProcessFlags)
    requires k < n && KeyDescsPass(w, at, k, n, flags).outcome.Pass?
    ensures w.outcome.Pass? && at.At?
    ensures var next := KeyDescPass(w.bytes, w.refs, at.addr + k * KeyDescSize, flags);
            next.outcome.Pass? && KeyDescsPass(next, at, k + 1, n, flags).outcome.Pass?
  {
    var next := KeyDescPass(w.bytes, w.refs, at.addr + k * KeyDescSize, flags);
    assert KeyDescsPass(w, at, k, n, flags) == KeyDescsPass(next, at, k + 1, n, flags);
  }

  method ProcessKeyDescs(buf: Buffer, at: Ref, n: nat, flags: ProcessFlags) returns (r: Outcome)
    modifies buf, buf.bytes
    ensures Step(r, buf.bytes[..], buf.refs) == KeyDescsPass(Step(Pass, old(buf.bytes[..]), old(buf.refs)), at, 0, n, flags)
  {
    ghost var goal := KeyDescsPass(Step(Pass, buf.bytes[..], buf.refs), at, 0, n, flags);
    var k := 0;
    while k < n
      invariant 0 <= k <= n
      invariant KeyDescsPass(Step(Pass, buf.bytes[..], buf.refs), at, k, n, flags) == goal
    {
      match Advance(at, k * KeyDescSize)
      case Null =>
        return Fail(NullReference);
      case Wild =>
        return Fail(WildReference);
      case At(d) =>
        r := ProcessKeyDesc(buf, d, flags);
        if r.Fail? {
          return;
        }
      k := k + 1;
    }
    return Pass;
  }

  /** The swap of one value of one row (`switch (kDesc->baseType)`): the
      key's type descriptor `td` decides what is at `block` plus the
      descriptor's offset. A Default value is swapped as a single value, a
      Flag value is left alone, an Array value has each item swapped, and
      any other base type is rejected. */
  function KeyValueStep(td: Ref, block: Ref, base: Ref, s: seq<byte>, refs: map<nat, Ref>): (r: Step)
    ensures |r.bytes| == |s|
  {
    match Follow(td, 1, |s|)
    case Err(e) => Step(Fail(e), s, refs)
    case Ok(d) =>
      var bt := s[d] as nat;
      if bt == Default then
        if d + TypeDescSize > |s| then Step(Fail(OutOfBounds), s, refs)
        else ValueStep(s[d + 1] as nat, Advance(block, U(s, d + 2, 2)), base, s, refs)
      else if bt == Flag then Step(Pass, s, refs)
      else if bt == Array then
        if d + ArrayTypeDescSize > |s| then Step(Fail(OutOfBounds), s, refs)
        else
          var t := s[d + 1] as nat;
          match ArrayItemSize(t)
          case Err(e) => Step(Fail(e), s, refs)
          case Ok(_) =>
            ArrayItemsSwapLikeValues(t);
            ArrayStep(t, Advance(block, U(s, d + 2, 2)), U(s, d + 4, 2), base, s, refs)
      else Step(Fail(UnhandledBaseType), s, refs)
  }

  /** The value of the key whose descriptor is at `desc`, in the row at
      `block`. */
  method SwapKeyValue(buf: Buffer, desc: int, block: Ref, base: Ref) returns (r: Outcome)
    modifies buf, buf.bytes
    ensures Step(r, buf.bytes[..], buf.refs) == KeyValueStep(RefOf(old(buf.refs), desc), block, base, old(buf.bytes[..]), old(buf.refs))
  {
    var td := buf.RefAt(desc);
    match buf.Target(td, 1)
    case Err(e) =>
      return Fail(e);
    case Ok(d) =>
      var bt := buf.bytes[d] as nat;
      if bt == Default {
        if !buf.Fits(d, TypeDescSize) {
          return Fail(OutOfBounds);
        }
        var t := buf.bytes[d + 1] as nat;
        var offset := U(buf.bytes[..], d + 2, 2);
        r := SwapValue(buf, t, Advance(block, offset), base);
      } else if bt == Flag {
        return Pass;
      } else if bt == Array {
        if !buf.Fits(d, ArrayTypeDescSize) {
          return Fail(OutOfBounds);
        }
        var t := buf.bytes[d + 1] as nat;
        var offset := U(buf.bytes[..], d + 2, 2);
        var numItems := U(buf.bytes[..], d + 4, 2);
        match ArrayItemSize(t)
        case Err(e) =>
          return Fail(e);
        case Ok(_) =>
          r := SwapArrayItems(buf, t, Advance(block, offset), numItems, base);
      } else {
        return Fail(UnhandledBaseType);
      }
  }

  /** The inner value loop from key `k` on, for the row at `block`: the
      value of each key in turn, stopping at the first that fails. */
  function RowPass(w: Step, block: Ref, keyDescs: Ref, k: nat, keys: nat, base: Ref): (r: Step)
    ensures |r.bytes| == |w.bytes|
    decreases keys - k
  {
    if w.outcome.Fail? || k >= keys then w
    else match Advance(keyDescs, k * KeyDescSize)
      case Null => Step(Fail(NullReference), w.bytes, w.refs)
      case Wild => Step(Fail(WildReference), w.bytes, w.refs)
      case At(d) => RowPass(KeyValueStep(RefOf(w.refs, d), block, base, w.bytes, w.refs), block, keyDescs, k + 1, keys, base)
  }

  /** The outer value loop from row `b` on: each of the `rows` rows,
      `stride` bytes apart from `values`, in turn. */
  function RowsPass(w: Step, values: Ref, stride: nat, b: nat, rows: nat, keyDescs: Ref, keys: nat, base: Ref): (r: Step)
    ensures |r.bytes| == |w.bytes|
    decreases rows - b
  {
    if w.outcome.Fail? || b >= rows then w
    else RowsPass(RowPass(w, Advance(values, stride * b), keyDescs, 0, keys, base), values, stride, b + 1, rows, keyDescs, keys, base)
  }

  /** A table without keys is left as it is, whatever its row count; one
      with rows and keys but no key descriptors fails on the first value
      without touching anything. */
  lemma {:induction false} RowsWithoutKeys(w: Step, values: Ref, stride: nat, b: nat, rows: nat, keyDescs: Ref, keys: nat, base: Ref)
    requires w.outcome.Pass?
    ensures keys == 0 ==> RowsPass(w, values, stride, b, rows, keyDescs, keys, base) == w
    ensures keys > 0 && b < rows && !keyDescs.At? ==>
              RowsPass(w, values, stride, b, rows, keyDescs, keys, base) ==
              Step(Fail(Follow(keyDescs, 0, 0).error), w.bytes, w.refs)
    decreases rows - b
  {
    if b < rows && keys == 0 {
      assert RowPass(w, Advance(values, stride * b), keyDescs, 0, keys, base) == w;
      RowsWithoutKeys(w, values, stride, b + 1, rows, keyDescs, keys, base);
    }
  }

  method SwapRow(buf: Buffer, block: Ref, keyDescs: Ref, keys: nat, base: Ref) returns (r: Outcome)
    modifies buf, buf.bytes
    ensures Step(r, buf.bytes[..], buf.refs) == RowPass(Step(Pass, old(buf.bytes[..]), old(buf.refs)), block, keyDescs, 0, keys, base)
  {
    ghost var goal := RowPass(Step(Pass, buf.bytes[..], buf.refs), block, keyDescs, 0, keys, base);
    var k := 0;
    while k < keys
      invariant 0 <= k <= keys
      invariant RowPass(Step(Pass, buf.bytes[..], buf.refs), block, keyDescs, k, keys, base) == goal
    {
      r := SwapRowKey(buf, block, keyDescs, k, keys, base);
      if r.Fail? {
        return;
      }
      k := k + 1;
    }
    return Pass;
  }

  /** The value of key `k` in the row at `block`. */
  method SwapRowKey(buf: Buffer, block: Ref, keyDescs: Ref, k: nat, keys: nat, base: Ref) returns (r: Outcome)
    requires k < keys
    modifies buf, buf.bytes
    ensures var goal := RowPass(Step(Pass, old(buf.bytes[..]), old(buf.refs)), block, keyDescs, k, keys, base);
            if r.Fail? then Step(r, buf.bytes[..], buf.refs) == goal
            else RowPass(Step(Pass, buf.bytes[..], buf.refs), block, keyDescs, k + 1, keys, base) == goal
  {
    match Advance(keyDescs, k * KeyDescSize)
    case Null =>
      return Fail(NullReference);
    case Wild =>
      return Fail(WildReference);
    case At(d) =>
      r := SwapKeyValue(buf, d, block, base);
  }

  /** The value loops: for each of the `rows` rows, `stride` bytes apart
      from `values`, the value of each of the `keys` key descriptors at
      `keyDescs`. */
  method SwapValues(buf: Buffer, values: Ref, stride: nat, rows: nat, keyDescs: Ref, keys: nat, base: Ref)
    returns (r: Outcome)
    modifies buf, buf.bytes
    ensures Step(r, buf.bytes[..], buf.refs) ==
            RowsPass(Step(Pass, old(buf.bytes[..]), old(buf.refs)), values, stride, 0, rows, keyDescs, keys, base)
  {
    ghost var goal := RowsPass(Step(Pass, buf.bytes[..], buf.refs), values, stride, 0, rows, keyDescs, keys, base);
    var b := 0;
    while b < rows
      invariant 0 <= b <= rows
      invariant RowsPass(Step(Pass, buf.bytes[..], buf.refs), values, stride, b, rows, keyDescs, keys, base) == goal
    {
      r := SwapRow(buf, Advance(values, stride * b), keyDescs, keys, base);
      if r.Fail? {
        return;
      }
      b := b + 1;
    }
    return Pass;
  }

  /** `ProcessClass(BDAT::Header)` on the header at `h`: the checks, the
      swap, the assertion on numEncKeys and the fixups; then the sections. */
  function HeaderPass(s: seq<byte>, refs: map<nat, Ref>, h: int, flags: ProcessFlags): (r: Step)
    ensures |r.bytes| == |s|
  {
    if HeaderCheck(s, h, flags).Fail? then Step(HeaderCheck(s, h, flags), s, refs)
    else
      var t := SwappedHeader(s, h);
      if U(t, h + NumEncKeysField, 2) != 2 then Step(Fail(NumEncKeysNotTwo), t, refs)
      else HeaderSections(t, FixedHeader(refs, t, h), h, flags)
  }

  /** The rest of the header pass once the header at `h` is swapped and
      fixed up: the decryption of the name section and the string pool,
      then the tables. */
  function HeaderSections(t: seq<byte>, refs: map<nat, Ref>, h: nat, flags: ProcessFlags): (r: Step)
    requires h + HeaderSize <= |t|
    ensures |r.bytes| == |t|
  {
    var dec := Decryption(t, h, RefOf(refs, h + NameField), RefOf(refs, h + Unk1Field), RefOf(refs, h + StringsField));
    if dec.0.Fail? then Step(dec.0, dec.1, refs)
    else HeaderTables(Step(Pass, dec.1, refs), h, flags)
  }

  /** The key descriptors of the header at `h`, then the values of every
      row. */
  function HeaderTables(w: Step, h: nat, flags: ProcessFlags): (r: Step)
    requires h + HeaderSize <= |w.bytes|
    ensures |r.bytes| == |w.bytes|
  {
    var keyDescs := RefOf(w.refs, h + KeyDescsField);
    var keys := U(w.bytes, h + NumKeyDescsField, 2);
    var v := KeyDescsPass(w, keyDescs, 0, keys, flags.Rebased(h));
    RowsPass(v, RefOf(v.refs, h + KeyValuesField), U(v.bytes, h + StrideField, 2), 0,
             U(v.bytes, h + NumKeyValuesField, 2), keyDescs, keys, At(h))
  }

  /** A header the checks reject is left as it is. A header pass that
      succeeds found a BDAT header the flags accept, with two keys, and
      decrypted the name section between the header address plus the
      swapped name and unk1Offset offsets (and the string pool the strings
      offset locates) before the descriptors and values were read. */
  lemma HeaderPassMeaning(s: seq<byte>, refs: map<nat, Ref>, h: int, flags: ProcessFlags)
    ensures HeaderCheck(s, h, flags).Fail? ==> HeaderPass(s, refs, h, flags) == Step(HeaderCheck(s, h, flags), s, refs)
    ensures HeaderPass(s, refs, h, flags).outcome.Pass? ==>
              && 0 <= h && h + HeaderSize <= |s| && U(s, h, 4) == Id && GuardsPass(flags)
              && var t := SwappedHeader(s, h);
                 && U(t, h + NumEncKeysField, 2) == 2
                 && Decryption(t, h, Resolve(At(h), I(t, h + NameField, 2)), Resolve(At(h), I(t, h + Unk1Field, 2)),
                               Resolve(At(h), I(t, h + StringsField, 4))).0 == Pass
  {
    HeaderStages(s, refs, h, flags);
    if HeaderCheck(s, h, flags).Pass? {
      HeaderSectionRefs(refs, SwappedHeader(s, h), h);
    }
  }

  /** The name, unk1Offset and strings pointers after the header's fixups. */
  lemma HeaderSectionRefs(refs: map<nat, Ref>, t: seq<byte>, h: nat)
    requires h + HeaderSize <= |t|
    ensures RefOf(FixedHeader(refs, t, h), h + NameField) == Resolve(At(h), I(t, h + NameField, 2))
    ensures RefOf(FixedHeader(refs, t, h), h + Unk1Field) == Resolve(At(h), I(t, h + Unk1Field, 2))
    ensures RefOf(FixedHeader(refs, t, h), h + StringsField) == Resolve(At(h), I(t, h + StringsField, 4))
  {
    HeaderPointersResolved(refs, t, h, 0);
    HeaderPointersResolved(refs, t, h, 1);
    HeaderPointersResolved(refs, t, h, 3);
  }

  /** A header pass that succeeds got through its checks, its assertion
      and its decryption. */
  lemma HeaderStages(s: seq<byte>, refs: map<nat, Ref>, h: int, flags: ProcessFlags)
    ensures HeaderPass(s, refs, h, flags).outcome.Pass? ==>
              && HeaderCheck(s, h, flags).Pass?
              && U(SwappedHeader(s, h), h + NumEncKeysField, 2) == 2
              && var t := SwappedHeader(s, h);
                 var refs1 := FixedHeader(refs, t, h);
                 Decryption(t, h, RefOf(refs1, h + NameField), RefOf(refs1, h + Unk1Field), RefOf(refs1, h + StringsField)).0 == Pass
  {
    var check := HeaderCheck(s, h, flags);
    if check.Pass? {
      var t := SwappedHeader(s, h);
      if U(t, h + NumEncKeysField, 2) == 2 {
        var refs1 := FixedHeader(refs, t, h);
        var dec := Decryption(t, h, RefOf(refs1, h + NameField), RefOf(refs1, h + Unk1Field), RefOf(refs1, h + StringsField));
        if dec.0.Fail? {
          assert HeaderSections(t, refs1, h, flags) == Step(dec.0, dec.1, refs1);
        }
      }
    }
  }

  /** `ProcessClass(BDAT::Header)` on the header at `h`. */
  method ProcessHeader(buf: Buffer, h: int, flags: ProcessFlags) returns (r: Outcome)
    modifies buf, buf.bytes
    ensures Step(r, buf.bytes[..], buf.refs) == HeaderPass(old(buf.bytes[..]), old(buf.refs), h, flags)
  {
    r := HeaderPrologue(buf, h, flags);
    if r.Fail? {
      return;
    }
    r := ProcessSections(buf, h, flags);
  }

  /** The decryption and the tables of the swapped and fixed-up header at
      `h`. */
  method ProcessSections(buf: Buffer, h: nat, flags: ProcessFlags) returns (r: Outcome)
    requires h + HeaderSize <= buf.bytes.Length
    modifies buf, buf.bytes
    ensures Step(r, buf.bytes[..], buf.refs) == HeaderSections(old(buf.bytes[..]), old(buf.refs), h, flags)
  {
    r := DecryptSections(buf, h);
    if r.Fail? {
      return;
    }
    r := ProcessTables(buf, h, flags);
  }

  /** The key descriptor loop and the value loops of the header at `h`. */
  method ProcessTables(buf: Buffer, h: nat, flags: ProcessFlags) returns (r: Outcome)
    requires h + HeaderSize <= buf.bytes.Length
    modifies buf, buf.bytes
    ensures Step(r, buf.bytes[..], buf.refs) == HeaderTables(Step(Pass, old(buf.bytes[..]), old(buf.refs)), h, flags)
  {
    var keys := U(buf.bytes[..], h + NumKeyDescsField, 2);
    var keyDescs := buf.RefAt(h + KeyDescsField);
    r := ProcessKeyDescs(buf, keyDescs, keys, flags.Rebased(h));
    if r.Fail? {
      return;
    }
    var stride := U(buf.bytes[..], h + StrideField, 2);
    var rows := U(buf.bytes[..], h + NumKeyValuesField, 2);
    r := SwapValues(buf, buf.RefAt(h + KeyValuesField), stride, rows, keyDescs, keys, At(h));
  }

  /** The flags a collection passes on: when AutoDetectEndian is set it is
      dropped, and EnsureBigEndian is added when numDatas, read before the
      swap, exceeds 0x10000. */
  function Detected(flags: ProcessFlags, numDatas: nat): (f: ProcessFlags)
    ensures f.base == flags.base && f.userData == flags.userData
    ensures !f.Has(AutoDetectEndian)  <== flags.Has(AutoDetectEndian)
  {
    if flags.Has(AutoDetectEndian) then
      var f := flags.Without(AutoDetectEndian);
      if numDatas > 0x10000 then f.With(EnsureBigEndian) else f
    else flags
  }

  /** With auto-detection the collection is read as big-endian exactly when
      numDatas exceeds 0x10000 (or big-endian was already demanded), and
      the byte-order guard that follows rejects every other collection;
      without it the flags pass through as they are. */
  lemma DetectedByteOrder(flags: ProcessFlags, numDatas: nat)
    ensures flags.Has(AutoDetectEndian) ==>
              (Detected(flags, numDatas).NoLittleEndian().Pass? <==>
                 numDatas > 0x10000 || flags.Has(EnsureBigEndian))
    ensures flags.Has(AutoDetectEndian) ==> Detected(flags, numDatas).NoAutoDetect().Pass?
    ensures !flags.Has(AutoDetectEndian) ==> Detected(flags, numDatas) == flags
    ensures Detected(flags, numDatas).Has(ProcessDataOut) == flags.Has(ProcessDataOut)
  {
  }

  /** With the default flags a collection is accepted exactly when numDatas,
      read in host order before the swap, exceeds 0x10000: a big-endian
      count read the wrong way round. */
  lemma DefaultFlagsDetect(numDatas: nat)
    ensures Detected(DefaultFlags, numDatas).NoLittleEndian().Pass? <==> numDatas > 0x10000
    ensures Detected(DefaultFlags, numDatas).NoLittleEndian().Pass? ==>
              Detected(DefaultFlags, numDatas).flags == {EnsureBigEndian}
  {
    DetectedByteOrder(DefaultFlags, numDatas);
    if numDatas > 0x10000 {
      assert Detected(DefaultFlags, numDatas).flags == {AutoDetectEndian} - {AutoDetectEndian} + {EnsureBigEndian};
    }
  }

  /** Entry `i` of the collection's header table, after the step `w`: its
      swap, its fixup against the collection at `c`, and the header pass on
      the header it now refers to, by `header` (the header pass). */
  function EntryPass(w: Step, c: nat, i: nat, f: ProcessFlags, header: Passes.Pass): (r: Step)
    ensures Passes.Sized(header) ==> |r.bytes| == |w.bytes|
  {
    var p := c + CollectionSize + 4 * i;
    if p + 4 > |w.bytes| then Step(Fail(OutOfBounds), w.bytes, w.refs)
    else
      var t := SwapAt(w.bytes, p, 4);
      var hd := Resolve(At(c), I(t, p, 4));
      if hd.Null? then Step(Fail(NullReference), t, w.refs[p := hd])
      else header(t, w.refs[p := hd], hd.addr, f)
  }

  /** The header pass never changes the size of the buffer. */
  lemma HeaderPassSized()
    ensures Passes.Sized(HeaderPass)
  {
    forall s, refs, h, flags
      ensures |HeaderPass(s, refs, h, flags).bytes| == |s|
    {
    }
  }

  /** The entry loop `for (auto &p : item)` from entry `i` on: each entry
      in turn, stopping at the first that fails. */
  function EntriesPass(w: Step, c: nat, i: nat, n: nat, f: ProcessFlags, header: Passes.Pass): (r: Step)
    ensures Passes.Sized(header) ==> |r.bytes| == |w.bytes|
    decreases n - i
  {
    if w.outcome.Fail? || i >= n then w
    else EntriesPass(EntryPass(w, c, i, f, header), c, i + 1, n, f, header)
  }

  /** The loop up to entry `i + 1` is the loop up to entry `i` followed by
      entry `i`: header `i` is processed after the headers before it, and
      only when all of them succeeded. */
  lemma {:induction false} EntriesSnoc(w: Step, c: nat, k: nat, i: nat, f: ProcessFlags, header: Passes.Pass)
    requires k <= i
    ensures var v := EntriesPass(w, c, k, i, f, header);
            EntriesPass(w, c, k, i + 1, f, header) == if v.outcome.Fail? then v else EntryPass(v, c, i, f, header)
    decreases i - k
  {
    if w.outcome.Pass? && k < i {
      EntriesSnoc(EntryPass(w, c, k, f, header), c, k + 1, i, f, header);
    }
  }

  /** When the entry loop gets through, the whole header table from entry
      `i` to entry `n` lies in the buffer. */
  lemma {:induction false} EntriesFit(w: Step, c: nat, i: nat, n: nat, f: ProcessFlags, header: Passes.Pass)
    requires Passes.Sized(header) && i < n && EntriesPass(w, c, i, n, f, header).outcome.Pass?
    ensures c + CollectionSize + 4 * n <= |w.bytes|
    decreases n - i
  {
    if i + 1 < n {
      EntriesFit(EntryPass(w, c, i, f, header), c, i + 1, n, f, header);
    }
  }

  /** One entry of the header table. */
  method ProcessEntry(buf: Buffer, c: nat, i: nat, f: ProcessFlags) returns (r: Outcome)
    modifies buf, buf.bytes
    ensures Step(r, buf.bytes[..], buf.refs) == EntryPass(Step(Pass, old(buf.bytes[..]), old(buf.refs)), c, i, f, HeaderPass)
  {
    var p := c + CollectionSize + 4 * i;
    r := buf.Swap(p, 4);
    if r.Fail? {
      return;
    }
    var fixed := buf.Fixup(p, 4, At(c));
    var hd := fixed.value;
    if hd.Null? {
      return Fail(NullReference);
    }
    r := ProcessHeader(buf, hd.addr, f);
  }

  /** `ProcessClass(BDAT::Collection)` on the collection at `c`: the
      guards and byte-order detection, the swap of the count and file size,
      then each entry of the header table in turn. */
  function CollectionPass(s: seq<byte>, refs: map<nat, Ref>, c: int, flags: ProcessFlags): (r: Step)
    ensures |r.bytes| == |s|
  {
    if flags.NoProcessDataOut().Fail? then Step(flags.NoProcessDataOut(), s, refs)
    else if !(0 <= c && c + CollectionSize <= |s|) then Step(Fail(OutOfBounds), s, refs)
    else
      var f := Detected(flags, U(s, c, 4));
      if f.NoLittleEndian().Fail? then Step(f.NoLittleEndian(), s, refs)
      else
        var t := SwapEach(s, c, CollectionSwaps);
        EntriesPass(Step(Pass, t, refs), c, 0, U(t, c, 4), f.Rebased(c), HeaderPass)
  }

  /** A collection the flags or the byte-order detection reject is left as
      it is. One that is processed to the end was read as big-endian, and
      its whole header table, as long as the swapped numDatas says, lies in
      the buffer. */
  lemma CollectionPassMeaning(s: seq<byte>, refs: map<nat, Ref>, c: int, flags: ProcessFlags)
    ensures flags.Has(ProcessDataOut) ==> CollectionPass(s, refs, c, flags) == Step(flags.NoProcessDataOut(), s, refs)
    ensures !flags.Has(ProcessDataOut) && 0 <= c && c + CollectionSize <= |s| &&
            Detected(flags, U(s, c, 4)).NoLittleEndian().Fail? ==>
              CollectionPass(s, refs, c, flags) == Step(Detected(flags, U(s, c, 4)).NoLittleEndian(), s, refs)
    ensures CollectionPass(s, refs, c, flags).outcome.Pass? ==>
              && 0 <= c && c + CollectionSize <= |s|
              && Detected(flags, U(s, c, 4)).Has(EnsureBigEndian)
              && c + CollectionSize + 4 * U(SwapEach(s, c, CollectionSwaps), c, 4) <= |s|
  {
    if CollectionPass(s, refs, c, flags).outcome.Pass? {
      var f := Detected(flags, U(s, c, 4));
      var t := SwapEach(s, c, CollectionSwaps);
      var n := U(t, c, 4);
      if n > 0 {
        HeaderPassSized();
        EntriesFit(Step(Pass, t, refs), c, 0, n, f.Rebased(c), HeaderPass);
      }
    }
  }

  /** `ProcessClass(BDAT::Collection)` on the collection at `c`. */
  method ProcessCollection(buf: Buffer, c: int, flags: ProcessFlags) returns (r: Outcome)
    modifies buf, buf.bytes
    ensures Step(r, buf.bytes[..], buf.refs) == CollectionPass(old(buf.bytes[..]), old(buf.refs), c, flags)
  {
    r := flags.NoProcessDataOut();
    if r.Fail? {
      return;
    }
    if !buf.Fits(c, CollectionSize) {
      return Fail(OutOfBounds);
    }
    var f := Detected(flags, U(buf.bytes[..], c, 4));
    :- f.NoLittleEndian();
    f := f.Rebased(c);
    buf.SwapList(c, CollectionSwaps);
    r := ProcessEntries(buf, c, U(buf.bytes[..], c, 4), f);
  }

  /** The entry loop over the `n` entries of the collection at `c`. */
  method ProcessEntries(buf: Buffer, c: nat, n: nat, f: ProcessFlags) returns (r: Outcome)
    modifies buf, buf.bytes
    ensures Step(r, buf.bytes[..], buf.refs) == EntriesPass(Step(Pass, old(buf.bytes[..]), old(buf.refs)), c, 0, n, f, HeaderPass)
  {
    ghost var goal := EntriesPass(Step(Pass, buf.bytes[..], buf.refs), c, 0, n, f, HeaderPass);
    var i := 0;
    while i < n
      invariant 0 <= i <= n
      invariant EntriesPass(Step(Pass, buf.bytes[..], buf.refs), c, i, n, f, HeaderPass) == goal
    {
      r := ProcessEntry(buf, c, i, f);
      if r.Fail? {
        return;
      }
      i := i + 1;
    }
    return Pass;
  }
}
