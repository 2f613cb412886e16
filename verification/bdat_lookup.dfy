/** The lookups on a decoded BDAT table and collection (`KVPair`,
    `FindKey`, `FindBlock`, `Collection::FindData` in `source/bdat.cpp`):
    the comparison of one stored value with a probe, and three linear
    searches. Names are the NUL-terminated strings the name pointers refer
    to. */
module BdatLookup {
  import opened Outcomes
  import opened Bytes
  import opened Memory
  import opened Bdat
  import BdatTable

  /** A `Value` union: 32 bits, read as a little-endian word. */
  type Word = x: nat | x < 0x1_0000_0000

  /** What a row is searched by: a `Value`, compared with the stored value
      of its type (`floatEq` is the float comparison, not modelled here), or
      a string. */
  datatype Probe = Number(word: Word, floatEq: (Word, Word) -> bool) | Text(text: seq<byte>)

  /** The NUL-terminated string at `p`. */
  function CString(s: seq<byte>, p: nat): (r: Result<seq<byte>>)
    ensures r.Ok? ==> p + |r.value| < |s| && s[p..p + |r.value|] == r.value && s[p + |r.value|] == 0
    ensures r.Ok? ==> forall i :: 0 <= i < |r.value| ==> r.value[i] != 0
    ensures r.Err? ==> r.error == OutOfBounds && forall j :: p <= j < |s| ==> s[j] != 0
    decreases |s| - p
  {
    if p >= |s| then Err(OutOfBounds)
    else if s[p] == 0 then Ok([])
    else match CString(s, p + 1)
      case Err(e) => Err(e)
      case Ok(rest) =>
        assert s[p..p + 1 + |rest|] == [s[p]] + s[p + 1..p + 1 + |rest|];
        Ok([s[p]] + rest)
  }

  /** The string the pointer field at `field` refers to (`name.Get()`). */
  function StringAt(s: seq<byte>, refs: map<nat, Ref>, field: int): (r: Result<seq<byte>>)
    ensures r.Ok? ==> RefOf(refs, field).At?
  {
    match Follow(RefOf(refs, field), 0, |s|)
    case Err(e) => Err(e)
    case Ok(a) => CString(s, a)
  }

  /** `IsString()`: a Default descriptor of a string offset. */
  function IsString(s: seq<byte>, desc: Ref): (r: Result<bool>)
    ensures r == Ok(true) ==> desc.At? && 0 <= desc.addr && desc.addr + 2 <= |s| && s[desc.addr] as nat == Default && s[desc.addr + 1] as nat == StringPtr
  {
    match Follow(desc, 1, |s|)
    case Err(e) => Err(e)
    case Ok(d) =>
      if s[d] as nat != Default then Ok(false)
      else if d + 2 > |s| then Err(OutOfBounds)
      else Ok(s[d + 1] as nat == StringPtr)
  }

  /** The `w` low bytes of `other` equal the `w`-byte value stored at `data`. */
  function Stored(s: seq<byte>, data: Ref, w: nat, other: Word): (r: Result<bool>)
    ensures r.Ok? <==> data.At? && 0 <= data.addr && data.addr + w <= |s|
  {
    match Follow(data, w, |s|)
    case Err(e) => Err(e)
    case Ok(a) => Ok(U(s, a, w) == other % Pow256(w))
  }

  /** `KVPair::operator==(Value)` on the descriptor `desc` and the value at
      `data`, comparing `wide` bytes for the 32-bit integer types. */
  function CompareValue(s: seq<byte>, desc: Ref, data: Ref, other: Word, floatEq: (Word, Word) -> bool, wide: nat): (r: Result<bool>)
  {
    match Follow(desc, 1, |s|)
    case Err(e) => Err(e)
    case Ok(d) =>
      if s[d] as nat != Default then Ok(false)
      else if d + 2 > |s| then Err(OutOfBounds)
      else
        var t := s[d + 1] as nat;
        if t == I8 || t == U8 then Stored(s, data, 1, other)
        else if t == I16 || t == U16 then Stored(s, data, 2, other)
        else if t == I32 || t == U32 then Stored(s, data, wide, other)
        else if t == Float then
          match Follow(data, 4, |s|)
          case Err(e) => Err(e)
          case Ok(a) => Ok(floatEq(other, U(s, a, 4)))
        else if t == StringPtr then Err(Runtime("Invalid call for string comparison"))
        else Ok(false)
  }

  /** `KVPair::operator==(Value)` as written: the 32-bit integer types
      compare only their low 16 bits (`asU16`). */
  function KVPairEqualsAsWritten(s: seq<byte>, desc: Ref, data: Ref, other: Word, floatEq: (Word, Word) -> bool): Result<bool>
  {
    CompareValue(s, desc, data, other, floatEq, 2)
  }

  /** `KVPair::operator==(Value)` comparing all 32 bits of the 32-bit
      integer types. */
  function KVPairEquals(s: seq<byte>, desc: Ref, data: Ref, other: Word, floatEq: (Word, Word) -> bool): Result<bool>
  {
    CompareValue(s, desc, data, other, floatEq, 4)
  }

  /** The stored value compared with a `Value`: a non-Default descriptor
      never matches, an integer matches exactly when its stored bytes equal
      the same number of low bytes of the probe (all four for the 32-bit
      types), a string descriptor is an error, and an unknown type never
      matches. */
  lemma KVPairEqualsMeaning(s: seq<byte>, desc: Ref, data: Ref, other: Word, floatEq: (Word, Word) -> bool)
    requires desc.At? && 0 <= desc.addr && desc.addr + 2 <= |s|
    requires data.At? && 0 <= data.addr && data.addr + 4 <= |s|
    ensures var d, t, a := desc.addr, s[desc.addr + 1] as nat, data.addr;
            var r := KVPairEquals(s, desc, data, other, floatEq);
            && (s[d] as nat != Default ==> r == Ok(false))
            && (s[d] as nat == Default ==>
                  && ((t == I8 || t == U8) ==> r == Ok(s[a] as nat == other % 256))
                  && ((t == I16 || t == U16) ==> r == Ok(U(s, a, 2) == other % 0x1_0000))
                  && ((t == I32 || t == U32) ==> r == Ok(U(s, a, 4) == other))
                  && (t == StringPtr ==> r == Err(Runtime("Invalid call for string comparison")))
                  && (!(U8 <= t <= Float) ==> r == Ok(false)))
  {
    var a := data.addr;
    assert Pow256(1) == 256 && Pow256(2) == 0x1_0000 && Pow256(4) == 0x1_0000_0000;
    assert U(s, a, 1) == s[a] as nat by {
      assert s[a..a + 1][1..] == [];
    }
  }

  /** `KVPair::operator==(string_view)`: only a string descriptor can be
      compared with a string; its value is the string its offset refers to. */
  function TextEquals(s: seq<byte>, refs: map<nat, Ref>, desc: Ref, data: Ref, other: seq<byte>): (r: Result<bool>)
    ensures IsString(s, desc) == Ok(false) ==> r == Err(Runtime("Invalid call for string comparison"))
    ensures r == Ok(true) ==> data.At? && StringAt(s, refs, data.addr) == Ok(other)
  {
    match IsString(s, desc)
    case Err(e) => Err(e)
    case Ok(isString) =>
      if !isString then Err(Runtime("Invalid call for string comparison"))
      else match Follow(data, 4, |s|)
        case Err(e) => Err(e)
        case Ok(a) =>
          match StringAt(s, refs, a)
          case Err(e) => Err(e)
          case Ok(str) => Ok(str == other)
  }

  /** The two comparisons split the descriptors between them: a string
      descriptor cannot be compared with a `Value`, and nothing else can be
      compared with a string. */
  lemma ComparisonsSplit(s: seq<byte>, refs: map<nat, Ref>, desc: Ref, data: Ref, other: Word,
                         floatEq: (Word, Word) -> bool, text: seq<byte>)
    ensures IsString(s, desc) == Ok(true) ==>
              KVPairEquals(s, desc, data, other, floatEq) == Err(Runtime("Invalid call for string comparison"))
    ensures IsString(s, desc) == Ok(false) ==>
              TextEquals(s, refs, desc, data, text) == Err(Runtime("Invalid call for string comparison"))
  {
  }

  /** The cell of the key described at `desc` in the row at `block`: the
      row plus the descriptor's offset (for a Default descriptor; no other
      descriptor is read through it). */
  function CellOf(s: seq<byte>, desc: Ref, block: Ref): (r: Ref)
    ensures r.At? <==> block.At?
  {
    match Follow(desc, TypeDescSize, |s|)
    case Ok(d) => if s[d] as nat == Default then Advance(block, U(s, d + 2, 2)) else block
    case Err(_) => block
  }

  /** The value in the cell `data` of a key described at `desc` against a probe. */
  function Compare(s: seq<byte>, refs: map<nat, Ref>, desc: Ref, data: Ref, probe: Probe, wide: nat): Result<bool> {
    match probe
    case Number(word, floatEq) => CompareValue(s, desc, data, word, floatEq, wide)
    case Text(text) => TextEquals(s, refs, desc, data, text)
  }

  /** The three linear searches: a key descriptor by name among those at
      `descs`; a row, `stride` bytes apart from `values`, by the value of
      the key described at `desc` (as written: comparing the start of the
      row with the 16-bit comparison; otherwise: the key's cell, with the
      32-bit one); a table of the collection at `collection` by name. */
  datatype Search =
    | KeyByName(descs: Ref, name: seq<byte>)
    | RowByValue(desc: Ref, values: Ref, stride: nat, probe: Probe, asWritten: bool)
    | TableByName(collection: int, name: seq<byte>)

  /** Whether candidate `i` of the search matches. */
  function Matches(s: seq<byte>, refs: map<nat, Ref>, q: Search, i: nat): Result<bool> {
    match q
    case KeyByName(descs, name) => KeyNamed(s, refs, Advance(descs, KeyDescSize * i), name)
    case RowByValue(desc, values, stride, probe, asWritten) =>
      var block := Advance(values, stride * i);
      if asWritten then Compare(s, refs, desc, block, probe, 2)
      else Compare(s, refs, desc, CellOf(s, desc, block), probe, 4)
    case TableByName(c, name) => TableNamed(s, refs, TableAt(refs, c, i), name)
  }

  /** `key.name.Get() == name` for the key descriptor at `key`. */
  function KeyNamed(s: seq<byte>, refs: map<nat, Ref>, key: Ref, name: seq<byte>): (r: Result<bool>)
    ensures r.Ok? ==> key.At? && (r.value <==> StringAt(s, refs, key.addr + 4) == Ok(name))
  {
    match Follow(key, KeyDescSize, |s|)
    case Err(e) => Err(e)
    case Ok(d) =>
      match StringAt(s, refs, d + 4)
      case Err(e) => Err(e)
      case Ok(n) => Ok(n == name)
  }

  /** The pointer to table `i` of the collection at `c`. */
  function TableAt(refs: map<nat, Ref>, c: int, i: nat): Ref {
    RefOf(refs, c + BdatTable.CollectionSize + 4 * i)
  }

  /** `header->name.Get() == name` for the table header at `table`. */
  function TableNamed(s: seq<byte>, refs: map<nat, Ref>, table: Ref, name: seq<byte>): (r: Result<bool>)
    ensures r.Ok? ==> table.At? && (r.value <==> StringAt(s, refs, table.addr + BdatTable.NameField) == Ok(name))
  {
    match table
    case Null => Err(NullReference)
    case Wild => Err(WildReference)
    case At(t) =>
      match StringAt(s, refs, t + BdatTable.NameField)
      case Err(e) => Err(e)
      case Ok(n) => Ok(n == name)
  }

  /** No candidate from `k` up to (not including) `j` matches. */
  predicate NoneBefore(s: seq<byte>, refs: map<nat, Ref>, q: Search, k: nat, j: nat) {
    forall i :: k <= i < j ==> Matches(s, refs, q, i) == Ok(false)
  }

  /** The outcomes of examining candidates `0` to `n - 1`. */
  function Examined(s: seq<byte>, refs: map<nat, Ref>, q: Search, n: nat): seq<Result<bool>> {
    seq(n, i requires 0 <= i < n => Matches(s, refs, q, i))
  }

  /** The first of the outcomes from `k` on that is a match; the search
      stops at the first candidate that cannot be examined. */
  function First(os: seq<Result<bool>>, k: nat): (r: Result<Option<nat>>)
    ensures r.Ok? && r.value.Some? ==> k <= r.value.value < |os| && os[r.value.value] == Ok(true)
    ensures r.Ok? ==> forall j :: k <= j < |os| && (r.value.None? || j < r.value.value) ==> os[j] == Ok(false)
    ensures r.Err? ==> exists j :: k <= j < |os| && os[j] == Err(r.error) && forall i :: k <= i < j ==> os[i] == Ok(false)
    decreases |os| - k
  {
    if k >= |os| then Ok(None)
    else match os[k]
      case Err(e) => Err(e)
      case Ok(found) => if found then Ok(Some(k)) else First(os, k + 1)
  }

  /** The first match among candidates `0` to `n - 1` matches and no
      earlier candidate does; no match means no candidate matches; an error
      is that of the first candidate that cannot be examined. */
  lemma FirstMeaning(s: seq<byte>, refs: map<nat, Ref>, q: Search, n: nat)
    ensures var f := First(Examined(s, refs, q, n), 0);
            && (f.Ok? && f.value.Some? ==>
                  f.value.value < n && Matches(s, refs, q, f.value.value) == Ok(true) && NoneBefore(s, refs, q, 0, f.value.value))
            && (f == Ok(None) ==> NoneBefore(s, refs, q, 0, n))
            && (f.Err? ==> exists j :: 0 <= j < n && Matches(s, refs, q, j) == Err(f.error) && NoneBefore(s, refs, q, 0, j))
  {
    var os := Examined(s, refs, q, n);
    assert forall i :: 0 <= i < n ==> os[i] == Matches(s, refs, q, i);
  }

  /** The key descriptors of the header at `h`. */
  function KeySearch(s: seq<byte>, refs: map<nat, Ref>, h: nat, name: seq<byte>): (q: Search)
    requires h + HeaderSize <= |s|
  {
    KeyByName(RefOf(refs, h + BdatTable.KeyDescsField), name)
  }

  /** `FindKey(name)` on the header at `h`: the first key descriptor with
      that name, or null. */
  function FoundKey(s: seq<byte>, refs: map<nat, Ref>, h: int, name: seq<byte>): (r: Result<Ref>)
  {
    if !(0 <= h && h + HeaderSize <= |s|) then Err(OutOfBounds)
    else
      var q := KeySearch(s, refs, h, name);
      match First(Examined(s, refs, q, U(s, h + BdatTable.NumKeyDescsField, 2)), 0)
      case Err(e) => Err(e)
      case Ok(None) => Ok(Null)
      case Ok(Some(k)) => Ok(Advance(q.descs, KeyDescSize * k))
  }

  /** `FindKey(name)` as written: when some descriptor has the name, the
      first descriptor of the table is returned (`return ck`). */
  function FoundKeyAsWritten(s: seq<byte>, refs: map<nat, Ref>, h: int, name: seq<byte>): (r: Result<Ref>)
  {
    if !(0 <= h && h + HeaderSize <= |s|) then Err(OutOfBounds)
    else
      var q := KeySearch(s, refs, h, name);
      match First(Examined(s, refs, q, U(s, h + BdatTable.NumKeyDescsField, 2)), 0)
      case Err(e) => Err(e)
      case Ok(None) => Ok(Null)
      case Ok(Some(_)) => Ok(q.descs)
  }

  /** The descriptor `FindKey` returns carries the name, and no earlier one
      does; null means no descriptor carries it. */
  lemma FoundKeyNamed(s: seq<byte>, refs: map<nat, Ref>, h: nat, name: seq<byte>)
    requires h + HeaderSize <= |s|
    ensures var n := U(s, h + BdatTable.NumKeyDescsField, 2);
            var q := KeySearch(s, refs, h, name);
            && (FoundKey(s, refs, h, name) == Ok(Null) ==> NoneBefore(s, refs, q, 0, n))
            && (forall d :: FoundKey(s, refs, h, name) == Ok(At(d)) ==>
                  exists k :: 0 <= k < n && d == q.descs.addr + KeyDescSize * k && Matches(s, refs, q, k) == Ok(true) &&
                    NoneBefore(s, refs, q, 0, k))
  {
    var n := U(s, h + BdatTable.NumKeyDescsField, 2);
    var q := KeySearch(s, refs, h, name);
    FirstMeaning(s, refs, q, n);
  }

  /** `FindKey`: the loop over the key descriptors of the header at `h`. */
  method FindKey(buf: Buffer, h: int, name: seq<byte>) returns (r: Result<Ref>)
    ensures r == FoundKey(buf.bytes[..], buf.refs, h, name)
  {
    if !buf.Fits(h, HeaderSize) {
      return Err(OutOfBounds);
    }
    var s := buf.bytes[..];
    var q := KeySearch(s, buf.refs, h, name);
    var n := U(s, h + BdatTable.NumKeyDescsField, 2);
    ghost var os := Examined(s, buf.refs, q, n);
    var k := 0;
    while k < n
      invariant 0 <= k <= n
      invariant First(os, 0) == First(os, k)
    {
      match Matches(s, buf.refs, q, k)
      case Err(e) =>
        return Err(e);
      case Ok(found) =>
        if found {
          return Ok(Advance(q.descs, KeyDescSize * k));
        }
      k := k + 1;
    }
    return Ok(Null);
  }

  /** The rows of the header at `h`, searched for `probe` in the column of
      the key described at `desc`. */
  function RowSearch(s: seq<byte>, refs: map<nat, Ref>, h: nat, desc: Ref, probe: Probe, asWritten: bool): (q: Search)
    requires h + HeaderSize <= |s|
  {
    RowByValue(desc, RefOf(refs, h + BdatTable.KeyValuesField), U(s, h + BdatTable.StrideField, 2), probe, asWritten)
  }

  /** `FindBlock(keyName, value)` on the header at `h`: the first row whose
      value of the named key matches, or null. */
  function FoundBlock(s: seq<byte>, refs: map<nat, Ref>, h: int, keyName: seq<byte>, probe: Probe): (r: Result<Ref>)
  {
    match FoundKey(s, refs, h, keyName)
    case Err(e) => Err(e)
    case Ok(key) =>
      if !key.At? then Ok(Null)
      else
        var q := RowSearch(s, refs, h, RefOf(refs, key.addr), probe, false);
        match First(Examined(s, refs, q, U(s, h + BdatTable.NumKeyValuesField, 2)), 0)
        case Err(e) => Err(e)
        case Ok(None) => Ok(Null)
        case Ok(Some(b)) => Ok(Advance(q.values, q.stride * b))
  }

  /** `FindBlock(keyName, value)` as written: it compares the start of each
      row (`values + kvBlockStride * b`) through the descriptor of the key
      `FindKey` returns, and on a match returns the first row (`return
      values`). */
  function FoundBlockAsWritten(s: seq<byte>, refs: map<nat, Ref>, h: int, keyName: seq<byte>, probe: Probe): (r: Result<Ref>)
  {
    match FoundKeyAsWritten(s, refs, h, keyName)
    case Err(e) => Err(e)
    case Ok(key) =>
      if !key.At? then Ok(Null)
      else
        var q := RowSearch(s, refs, h, RefOf(refs, key.addr), probe, true);
        match First(Examined(s, refs, q, U(s, h + BdatTable.NumKeyValuesField, 2)), 0)
        case Err(e) => Err(e)
        case Ok(None) => Ok(Null)
        case Ok(Some(_)) => Ok(q.values)
  }

  /** The row `FindBlock` returns holds the probe in the key's cell, and no
      earlier row does. */
  lemma FoundBlockMatches(s: seq<byte>, refs: map<nat, Ref>, h: nat, keyName: seq<byte>, probe: Probe, key: Ref)
    requires h + HeaderSize <= |s|
    requires FoundKey(s, refs, h, keyName) == Ok(key) && key.At?
    ensures var q := RowSearch(s, refs, h, RefOf(refs, key.addr), probe, false);
            var rows := U(s, h + BdatTable.NumKeyValuesField, 2);
            forall block :: FoundBlock(s, refs, h, keyName, probe) == Ok(At(block)) ==>
              exists b :: 0 <= b < rows && Advance(q.values, q.stride * b) == At(block) &&
                Compare(s, refs, q.desc, CellOf(s, q.desc, At(block)), probe, 4) == Ok(true) &&
                NoneBefore(s, refs, q, 0, b)
  {
    var q := RowSearch(s, refs, h, RefOf(refs, key.addr), probe, false);
    var rows := U(s, h + BdatTable.NumKeyValuesField, 2);
    FirstMeaning(s, refs, q, rows);
  }

  /** `FindBlock`: the key lookup, then the loop over the rows. */
  method FindBlock(buf: Buffer, h: int, keyName: seq<byte>, probe: Probe) returns (r: Result<Ref>)
    ensures r == FoundBlock(buf.bytes[..], buf.refs, h, keyName, probe)
  {
    var key := FindKey(buf, h, keyName);
    if key.Err? {
      return Err(key.error);
    }
    if !key.value.At? {
      return Ok(Null);
    }
    var s := buf.bytes[..];
    var q := RowSearch(s, buf.refs, h, buf.RefAt(key.value.addr), probe, false);
    var rows := U(s, h + BdatTable.NumKeyValuesField, 2);
    ghost var os := Examined(s, buf.refs, q, rows);
    var b := 0;
    while b < rows
      invariant 0 <= b <= rows
      invariant First(os, 0) == First(os, b)
    {
      match Matches(s, buf.refs, q, b)
      case Err(e) =>
        return Err(e);
      case Ok(found) =>
        if found {
          return Ok(Advance(q.values, q.stride * b));
        }
      b := b + 1;
    }
    return Ok(Null);
  }

  /** `Collection::FindData(name)` on the collection at `c`: the header
      of the first table with that name, or null. */
  function FoundData(s: seq<byte>, refs: map<nat, Ref>, c: int, name: seq<byte>): (r: Result<Ref>)
    ensures r.Ok? && r.value.At? ==> 0 <= c && c + BdatTable.CollectionSize <= |s|
  {
    if !(0 <= c && c + BdatTable.CollectionSize <= |s|) then Err(OutOfBounds)
    else match First(Examined(s, refs, TableByName(c, name), U(s, c, 4)), 0)
      case Err(e) => Err(e)
      case Ok(None) => Ok(Null)
      case Ok(Some(i)) => Ok(TableAt(refs, c, i))
  }

  /** The header `FindData` returns is a table of the collection carrying
      the name, and no earlier table carries it. */
  lemma FoundDataNamed(s: seq<byte>, refs: map<nat, Ref>, c: nat, name: seq<byte>)
    requires c + BdatTable.CollectionSize <= |s|
    ensures var q := TableByName(c, name);
            forall t :: FoundData(s, refs, c, name) == Ok(At(t)) ==>
              exists i :: 0 <= i < U(s, c, 4) && TableAt(refs, c, i) == At(t) &&
                StringAt(s, refs, t + BdatTable.NameField) == Ok(name) &&
                NoneBefore(s, refs, q, 0, i)
  {
    var q := TableByName(c, name);
    FirstMeaning(s, refs, q, U(s, c, 4));
  }

  /** `FindData`: the loop over the tables of the collection at `c`. */
  method FindData(buf: Buffer, c: int, name: seq<byte>) returns (r: Result<Ref>)
    ensures r == FoundData(buf.bytes[..], buf.refs, c, name)
  {
    if !buf.Fits(c, BdatTable.CollectionSize) {
      return Err(OutOfBounds);
    }
    var s := buf.bytes[..];
    var q := TableByName(c, name);
    var n := U(s, c, 4);
    ghost var os := Examined(s, buf.refs, q, n);
    var i := 0;
    while i < n
      invariant 0 <= i <= n
      invariant First(os, 0) == First(os, i)
    {
      match Matches(s, buf.refs, q, i)
      case Err(e) =>
        return Err(e);
      case Ok(found) =>
        if found {
          return Ok(TableAt(buf.refs, c, i));
        }
      i := i + 1;
    }
    return Ok(Null);
  }

  /** A U32 value of 0x10000 stored at 4, behind a Default descriptor at 0. */
  const WideValue: seq<byte> := [1, 3, 0, 0, 0, 0, 1, 0]

  /** As written, the U32 value 0x10000 equals the probe 0; compared on all
      32 bits, it does not. */
  lemma KVPairEqualsAsWrittenCollides()
    ensures KVPairEqualsAsWritten(WideValue, At(0), At(4), 0, (a: Word, b: Word) => a == b) == Ok(true)
    ensures KVPairEquals(WideValue, At(0), At(4), 0, (a: Word, b: Word) => a == b) == Ok(false)
  {
    var s := WideValue;
    assert s[4..6] == [0, 0] && s[4..8] == [0, 0, 1, 0];
    assert U(s, 4, 2) == 0;
    assert U(s, 4, 4) == 0x10000;
    assert Pow256(2) == 0x1_0000 && Pow256(4) == 0x1_0000_0000;
  }

  /** As written, `FindKey` only ever yields the first descriptor of the
      table; whenever the named key is another one, the descriptor it yields
      carries a different name. */
  lemma FindKeyAsWrittenMisnames(s: seq<byte>, refs: map<nat, Ref>, h: nat, name: seq<byte>)
    requires h + HeaderSize <= |s|
    ensures var q := KeySearch(s, refs, h, name);
            forall d :: FoundKeyAsWritten(s, refs, h, name) == Ok(At(d)) ==> At(d) == q.descs
    ensures var q := KeySearch(s, refs, h, name);
            forall d :: FoundKey(s, refs, h, name) == Ok(At(d)) && At(d) != q.descs ==>
              FoundKeyAsWritten(s, refs, h, name) == Ok(q.descs) && KeyNamed(s, refs, q.descs, name) == Ok(false)
  {
    var q := KeySearch(s, refs, h, name);
    var n := U(s, h + BdatTable.NumKeyDescsField, 2);
    FirstMeaning(s, refs, q, n);
    var f := First(Examined(s, refs, q, n), 0);
    if f.Ok? && f.value.Some? && f.value.value > 0 {
      assert Matches(s, refs, q, 0) == Ok(false);
      assert Advance(q.descs, KeyDescSize * 0) == q.descs;
    }
  }

  /** As written, `FindBlock` only ever yields the first row of the table,
      whichever row matched. */
  lemma FindBlockAsWrittenReturnsFirst(s: seq<byte>, refs: map<nat, Ref>, h: nat, keyName: seq<byte>, probe: Probe)
    requires h + HeaderSize <= |s|
    ensures forall block :: FoundBlockAsWritten(s, refs, h, keyName, probe) == Ok(At(block)) ==>
              At(block) == RefOf(refs, h + BdatTable.KeyValuesField)
  {
  }
}
