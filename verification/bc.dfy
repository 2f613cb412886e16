/** BC blobs (`source/bc.cpp`): the relocation pass of a BC header, which
    turns the stored offsets of its pointer table into addresses by adding
    the header's address, and the key-frame choice of an animation track.

    The header is read at position `h` of the buffer; `base` is the address
    the header has in memory, which the pass adds (modulo 2^64) to 64-bit
    words. An offset `o` stored in the blob names buffer position `h + o`. */
module Bc {
  import opened Outcomes
  import opened Bytes
  import opened Memory
  import opened Flags

  /** `CompileFourCC("BC\0\0")` read as a little-endian word. */
  const Id: nat := 0x4342
  const HeaderSize: nat := 32
  const NumPointersField: nat := 12
  const DataField: nat := 16
  const FixupsField: nat := 24
  /** Pointers and pointer-table entries are 64-bit words. */
  const PtrSize: nat := 8
  /** The number of 64-bit values. */
  const WordRange: nat := 0x1_0000_0000_0000_0000

  lemma WordRangeIs()
    ensures Pow256(PtrSize) == WordRange
  {
    assert Pow256(2) == 0x1_0000;
    assert Pow256(4) == 0x1_0000_0000;
    assert Pow256(6) == 0x1_0000_0000_0000;
  }

  /** 64-bit addition, wrapping around. */
  function Add64(a: nat, b: nat): (r: nat)
    ensures r < WordRange
    ensures a + b < WordRange ==> r == a + b
  {
    (a + b) % 0x1_0000_0000_0000_0000
  }

  /** A 64-bit value is written unchanged. */
  lemma Fits64(v: nat)
    requires v < WordRange
    ensures v % Pow256(PtrSize) == v
  {
    WordRangeIs();
  }

  /** `s` with `base` added, modulo 2^64, to the 64-bit word at `a`. */
  function AddBase(s: seq<byte>, a: nat, base: nat): (r: seq<byte>)
    requires a + PtrSize <= |s|
    ensures |r| == |s|
  {
    Put(s, a, PtrSize, Add64(U(s, a, PtrSize), base))
  }

  /** The word at `a` grows by `base` (modulo 2^64); no other byte changes. */
  lemma AddBaseMeaning(s: seq<byte>, a: nat, base: nat)
    requires a + PtrSize <= |s|
    ensures U(AddBase(s, a, base), a, PtrSize) == Add64(U(s, a, PtrSize), base)
    ensures SameExcept(s, AddBase(s, a, base), a)
  {
    WordRangeIs();
    PutRead(s, a, PtrSize, Add64(U(s, a, PtrSize), base));
  }

  /** `data` and then `fixups` with `base` added. */
  function HeaderAdded(s: seq<byte>, h: nat, base: nat): (r: seq<byte>)
    requires h + HeaderSize <= |s|
    ensures |r| == |s|
  {
    AddBase(AddBase(s, h + DataField, base), h + FixupsField, base)
  }

  /** The guards of the pass, in their order. */
  function Guards(flags: ProcessFlags): (r: Outcome)
    ensures r.Pass? <==> !flags.Has(ProcessDataOut) && !flags.Has(EnsureBigEndian) && !flags.Has(AutoDetectEndian)
  {
    if flags.NoProcessDataOut().Fail? then flags.NoProcessDataOut()
    else if flags.NoBigEndian().Fail? then flags.NoBigEndian()
    else flags.NoAutoDetect()
  }

  /** The entries `p` to `n - 1` of the pointer table at `table` applied in
      turn: entry `p` is read from the current bytes, and the word `h` plus
      that entry gets `base` added. The pass stops at the first entry or
      word outside the buffer, with the bytes as they are then. */
  function RelocateFrom(s: seq<byte>, h: nat, table: nat, base: nat, p: nat, n: nat): (r: (Outcome, seq<byte>))
    ensures |r.1| == |s|
    ensures r.0.Fail? ==> r.0.error == OutOfBounds
    decreases n - p
  {
    if p >= n then (Pass, s)
    else if Slot(table, p) + PtrSize > |s| then (Fail(OutOfBounds), s)
    else
      var target := Named(s, h, table, p);
      if target + PtrSize > |s| then (Fail(OutOfBounds), s)
      else RelocateFrom(AddBase(s, target, base), h, table, base, p + 1, n)
  }

  /** The pointer table of the header at `h`. */
  function Table(s: seq<byte>, h: nat): nat
    requires h + HeaderSize <= |s|
  {
    h + U(s, h + FixupsField, PtrSize)
  }

  /** The number of entries of the pointer table. */
  function Count(s: seq<byte>, h: nat): nat
    requires h + HeaderSize <= |s|
  {
    U(s, h + NumPointersField, 4)
  }

  /** `ProcessClass(BC::Header)` on the header at `h`: the outcome and the
      bytes afterwards. The magic is checked first, then the flags; `data`
      and `fixups` get `base` added, and then every entry of the pointer
      table. */
  function Processed(s: seq<byte>, h: int, base: nat, flags: ProcessFlags): (r: (Outcome, seq<byte>))
    ensures |r.1| == |s|
    ensures r.0.Fail? && r.0.error != OutOfBounds ==> r.1 == s
  {
    if !(0 <= h && h + HeaderSize <= |s|) then (Fail(OutOfBounds), s)
    else if U(s, h, 4) != Id then (Fail(InvalidHeader(U(s, h, 4))), s)
    else if Guards(flags).Fail? then (Guards(flags), s)
    else
      RelocateFrom(HeaderAdded(s, h, base), h, Table(s, h), base, 0, Count(s, h))
  }

  /** The pass rejects a wrong magic and any of the three flags, in that
      order, before it touches a byte. */
  lemma ProcessedRejects(s: seq<byte>, h: nat, base: nat, flags: ProcessFlags)
    requires h + HeaderSize <= |s|
    ensures U(s, h, 4) != Id ==> Processed(s, h, base, flags) == (Fail(InvalidHeader(U(s, h, 4))), s)
    ensures U(s, h, 4) == Id && flags.Has(ProcessDataOut) ==>
              Processed(s, h, base, flags) == (Fail(Runtime(NoProcessDataOutMessage)), s)
    ensures U(s, h, 4) == Id && !flags.Has(ProcessDataOut) && flags.Has(EnsureBigEndian) ==>
              Processed(s, h, base, flags) == (Fail(Runtime(NoBigEndianMessage)), s)
    ensures U(s, h, 4) == Id && !flags.Has(ProcessDataOut) && !flags.Has(EnsureBigEndian) && flags.Has(AutoDetectEndian) ==>
              Processed(s, h, base, flags) == (Fail(Runtime(NoAutoDetectMessage)), s)
  {
  }

  /** Two 64-bit words that do not overlap. */
  predicate Apart(a: int, b: int) {
    a + PtrSize <= b || b + PtrSize <= a
  }

  /** The word at `w` lies outside the bytes from `lo` to `hi - 1`. */
  predicate Clear(w: int, lo: int, hi: int) {
    w + PtrSize <= lo || hi <= w
  }

  /** The position of entry `i` of the table at `table`. */
  function Slot(table: nat, i: nat): (r: nat)
    ensures r >= table
  {
    if i == 0 then table else Slot(table, i - 1) + PtrSize
  }

  /** Entries are `PtrSize` bytes apart. */
  lemma {:induction false} SlotIs(table: nat, i: nat)
    ensures Slot(table, i) == table + PtrSize * i
  {
    if i > 0 {
      SlotIs(table, i - 1);
    }
  }

  /** Entry `p` of a table of `n` entries lies inside it. */
  lemma {:induction false} EntryInside(table: nat, p: nat, n: nat)
    requires p < n
    ensures Slot(table, p) + PtrSize <= Slot(table, n)
    decreases n
  {
    if p + 1 < n {
      EntryInside(table, p, n - 1);
    }
  }

  /** The word that entry `p` of the table names. */
  function Named(s: seq<byte>, h: nat, table: nat, p: nat): nat
    requires Slot(table, p) + PtrSize <= |s|
  {
    h + U(s, Slot(table, p), PtrSize)
  }

  /** The words that entries `p` to `n - 1` of the table at `table` name,
      as the bytes `s` hold them. */
  function TargetsFrom(s: seq<byte>, h: nat, table: nat, p: nat, n: nat): (ts: seq<nat>)
    requires p <= n && Slot(table, n) <= |s|
    ensures |ts| == n - p
    decreases n - p
  {
    if p == n then []
    else
      EntryInside(table, p, n);
      [Named(s, h, table, p)] + TargetsFrom(s, h, table, p + 1, n)
  }

  /** Every word lies inside a buffer of `len` bytes. */
  predicate Inside(ts: seq<nat>, len: nat) {
    forall i :: 0 <= i < |ts| ==> ts[i] + PtrSize <= len
  }

  /** No two of the words overlap. */
  predicate Disjoint(ts: seq<nat>) {
    forall i, j :: 0 <= i < j < |ts| ==> Apart(ts[i], ts[j])
  }

  /** Every word lies outside the bytes from `lo` to `hi - 1`. */
  predicate AllClear(ts: seq<nat>, lo: int, hi: int) {
    forall i :: 0 <= i < |ts| ==> Clear(ts[i], lo, hi)
  }

  /** Byte `k` lies in none of the words. */
  predicate Untouched(ts: seq<nat>, k: int) {
    forall i :: 0 <= i < |ts| ==> !(ts[i] <= k < ts[i] + PtrSize)
  }

  /** `base` added to each of the words in turn. */
  function AddAll(s: seq<byte>, ts: seq<nat>, base: nat): (r: seq<byte>)
    requires Inside(ts, |s|)
    ensures |r| == |s|
    decreases |ts|
  {
    if ts == [] then s else AddAll(AddBase(s, ts[0], base), ts[1..], base)
  }

  /** `t` differs from `s` at most in the word at `a`. */
  predicate SameExcept(s: seq<byte>, t: seq<byte>, a: int) {
    |t| == |s| && forall k :: 0 <= k < |s| && !(a <= k < a + PtrSize) ==> t[k] == s[k]
  }

  /** A word apart from the one that changed reads as before. */
  lemma WordKept(s: seq<byte>, t: seq<byte>, a: int, b: nat)
    requires SameExcept(s, t, a) && Apart(a, b) && b + PtrSize <= |s|
    ensures U(t, b, PtrSize) == U(s, b, PtrSize)
  {
    assert t[b..b + PtrSize] == s[b..b + PtrSize];
  }

  /** A word none of the words overlaps reads as before. */
  lemma WordUntouched(s: seq<byte>, u: seq<byte>, ts: seq<nat>, a: nat)
    requires |u| == |s| && a + PtrSize <= |s| && AllClear(ts, a, a + PtrSize)
    requires forall k :: 0 <= k < |s| && Untouched(ts, k) ==> u[k] == s[k]
    ensures U(u, a, PtrSize) == U(s, a, PtrSize)
  {
    forall k | a <= k < a + PtrSize
      ensures u[k] == s[k]
    {
      assert Untouched(ts, k);
    }
    assert u[a..a + PtrSize] == s[a..a + PtrSize];
  }

  /** Adding `base` to disjoint words in turn adds it once to each word and
      changes no other byte. */
  lemma {:induction false} AddAllOnce(s: seq<byte>, ts: seq<nat>, base: nat)
    requires Inside(ts, |s|) && Disjoint(ts)
    ensures forall i :: 0 <= i < |ts| ==> U(AddAll(s, ts, base), ts[i], PtrSize) == Add64(U(s, ts[i], PtrSize), base)
    ensures forall k :: 0 <= k < |s| && Untouched(ts, k) ==> AddAll(s, ts, base)[k] == s[k]
    decreases |ts|
  {
    if ts != [] {
      var a, rest := ts[0], ts[1..];
      var t := AddBase(s, a, base);
      AddBaseMeaning(s, a, base);
      assert Inside(rest, |t|) && Disjoint(rest);
      AddAllOnce(t, rest, base);
      var u := AddAll(t, rest, base);
      assert u == AddAll(s, ts, base);
      assert AllClear(rest, a, a + PtrSize) by {
        forall j | 0 <= j < |rest|
          ensures Clear(rest[j], a, a + PtrSize)
        {
          assert rest[j] == ts[j + 1];
        }
      }
      WordUntouched(t, u, rest, a);
      forall i | 1 <= i < |ts|
        ensures U(u, ts[i], PtrSize) == Add64(U(s, ts[i], PtrSize), base)
      {
        assert rest[i - 1] == ts[i];
        WordKept(s, t, a, ts[i]);
      }
      forall k | 0 <= k < |s| && Untouched(ts, k)
        ensures u[k] == s[k]
      {
        assert Untouched(rest, k) by {
          forall j | 0 <= j < |rest|
            ensures !(rest[j] <= k < rest[j] + PtrSize)
          {
            assert rest[j] == ts[j + 1];
          }
        }
      }
    }
  }

  /** A change outside the table leaves the words its entries name. */
  lemma {:induction false} TargetsKept(s: seq<byte>, t: seq<byte>, h: nat, table: nat, p: nat, n: nat, a: int)
    requires p <= n && Slot(table, n) <= |s| && SameExcept(s, t, a)
    requires Clear(a, table, Slot(table, n))
    ensures TargetsFrom(t, h, table, p, n) == TargetsFrom(s, h, table, p, n)
    decreases n - p
  {
    if p != n {
      TargetsCons(s, h, table, p, n);
      TargetsCons(t, h, table, p, n);
      WordKept(s, t, a, Slot(table, p));
      TargetsKept(s, t, h, table, p + 1, n, a);
    }
  }

  /** The first word and the rest. */
  lemma TargetsCons(s: seq<byte>, h: nat, table: nat, p: nat, n: nat)
    requires p < n && Slot(table, n) <= |s|
    ensures Slot(table, p) + PtrSize <= Slot(table, n)
    ensures TargetsFrom(s, h, table, p, n) == [Named(s, h, table, p)] + TargetsFrom(s, h, table, p + 1, n)
  {
    EntryInside(table, p, n);
  }

  /** When the words lie inside the buffer and outside the table, applying
      the entries is adding `base` to the words they name. */
  lemma {:induction false} RelocateIsAddAll(s: seq<byte>, h: nat, table: nat, base: nat, p: nat, n: nat)
    requires p <= n && Slot(table, n) <= |s|
    requires Inside(TargetsFrom(s, h, table, p, n), |s|)
    requires AllClear(TargetsFrom(s, h, table, p, n), table, Slot(table, n))
    ensures RelocateFrom(s, h, table, base, p, n) == (Pass, AddAll(s, TargetsFrom(s, h, table, p, n), base))
    decreases n - p, 1
  {
    if p < n {
      RelocateFirst(s, h, table, base, p, n);
    } else {
      NoEntries(s, h, table, base, n);
    }
  }

  /** An empty rest of the table changes nothing. */
  lemma NoEntries(s: seq<byte>, h: nat, table: nat, base: nat, n: nat)
    requires Slot(table, n) <= |s|
    ensures RelocateFrom(s, h, table, base, n, n) == (Pass, AddAll(s, TargetsFrom(s, h, table, n, n), base))
  {
    assert TargetsFrom(s, h, table, n, n) == [];
  }

  /** Entry `p` applied first, the rest of the table does to the bytes it
      leaves what the whole table does. */
  lemma {:induction false} RelocateFirst(s: seq<byte>, h: nat, table: nat, base: nat, p: nat, n: nat)
    requires p < n && Slot(table, n) <= |s|
    requires Inside(TargetsFrom(s, h, table, p, n), |s|)
    requires AllClear(TargetsFrom(s, h, table, p, n), table, Slot(table, n))
    ensures RelocateFrom(s, h, table, base, p, n) == (Pass, AddAll(s, TargetsFrom(s, h, table, p, n), base))
    decreases n - p, 0
  {
    TargetsCons(s, h, table, p, n);
    var a := Named(s, h, table, p);
    assert TargetsFrom(s, h, table, p, n)[0] == a;
    var t := AddBase(s, a, base);
    AddBaseMeaning(s, a, base);
    RestNamesSame(s, t, h, table, p, n);
    RelocateStep(s, t, h, table, base, p, n);
    RelocateIsAddAll(t, h, table, base, p + 1, n);
  }

  /** Entry `p` applied, the rest of the table names the same words, which
      still lie inside the buffer and outside the table. */
  lemma RestNamesSame(s: seq<byte>, t: seq<byte>, h: nat, table: nat, p: nat, n: nat)
    requires p < n && Slot(table, p) + PtrSize <= Slot(table, n) <= |s|
    requires Inside(TargetsFrom(s, h, table, p, n), |s|)
    requires AllClear(TargetsFrom(s, h, table, p, n), table, Slot(table, n))
    requires SameExcept(s, t, Named(s, h, table, p))
    ensures TargetsFrom(t, h, table, p + 1, n) == TargetsFrom(s, h, table, p + 1, n)
    ensures Inside(TargetsFrom(t, h, table, p + 1, n), |t|)
    ensures AllClear(TargetsFrom(t, h, table, p + 1, n), table, Slot(table, n))
  {
    var ts := TargetsFrom(s, h, table, p, n);
    TargetsCons(s, h, table, p, n);
    assert ts[0] == Named(s, h, table, p) && ts[1..] == TargetsFrom(s, h, table, p + 1, n);
    TargetsKept(s, t, h, table, p + 1, n, ts[0]);
    TailKept(ts, |s|, table, Slot(table, n));
  }

  /** The words after the first keep what holds of all of them. */
  lemma TailKept(ts: seq<nat>, len: nat, lo: int, hi: int)
    requires ts != [] && Inside(ts, len) && AllClear(ts, lo, hi)
    ensures Inside(ts[1..], len) && AllClear(ts[1..], lo, hi)
  {
  }

  /** `ProcessClass(BC::Header)`. */
  method ProcessHeader(buf: Buffer, h: int, base: nat, flags: ProcessFlags) returns (r: Outcome)
    modifies buf.bytes
    ensures (r, buf.bytes[..]) == Processed(old(buf.bytes[..]), h, base, flags)
  {
    var s := buf.bytes[..];
    WordRangeIs();
    if !buf.Fits(h, HeaderSize) {
      return Fail(OutOfBounds);
    }
    if U(s, h, 4) != Id {
      return Fail(InvalidHeader(U(s, h, 4)));
    }
    r := Guards(flags);
    if r.Fail? {
      return;
    }
    var n := U(s, h + NumPointersField, 4);
    var table := h + U(s, h + FixupsField, PtrSize);
    AddHeaderBases(buf, h, base);
    r := Relocate(buf, h, table, base, n);
  }

  /** `data` and `fixups` get `base` added. */
  method AddHeaderBases(buf: Buffer, h: nat, base: nat)
    requires h + HeaderSize <= buf.bytes.Length
    modifies buf.bytes
    ensures buf.bytes[..] == HeaderAdded(old(buf.bytes[..]), h, base)
  {
    var data := buf.Word(h + DataField, PtrSize);
    Fits64(Add64(data.value, base));
    var _ := buf.Write(h + DataField, PtrSize, Add64(data.value, base));
    var fixups := buf.Word(h + FixupsField, PtrSize);
    Fits64(Add64(fixups.value, base));
    var _ := buf.Write(h + FixupsField, PtrSize, Add64(fixups.value, base));
  }

  /** The loop over the pointer table. */
  method Relocate(buf: Buffer, h: nat, table: nat, base: nat, n: nat) returns (r: Outcome)
    modifies buf.bytes
    ensures (r, buf.bytes[..]) == RelocateFrom(old(buf.bytes[..]), h, table, base, 0, n)
  {
    ghost var s0 := buf.bytes[..];
    var p := 0;
    while p < n
      invariant p <= n
      invariant RelocateFrom(s0, h, table, base, 0, n) == RelocateFrom(buf.bytes[..], h, table, base, p, n)
    {
      r := RelocateEntry(buf, h, table, base, p, n);
      if r.Fail? {
        return;
      }
      p := p + 1;
    }
    return Pass;
  }

  /** Entry `p` of the table applied: on success the rest of the table
      remains to be applied; on failure the pass ends here. */
  method RelocateEntry(buf: Buffer, h: nat, table: nat, base: nat, p: nat, n: nat) returns (r: Outcome)
    requires p < n
    modifies buf.bytes
    ensures r.Pass? ==> RelocateFrom(old(buf.bytes[..]), h, table, base, p, n) == RelocateFrom(buf.bytes[..], h, table, base, p + 1, n)
    ensures r.Fail? ==> RelocateFrom(old(buf.bytes[..]), h, table, base, p, n) == (r, buf.bytes[..])
  {
    ghost var cur := buf.bytes[..];
    var entry := buf.Word(Slot(table, p), PtrSize);
    if entry.Err? {
      return Fail(OutOfBounds);
    }
    var target := h + entry.value;
    var w := buf.Word(target, PtrSize);
    if w.Err? {
      return Fail(OutOfBounds);
    }
    Fits64(Add64(w.value, base));
    var _ := buf.Write(target, PtrSize, Add64(w.value, base));
    RelocateStep(cur, buf.bytes[..], h, table, base, p, n);
    return Pass;
  }

  /** One entry of the table applied. */
  lemma RelocateStep(s: seq<byte>, t: seq<byte>, h: nat, table: nat, base: nat, p: nat, n: nat)
    requires p < n && Slot(table, p) + PtrSize <= |s|
    requires Named(s, h, table, p) + PtrSize <= |s|
    requires t == AddBase(s, Named(s, h, table, p), base)
    ensures RelocateFrom(s, h, table, base, p, n) == RelocateFrom(t, h, table, base, p + 1, n)
  {
  }

  /** The words the pointer table names. */
  function Targets(s: seq<byte>, h: nat): (ts: seq<nat>)
    requires h + HeaderSize <= |s| && Slot(Table(s, h), Count(s, h)) <= |s|
    ensures |ts| == Count(s, h)
  {
    TargetsFrom(s, h, Table(s, h), 0, Count(s, h))
  }

  /** The table lies inside the buffer, apart from the header's two
      pointers, and names words inside the buffer that are apart from each
      other, from the table and from the header's pointers. */
  predicate LaidOut(s: seq<byte>, h: nat)
    requires h + HeaderSize <= |s|
  {
    && Slot(Table(s, h), Count(s, h)) <= |s|
    && Clear(h + DataField, Table(s, h), Slot(Table(s, h), Count(s, h)))
    && Clear(h + FixupsField, Table(s, h), Slot(Table(s, h), Count(s, h)))
    && Inside(Targets(s, h), |s|)
    && Disjoint(Targets(s, h))
    && AllClear(Targets(s, h), Table(s, h), Slot(Table(s, h), Count(s, h)))
    && AllClear(Targets(s, h), h + DataField, h + HeaderSize)
  }

  /** On a well laid out header the pass succeeds, adds `base` exactly once
      to `data`, `fixups` and each word the table names, and changes no
      other byte. */
  lemma ProcessedAddsBaseOnce(s: seq<byte>, h: nat, base: nat, flags: ProcessFlags)
    requires h + HeaderSize <= |s| && U(s, h, 4) == Id && Guards(flags).Pass? && LaidOut(s, h)
    ensures Processed(s, h, base, flags).0 == Pass
    ensures U(Processed(s, h, base, flags).1, h + DataField, PtrSize) == Add64(U(s, h + DataField, PtrSize), base)
    ensures U(Processed(s, h, base, flags).1, h + FixupsField, PtrSize) == Add64(U(s, h + FixupsField, PtrSize), base)
    ensures forall i :: 0 <= i < Count(s, h) ==>
              U(Processed(s, h, base, flags).1, Targets(s, h)[i], PtrSize) == Add64(U(s, Targets(s, h)[i], PtrSize), base)
    ensures forall k :: 0 <= k < |s| && !(h + DataField <= k < h + HeaderSize) && Untouched(Targets(s, h), k) ==>
              Processed(s, h, base, flags).1[k] == s[k]
  {
    ProcessedIsAddAll(s, h, base, flags);
    AllAddedOnce(s, h, base, Targets(s, h));
  }

  /** On a well laid out header the pass is the header writes followed by
      adding `base` to each word the table names. */
  lemma ProcessedIsAddAll(s: seq<byte>, h: nat, base: nat, flags: ProcessFlags)
    requires h + HeaderSize <= |s| && U(s, h, 4) == Id && Guards(flags).Pass? && LaidOut(s, h)
    ensures Processed(s, h, base, flags) == (Pass, AddAll(HeaderAdded(s, h, base), Targets(s, h), base))
  {
    var table, n := Table(s, h), Count(s, h);
    var t1 := AddBase(s, h + DataField, base);
    AddBaseMeaning(s, h + DataField, base);
    var t := AddBase(t1, h + FixupsField, base);
    AddBaseMeaning(t1, h + FixupsField, base);
    TargetsKept(s, t1, h, table, 0, n, h + DataField);
    TargetsKept(t1, t, h, table, 0, n, h + FixupsField);
    RelocateIsAddAll(t, h, table, base, 0, n);
  }

  /** The header writes and then adding `base` to disjoint words clear of
      the header's pointers add it once to each of these words and to the
      two pointers, and change no other byte. */
  lemma AllAddedOnce(s: seq<byte>, h: nat, base: nat, ts: seq<nat>)
    requires h + HeaderSize <= |s| && Inside(ts, |s|) && Disjoint(ts) && AllClear(ts, h + DataField, h + HeaderSize)
    ensures var u := AddAll(HeaderAdded(s, h, base), ts, base);
            && U(u, h + DataField, PtrSize) == Add64(U(s, h + DataField, PtrSize), base)
            && U(u, h + FixupsField, PtrSize) == Add64(U(s, h + FixupsField, PtrSize), base)
            && (forall i :: 0 <= i < |ts| ==> U(u, ts[i], PtrSize) == Add64(U(s, ts[i], PtrSize), base))
            && (forall k :: 0 <= k < |s| && !(h + DataField <= k < h + HeaderSize) && Untouched(ts, k) ==> u[k] == s[k])
  {
    var t1 := AddBase(s, h + DataField, base);
    AddBaseMeaning(s, h + DataField, base);
    var t := AddBase(t1, h + FixupsField, base);
    AddBaseMeaning(t1, h + FixupsField, base);
    AddAllOnce(t, ts, base);
    var u := AddAll(t, ts, base);
    HeaderWordsAdded(s, t1, t, u, h, base, ts);
    forall i | 0 <= i < |ts|
      ensures U(u, ts[i], PtrSize) == Add64(U(s, ts[i], PtrSize), base)
    {
      assert Clear(ts[i], h + DataField, h + HeaderSize);
      WordKept(s, t1, h + DataField, ts[i]);
      WordKept(t1, t, h + FixupsField, ts[i]);
    }
  }

  /** The header's two pointers are added to once, by the header writes,
      and the relocation of the table, which names other words, leaves
      them; no byte outside them and the named words changes. */
  lemma HeaderWordsAdded(s: seq<byte>, t1: seq<byte>, t: seq<byte>, u: seq<byte>, h: nat, base: nat, ts: seq<nat>)
    requires h + HeaderSize <= |s|
    requires t1 == AddBase(s, h + DataField, base) && t == AddBase(t1, h + FixupsField, base)
    requires |u| == |t| && AllClear(ts, h + DataField, h + HeaderSize)
    requires forall k :: 0 <= k < |t| && Untouched(ts, k) ==> u[k] == t[k]
    ensures U(u, h + DataField, PtrSize) == Add64(U(s, h + DataField, PtrSize), base)
    ensures U(u, h + FixupsField, PtrSize) == Add64(U(s, h + FixupsField, PtrSize), base)
    ensures forall k :: 0 <= k < |s| && !(h + DataField <= k < h + HeaderSize) && Untouched(ts, k) ==> u[k] == s[k]
  {
    AddBaseMeaning(s, h + DataField, base);
    AddBaseMeaning(t1, h + FixupsField, base);
    assert AllClear(ts, h + DataField, h + FixupsField) && AllClear(ts, h + FixupsField, h + HeaderSize) by {
      forall i | 0 <= i < |ts|
        ensures Clear(ts[i], h + DataField, h + FixupsField) && Clear(ts[i], h + FixupsField, h + HeaderSize)
      {
        assert Clear(ts[i], h + DataField, h + HeaderSize);
      }
    }
    WordUntouched(t, u, ts, h + DataField);
    WordUntouched(t, u, ts, h + FixupsField);
    WordKept(t1, t, h + FixupsField, h + DataField);
    WordKept(s, t1, h + DataField, h + FixupsField);
  }

  /** The index of the first frame from `i` on whose time is later than
      `t`, or the number of frames when there is none. */
  function FirstLater(times: seq<int>, t: int, i: nat): (k: nat)
    requires i <= |times|
    ensures i <= k <= |times|
    ensures forall j :: i <= j < k ==> times[j] <= t
    ensures k < |times| ==> times[k] > t
    decreases |times| - i
  {
    if i == |times| then i
    else if times[i] > t then i
    else FirstLater(times, t, i + 1)
  }

  /** The frame `Sample` evaluates at time `t`: the one before the first
      frame later than `t`, or the last frame when no frame is later. The
      first frame must not be later than `t`; a track without frames has no
      frame to evaluate. */
  function Selected(times: seq<int>, t: int): (r: Result<nat>)
  {
    var k := FirstLater(times, t, 0);
    if k < |times| then
      if k == 0 then Err(Assertion("&f > frames.begin()")) else Ok(k - 1)
    else if |times| == 0 then Err(OutOfBounds)
    else Ok(|times| - 1)
  }

  /** The chosen frame is not later than `t`, nor is any before it, and the
      next frame, if any, is later; the choice fails exactly when there are
      no frames or the first is later than `t`. On frames in time order the
      choice is the last frame not later than `t`. */
  lemma SelectedMeaning(times: seq<int>, t: int)
    ensures Selected(times, t).Ok? ==>
              var k := Selected(times, t).value;
              && k < |times| && times[k] <= t
              && (forall j :: 0 <= j <= k ==> times[j] <= t)
              && (k + 1 < |times| ==> times[k + 1] > t)
    ensures Selected(times, t) == Err(Assertion("&f > frames.begin()")) <==> |times| > 0 && times[0] > t
    ensures Selected(times, t) == Err(OutOfBounds) <==> |times| == 0
    ensures (forall i, j :: 0 <= i < j < |times| ==> times[i] <= times[j]) && Selected(times, t).Ok? ==>
              forall j :: Selected(times, t).value < j < |times| ==> times[j] > t
  {
  }

  /** The frame search of `Sample`. */
  method SelectFrame(times: seq<int>, t: int) returns (r: Result<nat>)
    ensures r == Selected(times, t)
  {
    var i := 0;
    while i < |times|
      invariant i <= |times|
      invariant FirstLater(times, t, 0) == FirstLater(times, t, i)
    {
      if times[i] > t {
        if i == 0 {
          return Err(Assertion("&f > frames.begin()"));
        }
        return Ok(i - 1);
      }
      i := i + 1;
    }
    if |times| == 0 {
      return Err(OutOfBounds);
    }
    return Ok(|times| - 1);
  }
}
