/** The walk over an array of records that several passes share: record by
    record, the record's 32-bit words are byte-swapped when the data is
    big-endian, then one pointer field of the record is fixed up (the
    `for (auto &a : array) { FByteswapper(a); a.name.Fixup(base); }` loops). */
module Records {
  import opened Bytes
  import opened Outcomes
  import opened Memory

  /** A record made of `words` 32-bit words whose pointer field sits at byte
      `field`. */
  datatype Layout = Layout(words: nat, field: nat) {
    predicate Valid() {
      field + 4 <= 4 * words
    }

    function Size(): nat {
      4 * words
    }
  }

  /** The number of 32-bit words in `n` records: `n * l.words`, counted
      record by record. */
  function Words(n: nat, l: Layout): nat {
    if n == 0 then 0 else Words(n - 1, l) + l.words
  }

  /** The `len` bytes at `p` with each of their 32-bit words reversed. */
  function SwapSpan(s: seq<byte>, p: nat, len: nat): (r: seq<byte>)
    requires p + len <= |s|
    ensures |r| == |s|
  {
    s[..p] + SwapWords(s[p..p + len], 4) + s[p + len..]
  }

  /** The record at `p`, swapped word by word when `swap`. */
  function Swapped(s: seq<byte>, p: nat, l: Layout, swap: bool): (r: seq<byte>)
    requires p + l.Size() <= |s|
    ensures |r| == |s|
  {
    if swap then SwapSpan(s, p, l.Size()) else s
  }

  /** The bytes after walking `n` records starting at `p`: every word of
      the array swapped when `swap`, nothing otherwise. */
  function WalkedBytes(s: seq<byte>, p: nat, n: nat, l: Layout, swap: bool): (r: seq<byte>)
    requires p + 4 * Words(n, l) <= |s|
    ensures |r| == |s|
  {
    if swap then SwapSpan(s, p, 4 * Words(n, l)) else s
  }

  /** Position of the pointer field of record `j` of an array at `p`. */
  function FieldAt(p: nat, j: nat, l: Layout): nat {
    p + 4 * Words(j, l) + l.field
  }

  /** The references after fixing up the pointer field of each of the first
      `n` records at `p` against `base`, reading the offsets from `s`. */
  function FixedFields(s: seq<byte>, refs: map<nat, Ref>, p: nat, n: nat, l: Layout, base: Ref): map<nat, Ref>
    requires l.Valid() && p + 4 * Words(n, l) <= |s|
  {
    if n == 0 then refs
    else
      var q := FieldAt(p, n - 1, l);
      FixedFields(s, refs, p, n - 1, l, base)[q := Resolve(base, I(s, q, 4))]
  }

  /** The pointer field at `q` holds the fixup against `base` of the offset
      the bytes `s` store there. */
  predicate FixedAt(s: seq<byte>, refs: map<nat, Ref>, q: nat, base: Ref) {
    q + 4 <= |s| && RefOf(refs, q) == Resolve(base, I(s, q, 4))
  }

  /** `for (auto &a : array)` over the `n` records `start` refers to: each
      record's words swapped when `swap`, then its pointer field fixed up
      against `base`. An empty array is not followed; a non-empty one must
      lie inside the buffer, and nothing changes when it does not. The
      fields are fixed up from the bytes as the walk leaves them. */
  function Walked(s: seq<byte>, refs: map<nat, Ref>, start: Ref, n: nat, l: Layout, swap: bool, base: Ref): (w: Step)
    requires l.Valid()
    ensures |w.bytes| == |s|
    ensures w.outcome.Fail? ==> w.bytes == s && w.refs == refs
  {
    if n == 0 then Step(Pass, s, refs)
    else
      match Follow(start, 4 * Words(n, l), |s|)
      case Err(e) => Step(Fail(e), s, refs)
      case Ok(p) =>
        var t := WalkedBytes(s, p, n, l, swap);
        Step(Pass, t, FixedFields(t, refs, p, n, l, base))
  }

  /** The walk fails exactly when a non-empty array is not inside the
      buffer, with the error of following `start`. When it passes, every
      record's pointer field holds the fixup of the offset the record
      stores, no other pointer field changed, and the bytes changed only
      when `swap`. */
  lemma WalkedMeaning(s: seq<byte>, refs: map<nat, Ref>, start: Ref, n: nat, l: Layout, swap: bool, base: Ref)
    requires l.Valid()
    ensures Walked(s, refs, start, n, l, swap, base).outcome.Pass? <==>
              n == 0 || (start.At? && 0 <= start.addr && start.addr + 4 * Words(n, l) <= |s|)
    ensures Walked(s, refs, start, n, l, swap, base).outcome.Fail? ==>
              Walked(s, refs, start, n, l, swap, base).outcome.error == Follow(start, 4 * Words(n, l), |s|).error
    ensures !swap ==> Walked(s, refs, start, n, l, swap, base).bytes == s
    ensures n > 0 && Walked(s, refs, start, n, l, swap, base).outcome.Pass? ==>
              forall j :: 0 <= j < n ==>
                FixedAt(Walked(s, refs, start, n, l, swap, base).bytes, Walked(s, refs, start, n, l, swap, base).refs,
                        FieldAt(start.addr, j, l), base)
    ensures n > 0 && Walked(s, refs, start, n, l, swap, base).outcome.Pass? ==>
              forall k :: !(start.addr <= k < start.addr + 4 * Words(n, l)) ==>
                RefOf(Walked(s, refs, start, n, l, swap, base).refs, k) == RefOf(refs, k)
  {
    if n > 0 && start.At? && 0 <= start.addr && start.addr + 4 * Words(n, l) <= |s| {
      var t := WalkedBytes(s, start.addr, n, l, swap);
      FixedFieldsKeep(t, refs, start.addr, n, l, base);
      FixedFieldsAll(t, refs, start.addr, n, l, base);
    }
  }

  /** A walk over an array of single pointers (`Layout(1, 0)`): when it
      passes over a non-empty array, the `n` words at the array are
      swapped, each holds the fixup of the offset it now stores, and no
      pointer outside the array changes. */
  lemma WalkedPointers(s: seq<byte>, refs: map<nat, Ref>, start: Ref, n: nat, base: Ref)
    requires n > 0 && Walked(s, refs, start, n, Layout(1, 0), true, base).outcome.Pass?
    ensures start.At? && 0 <= start.addr && start.addr + 4 * n <= |s|
    ensures var w := Walked(s, refs, start, n, Layout(1, 0), true, base);
      && w.bytes == SwapSpan(s, start.addr, 4 * n)
      && (forall j :: 0 <= j < n ==> FixedAt(w.bytes, w.refs, start.addr + 4 * j, base))
      && (forall k :: !(start.addr <= k < start.addr + 4 * n) ==> RefOf(w.refs, k) == RefOf(refs, k))
  {
    var l := Layout(1, 0);
    var w := Walked(s, refs, start, n, l, true, base);
    WalkedMeaning(s, refs, start, n, l, true, base);
    OneWordEach(n);
    assert start.At? && 0 <= start.addr && start.addr + 4 * n <= |s|;
    assert Follow(start, 4 * Words(n, l), |s|) == Ok(start.addr);
    assert w.bytes == WalkedBytes(s, start.addr, n, l, true) == SwapSpan(s, start.addr, 4 * n);
    forall j | 0 <= j < n
      ensures FixedAt(w.bytes, w.refs, start.addr + 4 * j, base)
    {
      OneWordEach(j);
      assert FieldAt(start.addr, j, l) == start.addr + 4 * j;
      assert FixedAt(w.bytes, w.refs, FieldAt(start.addr, j, l), base);
    }
  }

  /** An array of `n` one-word records is `n` words long. */
  lemma {:induction false} OneWordEach(n: nat)
    ensures Words(n, Layout(1, 0)) == n
  {
    if n > 0 {
      OneWordEach(n - 1);
    }
  }

  /** The walk of `Walked`, on the buffer. */
  method Walk(buf: Buffer, start: Ref, n: nat, l: Layout, swap: bool, base: Ref) returns (r: Outcome)
    requires l.Valid()
    modifies buf, buf.bytes
    ensures Step(r, buf.bytes[..], buf.refs) == Walked(old(buf.bytes[..]), old(buf.refs), start, n, l, swap, base)
  {
    if n == 0 {
      return Pass;
    }
    match buf.Target(start, 4 * Words(n, l))
    case Err(e) => return Fail(e);
    case Ok(p) =>
      WalkAt(buf, p, n, l, swap, base);
      return Pass;
  }

  /** The loop of the walk over the `n` records at `p`, inside the buffer. */
  method WalkAt(buf: Buffer, p: nat, n: nat, l: Layout, swap: bool, base: Ref)
    requires l.Valid() && p + 4 * Words(n, l) <= buf.bytes.Length
    modifies buf, buf.bytes
    ensures buf.bytes[..] == WalkedBytes(old(buf.bytes[..]), p, n, l, swap)
    ensures buf.refs == FixedFields(buf.bytes[..], old(buf.refs), p, n, l, base)
  {
    ghost var s0, r0 := buf.bytes[..], buf.refs;
    var i: nat := 0;
    while i < n
      invariant Progress(s0, r0, p, n, buf.bytes[..], buf.refs, i, l, swap, base)
    {
      ghost var cur, curRefs := buf.bytes[..], buf.refs;
      var q := p + 4 * Words(i, l);
      assert q + l.Size() <= buf.bytes.Length by {
        ProgressNext(s0, r0, p, n, cur, curRefs, i, l, swap, base);
      }
      WalkOne(buf, q, l, swap, base);
      ghost var next, nextRefs := buf.bytes[..], buf.refs;
      assert Progress(s0, r0, p, n, next, nextRefs, i + 1, l, swap, base) by {
        assert FieldAt(p, i, l) == q + l.field;
        ProgressNext(s0, r0, p, n, cur, curRefs, i, l, swap, base);
        ProgressStep(s0, r0, p, n, cur, curRefs, i, l, swap, base, next, nextRefs);
      }
      i := i + 1;
    }
    ProgressDone(s0, r0, p, n, buf.bytes[..], buf.refs, l, swap, base);
  }

  /** The body of the walk for the record at `q`: its words swapped when
      `swap`, then its pointer field fixed up against `base`. */
  method WalkOne(buf: Buffer, q: nat, l: Layout, swap: bool, base: Ref)
    requires l.Valid() && q + l.Size() <= buf.bytes.Length
    modifies buf, buf.bytes
    ensures buf.bytes[..] == Swapped(old(buf.bytes[..]), q, l, swap)
    ensures buf.refs == old(buf.refs)[q + l.field := Resolve(base, I(buf.bytes[..], q + l.field, 4))]
  {
    ghost var cur := buf.bytes[..];
    if swap {
      var _ := buf.SwapFields(q, l.words, 4);
      SwappedIsRun(cur, q, l);
    }
    var _ := buf.Fixup(q + l.field, 4, base);
  }

  /** After walking the first `i` records: their words are swapped when
      `swap`, and their fields are fixed up from the current bytes. */
  predicate Progress(s0: seq<byte>, r0: map<nat, Ref>, p: nat, n: nat, cur: seq<byte>, refs: map<nat, Ref>,
                     i: nat, l: Layout, swap: bool, base: Ref)
  {
    && l.Valid() && i <= n && p + 4 * Words(n, l) <= |s0|
    && Words(i, l) <= Words(n, l)
    && cur == WalkedBytes(s0, p, i, l, swap)
    && refs == FixedFields(cur, r0, p, i, l, base)
  }

  lemma ProgressNext(s0: seq<byte>, r0: map<nat, Ref>, p: nat, n: nat, cur: seq<byte>, refs: map<nat, Ref>,
                     i: nat, l: Layout, swap: bool, base: Ref)
    requires i < n && Progress(s0, r0, p, n, cur, refs, i, l, swap, base)
    ensures p + 4 * Words(i, l) + l.Size() <= |cur|
  {
    WordsMono(i + 1, n, l);
  }

  lemma ProgressStep(s0: seq<byte>, r0: map<nat, Ref>, p: nat, n: nat, cur: seq<byte>, refs: map<nat, Ref>,
                     i: nat, l: Layout, swap: bool, base: Ref, cur': seq<byte>, refs': map<nat, Ref>)
    requires i < n && Progress(s0, r0, p, n, cur, refs, i, l, swap, base)
    requires p + 4 * Words(i, l) + l.Size() <= |cur|
    requires cur' == Swapped(cur, p + 4 * Words(i, l), l, swap)
    requires refs' == refs[FieldAt(p, i, l) := Resolve(base, I(cur', FieldAt(p, i, l), 4))]
    ensures Progress(s0, r0, p, n, cur', refs', i + 1, l, swap, base)
  {
    WordsMono(i + 1, n, l);
    BytesStep(s0, cur, cur', p, i, l, swap);
    FixedFieldsNext(cur, cur', r0, p, i, l, base);
  }

  /** One record further: the bytes are those of a walk over one more
      record, and nothing before the record changed. */
  lemma BytesStep(s0: seq<byte>, cur: seq<byte>, cur': seq<byte>, p: nat, i: nat, l: Layout, swap: bool)
    requires p + 4 * Words(i + 1, l) <= |s0|
    requires cur == WalkedBytes(s0, p, i, l, swap)
    requires cur' == Swapped(cur, p + 4 * Words(i, l), l, swap)
    ensures cur' == WalkedBytes(s0, p, i + 1, l, swap)
    ensures cur[..p + 4 * Words(i, l)] == cur'[..p + 4 * Words(i, l)]
  {
    SwappedKeepsBelow(cur, p + 4 * Words(i, l), l, swap);
    if swap {
      SwapSpanNext(s0, p, i, l);
    }
  }

  lemma ProgressDone(s0: seq<byte>, r0: map<nat, Ref>, p: nat, n: nat, cur: seq<byte>, refs: map<nat, Ref>,
                     l: Layout, swap: bool, base: Ref)
    requires Progress(s0, r0, p, n, cur, refs, n, l, swap, base)
    ensures cur == WalkedBytes(s0, p, n, l, swap)
    ensures refs == FixedFields(cur, r0, p, n, l, base)
  {
  }

  /** A record's swap keeps every byte before the record. */
  lemma SwappedKeepsBelow(s: seq<byte>, p: nat, l: Layout, swap: bool)
    requires p + l.Size() <= |s|
    ensures Swapped(s, p, l, swap)[..p] == s[..p]
  {
  }

  /** Fixing up one more record's field, from bytes that differ from the
      earlier ones only from that record on. */
  lemma FixedFieldsNext(s: seq<byte>, t: seq<byte>, refs: map<nat, Ref>, p: nat, i: nat, l: Layout, base: Ref)
    requires l.Valid() && p + 4 * Words(i + 1, l) <= |s| == |t|
    requires s[..p + 4 * Words(i, l)] == t[..p + 4 * Words(i, l)]
    ensures FixedFields(t, refs, p, i + 1, l, base)
         == FixedFields(s, refs, p, i, l, base)[FieldAt(p, i, l) := Resolve(base, I(t, FieldAt(p, i, l), 4))]
  {
    FixedFieldsRead(s, t, refs, p, i, l, base, p + 4 * Words(i, l));
  }

  /** The fixups read only the bytes below `e`, when the array ends by `e`. */
  lemma {:induction false} FixedFieldsRead(s: seq<byte>, t: seq<byte>, refs: map<nat, Ref>, p: nat, n: nat, l: Layout, base: Ref, e: nat)
    requires l.Valid() && p + 4 * Words(n, l) <= e <= |s| == |t|
    requires s[..e] == t[..e]
    ensures FixedFields(s, refs, p, n, l, base) == FixedFields(t, refs, p, n, l, base)
  {
    if n > 0 {
      FixedFieldsRead(s, t, refs, p, n - 1, l, base, e);
      ReadAgrees(s, t, FieldAt(p, n - 1, l), e);
    }
  }

  /** Two byte strings that agree below `e` read the same word below `e`. */
  lemma ReadAgrees(s: seq<byte>, t: seq<byte>, q: nat, e: nat)
    requires q + 4 <= e <= |s| == |t| && s[..e] == t[..e]
    ensures I(s, q, 4) == I(t, q, 4)
  {
    assert s[q..q + 4] == s[..e][q..q + 4];
    assert t[q..q + 4] == t[..e][q..q + 4];
  }

  /** A record's swap is the swap of a run of its words. */
  lemma SwappedIsRun(s: seq<byte>, p: nat, l: Layout)
    requires p + l.Size() <= |s|
    ensures Swapped(s, p, l, true) == SwapRun(s, p, l.words, 4)
  {
  }

  /** The word swap of a span, given the bytes around it. */
  lemma SwapSpanOf(s: seq<byte>, p: nat, len: nat, u: seq<byte>, mid: seq<byte>, v: seq<byte>)
    requires s == u + mid + v && |u| == p && |mid| == len
    ensures SwapSpan(s, p, len) == u + SwapWords(mid, 4) + v
  {
    assert s[..p] == u;
    assert s[p..p + len] == mid;
    assert s[p + len..] == v;
  }

  /** Swapping the words of `4 * k` bytes and then of the `m` bytes after
      them is swapping the words of all `4 * k + m` bytes. */
  lemma SwapSpanConcat(s: seq<byte>, p: nat, k: nat, m: nat)
    requires p + 4 * k + m <= |s|
    ensures SwapSpan(SwapSpan(s, p, 4 * k), p + 4 * k, m) == SwapSpan(s, p, 4 * k + m)
  {
    SwapSpanWhole(s, p, k, m);
    SwapSpanTwice(s, p, k, m);
  }

  /** The swap of `4 * k + m` bytes, as the swaps of its two parts. */
  lemma SwapSpanWhole(s: seq<byte>, p: nat, k: nat, m: nat)
    requires p + 4 * k + m <= |s|
    ensures SwapSpan(s, p, 4 * k + m)
         == s[..p] + SwapWords(s[p..p + 4 * k], 4) + SwapWords(s[p + 4 * k..p + 4 * k + m], 4) + s[p + 4 * k + m..]
  {
    var a := 4 * k;
    var u, x, y, v := s[..p], s[p..p + a], s[p + a..p + a + m], s[p + a + m..];
    assert s[p..p + a + m] == x + y;
    SwapWordsAppend(x, y, 4, k);
  }

  /** Two swaps of adjacent spans, the first `4 * k` bytes long. */
  lemma SwapSpanTwice(s: seq<byte>, p: nat, k: nat, m: nat)
    requires p + 4 * k + m <= |s|
    ensures SwapSpan(SwapSpan(s, p, 4 * k), p + 4 * k, m)
         == s[..p] + SwapWords(s[p..p + 4 * k], 4) + SwapWords(s[p + 4 * k..p + 4 * k + m], 4) + s[p + 4 * k + m..]
  {
    var a := 4 * k;
    var u, x, y, v := s[..p], s[p..p + a], s[p + a..p + a + m], s[p + a + m..];
    var t := u + SwapWords(x, 4) + (y + v);
    assert s == u + x + (y + v);
    SwapSpanOf(s, p, a, u, x, y + v);
    assert t == (u + SwapWords(x, 4)) + y + v;
    SwapSpanOf(t, p + a, m, u + SwapWords(x, 4), y, v);
  }

  /** Swapping the words of the first `i` records, then those of the next
      one, is swapping the words of the first `i + 1`. */
  lemma SwapSpanNext(s: seq<byte>, p: nat, i: nat, l: Layout)
    requires p + 4 * Words(i + 1, l) <= |s|
    ensures SwapSpan(SwapSpan(s, p, 4 * Words(i, l)), p + 4 * Words(i, l), l.Size()) == SwapSpan(s, p, 4 * Words(i + 1, l))
  {
    SwapSpanConcat(s, p, Words(i, l), l.Size());
  }

  /** The fixups change no pointer field outside the array's bytes. */
  lemma {:induction false} FixedFieldsKeep(s: seq<byte>, refs: map<nat, Ref>, p: nat, n: nat, l: Layout, base: Ref)
    requires l.Valid() && p + 4 * Words(n, l) <= |s|
    ensures forall k :: !(p <= k < p + 4 * Words(n, l)) ==> RefOf(FixedFields(s, refs, p, n, l, base), k) == RefOf(refs, k)
  {
    if n > 0 {
      FixedFieldsKeep(s, refs, p, n - 1, l, base);
    }
  }

  /** After the fixups every record's pointer field holds the fixup of the
      offset it stores. */
  lemma {:induction false} FixedFieldsAll(s: seq<byte>, refs: map<nat, Ref>, p: nat, n: nat, l: Layout, base: Ref)
    requires l.Valid() && p + 4 * Words(n, l) <= |s|
    ensures forall j :: 0 <= j < n ==> FixedAt(s, FixedFields(s, refs, p, n, l, base), FieldAt(p, j, l), base)
  {
    if n > 0 {
      FixedFieldsAll(s, refs, p, n - 1, l, base);
      forall j | 0 <= j < n - 1
        ensures FieldAt(p, j, l) != FieldAt(p, n - 1, l)
      {
        WordsMono(j + 1, n - 1, l);
      }
    }
  }

  /** Word `k` of a word-swapped segment is the reversal of the word that
      was there. */
  lemma {:induction false} SwapWordsWord(seg: seq<byte>, k: nat)
    requires 4 * k + 4 <= |seg|
    ensures SwapWords(seg, 4)[4 * k..4 * k + 4] == Reverse(seg[4 * k..4 * k + 4])
    decreases k
  {
    assert SwapWords(seg, 4) == Reverse(seg[..4]) + SwapWords(seg[4..], 4);
    if k > 0 {
      SwapWordsWord(seg[4..], k - 1);
      assert seg[4..][4 * (k - 1)..4 * (k - 1) + 4] == seg[4 * k..4 * k + 4];
    }
  }

  /** After a span's words are swapped, each word reads as the big-endian
      value of the bytes that were there: what the swap of big-endian data
      is for. */
  lemma SwapSpanRead(s: seq<byte>, p: nat, len: nat, k: nat)
    requires p + len <= |s| && 4 * k + 4 <= len
    ensures U(SwapSpan(s, p, len), p + 4 * k, 4) == ReadBE(s[p + 4 * k..p + 4 * k + 4])
  {
    var t := SwapSpan(s, p, len);
    SwapWordsWord(s[p..p + len], k);
    assert t[p..p + len] == SwapWords(s[p..p + len], 4);
    SliceOfSlice(t, p, p + len, 4 * k, 4 * k + 4);
    SliceOfSlice(s, p, p + len, 4 * k, 4 * k + 4);
  }

  lemma SliceOfSlice(x: seq<byte>, a: nat, b: nat, c: nat, d: nat)
    requires a <= b <= |x| && c <= d <= b - a
    ensures x[a..b][c..d] == x[a + c..a + d]
  {
    assert forall i :: 0 <= i < d - c ==> x[a..b][c..d][i] == x[a + c + i];
  }

  lemma {:induction false} WordsMono(i: nat, n: nat, l: Layout)
    requires i <= n
    ensures Words(i, l) <= Words(n, l)
  {
    if i < n {
      WordsMono(i, n - 1, l);
    }
  }
  /** `for (auto &e : array) FByteswapper(e);` over an array whose
      elements are made of fields of one width: the `m` fields of `w` bytes
      that `start` refers to, each reversed. An empty array is not
      followed; no reference changes. */
  function Swept(s: seq<byte>, refs: map<nat, Ref>, start: Ref, m: nat, w: nat): (t: Step)
    requires w > 0
    ensures |t.bytes| == |s| && t.refs == refs
  {
    if m == 0 then Step(Pass, s, refs)
    else
      match Follow(start, m * w, |s|)
      case Err(e) => Step(Fail(e), s, refs)
      case Ok(p) => Step(Pass, SwapRun(s, p, m, w), refs)
  }

  /** The element swaps fail exactly when a non-empty array is not inside
      the buffer, with the error of following `start`, and then change
      nothing; otherwise only the array's bytes change. */
  lemma SweptMeaning(s: seq<byte>, refs: map<nat, Ref>, start: Ref, m: nat, w: nat)
    requires w > 0
    ensures Swept(s, refs, start, m, w).outcome.Pass? <==>
              m == 0 || (start.At? && 0 <= start.addr && start.addr + m * w <= |s|)
    ensures Swept(s, refs, start, m, w).outcome.Fail? ==>
              Swept(s, refs, start, m, w) == Step(Fail(Follow(start, m * w, |s|).error), s, refs)
    ensures m > 0 && Swept(s, refs, start, m, w).outcome.Pass? ==>
              forall i :: 0 <= i < |s| && !(start.addr <= i < start.addr + m * w) ==>
                Swept(s, refs, start, m, w).bytes[i] == s[i]
  {
    if m > 0 && start.At? && 0 <= start.addr && start.addr + m * w <= |s| {
      SwapRunFrame(s, start.addr, m, w);
    }
  }

  /** The element swaps of `Swept`, on the buffer. */
  method Sweep(buf: Buffer, start: Ref, m: nat, w: nat) returns (r: Outcome)
    requires w > 0
    modifies buf.bytes
    ensures Step(r, buf.bytes[..], buf.refs) == Swept(old(buf.bytes[..]), old(buf.refs), start, m, w)
  {
    if m == 0 {
      return Pass;
    }
    match buf.Target(start, m * w)
    case Err(e) =>
      return Fail(e);
    case Ok(p) =>
      r := buf.SwapFields(p, m, w);
  }

  /** An array field of a record whose elements are made of `fields`
      fields of `width` bytes each: where its items pointer and its 32-bit
      count sit in the record. */
  datatype ElementArray = ElementArray(items: nat, count: nat, fields: nat, width: nat) {
    /** The field's count lies inside `n` bytes from a record at `p`. */
    predicate FitsAt(p: nat, n: nat) {
      width > 0 && p + count + 4 <= n
    }

    /** The number of fields in `n` elements. */
    function Fields(n: nat): nat {
      fields * n
    }
  }

  /** The counts of the array fields of the record at `p` lie inside `n`
      bytes. */
  predicate ElementsFit(p: nat, arrays: seq<ElementArray>, n: nat) {
    forall i :: 0 <= i < |arrays| ==> arrays[i].FitsAt(p, n)
  }

  /** `for (auto &e : item.a) FByteswapper(e);` for the array field `a` of
      the record at `p`: its count read from the bytes, its items through
      the reference its pointer field holds. */
  function ArraySwept(s: seq<byte>, refs: map<nat, Ref>, p: nat, a: ElementArray): (w: Step)
    requires a.FitsAt(p, |s|)
    ensures |w.bytes| == |s| && w.refs == refs
  {
    Swept(s, refs, RefOf(refs, p + a.items), a.Fields(U(s, p + a.count, 4)), a.width)
  }

  /** The element swaps of the arrays `arrays` of the record at `p`, one
      loop after the other: each array's count is read when its loop
      starts, and the first array that cannot be followed ends the walk.
      No reference changes. */
  function SweptArrays(s: seq<byte>, refs: map<nat, Ref>, p: nat, arrays: seq<ElementArray>): (w: Step)
    requires ElementsFit(p, arrays, |s|)
    ensures |w.bytes| == |s| && w.refs == refs
    decreases |arrays|
  {
    if arrays == [] then Step(Pass, s, refs)
    else
      var w1 := ArraySwept(s, refs, p, arrays[0]);
      if w1.outcome.Fail? then w1 else SweptArrays(w1.bytes, refs, p, arrays[1..])
  }

  /** The arrays from the `i`-th on still fit. */
  lemma ElementsFitRest(p: nat, arrays: seq<ElementArray>, n: nat, i: nat)
    requires ElementsFit(p, arrays, n) && i <= |arrays|
    ensures ElementsFit(p, arrays[i..], n)
  {
    assert forall k :: 0 <= k < |arrays[i..]| ==> arrays[i..][k] == arrays[i + k];
  }

  /** When every array is empty the element swaps change nothing. */
  lemma {:induction false} SweptArraysEmpty(s: seq<byte>, refs: map<nat, Ref>, p: nat, arrays: seq<ElementArray>)
    requires ElementsFit(p, arrays, |s|)
    requires forall i :: 0 <= i < |arrays| ==> arrays[i].Fields(U(s, p + arrays[i].count, 4)) == 0
    ensures SweptArrays(s, refs, p, arrays) == Step(Pass, s, refs)
    decreases |arrays|
  {
    if arrays != [] {
      ElementsFitRest(p, arrays, |s|, 1);
      assert forall i :: 0 <= i < |arrays[1..]| ==> arrays[1..][i] == arrays[i + 1];
      SweptArraysEmpty(s, refs, p, arrays[1..]);
    }
  }

  /** The element swaps fail only by following a null or wild reference or
      an array outside the buffer. */
  lemma {:induction false} SweptArraysFails(s: seq<byte>, refs: map<nat, Ref>, p: nat, arrays: seq<ElementArray>)
    requires ElementsFit(p, arrays, |s|)
    ensures SweptArrays(s, refs, p, arrays).outcome.Fail? ==>
              SweptArrays(s, refs, p, arrays).outcome.error in {NullReference, WildReference, OutOfBounds}
    decreases |arrays|
  {
    if arrays != [] {
      var a := arrays[0];
      var m := a.Fields(U(s, p + a.count, 4));
      SweptMeaning(s, refs, RefOf(refs, p + a.items), m, a.width);
      var w1 := ArraySwept(s, refs, p, a);
      if w1.outcome.Pass? {
        ElementsFitRest(p, arrays, |s|, 1);
        SweptArraysFails(w1.bytes, refs, p, arrays[1..]);
      }
    }
  }

  /** The element swaps of `ArraySwept`, on the buffer. */
  method ArraySweep(buf: Buffer, p: nat, a: ElementArray) returns (r: Outcome)
    requires a.FitsAt(p, buf.bytes.Length)
    modifies buf.bytes
    ensures Step(r, buf.bytes[..], buf.refs) == ArraySwept(old(buf.bytes[..]), buf.refs, p, a)
  {
    var m := a.Fields(U(buf.bytes[..], p + a.count, 4));
    r := Sweep(buf, buf.RefAt(p + a.items), m, a.width);
  }

  /** The element swaps of `SweptArrays`, on the buffer. */
  method SweepArrays(buf: Buffer, p: nat, arrays: seq<ElementArray>) returns (r: Outcome)
    requires ElementsFit(p, arrays, buf.bytes.Length)
    modifies buf.bytes
    ensures Step(r, buf.bytes[..], buf.refs) == SweptArrays(old(buf.bytes[..]), buf.refs, p, arrays)
  {
    var i := 0;
    while i < |arrays|
      invariant 0 <= i <= |arrays| && ElementsFit(p, arrays[i..], buf.bytes.Length)
      invariant SweptArrays(buf.bytes[..], buf.refs, p, arrays[i..]) == SweptArrays(old(buf.bytes[..]), buf.refs, p, arrays)
    {
      assert arrays[i..][0] == arrays[i] && arrays[i..][1..] == arrays[i + 1..];
      r := ArraySweep(buf, p, arrays[i]);
      if r.Fail? {
        return;
      }
      ElementsFitRest(p, arrays, buf.bytes.Length, i + 1);
      i := i + 1;
    }
    return Pass;
  }
}
