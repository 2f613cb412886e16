/** The in-memory image of an asset file that the decode passes rewrite in
    place, and the two primitives every pass is built from: the byte swap of
    a field and the fixup of a stored offset into a reference.

    Addresses are positions in the buffer. The library's pointer fields
    (`es::PointerX86`, from `datas/pointer.hpp`, which is not part of this
    model) hold an offset relative to some base until they are fixed up; a
    fixed-up field refers to `base + offset`, and an offset of 0 stays null.
    The model keeps the reference a fixed-up field holds in `refs`, keyed by
    the field's position, rather than re-encoding it into the field's bytes. */
module Memory {
  import opened Bytes
  import opened Outcomes

  /** What a pointer field refers to. `Wild` is a pointer nothing gives a
      meaning to: a field that was never fixed up, or an offset added to a
      null base. */
  datatype Ref = Null | At(addr: int) | Wild

  /** `Fixup(base)`: the stored offset added to the base, 0 meaning absent. */
  function Resolve(base: Ref, offset: int): (r: Ref)
    ensures r.Null? <==> offset == 0
    ensures r.At? <==> offset != 0 && base.At?
    ensures r.At? ==> r.addr - offset == base.addr
  {
    if offset == 0 then Null
    else match base
      case At(a) => At(a + offset)
      case _ => Wild
  }

  /** A pointer that was fixed up against `base` can be turned back into the
      offset it was read from. */
  lemma ResolveInjective(base: Ref, o1: int, o2: int)
    requires base.At?
    ensures Resolve(base, o1) == Resolve(base, o2) <==> o1 == o2
  {
  }

  /** A field of a record: its offset from the record's start and its width. */
  datatype Field = Field(offset: nat, width: nat)

  /** Every field of `fs` lies inside `n` bytes starting at `p`. */
  predicate FieldsFit(p: nat, fs: seq<Field>, n: nat) {
    forall i :: 0 <= i < |fs| ==> fs[i].width > 0 && p + fs[i].offset + fs[i].width <= n
  }

  /** The swaps of the fields `fs` of the record at `p`, in order. */
  function SwapEach(s: seq<byte>, p: nat, fs: seq<Field>): (r: seq<byte>)
    requires FieldsFit(p, fs, |s|)
    ensures |r| == |s|
    decreases |fs|
  {
    if fs == [] then s else SwapEach(SwapAt(s, p + fs[0].offset, fs[0].width), p, fs[1..])
  }

  /** The swaps of the fields of a record that lies in the `size` bytes
      from `p` change no byte outside them. */
  lemma {:induction false} SwapEachFrame(s: seq<byte>, p: nat, fs: seq<Field>, size: nat, i: nat)
    requires FieldsFit(p, fs, |s|) && FieldsFit(p, fs, p + size)
    requires i < |s| && !(p <= i < p + size)
    ensures SwapEach(s, p, fs)[i] == s[i]
    decreases |fs|
  {
    if fs != [] {
      var s1 := SwapAt(s, p + fs[0].offset, fs[0].width);
      SwapAtBytes(s, p + fs[0].offset, fs[0].width);
      assert FieldsFit(p, fs[1..], p + size) by {
        forall k | 0 <= k < |fs[1..]| ensures fs[1..][k] == fs[k + 1] { }
      }
      SwapEachFrame(s1, p, fs[1..], size, i);
    }
  }

  /** The references after fixing up the fields `fs` of the record at `p`
      against `base`, in order; the bytes are not changed by a fixup. */
  function FixEach(refs: map<nat, Ref>, s: seq<byte>, p: nat, fs: seq<Field>, base: Ref): map<nat, Ref>
    requires FieldsFit(p, fs, |s|)
    decreases |fs|
  {
    if fs == [] then refs else FixEach(FixOne(refs, s, p, fs[0], base), s, p, fs[1..], base)
  }

  /** The fixup of the one field `f` of the record at `p`. */
  function FixOne(refs: map<nat, Ref>, s: seq<byte>, p: nat, f: Field, base: Ref): map<nat, Ref>
    requires f.width > 0 && p + f.offset + f.width <= |s|
  {
    refs[p + f.offset := Resolve(base, I(s, p + f.offset, f.width))]
  }

  /** The offsets of a record's pointer fields are distinct. */
  predicate DistinctOffsets(fs: seq<Field>) {
    forall i, j :: 0 <= i < j < |fs| ==> fs[i].offset != fs[j].offset
  }

  /** After the fixups of a record every listed field holds `base` plus its
      stored offset. */
  lemma {:induction false} FixEachListed(refs: map<nat, Ref>, s: seq<byte>, p: nat, fs: seq<Field>, base: Ref, j: nat)
    requires FieldsFit(p, fs, |s|) && DistinctOffsets(fs) && j < |fs|
    ensures p + fs[j].offset in FixEach(refs, s, p, fs, base)
    ensures FixEach(refs, s, p, fs, base)[p + fs[j].offset] == Resolve(base, I(s, p + fs[j].offset, fs[j].width))
    decreases |fs|
  {
    var f, rest := fs[0], fs[1..];
    FixEachHead(refs, s, p, fs, base);
    var refs' := FixOne(refs, s, p, f, base);
    if j == 0 {
      assert forall k :: 0 <= k < |rest| ==> p + f.offset != p + rest[k].offset by {
        forall k | 0 <= k < |rest| ensures f.offset != rest[k].offset {
          assert rest[k] == fs[k + 1];
        }
      }
      FixEachOther(refs', s, p, rest, base, p + f.offset);
    } else {
      assert DistinctOffsets(rest) by {
        forall i, k | 0 <= i < k < |rest| ensures rest[i].offset != rest[k].offset {
          assert rest[i] == fs[i + 1] && rest[k] == fs[k + 1];
        }
      }
      assert rest[j - 1] == fs[j];
      FixEachListed(refs', s, p, rest, base, j - 1);
    }
  }

  /** Every field of `fs` of the record at `p` holds `base` plus the
      offset the bytes `s` store there. */
  predicate FieldsFixed(refs: map<nat, Ref>, s: seq<byte>, p: nat, fs: seq<Field>, base: Ref)
    requires FieldsFit(p, fs, |s|)
  {
    forall j :: 0 <= j < |fs| ==> RefOf(refs, p + fs[j].offset) == Resolve(base, I(s, p + fs[j].offset, fs[j].width))
  }

  /** After the fixups of a record every one of its fields holds `base`
      plus its stored offset. */
  lemma FixEachAll(refs: map<nat, Ref>, s: seq<byte>, p: nat, fs: seq<Field>, base: Ref)
    requires FieldsFit(p, fs, |s|) && DistinctOffsets(fs)
    ensures FieldsFixed(FixEach(refs, s, p, fs, base), s, p, fs, base)
  {
    forall j | 0 <= j < |fs|
      ensures RefOf(FixEach(refs, s, p, fs, base), p + fs[j].offset) == Resolve(base, I(s, p + fs[j].offset, fs[j].width))
    {
      FixEachListed(refs, s, p, fs, base, j);
    }
  }

  /** The fixups of a record leave every other pointer field as it was. */
  lemma {:induction false} FixEachOther(refs: map<nat, Ref>, s: seq<byte>, p: nat, fs: seq<Field>, base: Ref, q: nat)
    requires FieldsFit(p, fs, |s|)
    requires forall j :: 0 <= j < |fs| ==> q != p + fs[j].offset
    ensures q in refs <==> q in FixEach(refs, s, p, fs, base)
    ensures q in refs ==> FixEach(refs, s, p, fs, base)[q] == refs[q]
    decreases |fs|
  {
    if fs != [] {
      var f := fs[0];
      var refs' := FixOne(refs, s, p, f, base);
      FixEachOther(refs', s, p, fs[1..], base, q);
    }
  }

  /** One step of `FixEach`: the first field, then the rest. */
  lemma FixEachHead(refs: map<nat, Ref>, s: seq<byte>, p: nat, fs: seq<Field>, base: Ref)
    requires fs != [] && FieldsFit(p, fs, |s|)
    ensures FieldsFit(p, fs[1..], |s|)
    ensures fs[0].width > 0 && p + fs[0].offset + fs[0].width <= |s|
    ensures FixEach(refs, s, p, fs, base) == FixEach(FixOne(refs, s, p, fs[0], base), s, p, fs[1..], base)
  {
  }

  /** After `i` of the fixups of `fs`: the remaining fields fit, and
      finishing them gives the fixups of all of `fs` from `r0`. */
  predicate FixProgress(r0: map<nat, Ref>, refs: map<nat, Ref>, s: seq<byte>, p: nat, fs: seq<Field>, i: nat, base: Ref)
    requires i <= |fs|
  {
    && FieldsFit(p, fs, |s|)
    && FixEach(r0, s, p, fs, base) == FixEach(refs, s, p, fs[i..], base)
  }

  lemma FixProgressNext(r0: map<nat, Ref>, refs: map<nat, Ref>, s: seq<byte>, p: nat, fs: seq<Field>, i: nat, base: Ref)
    requires i < |fs| && FixProgress(r0, refs, s, p, fs, i, base)
    ensures fs[i].width > 0 && 0 <= p + fs[i].offset && p + fs[i].offset + fs[i].width <= |s|
  {
  }

  lemma FixProgressStep(r0: map<nat, Ref>, refs: map<nat, Ref>, refs': map<nat, Ref>, s: seq<byte>, p: nat, fs: seq<Field>, i: nat, base: Ref)
    requires i < |fs| && FixProgress(r0, refs, s, p, fs, i, base)
    requires fs[i].width > 0 && p + fs[i].offset + fs[i].width <= |s|
    requires refs' == refs[p + fs[i].offset := Resolve(base, I(s, p + fs[i].offset, fs[i].width))]
    ensures FixProgress(r0, refs', s, p, fs, i + 1, base)
  {
    FixEachHead(refs, s, p, fs[i..], base);
    assert fs[i..][1..] == fs[i + 1..];
  }

  lemma FieldsFitSnoc(p: nat, fs: seq<Field>, f: Field, n: nat)
    requires FieldsFit(p, fs, n) && f.width > 0 && p + f.offset + f.width <= n
    ensures FieldsFit(p, fs + [f], n)
  {
    var fs' := fs + [f];
    forall i | 0 <= i < |fs'|
      ensures fs'[i].width > 0 && p + fs'[i].offset + fs'[i].width <= n
    {
      if i < |fs| {
        assert fs'[i] == fs[i];
      }
    }
  }

  /** One more fixup after the fixups of a record's first fields. */
  lemma {:induction false} FixEachSnoc(refs: map<nat, Ref>, s: seq<byte>, p: nat, fs: seq<Field>, f: Field, base: Ref)
    requires FieldsFit(p, fs, |s|) && f.width > 0 && p + f.offset + f.width <= |s|
    ensures FieldsFit(p, fs + [f], |s|)
    ensures FixEach(refs, s, p, fs + [f], base) == FixOne(FixEach(refs, s, p, fs, base), s, p, f, base)
    decreases |fs|
  {
    FieldsFitSnoc(p, fs, f, |s|);
    if fs != [] {
      var g := fs[0];
      var refs' := FixOne(refs, s, p, g, base);
      assert (fs + [f])[0] == g;
      assert (fs + [f])[1..] == fs[1..] + [f];
      FixEachSnoc(refs', s, p, fs[1..], f, base);
    } else {
      assert (fs + [f])[1..] == [];
    }
  }

  /** The fixups of a record read only the bytes of its pointer fields. */
  lemma {:induction false} FixEachReadsFields(refs: map<nat, Ref>, s: seq<byte>, t: seq<byte>, p: nat, fs: seq<Field>, base: Ref)
    requires |s| == |t| && FieldsFit(p, fs, |s|)
    requires forall i :: 0 <= i < |fs| ==> I(s, p + fs[i].offset, fs[i].width) == I(t, p + fs[i].offset, fs[i].width)
    ensures FixEach(refs, s, p, fs, base) == FixEach(refs, t, p, fs, base)
    decreases |fs|
  {
    if fs != [] {
      var f := fs[0];
      assert forall i :: 0 <= i < |fs[1..]| ==> fs[1..][i] == fs[i + 1];
      assert FixOne(refs, s, p, f, base) == FixOne(refs, t, p, f, base);
      FixEachReadsFields(FixOne(refs, s, p, f, base), s, t, p, fs[1..], base);
    }
  }

  /** The position `size` bytes behind `r` start at, when `r` refers to
      that many bytes inside a buffer of `n` bytes. */
  function Follow(r: Ref, size: nat, n: nat): (t: Result<nat>)
    ensures t.Ok? <==> r.At? && 0 <= r.addr && r.addr + size <= n
    ensures t.Ok? ==> t.value == r.addr
    ensures r.Null? ==> t == Err(NullReference)
    ensures r.Wild? ==> t == Err(WildReference)
    ensures r.At? && t.Err? ==> t == Err(OutOfBounds)
  {
    match r
    case Null => Err(NullReference)
    case Wild => Err(WildReference)
    case At(a) => if 0 <= a && a + size <= n then Ok(a) else Err(OutOfBounds)
  }

  /** The reference the pointer field at `p` holds: what it was fixed up
      or reset to, or `Wild` when neither happened. */
  function RefOf(refs: map<nat, Ref>, p: int): (r: Ref)
    ensures p >= 0 && p in refs ==> r == refs[p]
    ensures r.Wild? <== p < 0 || p !in refs
  {
    if p >= 0 && p in refs then refs[p] else Wild
  }

  /** What a pass leaves behind, as values: how it ended, the buffer's
      bytes and the references of its pointer fields. */
  datatype Step = Step(outcome: Outcome, bytes: seq<byte>, refs: map<nat, Ref>)

  class Buffer {
    /** The file's bytes; the passes change them, never the buffer's size. */
    const bytes: array<byte>
    /** The references held by the pointer fields fixed up or reset so far. */
    var refs: map<nat, Ref>

    constructor (data: seq<byte>)
      ensures bytes[..] == data && refs == map[] && fresh(bytes)
    {
      bytes := new byte[|data|](i requires 0 <= i < |data| => data[i]);
      refs := map[];
    }

    /** A `w`-byte field at `p` lies inside the buffer. */
    predicate Fits(p: int, w: nat) {
      0 <= p && p + w <= bytes.Length
    }

    /** The unsigned little-endian field at `p`. */
    function Word(p: int, w: nat): (r: Result<nat>)
      reads bytes
      ensures r.Ok? <==> Fits(p, w)
      ensures r.Ok? ==> r.value == U(bytes[..], p, w)
    {
      if Fits(p, w) then Ok(U(bytes[..], p, w)) else Err(OutOfBounds)
    }

    /** The signed little-endian field at `p`. */
    function SignedWord(p: int, w: nat): (r: Result<int>)
      requires w > 0
      reads bytes
      ensures r.Ok? <==> Fits(p, w)
      ensures r.Ok? ==> r.value == I(bytes[..], p, w)
    {
      if Fits(p, w) then Ok(I(bytes[..], p, w)) else Err(OutOfBounds)
    }

    /** The reference a pointer field holds: what it was fixed up or reset
        to, or `Wild` when neither happened. */
    function RefAt(p: int): (r: Ref)
      reads this
      ensures r == RefOf(refs, p)
    {
      RefOf(refs, p)
    }

    /** The position `size` bytes behind `r` start at, when `r` refers to
        that many bytes inside the buffer. */
    function Target(r: Ref, size: nat): (t: Result<nat>)
      ensures t == Follow(r, size, bytes.Length)
      ensures t.Ok? <==> r.At? && Fits(r.addr, size)
    {
      Follow(r, size, bytes.Length)
    }

    /** The byte swap of the `w`-byte field at `p`. */
    method Swap(p: int, w: nat) returns (r: Outcome)
      modifies bytes
      ensures r.Pass? <==> Fits(p, w)
      ensures r.Pass? ==> bytes[..] == SwapAt(old(bytes[..]), p, w)
      ensures r.Fail? ==> r.error == OutOfBounds && bytes[..] == old(bytes[..])
    {
      if !Fits(p, w) {
        return Fail(OutOfBounds);
      }
      ghost var s := bytes[..];
      var field := bytes[p..p + w];
      forall i | 0 <= i < w {
        bytes[p + i] := field[w - 1 - i];
      }
      forall i | 0 <= i < bytes.Length
        ensures bytes[i] == SwapAt(s, p, w)[i]
      {
        SwapAtBytes(s, p, w);
        if p <= i < p + w {
          ReverseAt(s[p..p + w], i - p);
        }
      }
      return Pass;
    }

    /** The swap of a structure made of `n` consecutive `w`-byte fields
        (`FArraySwapper`), or of `n` consecutive scalar array elements. */
    method SwapFields(p: int, n: nat, w: nat) returns (r: Outcome)
      requires w > 0
      modifies bytes
      ensures r.Pass? <==> Fits(p, n * w)
      ensures r.Pass? ==> bytes[..] == Bytes.SwapRun(old(bytes[..]), p, n, w)
      ensures r.Fail? ==> r.error == OutOfBounds && bytes[..] == old(bytes[..])
    {
      if !Fits(p, n * w) {
        return Fail(OutOfBounds);
      }
      SwapAll(p, n, w);
      return Pass;
    }

    /** The loop of `SwapFields`, over fields that fit. */
    method SwapAll(p: nat, n: nat, w: nat)
      requires w > 0 && p + n * w <= bytes.Length
      modifies bytes
      ensures bytes[..] == Bytes.SwapRun(old(bytes[..]), p, n, w)
    {
      ghost var s := bytes[..];
      SwapProgressStart(s, p, w, n);
      var i, q := 0, p;
      while i < n
        invariant SwapProgress(s, bytes[..], p, q, w, i, n)
        decreases n - i
      {
        SwapNext(s, p, q, w, i, n);
        i, q := i + 1, q + w;
      }
      SwapProgressDone(s, bytes[..], p, q, w, n);
    }

    /** One more field of `SwapFields`. */
    method SwapNext(ghost s: seq<byte>, p: int, q: int, w: nat, i: nat, n: nat)
      requires i < n && SwapProgress(s, bytes[..], p, q, w, i, n)
      modifies bytes
      ensures SwapProgress(s, bytes[..], p, q + w, w, i + 1, n)
    {
      ghost var before := bytes[..];
      SwapProgressNext(s, before, p, q, w, i, n);
      var _ := Swap(q, w);
      SwapProgressStep(s, before, bytes[..], p, q, w, i, n);
    }

    /** Writes the `w`-byte little-endian `v` (modulo 256^w) at `p`. */
    method Write(p: int, w: nat, v: nat) returns (r: Outcome)
      modifies bytes
      ensures r.Pass? <==> Fits(p, w)
      ensures r.Pass? ==> bytes[..] == Put(old(bytes[..]), p, w, v % Pow256(w))
      ensures r.Fail? ==> r.error == OutOfBounds && bytes[..] == old(bytes[..])
    {
      if !Fits(p, w) {
        return Fail(OutOfBounds);
      }
      ghost var s := bytes[..];
      var field := WriteLE(v % Pow256(w), w);
      forall i | 0 <= i < w {
        bytes[p + i] := field[i];
      }
      assert bytes[..] == s[..p] + field + s[p + w..];
      return Pass;
    }

    /** `Fixup(base)` of the `w`-byte signed offset at `p`; returns and
        records the reference the field now holds. */
    method Fixup(p: int, w: nat, base: Ref) returns (r: Result<Ref>)
      requires w > 0
      modifies this
      ensures r.Ok? <==> Fits(p, w)
      ensures r.Ok? ==> r.value == Resolve(base, I(bytes[..], p, w))
      ensures r.Ok? ==> refs == old(refs)[p := r.value]
      ensures r.Err? ==> r.error == OutOfBounds && refs == old(refs)
    {
      var offset :- SignedWord(p, w);
      var ref := Resolve(base, offset);
      refs := refs[p := ref];
      return Ok(ref);
    }

    /** The swaps of the fields `fs` of a record at `p` (the record's
        `FByteswapper`). */
    method SwapList(p: nat, fs: seq<Field>)
      requires FieldsFit(p, fs, bytes.Length)
      modifies bytes
      ensures bytes[..] == SwapEach(old(bytes[..]), p, fs)
    {
      var i := 0;
      while i < |fs|
        invariant 0 <= i <= |fs|
        invariant FieldsFit(p, fs[i..], bytes.Length)
        invariant SwapEach(old(bytes[..]), p, fs) == SwapEach(bytes[..], p, fs[i..])
      {
        assert fs[i..][1..] == fs[i + 1..];
        var _ := Swap(p + fs[i].offset, fs[i].width);
        i := i + 1;
      }
    }

    /** The fixups of the pointer fields `fs` of a record at `p` against
        `base` (`es::FixupPointers`). */
    method FixupList(p: nat, fs: seq<Field>, base: Ref)
      requires FieldsFit(p, fs, bytes.Length)
      modifies this
      ensures refs == FixEach(old(refs), bytes[..], p, fs, base)
    {
      var s := bytes[..];
      var i := 0;
      while i < |fs|
        invariant 0 <= i <= |fs| && FixProgress(old(refs), refs, s, p, fs, i, base)
      {
        ghost var before := refs;
        FixProgressNext(old(refs), before, s, p, fs, i, base);
        var _ := Fixup(p + fs[i].offset, fs[i].width, base);
        FixProgressStep(old(refs), before, refs, s, p, fs, i, base);
        i := i + 1;
      }
    }

    /** Takes over the bytes and references a pass computed on the
        buffer's contents. */
    method Store(t: seq<byte>, refs': map<nat, Ref>)
      requires |t| == bytes.Length
      modifies this, bytes
      ensures bytes[..] == t && refs == refs'
    {
      forall i | 0 <= i < bytes.Length {
        bytes[i] := t[i];
      }
      refs := refs';
    }

    /** `Reset()`: the pointer field at `p` is made null. */
    method Reset(p: int) returns (r: Outcome)
      modifies this
      ensures r.Pass? <==> p >= 0
      ensures r.Pass? ==> refs == old(refs)[p := Null]
      ensures r.Fail? ==> r.error == OutOfBounds && refs == old(refs)
    {
      if p < 0 {
        return Fail(OutOfBounds);
      }
      refs := refs[p := Null];
      return Pass;
    }
  }

  /** Neither the bytes nor the references of `buf` changed. */
  twostate predicate Unchanged(buf: Buffer)
    reads buf, buf.bytes
  {
    buf.bytes[..] == old(buf.bytes[..]) && buf.refs == old(buf.refs)
  }

  /** After `i` of the `n` word swaps of a run starting at `p`, the next
      word starts at `q` and everything before it is swapped. */
  predicate SwapProgress(s: seq<byte>, cur: seq<byte>, p: int, q: int, w: nat, i: nat, n: nat)
  {
    && w > 0 && 0 <= p && i <= n && p + n * w <= |s|
    && q == p + i * w && q <= p + n * w
    && cur == s[..p] + SwapWords(s[p..q], w) + s[q..]
  }

  lemma SwapProgressNext(s: seq<byte>, cur: seq<byte>, p: int, q: int, w: nat, i: nat, n: nat)
    requires i < n && SwapProgress(s, cur, p, q, w, i, n)
    ensures 0 <= q && q + w <= |cur| && q + w <= p + n * w
  {
    MulSucc(i, w);
    MulMono(i + 1, n, w);
  }

  lemma SwapProgressStep(s: seq<byte>, cur: seq<byte>, next: seq<byte>, p: int, q: int, w: nat, i: nat, n: nat)
    requires i < n && SwapProgress(s, cur, p, q, w, i, n)
    requires 0 <= q && q + w <= |cur| && next == SwapAt(cur, q, w)
    ensures SwapProgress(s, next, p, q + w, w, i + 1, n)
  {
    MulSucc(i, w);
    MulMono(i + 1, n, w);
    SwapRunStep(s, cur, p, q, w, i);
  }

  lemma SwapProgressStart(s: seq<byte>, p: int, w: nat, n: nat)
    requires w > 0 && 0 <= p && p + n * w <= |s|
    ensures SwapProgress(s, s, p, p, w, 0, n)
  {
    assert s[p..p] == [];
    assert s == s[..p] + [] + s[p..];
  }

  lemma SwapProgressDone(s: seq<byte>, cur: seq<byte>, p: int, q: int, w: nat, n: nat)
    requires SwapProgress(s, cur, p, q, w, n, n)
    ensures cur == SwapRun(s, p, n, w)
  {
  }

  lemma MulSucc(i: nat, w: nat)
    ensures (i + 1) * w == i * w + w
  {
  }

  lemma MulMono(i: nat, n: nat, w: nat)
    requires i <= n
    ensures i * w <= n * w
  {
  }
}
