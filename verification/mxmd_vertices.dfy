/** The big-endian vertex loop of `ProcessClass(V1::VertexBuffer)`
    (`source/mxmd.cpp`): once a buffer's descriptor table is swapped, each
    descriptor in turn has its field swapped in every vertex, at the offset
    where the sizes of the descriptors before it end, with a swap that
    depends on its type; byte-sized types are left alone and a type the
    loop does not know throws.

    The descriptor table is taken as read once, before the loop; the
    kinds, sizes and their prefix sums are those of `ModelViews`. */
module MxmdVertices {
  import opened Outcomes
  import opened Bytes
  import opened Memory
  import opened ModelViews

  /** The swap of one descriptor's field in a vertex: `count` values of
      `width` bytes each. */
  datatype Swap = Swap(count: nat, width: nat) {
    function Size(): nat {
      count * width
    }
  }

  /** The types whose field is not swapped. */
  const Untouched := Swap(0, 1)

  /** The case of the vertex loop a descriptor kind falls in: three floats
      (`Vector`), one 16-bit value, two floats (`Vector2`), four 16-bit
      values (`SVector4`), one 32-bit value, nothing for the types made of
      bytes, and "Unhandled vertex type" for any other kind. */
  function VertexSwap(k: VertexKind): (r: Result<Swap>)
    ensures r.Err? ==> r.error == Runtime(UnhandledType)
    ensures r.Ok? ==> r.value.width in {1, 2, 4} && (r.value.count == 0 <==> r.value == Untouched)
  {
    match k
    case MorphVertexId => Ok(Swap(1, 4))
    case NormalMorph => Ok(Untouched)
    case Stored(c) =>
      if c == Position || c == Normal32 || c == Weight32 then Ok(Swap(3, 4))
      else if c == WeightId then Ok(Swap(1, 2))
      else if c == Uv1 || c == Uv2 || c == Uv3 then Ok(Swap(2, 4))
      else if c == Weight16 || c == Tangent16 then Ok(Swap(4, 2))
      else if c == Normal || c == Normal2 || c == Tangent || c == BoneId || c == BoneId2 || c == VertexColor || c == Reflection then
        Ok(Untouched)
      else Err(Runtime(UnhandledType))
  }

  /** The vertex loop and the format conversion agree: the loop handles
      every kind the conversion accepts, and three more (16-bit tangents,
      tangents and reflections); a kind stored as four bytes is not
      swapped, and any other accepted kind has exactly the bytes of one
      element of its format swapped. */
  lemma VertexSwapMatchesFormat(k: VertexKind)
    ensures VertexSwap(k).Ok? <==> Handled(k) || k in {Stored(Tangent16), Stored(Tangent), Stored(Reflection)}
    ensures FormatOf(k).Ok? && FormatOf(k).value.data == R8G8B8A8 ==> VertexSwap(k) == Ok(Untouched)
    ensures FormatOf(k).Ok? && FormatOf(k).value.data != R8G8B8A8 ==>
              VertexSwap(k).value.Size() == ElementBytes(FormatOf(k).value.data)
  {
  }

  /** The `len` bytes at `p` with each of their `w`-byte values reversed. */
  function SwapPiece(s: seq<byte>, p: nat, len: nat, w: nat): (r: seq<byte>)
    requires w > 0 && p + len <= |s|
    ensures |r| == |s|
  {
    s[..p] + SwapWords(s[p..p + len], w) + s[p + len..]
  }

  /** The field `sw` at `p` of each of `n` vertices `stride` bytes apart,
      swapped one vertex after the other; the first vertex whose field is
      outside the buffer stops the loop. No reference changes. */
  function Strided(s: seq<byte>, refs: map<nat, Ref>, p: int, stride: nat, n: nat, sw: Swap): (w: Step)
    requires sw.width > 0
    ensures |w.bytes| == |s| && w.refs == refs
    ensures w.outcome.Fail? ==> w.outcome.error == OutOfBounds
    decreases n
  {
    if n == 0 then Step(Pass, s, refs)
    else if !(0 <= p && p + sw.Size() <= |s|) then Step(Fail(OutOfBounds), s, refs)
    else Strided(SwapPiece(s, p, sw.Size(), sw.width), refs, p + stride, stride, n - 1, sw)
  }

  /** Whether the loop gets through depends only on the buffer's size,
      not on its bytes. */
  lemma {:induction false} StridedOutcome(s: seq<byte>, t: seq<byte>, refs: map<nat, Ref>, p: int, stride: nat, n: nat, sw: Swap)
    requires sw.width > 0 && |s| == |t|
    ensures Strided(s, refs, p, stride, n, sw).outcome == Strided(t, refs, p, stride, n, sw).outcome
    decreases n
  {
    if n > 0 && 0 <= p && p + sw.Size() <= |s| {
      StridedOutcome(SwapPiece(s, p, sw.Size(), sw.width), SwapPiece(t, p, sw.Size(), sw.width), refs, p + stride, stride, n - 1, sw);
    }
  }

  /** A swapped piece, given the bytes around it. */
  lemma SwapPieceOf(s: seq<byte>, p: nat, len: nat, w: nat, u: seq<byte>, mid: seq<byte>, v: seq<byte>)
    requires w > 0 && s == u + mid + v && |u| == p && |mid| == len
    ensures SwapPiece(s, p, len, w) == u + SwapWords(mid, w) + v
  {
    assert s[..p] == u;
    assert s[p..p + len] == mid;
    assert s[p + len..] == v;
  }

  /** Swapping a piece twice restores the bytes. */
  lemma SwapPieceInvolutive(s: seq<byte>, p: nat, len: nat, w: nat)
    requires w > 0 && p + len <= |s|
    ensures SwapPiece(SwapPiece(s, p, len, w), p, len, w) == s
  {
    var u, mid, v := s[..p], s[p..p + len], s[p + len..];
    assert s == u + mid + v;
    SwapPieceOf(SwapPiece(s, p, len, w), p, len, w, u, SwapWords(mid, w), v);
    SwapWordsInvolutive(mid, w);
  }

  /** A piece's swap leaves every byte outside it as it was. */
  lemma SwapPieceElsewhere(s: seq<byte>, p: nat, len: nat, w: nat, q: nat, l: nat)
    requires w > 0 && p + len <= |s| && q + l <= |s| && (q + l <= p || p + len <= q)
    ensures SwapPiece(s, p, len, w)[q..q + l] == s[q..q + l]
  {
    var t := SwapPiece(s, p, len, w);
    forall i | q <= i < q + l
      ensures t[i] == s[i]
    {
      if i < p {
        assert t[i] == s[..p][i];
      } else {
        assert t[i] == s[p + len..][i - p - len];
      }
    }
  }

  /** One byte of a swapped piece. */
  lemma SwapPieceAt(s: seq<byte>, p: nat, len: nat, w: nat, i: nat)
    requires w > 0 && p + len <= |s| && i < |s|
    ensures SwapPiece(s, p, len, w)[i] == if p <= i < p + len then SwapWords(s[p..p + len], w)[i - p] else s[i]
  {
    var t := SwapPiece(s, p, len, w);
    if i < p {
      assert t[i] == s[..p][i];
    } else if i < p + len {
      assert t[i] == (s[..p] + SwapWords(s[p..p + len], w))[i];
    } else {
      assert t[i] == s[p + len..][i - p - len];
    }
  }

  /** Two pieces that do not overlap can be swapped in either order. */
  lemma SwapPieceCommute(x: seq<byte>, a: nat, b: nat, len: nat, w: nat)
    requires w > 0 && a + len <= b && b + len <= |x|
    ensures SwapPiece(SwapPiece(x, a, len, w), b, len, w) == SwapPiece(SwapPiece(x, b, len, w), a, len, w)
  {
    var xa, xb := SwapPiece(x, a, len, w), SwapPiece(x, b, len, w);
    SwapPieceElsewhere(x, a, len, w, b, len);
    SwapPieceElsewhere(x, b, len, w, a, len);
    forall i | 0 <= i < |x|
      ensures SwapPiece(xa, b, len, w)[i] == SwapPiece(xb, a, len, w)[i]
    {
      SwapPieceAt(xa, b, len, w, i);
      SwapPieceAt(xb, a, len, w, i);
      SwapPieceAt(x, a, len, w, i);
      SwapPieceAt(x, b, len, w, i);
    }
  }

  /** The vertex loop from `q` on commutes with one more swap of the same
      shape before `q`. */
  lemma {:induction false} StridedCommute(x: seq<byte>, refs: map<nat, Ref>, a: nat, q: int, stride: nat, n: nat, sw: Swap)
    requires sw.width > 0 && sw.Size() <= stride && a + sw.Size() <= q && a + sw.Size() <= |x|
    ensures SwapPiece(Strided(x, refs, q, stride, n, sw).bytes, a, sw.Size(), sw.width) ==
            Strided(SwapPiece(x, a, sw.Size(), sw.width), refs, q, stride, n, sw).bytes
    decreases n
  {
    var len, w := sw.Size(), sw.width;
    if n > 0 && q + len <= |x| {
      var x1 := SwapPiece(x, q, len, w);
      var y := SwapPiece(x, a, len, w);
      var rest := Strided(x1, refs, q + stride, stride, n - 1, sw).bytes;
      assert Strided(x, refs, q, stride, n, sw).bytes == rest;
      assert Strided(y, refs, q, stride, n, sw).bytes == Strided(SwapPiece(y, q, len, w), refs, q + stride, stride, n - 1, sw).bytes;
      SwapPieceCommute(x, a, q, len, w);
      StridedCommute(x1, refs, a, q + stride, stride, n - 1, sw);
      assert SwapPiece(rest, a, len, w) == Strided(SwapPiece(x1, a, len, w), refs, q + stride, stride, n - 1, sw).bytes;
    }
  }

  /** Swapping the same field of every vertex twice restores the buffer,
      when the fields of two vertices do not overlap. */
  lemma {:induction false} StridedInvolutive(s: seq<byte>, refs: map<nat, Ref>, p: int, stride: nat, n: nat, sw: Swap)
    requires sw.width > 0 && sw.Size() <= stride
    requires Strided(s, refs, p, stride, n, sw).outcome.Pass?
    ensures Strided(Strided(s, refs, p, stride, n, sw).bytes, refs, p, stride, n, sw) == Step(Pass, s, refs)
    decreases n
  {
    if n > 0 {
      var len, w := sw.Size(), sw.width;
      var s1 := SwapPiece(s, p, len, w);
      assert 0 <= p && p + len <= |s|;
      var t := Strided(s1, refs, p + stride, stride, n - 1, sw).bytes;
      assert Strided(s, refs, p, stride, n, sw).bytes == t;
      StridedOutcome(s1, s, refs, p + stride, stride, n - 1, sw);
      StridedInvolutive(s, refs, p + stride, stride, n - 1, sw);
      calc {
        Strided(t, refs, p, stride, n, sw);
        { StridedAgain(s, s1, t, refs, p, stride, n, sw); }
        Strided(Strided(s, refs, p + stride, stride, n - 1, sw).bytes, refs, p + stride, stride, n - 1, sw);
        Step(Pass, s, refs);
      }
    }
  }

  /** The step of `StridedInvolutive`: the second loop starts by undoing
      the first vertex's swap, which leaves the rest of the first loop's
      work on the original bytes. */
  lemma StridedAgain(s: seq<byte>, s1: seq<byte>, t: seq<byte>, refs: map<nat, Ref>, p: int, stride: nat, n: nat, sw: Swap)
    requires sw.width > 0 && sw.Size() <= stride && n > 0 && 0 <= p && p + sw.Size() <= |s|
    requires s1 == SwapPiece(s, p, sw.Size(), sw.width) && t == Strided(s1, refs, p + stride, stride, n - 1, sw).bytes
    ensures Strided(t, refs, p, stride, n, sw) ==
            Strided(Strided(s, refs, p + stride, stride, n - 1, sw).bytes, refs, p + stride, stride, n - 1, sw)
  {
    var len, w := sw.Size(), sw.width;
    StridedCommute(s1, refs, p, p + stride, stride, n - 1, sw);
    SwapPieceInvolutive(s, p, len, w);
  }

  /** One descriptor's turn of the loop: its field swapped in each of the
      `n` vertices, at `off` bytes into each vertex of the data `data`
      refers to. A type that is not swapped, or a buffer with no vertex,
      does not follow `data`. */
  function Column(w: Step, data: Ref, off: nat, stride: nat, n: nat, sw: Swap): (r: Step)
    requires sw.width > 0
    ensures |r.bytes| == |w.bytes| && r.refs == w.refs
  {
    if sw.count == 0 || n == 0 then w
    else
      match data
      case Null => Step(Fail(NullReference), w.bytes, w.refs)
      case Wild => Step(Fail(WildReference), w.bytes, w.refs)
      case At(a) => Strided(w.bytes, w.refs, a + off, stride, n, sw)
  }

  /** The vertex loop from descriptor `k` on: descriptor `j`'s field is
      swapped at `Sizes(ts[..j])` bytes into each vertex, the sum of the
      sizes of the descriptors before it. An unknown type ends the loop
      with its error, after the swaps of the descriptors before it. */
  function Columns(w: Step, data: Ref, stride: nat, n: nat, ts: seq<VertexType>, k: nat): (r: Step)
    requires k <= |ts|
    ensures |r.bytes| == |w.bytes| && r.refs == w.refs
    decreases |ts| - k
  {
    if w.outcome.Fail? || k == |ts| then w
    else
      match VertexSwap(ts[k].kind)
      case Err(e) => Step(Fail(e), w.bytes, w.refs)
      case Ok(sw) => Columns(Column(w, data, Sizes(ts[..k]), stride, n, sw), data, stride, n, ts, k + 1)
  }

  /** Descriptors whose types are made of bytes leave the vertex data as
      it was. */
  lemma {:induction false} ColumnsUntouched(w: Step, data: Ref, stride: nat, n: nat, ts: seq<VertexType>, k: nat)
    requires k <= |ts|
    requires forall j :: k <= j < |ts| ==> VertexSwap(ts[j].kind) == Ok(Untouched)
    ensures Columns(w, data, stride, n, ts, k) == w
    decreases |ts| - k
  {
    if w.outcome.Pass? && k < |ts| {
      assert Column(w, data, Sizes(ts[..k]), stride, n, Untouched) == w;
      ColumnsUntouched(w, data, stride, n, ts, k + 1);
    }
  }

  /** The loop fails when a descriptor has a type it does not know, and
      then or otherwise only with an error of following the data: an
      unknown type, data outside the buffer, or a data pointer that is
      null or was never fixed up. With every type known, the error is
      never "Unhandled vertex type". */
  lemma {:induction false} ColumnsFail(w: Step, data: Ref, stride: nat, n: nat, ts: seq<VertexType>, k: nat)
    requires k <= |ts| && w.outcome.Pass?
    ensures (exists j :: k <= j < |ts| && VertexSwap(ts[j].kind).Err?) ==> Columns(w, data, stride, n, ts, k).outcome.Fail?
    ensures Columns(w, data, stride, n, ts, k).outcome.Fail? ==>
              Columns(w, data, stride, n, ts, k).outcome.error in {Runtime(UnhandledType), OutOfBounds, NullReference, WildReference}
    ensures (forall j :: k <= j < |ts| ==> VertexSwap(ts[j].kind).Ok?) && Columns(w, data, stride, n, ts, k).outcome.Fail? ==>
              Columns(w, data, stride, n, ts, k).outcome.error != Runtime(UnhandledType)
    decreases |ts| - k
  {
    if k < |ts| && VertexSwap(ts[k].kind).Ok? {
      var v := Column(w, data, Sizes(ts[..k]), stride, n, VertexSwap(ts[k].kind).value);
      if v.outcome.Pass? {
        ColumnsFail(v, data, stride, n, ts, k + 1);
      }
    }
  }

  /** The descriptor table of `n` entries at `p`, as read once after its
      swap: a 16-bit type followed by a 16-bit size per entry. */
  function DescriptorsAt(s: seq<byte>, p: nat, n: nat): (ts: seq<VertexType>)
    requires p + 4 * n <= |s|
    ensures |ts| == n
    ensures forall i :: 0 <= i < n ==> ts[i] == VertexType(Stored(U(s, p + 4 * i, 2)), U(s, p + 4 * i + 2, 2))
  {
    seq(n, i requires 0 <= i < n => VertexType(Stored(U(s, p + 4 * i, 2)), U(s, p + 4 * i + 2, 2)))
  }

  /** One descriptor's turn of the loop, on the buffer: a cursor starts at
      the field of the first vertex and moves on by the stride. */
  method SwapColumn(buf: Buffer, data: Ref, off: nat, stride: nat, n: nat, sw: Swap) returns (r: Outcome)
    requires sw.width > 0
    modifies buf.bytes
    ensures Step(r, buf.bytes[..], buf.refs) == Column(Step(Pass, old(buf.bytes[..]), buf.refs), data, off, stride, n, sw)
  {
    if sw.count == 0 || n == 0 {
      return Pass;
    }
    match data
    case Null =>
      r := Fail(NullReference);
    case Wild =>
      r := Fail(WildReference);
    case At(a) =>
      r := SwapStrided(buf, a + off, stride, n, sw);
  }

  /** The loop over the vertices of one descriptor, from the field at `p`. */
  method SwapStrided(buf: Buffer, p: int, stride: nat, n: nat, sw: Swap) returns (r: Outcome)
    requires sw.width > 0
    modifies buf.bytes
    ensures Step(r, buf.bytes[..], buf.refs) == Strided(old(buf.bytes[..]), buf.refs, p, stride, n, sw)
  {
    ghost var refs := buf.refs;
    ghost var goal := Strided(buf.bytes[..], refs, p, stride, n, sw);
    var i, q := 0, p;
    while i < n
      invariant 0 <= i <= n && buf.refs == refs
      invariant Strided(buf.bytes[..], refs, q, stride, n - i, sw) == goal
    {
      ghost var before := buf.bytes[..];
      r := SwapVertex(buf, q, sw);
      if r.Fail? {
        assert goal == Step(Fail(OutOfBounds), before, refs);
        return;
      }
      assert goal == Strided(buf.bytes[..], refs, q + stride, stride, n - i - 1, sw);
      i, q := i + 1, q + stride;
    }
    r := Pass;
  }

  /** One vertex's field, on the buffer. */
  method SwapVertex(buf: Buffer, q: int, sw: Swap) returns (r: Outcome)
    requires sw.width > 0
    modifies buf.bytes
    ensures r.Pass? <==> 0 <= q && q + sw.Size() <= buf.bytes.Length
    ensures r.Pass? ==> buf.bytes[..] == SwapPiece(old(buf.bytes[..]), q, sw.Size(), sw.width)
    ensures r.Fail? ==> r == Fail(OutOfBounds) && buf.bytes[..] == old(buf.bytes[..])
  {
    r := buf.SwapFields(q, sw.count, sw.width);
  }

  /** The vertex loop over the descriptors `ts`, on the buffer: the offset
      into a vertex runs along, growing by each descriptor's size. */
  method SwapVertices(buf: Buffer, data: Ref, stride: nat, n: nat, ts: seq<VertexType>) returns (r: Outcome)
    modifies buf.bytes
    ensures Step(r, buf.bytes[..], buf.refs) == Columns(Step(Pass, old(buf.bytes[..]), buf.refs), data, stride, n, ts, 0)
  {
    var k, off := 0, 0;
    while k < |ts|
      invariant 0 <= k <= |ts| && off == Sizes(ts[..k])
      invariant Columns(Step(Pass, buf.bytes[..], buf.refs), data, stride, n, ts, k) ==
                Columns(Step(Pass, old(buf.bytes[..]), buf.refs), data, stride, n, ts, 0)
    {
      match VertexSwap(ts[k].kind) {
        case Err(e) =>
          return Fail(e);
        case Ok(sw) =>
          r := SwapColumn(buf, data, off, stride, n, sw);
          if r.Fail? {
            return;
          }
      }
      SizesNext(ts, k);
      off := off + ts[k].size;
      k := k + 1;
    }
    r := Pass;
  }
}
