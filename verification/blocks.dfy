/** The block copy both texture decoders share (`LBIM::DecodeMipmap` and
    the tiled paths of `MTXT::DecodeMipmap`): a surface of `width` by
    `height` blocks of `bpp` bytes is rebuilt block by block, column after
    column, each block taken from the address the swizzle gives for it and
    written at its row-major place in the output.

    Which blocks are copied and where each one is read from are parameters:
    LBIM computes a bit-interleaved address and skips blocks whose address
    runs past the aligned surface, while MTXT copies every block from the
    address a GPU tiling function gives. A `memcpy` that reads or writes
    outside the buffers is undefined behaviour in the source; here it stops
    the copy with `OutOfBounds`. */
module Blocks {
  import opened Bytes
  import opened Outcomes

  /** A surface of `width` by `height` blocks of `bpp` bytes each. */
  datatype Grid = Grid(width: nat, height: nat, bpp: nat)

  /** How one surface is copied: its grid, where it starts in the output
      and in the input, the input address of each block relative to
      `inBase`, and which blocks are copied at all. */
  datatype Plan = Plan(g: Grid, outBase: nat, inBase: nat, address: (nat, nat) -> int, copied: (nat, nat) -> bool)

  /** The output offset of block (`w`, `h`): `(h * width + w) * bpp`. */
  function Target(g: Grid, w: nat, h: nat): nat {
    (h * g.width + w) * g.bpp
  }

  /** The size of the decoded surface: `width * height * bpp`. */
  function SurfaceSize(g: Grid): nat {
    g.width * g.height * g.bpp
  }

  /** Where block (`w`, `h`) is read from. */
  function Source(p: Plan, w: nat, h: nat): int {
    p.inBase + p.address(w, h)
  }

  /** Where block (`w`, `h`) is written to. */
  function Dest(p: Plan, w: nat, h: nat): nat {
    p.outBase + Target(p.g, w, h)
  }

  /** Block (`w`, `h`) is read from inside `data` and written inside an
      output of `n` bytes. */
  predicate InBounds(n: nat, data: seq<byte>, p: Plan, w: nat, h: nat) {
    && 0 <= Source(p, w, h) && Source(p, w, h) + p.g.bpp <= |data|
    && Dest(p, w, h) + p.g.bpp <= n
  }

  /** The output place of block (`w`, `h`) lies inside an output of `n` bytes. */
  predicate Lands(n: nat, p: Plan, w: nat, h: nat) {
    Dest(p, w, h) + p.g.bpp <= n
  }

  /** The `bpp` bytes of block (`w`, `h`) in the output `o`. */
  function BlockBytes(o: seq<byte>, p: Plan, w: nat, h: nat): seq<byte>
    requires Lands(|o|, p, w, h)
  {
    o[Dest(p, w, h)..Dest(p, w, h) + p.g.bpp]
  }

  /** The `bpp` input bytes block (`w`, `h`) is read from. */
  function SourceBytes(data: seq<byte>, p: Plan, w: nat, h: nat): seq<byte>
    requires 0 <= Source(p, w, h) && Source(p, w, h) + p.g.bpp <= |data|
  {
    data[Source(p, w, h)..Source(p, w, h) + p.g.bpp]
  }

  /** One iteration of the inner loop: skipped, or the `memcpy` of the
      block from its source to its place in `o`. */
  function Block(o: seq<byte>, data: seq<byte>, p: Plan, w: nat, h: nat): (r: Result<seq<byte>>)
    ensures r.Ok? ==> |r.value| == |o|
  {
    if !p.copied(w, h) then Ok(o)
    else if !InBounds(|o|, data, p, w, h) then Err(OutOfBounds)
    else
      var d := Dest(p, w, h);
      Ok(o[..d] + SourceBytes(data, p, w, h) + o[d + p.g.bpp..])
  }

  /** The output after blocks (`w`, 0) .. (`w`, `h` - 1) of one column. */
  function Cells(o: seq<byte>, data: seq<byte>, p: Plan, w: nat, h: nat): (r: Result<seq<byte>>)
    ensures r.Ok? ==> |r.value| == |o|
    decreases h
  {
    if h == 0 then Ok(o)
    else match Cells(o, data, p, w, h - 1)
      case Err(e) => Err(e)
      case Ok(o') => Block(o', data, p, w, h - 1)
  }

  /** The output after the whole columns 0 .. `w` - 1. */
  function Columns(o: seq<byte>, data: seq<byte>, p: Plan, w: nat): (r: Result<seq<byte>>)
    ensures r.Ok? ==> |r.value| == |o|
    decreases w
  {
    if w == 0 then Ok(o)
    else match Columns(o, data, p, w - 1)
      case Err(e) => Err(e)
      case Ok(o') => Cells(o', data, p, w - 1, p.g.height)
  }

  /** The output after the whole surface. */
  function Decoded(o: seq<byte>, data: seq<byte>, p: Plan): Result<seq<byte>> {
    Columns(o, data, p, p.g.width)
  }

  /** Block (`w`, `h`) comes before block (`w0`, `h0`) in the loops' order. */
  predicate Before(w: nat, h: nat, w0: nat, h0: nat) {
    w < w0 || (w == w0 && h < h0)
  }

  /** The output `o` is `o0` with exactly the blocks before (`w0`, `h0`)
      copied: every copied block so far was inside the buffers, its bytes
      hold its source bytes, every other block still holds what `o0` held,
      and nothing outside the surface changed. */
  ghost predicate Partial(o0: seq<byte>, o: seq<byte>, data: seq<byte>, p: Plan, w0: nat, h0: nat) {
    && |o| == |o0|
    && (forall k :: 0 <= k < |o| && !(p.outBase <= k < p.outBase + SurfaceSize(p.g)) ==> o[k] == o0[k])
    && (forall w: nat, h: nat :: w < p.g.width && h < p.g.height && Before(w, h, w0, h0) && p.copied(w, h) ==>
          InBounds(|o0|, data, p, w, h))
    && (forall w: nat, h: nat :: w < p.g.width && h < p.g.height && Lands(|o0|, p, w, h) ==>
          BlockBytes(o, p, w, h) ==
            if Before(w, h, w0, h0) && p.copied(w, h) then SourceBytes(data, p, w, h) else BlockBytes(o0, p, w, h))
  }

  /** A block whose place lies in the output is inside the surface. */
  lemma TargetInside(g: Grid, w: nat, h: nat)
    requires w < g.width && h < g.height
    ensures Target(g, w, h) + g.bpp <= SurfaceSize(g)
  {
    var c := h * g.width + w;
    assert c + 1 <= g.height * g.width by {
      assert c + 1 <= h * g.width + g.width == (h + 1) * g.width;
      MulLeft(h + 1, g.height, g.width);
    }
    MulLeft(c + 1, g.height * g.width, g.bpp);
    assert (c + 1) * g.bpp == c * g.bpp + g.bpp;
    assert g.height * g.width * g.bpp == g.width * g.height * g.bpp;
  }

  /** `a <= b` implies `a * m <= b * m`. */
  lemma MulLeft(a: nat, b: nat, m: nat)
    requires a <= b
    ensures a * m <= b * m
  {
  }

  /** Two different blocks of the grid have different row-major indices. */
  lemma CellsDistinct(g: Grid, w: nat, h: nat, w': nat, h': nat)
    requires w < g.width && w' < g.width && h < g.height && h' < g.height
    requires h < h'
    ensures h * g.width + w + 1 <= h' * g.width + w'
  {
    assert h * g.width + w + 1 <= (h + 1) * g.width;
    MulLeft(h + 1, h', g.width);
  }

  /** The places of two different blocks do not overlap. */
  lemma TargetsApart(g: Grid, w: nat, h: nat, w': nat, h': nat)
    requires w < g.width && w' < g.width && h < g.height && h' < g.height
    requires w != w' || h != h'
    ensures Target(g, w, h) + g.bpp <= Target(g, w', h') || Target(g, w', h') + g.bpp <= Target(g, w, h)
  {
    var c, c' := h * g.width + w, h' * g.width + w';
    assert Target(g, w, h) == c * g.bpp && Target(g, w', h') == c' * g.bpp;
    if h < h' {
      CellsDistinct(g, w, h, w', h');
      IndicesApart(c, c', g.bpp);
    } else if h' < h {
      CellsDistinct(g, w', h', w, h);
      IndicesApart(c', c, g.bpp);
    } else if w < w' {
      IndicesApart(c, c', g.bpp);
    } else {
      IndicesApart(c', c, g.bpp);
    }
  }

  /** The places of blocks with row-major indices `c` < `d` do not overlap. */
  lemma IndicesApart(c: nat, d: nat, m: nat)
    requires c < d
    ensures c * m + m <= d * m
  {
    MulLeft(c + 1, d, m);
    assert (c + 1) * m == c * m + m;
  }

  /** Nothing is copied before the first block. */
  lemma PartialStart(o0: seq<byte>, data: seq<byte>, p: Plan)
    ensures Partial(o0, o0, data, p, 0, 0)
  {
  }

  /** A finished column is the start of the next one. */
  lemma PartialColumn(o0: seq<byte>, o: seq<byte>, data: seq<byte>, p: Plan, w0: nat)
    requires Partial(o0, o, data, p, w0, p.g.height)
    ensures Partial(o0, o, data, p, w0 + 1, 0)
  {
    forall w: nat, h: nat | w < p.g.width && h < p.g.height
      ensures Before(w, h, w0, p.g.height) == Before(w, h, w0 + 1, 0)
    {
    }
  }

  /** A block copy that succeeds extends the partial output by that block. */
  lemma PartialStep(o0: seq<byte>, o: seq<byte>, o': seq<byte>, data: seq<byte>, p: Plan, w0: nat, h0: nat)
    requires w0 < p.g.width && h0 < p.g.height
    requires Partial(o0, o, data, p, w0, h0)
    requires Block(o, data, p, w0, h0) == Ok(o')
    ensures Partial(o0, o', data, p, w0, h0 + 1)
  {
    if p.copied(w0, h0) {
      var d := Dest(p, w0, h0);
      var n := p.g.bpp;
      assert o' == o[..d] + SourceBytes(data, p, w0, h0) + o[d + n..];
      TargetInside(p.g, w0, h0);
      forall k | 0 <= k < |o'| && !(d <= k < d + n)
        ensures o'[k] == o[k]
      {
        if k >= d + n {
          assert o'[k] == o[d + n..][k - d - n];
        }
      }
      forall w: nat, h: nat | w < p.g.width && h < p.g.height && Lands(|o0|, p, w, h)
        ensures BlockBytes(o', p, w, h) ==
          if Before(w, h, w0, h0 + 1) && p.copied(w, h) then SourceBytes(data, p, w, h) else BlockBytes(o0, p, w, h)
      {
        if w == w0 && h == h0 {
          assert BlockBytes(o', p, w, h) == o'[d..d + n];
        } else {
          TargetsApart(p.g, w, h, w0, h0);
          assert BlockBytes(o', p, w, h) == BlockBytes(o, p, w, h);
        }
      }
    }
  }

  /** A block copy fails only for a copied block outside the buffers. */
  lemma BlockFails(o: seq<byte>, data: seq<byte>, p: Plan, w: nat, h: nat)
    requires Block(o, data, p, w, h).Err?
    ensures p.copied(w, h) && !InBounds(|o|, data, p, w, h)
  {
  }

  /** The partial output after the blocks of one column, or the block
      that failed. */
  lemma {:induction false} CellsMeaning(o0: seq<byte>, oc: seq<byte>, data: seq<byte>, p: Plan, w0: nat, h0: nat)
    requires w0 < p.g.width && h0 <= p.g.height
    requires Partial(o0, oc, data, p, w0, 0)
    ensures Cells(oc, data, p, w0, h0).Ok? ==> Partial(o0, Cells(oc, data, p, w0, h0).value, data, p, w0, h0)
    ensures Cells(oc, data, p, w0, h0).Err? ==>
              exists h: nat :: h < h0 && p.copied(w0, h) && !InBounds(|o0|, data, p, w0, h)
    decreases h0
  {
    if h0 > 0 {
      CellsMeaning(o0, oc, data, p, w0, h0 - 1);
      var prev := Cells(oc, data, p, w0, h0 - 1);
      if prev.Ok? {
        var b := Block(prev.value, data, p, w0, h0 - 1);
        if b.Ok? {
          PartialStep(o0, prev.value, b.value, data, p, w0, h0 - 1);
        } else {
          BlockFails(prev.value, data, p, w0, h0 - 1);
        }
      }
    }
  }

  /** The partial output after whole columns, or a block that failed. */
  lemma {:induction false} ColumnsMeaning(o0: seq<byte>, data: seq<byte>, p: Plan, w0: nat)
    requires w0 <= p.g.width
    ensures Columns(o0, data, p, w0).Ok? ==> Partial(o0, Columns(o0, data, p, w0).value, data, p, w0, 0)
    ensures Columns(o0, data, p, w0).Err? ==>
              exists w: nat, h: nat :: w < w0 && h < p.g.height && p.copied(w, h) && !InBounds(|o0|, data, p, w, h)
    decreases w0
  {
    if w0 == 0 {
      PartialStart(o0, data, p);
    } else {
      ColumnsMeaning(o0, data, p, w0 - 1);
      var prev := Columns(o0, data, p, w0 - 1);
      if prev.Err? {
        assert Columns(o0, data, p, w0) == prev;
        var w: nat, h: nat :| w < w0 - 1 && h < p.g.height && p.copied(w, h) && !InBounds(|o0|, data, p, w, h);
      } else {
        assert Columns(o0, data, p, w0) == Cells(prev.value, data, p, w0 - 1, p.g.height);
        ColumnMeaning(o0, prev.value, data, p, w0 - 1);
      }
    }
  }

  /** The partial output after one more column, or the block of that
      column that failed. */
  lemma ColumnMeaning(o0: seq<byte>, oc: seq<byte>, data: seq<byte>, p: Plan, w0: nat)
    requires w0 < p.g.width && Partial(o0, oc, data, p, w0, 0)
    ensures Cells(oc, data, p, w0, p.g.height).Ok? ==> Partial(o0, Cells(oc, data, p, w0, p.g.height).value, data, p, w0 + 1, 0)
    ensures Cells(oc, data, p, w0, p.g.height).Err? ==>
              exists h: nat :: h < p.g.height && p.copied(w0, h) && !InBounds(|o0|, data, p, w0, h)
  {
    CellsMeaning(o0, oc, data, p, w0, p.g.height);
    var c := Cells(oc, data, p, w0, p.g.height);
    if c.Ok? {
      PartialColumn(o0, c.value, data, p, w0);
    }
  }

  /** The decode fails exactly when some copied block lies outside the
      buffers. When it succeeds, each block's place in the output holds
      the block's source bytes if the block is copied and is unchanged if
      it is skipped, and no byte outside the surface changes. */
  lemma DecodedMeaning(o: seq<byte>, data: seq<byte>, p: Plan)
    ensures Decoded(o, data, p).Ok? <==>
              forall w: nat, h: nat :: w < p.g.width && h < p.g.height && p.copied(w, h) ==> InBounds(|o|, data, p, w, h)
    ensures Decoded(o, data, p).Ok? ==>
              && |Decoded(o, data, p).value| == |o|
              && (forall k :: 0 <= k < |o| && !(p.outBase <= k < p.outBase + SurfaceSize(p.g)) ==>
                    Decoded(o, data, p).value[k] == o[k])
              && (forall w: nat, h: nat :: w < p.g.width && h < p.g.height && Lands(|o|, p, w, h) ==>
                    BlockBytes(Decoded(o, data, p).value, p, w, h) ==
                      if p.copied(w, h) then SourceBytes(data, p, w, h) else BlockBytes(o, p, w, h))
  {
    ColumnsMeaning(o, data, p, p.g.width);
  }

  /** One iteration of the inner loop, on the output array. */
  method CopyBlock(out: array<byte>, data: seq<byte>, p: Plan, w: nat, h: nat) returns (r: Outcome)
    modifies out
    ensures Block(old(out[..]), data, p, w, h) == if r.Pass? then Ok(out[..]) else Err(r.error)
  {
    if !p.copied(w, h) {
      return Pass;
    }
    var src, dst, n := Source(p, w, h), Dest(p, w, h), p.g.bpp;
    if !(0 <= src && src + n <= |data|) || dst + n > out.Length {
      return Fail(OutOfBounds);
    }
    ghost var o := out[..];
    forall i | 0 <= i < n {
      out[dst + i] := data[src + i];
    }
    assert out[..] == o[..dst] + SourceBytes(data, p, w, h) + o[dst + n..];
    return Pass;
  }

  /** The two nested loops over the blocks, column by column; a failing
      block ends the copy. */
  method CopyBlocks(out: array<byte>, data: seq<byte>, p: Plan) returns (r: Outcome)
    modifies out
    ensures Decoded(old(out[..]), data, p) == if r.Pass? then Ok(out[..]) else Err(r.error)
    ensures r.Fail? ==> r.error == OutOfBounds
  {
    ghost var o0 := out[..];
    var w := 0;
    while w < p.g.width
      invariant 0 <= w <= p.g.width
      invariant Columns(o0, data, p, w) == Ok(out[..])
    {
      ghost var oc := out[..];
      var h := 0;
      while h < p.g.height
        invariant 0 <= h <= p.g.height
        invariant Cells(oc, data, p, w, h) == Ok(out[..])
      {
        r := CopyBlock(out, data, p, w, h);
        if r.Fail? {
          CellsStayFailed(oc, data, p, w, h + 1, p.g.height);
          ColumnsStayFailed(o0, data, p, w + 1, p.g.width);
          return;
        }
        h := h + 1;
      }
      w := w + 1;
    }
    return Pass;
  }

  /** Once a block of a column failed, the column fails. */
  lemma {:induction false} CellsStayFailed(o: seq<byte>, data: seq<byte>, p: Plan, w: nat, h: nat, h': nat)
    requires h <= h' && Cells(o, data, p, w, h).Err?
    ensures Cells(o, data, p, w, h') == Cells(o, data, p, w, h)
    decreases h' - h
  {
    if h < h' {
      CellsStayFailed(o, data, p, w, h, h' - 1);
    }
  }

  /** Once a column failed, the surface fails. */
  lemma {:induction false} ColumnsStayFailed(o: seq<byte>, data: seq<byte>, p: Plan, w: nat, w': nat)
    requires w <= w' && Columns(o, data, p, w).Err?
    ensures Columns(o, data, p, w') == Columns(o, data, p, w)
    decreases w' - w
  {
    if w < w' {
      ColumnsStayFailed(o, data, p, w, w' - 1);
    }
  }

  /** The surfaces `ps[0]` .. `ps[n - 1]` decoded one after the other; the
      first failure ends the sequence. */
  function Sequence(o: seq<byte>, data: seq<byte>, ps: seq<Plan>, n: nat): (r: Result<seq<byte>>)
    requires n <= |ps|
    ensures r.Ok? ==> |r.value| == |o|
  {
    if n == 0 then Ok(o)
    else match Sequence(o, data, ps, n - 1)
      case Err(e) => Err(e)
      case Ok(o') => Decoded(o', data, ps[n - 1])
  }

  /** The surfaces of `ps` share the grid `g` and follow each other in the
      output from its start, surface `s` at `s` times the surface size. */
  predicate Stacked(ps: seq<Plan>, g: Grid) {
    forall s :: 0 <= s < |ps| ==> ps[s].g == g && ps[s].outBase == SurfaceSize(g) * s
  }

  /** The output `r` is `o` after the first `n` surfaces of `ps`: every
      copied block of those surfaces lay inside the buffers and holds its
      source bytes, every skipped block still holds what `o` held, and
      nothing after the `n` surfaces changed. */
  ghost predicate SequenceDone(o: seq<byte>, r: seq<byte>, data: seq<byte>, ps: seq<Plan>, g: Grid, n: nat)
    requires n <= |ps|
  {
    && |r| == |o|
    && (forall k :: SurfaceSize(g) * n <= k < |o| ==> r[k] == o[k])
    && (forall s: nat, w: nat, h: nat :: s < n && w < g.width && h < g.height && ps[s].copied(w, h) ==>
          InBounds(|o|, data, ps[s], w, h))
    && (forall s: nat, w: nat, h: nat :: s < n && w < g.width && h < g.height && Lands(|o|, ps[s], w, h) ==>
          BlockBytes(r, ps[s], w, h) ==
            if ps[s].copied(w, h) then SourceBytes(data, ps[s], w, h) else BlockBytes(o, ps[s], w, h))
  }

  /** Block (`w`, `h`) of surface `s` is written inside that surface's
      bytes, and so before the start of any later surface `n`. */
  lemma StackedInside(ps: seq<Plan>, g: Grid, s: nat, n: nat, w: nat, h: nat)
    requires Stacked(ps, g) && s < |ps| && s < n && w < g.width && h < g.height
    ensures SurfaceSize(g) * s <= Dest(ps[s], w, h)
    ensures Dest(ps[s], w, h) + g.bpp <= SurfaceSize(g) * (s + 1) <= SurfaceSize(g) * n
  {
    TargetInside(g, w, h);
    assert SurfaceSize(g) * (s + 1) == SurfaceSize(g) * s + SurfaceSize(g);
    MulLeft(s + 1, n, SurfaceSize(g));
    assert SurfaceSize(g) * (s + 1) == (s + 1) * SurfaceSize(g);
    assert SurfaceSize(g) * n == n * SurfaceSize(g);
  }

  /** Two outputs that agree on `a` .. `b` agree on that slice. */
  lemma SameRange(x: seq<byte>, z: seq<byte>, a: nat, b: nat)
    requires a <= b <= |x| == |z|
    requires forall k :: a <= k < b ==> x[k] == z[k]
    ensures x[a..b] == z[a..b]
  {
  }

  /** The earlier surfaces' blocks are untouched by the decode of surface `n`. */
  lemma SequenceKeeps(o: seq<byte>, r: seq<byte>, r': seq<byte>, ps: seq<Plan>, g: Grid, n: nat)
    requires Stacked(ps, g) && n < |ps| && |r| == |o| == |r'|
    requires forall k :: 0 <= k < |o| && !(ps[n].outBase <= k < ps[n].outBase + SurfaceSize(g)) ==> r'[k] == r[k]
    ensures forall s: nat, w: nat, h: nat :: s < n && w < g.width && h < g.height && Lands(|o|, ps[s], w, h) ==>
              BlockBytes(r', ps[s], w, h) == BlockBytes(r, ps[s], w, h)
  {
    forall s: nat, w: nat, h: nat | s < n && w < g.width && h < g.height && Lands(|o|, ps[s], w, h)
      ensures BlockBytes(r', ps[s], w, h) == BlockBytes(r, ps[s], w, h)
    {
      StackedInside(ps, g, s, n, w, h);
      SameRange(r', r, Dest(ps[s], w, h), Dest(ps[s], w, h) + g.bpp);
    }
  }

  /** Before surface `n` is decoded, its blocks still hold what `o` held. */
  lemma SequenceFresh(o: seq<byte>, r: seq<byte>, ps: seq<Plan>, g: Grid, n: nat)
    requires Stacked(ps, g) && n < |ps| && |r| == |o|
    requires forall k :: SurfaceSize(g) * n <= k < |o| ==> r[k] == o[k]
    ensures forall w: nat, h: nat :: w < g.width && h < g.height && Lands(|o|, ps[n], w, h) ==>
              BlockBytes(r, ps[n], w, h) == BlockBytes(o, ps[n], w, h)
  {
    forall w: nat, h: nat | w < g.width && h < g.height && Lands(|o|, ps[n], w, h)
      ensures BlockBytes(r, ps[n], w, h) == BlockBytes(o, ps[n], w, h)
    {
      StackedInside(ps, g, n, n + 1, w, h);
      SameRange(r, o, Dest(ps[n], w, h), Dest(ps[n], w, h) + g.bpp);
    }
  }

  /** Decoding surface `n` after the first `n` surfaces gives the first
      `n + 1` surfaces. */
  lemma SequenceStep(o: seq<byte>, r: seq<byte>, r': seq<byte>, data: seq<byte>, ps: seq<Plan>, g: Grid, n: nat)
    requires Stacked(ps, g) && n < |ps|
    requires SequenceDone(o, r, data, ps, g, n)
    requires Decoded(r, data, ps[n]) == Ok(r')
    ensures SequenceDone(o, r', data, ps, g, n + 1)
  {
    DecodedMeaning(r, data, ps[n]);
    assert SurfaceSize(g) * (n + 1) == SurfaceSize(g) * n + SurfaceSize(g);
    SequenceKeeps(o, r, r', ps, g, n);
    SequenceFresh(o, r, ps, g, n);
  }

  /** The first `n` surfaces fail exactly when a copied block of one of
      them lies outside the buffers; when they succeed, the output is as
      `SequenceDone` describes. */
  lemma {:induction false} SequenceMeaning(o: seq<byte>, data: seq<byte>, ps: seq<Plan>, g: Grid, n: nat)
    requires Stacked(ps, g) && n <= |ps|
    ensures Sequence(o, data, ps, n).Ok? <==>
              forall s: nat, w: nat, h: nat :: s < n && w < g.width && h < g.height && ps[s].copied(w, h) ==>
                InBounds(|o|, data, ps[s], w, h)
    ensures Sequence(o, data, ps, n).Ok? ==> SequenceDone(o, Sequence(o, data, ps, n).value, data, ps, g, n)
    decreases n
  {
    if n > 0 {
      SequenceMeaning(o, data, ps, g, n - 1);
      var prev := Sequence(o, data, ps, n - 1);
      if prev.Ok? {
        DecodedMeaning(prev.value, data, ps[n - 1]);
        var next := Decoded(prev.value, data, ps[n - 1]);
        if next.Ok? {
          SequenceStep(o, prev.value, next.value, data, ps, g, n - 1);
        }
      }
    }
  }

  /** Once a surface failed, the sequence fails with its error. */
  lemma {:induction false} SequenceStaysFailed(o: seq<byte>, data: seq<byte>, ps: seq<Plan>, n: nat, m: nat)
    requires n <= m <= |ps| && Sequence(o, data, ps, n).Err?
    ensures Sequence(o, data, ps, m) == Sequence(o, data, ps, n)
    decreases m - n
  {
    if n < m {
      SequenceStaysFailed(o, data, ps, n, m - 1);
    }
  }
}
