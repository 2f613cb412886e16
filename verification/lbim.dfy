/** LBIM textures (`source/lbim.cpp`, `include/xenolib/lbim.hpp`): a
    40-byte trailer header at the end of the file, and `DecodeMipmap`, which
    rearranges the block-linear (bit-interleaved) texel blocks of the top
    mipmap into row-major order, slice after slice. */
module Lbim {
  import opened Bytes
  import opened Outcomes
  import opened Bits
  import Blocks

  // Texel formats (`LBIM::Format`).
  const R8: nat := 1
  const RGBA8888: nat := 37
  const R16G16B16A16: nat := 41
  const RGBA4444: nat := 57
  const BC1: nat := 66
  const BC2: nat := 67
  const BC3: nat := 68
  const BC4Unorm: nat := 73
  const BC5Unorm: nat := 75
  const BC7: nat := 77
  const BC6HUf16: nat := 80
  const BGRA8888: nat := 109

  // Texture types (`LBIM::Type`).
  const Texture2D: nat := 1
  const Volumetric: nat := 2
  const Cubemap: nat := 8

  /** The formats made of 4 by 4 pixel blocks. */
  const Compressed: set<nat> := {BC1, BC2, BC3, BC4Unorm, BC5Unorm, BC7, BC6HUf16}
  /** The formats made of single pixels. */
  const Uncompressed: set<nat> := {RGBA8888, BGRA8888, RGBA4444, R8, R16G16B16A16}

  const UnhandledFormat := "Unhandled LBIM texture format: "
  const MipIndexCheck := "mipIndex == 0"

  /** The size of the trailer header: ten 32-bit fields. */
  const HeaderSize: nat := 40

  /** `LBIM::Header`; every field is a `uint32`. */
  datatype Header = Header(
    datasize: nat, headersize: nat, width: nat, height: nat, depth: nat,
    imageType: nat, format: nat, numMips: nat, version: nat, id: nat)
  {
    /** Every field fits its 32 bits. */
    predicate Valid() {
      && datasize < Word32 && headersize < Word32 && width < Word32 && height < Word32
      && depth < Word32 && imageType < Word32 && format < Word32 && numMips < Word32
      && version < Word32 && id < Word32
    }
  }

  /** The `i`-th 32-bit field of the header that ends the file. */
  function Field(file: seq<byte>, i: nat): (v: nat)
    requires |file| >= HeaderSize && i < 10
    ensures v < Word32
  {
    Pow256Word();
    U(file, |file| - HeaderSize + 4 * i, 4)
  }

  /** `LBIM::Mount`: the header is the last 40 bytes of the file. A file
      shorter than the header has nothing to mount. */
  function Mount(file: seq<byte>): (r: Result<Header>)
    ensures r.Ok? <==> |file| >= HeaderSize
    ensures r.Ok? ==> r.value.Valid()
  {
    if |file| < HeaderSize then Err(OutOfBounds)
    else Ok(Header(Field(file, 0), Field(file, 1), Field(file, 2), Field(file, 3), Field(file, 4),
                   Field(file, 5), Field(file, 6), Field(file, 7), Field(file, 8), Field(file, 9)))
  }

  /** The ten fields of a header, in their stored order. */
  function Fields(h: Header): (vs: seq<nat>)
    ensures |vs| == 10
  {
    [h.datasize, h.headersize, h.width, h.height, h.depth, h.imageType, h.format, h.numMips, h.version, h.id]
  }

  /** The 40 bytes of a header, as it is stored. */
  function Encode(h: Header): (e: seq<byte>)
    ensures |e| == HeaderSize
  {
    WriteWords(Fields(h))
  }

  /** A `uint32` is below 256^4. */
  lemma Pow256Word()
    ensures Pow256(4) == Word32
  {
  }

  /** Field `i` of a file ending with an encoded header is field `i` of
      the header. */
  lemma FieldOf(prefix: seq<byte>, h: Header, i: nat)
    requires h.Valid() && i < 10
    ensures Field(prefix + Encode(h), i) == Fields(h)[i]
  {
    WriteWordsAt(Fields(h), i);
    Pow256Word();
    WordRead(prefix, Encode(h), i, Fields(h)[i]);
  }

  /** Mounting a file that ends with an encoded header gives that header
      back, whatever comes before it. */
  lemma MountEncode(prefix: seq<byte>, h: Header)
    requires h.Valid()
    ensures Mount(prefix + Encode(h)) == Ok(h)
  {
    forall i: nat | i < 10
      ensures Field(prefix + Encode(h), i) == Fields(h)[i]
    {
      FieldOf(prefix, h, i);
    }
  }

  /** Bytes per block and pixels along a block's side. */
  datatype BlockFormat = BlockFormat(bpp: nat, ppb: nat) {
    /** One of the sizes the format switch assigns. */
    predicate Known() {
      bpp in {1, 2, 4, 8, 16} && ppb in {1, 4}
    }
  }

  /** The format switch of `DecodeMipmap`: a block-compressed format has 4
      by 4 pixel blocks of 8 or 16 bytes, any other known format single
      pixels of 1 to 8 bytes, and an unknown format throws. */
  function FormatInfo(format: nat): (r: Result<BlockFormat>)
    ensures r.Ok? <==> format in Compressed + Uncompressed
    ensures r.Ok? ==> r.value.Known()
    ensures r.Ok? ==> r.value.ppb == (if format in Compressed then 4 else 1)
    ensures r.Ok? && format in Compressed ==> r.value.bpp in {8, 16}
    ensures r.Err? ==> r.error == Runtime(UnhandledFormat)
  {
    if format == BC1 || format == BC4Unorm then Ok(BlockFormat(8, 4))
    else if format == BC2 || format == BC3 || format == BC5Unorm || format == BC7 || format == BC6HUf16 then
      Ok(BlockFormat(16, 4))
    else if format == RGBA8888 || format == BGRA8888 then Ok(BlockFormat(4, 1))
    else if format == RGBA4444 then Ok(BlockFormat(2, 1))
    else if format == R8 then Ok(BlockFormat(1, 1))
    else if format == R16G16B16A16 then Ok(BlockFormat(8, 1))
    else Err(Runtime(UnhandledFormat))
  }

  /** A known block size is a power of two: `Pow2(k)` for the `k` the
      decoder shifts by. */
  lemma BppPow2(f: BlockFormat)
    requires f.Known()
    ensures Pow2(TrailingZeros(f.bpp)) == f.bpp
  {
    var k := if f.bpp == 1 then 0 else if f.bpp == 2 then 1 else if f.bpp == 4 then 2 else if f.bpp == 8 then 3 else 4;
    assert Pow2(k) == f.bpp;
    TrailingZerosPow2(k);
  }

  /** The `NumLeadingZeroes` helper, which in fact counts the zero bits
      below the lowest set bit. */
  method NumLeadingZeroes(value: nat) returns (n: nat)
    requires 0 < value < Word32
    ensures n == TrailingZeros(value)
  {
    TrailingZerosMeaning(value);
    n := 0;
    while Bit(value, n) == 0
      invariant n <= TrailingZeros(value)
      decreases TrailingZeros(value) - n
    {
      n := n + 1;
    }
  }

  /** The `FindLastBitIndex` helper: shifts the value right until it is
      zero, counting the shifts. */
  method FindLastBitIndex(value: nat) returns (index: nat)
    requires value < Word32
    ensures index == BitLength(value)
  {
    var v := value;
    index := 0;
    while v != 0
      invariant index + BitLength(v) == BitLength(value)
      decreases v
    {
      v := v / 2;
      index := index + 1;
    }
  }

  /** `x & (1 << i)` is nonzero exactly when bit `i` of `x` is set. */
  lemma {:induction false} AndPow2(x: nat, i: nat)
    ensures And(x, Pow2(i)) != 0 <==> Bit(x, i) == 1
    decreases i
  {
    if i == 0 {
      AndZero(x / 2);
      assert And(x, 1) == 2 * And(x / 2, 0) + (if x % 2 == 1 then 1 else 0);
    } else {
      AndPow2(x / 2, i - 1);
      assert And(x, Pow2(i)) == 2 * And(x / 2, Pow2(i - 1));
      ShrNext(x / 2, i - 1);
      assert Bit(x, i) == Bit(x / 2, i - 1) by {
        ShrHalf(x, i);
      }
    }
  }

  /** `x & 0` is 0. */
  lemma {:induction false} AndZero(x: nat)
    ensures And(x, 0) == 0
    decreases x
  {
    if x != 0 {
      AndZero(x / 2);
    }
  }

  /** Shifting right by `i` is halving, then shifting by `i - 1`. */
  lemma ShrHalf(x: nat, i: nat)
    requires i > 0
    ensures Shr(x, i) == Shr(x / 2, i - 1)
  {
  }

  /** The loop that computes `xBitsShift`: 3 plus one for each of bits 3
      to 6 of the mask that is set. */
  method XBitsShift(mask: nat) returns (shift: nat)
    requires mask < Word32
    ensures shift == 3 + SetBits(mask, 3, 7)
  {
    shift := 3;
    var i := 3;
    while i < 7
      invariant 3 <= i <= 7
      invariant shift == 3 + SetBits(mask, 3, i)
    {
      AndPow2(mask, i);
      if And(mask, Pow2(i)) != 0 {
        shift := shift + 1;
      }
      i := i + 1;
    }
  }

  /** `v - 1` on a 64-bit `size_t`. */
  function Dec64(v: nat): nat {
    (v + Word64 - 1) % Word64
  }

  /** `v + 1` on a 64-bit `size_t`. */
  function Inc64(v: nat): nat {
    (v + 1) % Word64
  }

  /** The smallest power of two not below `v`, and 0 for 0. */
  function RoundedUp(v: nat): (r: nat) {
    if v == 0 then 0 else Pow2(BitLength(v - 1))
  }

  /** For `v` from 1 on, `RoundedUp(v)` is a power of two, at least `v`
      and less than `2 * v`; for a `uint32` it is at most 2^32. */
  lemma RoundedUpMeaning(v: nat)
    requires v >= 1
    ensures RoundedUp(v) == Pow2(BitLength(v - 1))
    ensures v <= RoundedUp(v) < 2 * v
    ensures v <= Word32 ==> RoundedUp(v) <= Word32
  {
    BitLengthPow(v - 1);
    if v <= Word32 {
      BitLength32(v - 1);
    }
  }

  /** The power of two just above `x` is at most `2 * x + 1`. */
  lemma BitLengthPow(x: nat)
    ensures x < Pow2(BitLength(x)) <= 2 * x + 1
  {
    if x == 0 {
      assert BitLength(x) == 0;
    } else {
      BitLengthBounds(x);
      assert Pow2(BitLength(x)) == 2 * Pow2(BitLength(x) - 1);
    }
  }

  /** A value below 2^32 has at most 32 bits, and the power of two above
      it is at most 2^32. */
  lemma BitLength32(x: nat)
    requires x < Word32
    ensures BitLength(x) <= 32 && Pow2(BitLength(x)) <= Word32
  {
    Pow2Words();
    BitLengthBelow(x, 32);
    Pow2Mono(BitLength(x), 32);
  }

  /** Decrementing a `size_t` that is not 0 does not wrap. */
  lemma Decrement(v: nat)
    requires 1 <= v < Word64
    ensures Dec64(v) == v - 1
  {
    DivUnique(v + Word64 - 1, Word64, 1, v - 1);
  }

  /** Incrementing a `size_t` below its largest value does not wrap. */
  lemma Increment(v: nat)
    requires v + 1 < Word64
    ensures Inc64(v) == v + 1
  {
    DivUnique(v + 1, Word64, 0, v + 1);
  }

  /** Smearing the decrement of a `v` from 1 to 2^32 gives the ones below
      the power of two `v` rounds up to. */
  lemma SmearedDecrement(v: nat)
    requires 1 <= v <= Word32
    ensures Smear(Dec64(v)) == Pow2(BitLength(v - 1)) - 1
  {
    assert Dec64(v) == v - 1 by {
      Decrement(v);
    }
    SmearBitLength(v - 1);
  }

  /** Decrementing 0 wraps to all ones, which smearing leaves alone. */
  lemma SmearedZero()
    ensures Smear(Dec64(0)) == Word64 - 1
  {
    Pow2Words();
    DivUnique(Word64 - 1, Word64, 0, Word64 - 1);
    SmearFull(Word64 - 1, 64);
  }

  /** The increment after the smear: the power of two, or 0 after the
      wrap. */
  lemma RoundUpDone(v: nat, x: nat)
    requires v <= Word32 && x == Smear(Dec64(v))
    ensures Inc64(x) == RoundedUp(v)
  {
    if v == 0 {
      SmearedZero();
      DivUnique(Word64, Word64, 1, 0);
    } else {
      SmearedDecrement(v);
      RoundedUpMeaning(v);
      Pow2Words();
      Increment(x);
    }
  }

  /** The `RoundUpPowTwo` helper on a 64-bit `size_t`: decrement, copy
      the highest set bit into the 31 bits below it, increment. For every
      `v` up to 2^32 this is the smallest power of two not below `v`, and
      0 for 0, where the decrement wraps. */
  method RoundUpPowTwo(v: nat) returns (r: nat)
    requires v < Word64
    ensures v <= Word32 ==> r == RoundedUp(v)
  {
    var x := Dec64(v);
    ghost var x0 := x;
    x := Or(x, Shr(x, 1));
    assert x == SmearSteps(x0, 1);
    x := Or(x, Shr(x, 2));
    assert x == SmearSteps(x0, 2);
    x := Or(x, Shr(x, 4));
    assert x == SmearSteps(x0, 3);
    x := Or(x, Shr(x, 8));
    assert x == SmearSteps(x0, 4);
    x := Or(x, Shr(x, 16));
    assert x == Smear(x0);
    r := Inc64(x);
    if v <= Word32 {
      RoundUpDone(v, x);
    }
  }

  /** The surface in blocks: `width / ppb` by `height / ppb` blocks of
      `bpp` bytes (`bWidth`, `bHeight`). */
  function GridOf(h: Header, f: BlockFormat): (g: Blocks.Grid)
    requires f.Known()
    ensures g.width <= h.width && g.height <= h.height && g.bpp == f.bpp
  {
    Blocks.Grid(h.width / f.ppb, h.height / f.ppb, f.bpp)
  }

  /** `surfaceSize`, a `uint32` product. */
  function SurfaceSize(h: Header, f: BlockFormat): nat
    requires f.Known()
  {
    Blocks.SurfaceSize(GridOf(h, f)) % Word32
  }

  /** `alignedSurfaceSize`: the surface with its rows rounded up to a power
      of two. The product is taken on 64 bits and stored in a `uint32`,
      which keeps its low 32 bits. */
  function AlignedSize(h: Header, f: BlockFormat): nat
    requires f.Known()
  {
    var g := GridOf(h, f);
    (g.width * RoundedUp(g.height) * g.bpp) % Word32
  }

  /** With the rows rounded up, the aligned surface holds the surface and
      is less than twice its size, when its product fits 32 bits. */
  lemma AlignedCovers(h: Header, f: BlockFormat)
    requires f.Known()
    requires GridOf(h, f).width * RoundedUp(GridOf(h, f).height) * f.bpp < Word32
    ensures SurfaceSize(h, f) <= AlignedSize(h, f)
    ensures SurfaceSize(h, f) > 0 ==> AlignedSize(h, f) < 2 * SurfaceSize(h, f)
  {
    var g := GridOf(h, f);
    if g.height > 0 {
      RoundedUpMeaning(g.height);
    }
    CoversCore(g.width, g.height, RoundedUp(g.height), g.bpp);
  }

  /** `AlignedCovers` on plain numbers: rows `y` rounded up to `r`. */
  lemma CoversCore(x: nat, y: nat, r: nat, b: nat)
    requires y <= r && (y > 0 ==> r < 2 * y) && x * r * b < Word32
    ensures (x * y * b) % Word32 <= (x * r * b) % Word32
    ensures (x * y * b) % Word32 > 0 ==> (x * r * b) % Word32 < 2 * ((x * y * b) % Word32)
  {
    var c := x * b;
    MulSwap(x, y, b);
    MulSwap(x, r, b);
    MulMono(y, r, c);
    DivUnique(r * c, Word32, 0, r * c);
    DivUnique(y * c, Word32, 0, y * c);
    if y * c > 0 {
      MulStrict(r, 2 * y, c);
    }
  }

  /** `x * y * b` regrouped as `y * (x * b)`. */
  lemma MulSwap(x: nat, y: nat, b: nat)
    ensures x * y * b == y * (x * b)
  {
  }

  /** Multiplying by a positive factor keeps a strict order. */
  lemma MulStrict(a: nat, b: nat, c: nat)
    requires a < b && c > 0
    ensures a * c < b * c
  {
  }

  /** `hBitMask`: `RoundUpPowTwo(bHeight) - 1` on 64 bits, stored in a
      `uint32`. */
  function HeightMask(h: Header, f: BlockFormat): nat
    requires f.Known()
  {
    Dec64(RoundedUp(GridOf(h, f).height)) % Word32
  }

  /** The number of low bits `hBitMask` has set: the bits of the largest
      block row index, or all 32 when there are no rows and the rounding
      wraps. */
  function HeightBits(h: Header, f: BlockFormat): nat
    requires f.Known()
  {
    if GridOf(h, f).height == 0 then 32 else BitLength(GridOf(h, f).height - 1)
  }

  /** `hBitMask` is the ones below bit `HeightBits`. */
  lemma HeightMaskOnes(h: Header, f: BlockFormat)
    requires h.Valid() && f.Known()
    ensures HeightMask(h, f) == Pow2(HeightBits(h, f)) - 1
  {
    var y := GridOf(h, f).height;
    if y == 0 {
      MaskOfZero();
    } else {
      BitLength32(y - 1);
      MaskOfPow(BitLength(y - 1));
    }
  }

  /** `0 - 1` on 64 bits, stored in a `uint32`, is all 32 ones. */
  lemma MaskOfZero()
    ensures Dec64(0) % Word32 == Pow2(32) - 1
  {
    Pow2Words();
    DivUnique(Word64 - 1, Word64, 0, Word64 - 1);
    DivUnique(Word64 - 1, Word32, Word32 - 1, Word32 - 1);
  }

  /** `2^k - 1` on 64 bits, stored in a `uint32`, is the `k` low ones. */
  lemma MaskOfPow(k: nat)
    requires Pow2(k) <= Word32
    ensures Dec64(Pow2(k)) % Word32 == Pow2(k) - 1
  {
    Pow2Words();
    Decrement(Pow2(k));
    DivUnique(Pow2(k) - 1, Word32, 0, Pow2(k) - 1);
  }

  /** What `DecodeMipmap` computes before its loops: `surfaceSize`,
      `alignedSurfaceSize` and the shifts of the address formula. */
  datatype Layout = Layout(surface: nat, aligned: nat, bppShift: nat, lineShift: nat, xBitsShift: nat)

  /** The layout as the decoder computes it from the helpers. */
  function LayoutOf(h: Header, f: BlockFormat): Layout
    requires f.Known()
  {
    var g := GridOf(h, f);
    Layout(SurfaceSize(h, f), AlignedSize(h, f), TrailingZeros(f.bpp),
           (BitLength((g.width * g.bpp) % Word32) + Word32 - 1) % Word32,
           3 + SetBits(HeightMask(h, f), 3, 7))
  }

  /** `xBitsShift` is the number of bits of the row index clamped to 3
      .. 7: the column bits above bit 12 of the address go just above the
      row bits that the mask keeps from bits 9 .. 12. */
  lemma XBitsMeaning(h: Header, f: BlockFormat)
    requires h.Valid() && f.Known()
    ensures LayoutOf(h, f).xBitsShift == if HeightBits(h, f) <= 3 then 3 else Min(HeightBits(h, f), 7)
  {
    HeightMaskOnes(h, f);
    SetBitsOfOnes(HeightBits(h, f), 3, 7);
  }

  /** `bppShift` is the base-2 logarithm of the block size, and when a
      block row's bytes are a nonzero `uint32`, `lineShift` is the base-2
      logarithm of that size rounded down. */
  lemma ShiftsMeaning(h: Header, f: BlockFormat)
    requires f.Known()
    ensures Pow2(LayoutOf(h, f).bppShift) == f.bpp
    ensures 0 < GridOf(h, f).width * f.bpp < Word32 ==>
              Pow2(LayoutOf(h, f).lineShift) <= GridOf(h, f).width * f.bpp < Pow2(LayoutOf(h, f).lineShift + 1)
  {
    BppPow2(f);
    LineShift(GridOf(h, f).width * f.bpp);
  }

  /** The line shift of a row of `row` bytes: the bit length of the
      `uint32` row size, minus one on a `uint32`. */
  lemma LineShift(row: nat)
    ensures 0 < row < Word32 ==>
              Pow2((BitLength(row % Word32) + Word32 - 1) % Word32) <= row < Pow2((BitLength(row % Word32) + Word32 - 1) % Word32 + 1)
  {
    if 0 < row < Word32 {
      var n := BitLength(row);
      assert row % Word32 == row by {
        DivUnique(row, Word32, 0, row);
      }
      BitLengthBounds(row);
      assert 1 <= n <= 32 by {
        Pow2Words();
        BitLengthBelow(row, 32);
      }
      assert (n + Word32 - 1) % Word32 == n - 1 by {
        DivUnique(n + Word32 - 1, Word32, 1, n - 1);
      }
    }
  }

  /** Computes the sizes and the shifts with the helpers. */
  method ComputeLayout(h: Header, f: BlockFormat) returns (lay: Layout)
    requires h.Valid() && f.Known()
    ensures lay == LayoutOf(h, f)
  {
    var g := GridOf(h, f);
    var rows := RoundUpPowTwo(g.height);
    var bppShift := NumLeadingZeroes(f.bpp);
    var lastBit := FindLastBitIndex((g.width * g.bpp) % Word32);
    var xBits := XBitsShift(Dec64(rows) % Word32);
    lay := Layout((g.width * g.height * g.bpp) % Word32, (g.width * rows * g.bpp) % Word32,
                  bppShift, (lastBit + Word32 - 1) % Word32, xBits);
  }

  // The masks of the address formula.
  const YBitsTail: nat := 0xFF80
  const YBits9To12: nat := 0x78
  const YBits6To7: nat := 0x6
  const YBitsHead: nat := 0x1
  const XBitsTail: nat := 0xFFC0
  const XBitsEighth: nat := 0x20
  const XBitsFifth: nat := 0x10
  const XBits0To3: nat := 0xF

  /** `x << k` on a `uint32`. */
  function Shl(x: nat, k: nat): (r: nat)
    ensures r < Word32
  {
    (x * Pow2(k)) % Word32
  }

  /** The input address of block (`w`, `y`) inside its slice: the column
      byte offset `w << bppShift` and the row `y` with their bits
      interleaved by the masks. */
  function Address(w: nat, y: nat, lay: Layout): nat {
    var x := Shl(w, lay.bppShift);
    Or(Or(Or(Or(Or(Or(Or(
      Shl(And(y, YBitsTail), lay.lineShift),
      Shl(And(y, YBits9To12), 6)),
      Shl(And(y, YBits6To7), 5)),
      Shl(And(y, YBitsHead), 4)),
      Shl(And(x, XBitsTail), lay.xBitsShift)),
      Shl(And(x, XBitsEighth), 3)),
      Shl(And(x, XBitsFifth), 1)),
      And(x, XBits0To3))
  }

  /** A block is copied unless `address + bpp`, a `uint32` sum, runs past
      the aligned surface. */
  predicate Copied(lay: Layout, bpp: nat, w: nat, y: nat) {
    (Address(w, y, lay) + bpp) % Word32 <= lay.aligned
  }

  /** `size * s`, the offset of slice `s`, as `s` additions of `size`. */
  function Times(size: nat, s: nat): nat {
    if s == 0 then 0 else Times(size, s - 1) + size
  }

  /** `Times` is the product. */
  lemma {:induction false} TimesIs(size: nat, s: nat)
    ensures Times(size, s) == size * s
  {
    if s > 0 {
      TimesIs(size, s - 1);
      assert size * s == size * (s - 1) + size;
    }
  }

  /** Slice `s`: written from `surfaceSize * s` of the output, read from
      `alignedSurfaceSize * s` of the input. */
  function SlicePlan(g: Blocks.Grid, lay: Layout, s: nat): Blocks.Plan {
    Blocks.Plan(g, Times(lay.surface, s), Times(lay.aligned, s),
                (w: nat, y: nat) => Address(w, y, lay) as int,
                (w: nat, y: nat) => Copied(lay, g.bpp, w, y))
  }

  /** Slices 0 .. `n` - 1. */
  function SlicePlans(g: Blocks.Grid, lay: Layout, n: nat): (ps: seq<Blocks.Plan>)
    ensures |ps| == n
  {
    seq(n, s requires 0 <= s => SlicePlan(g, lay, s))
  }

  /** `numSlices`: six faces for a cubemap, else the depth and at least one. */
  function NumSlices(h: Header): (n: nat)
    ensures n >= 1
    ensures h.imageType != Cubemap ==> n >= h.depth
  {
    if h.imageType == Cubemap then 6 else if h.depth < 1 then 1 else h.depth
  }

  /** The slices of the texture. */
  function TexturePlans(h: Header, f: BlockFormat): (ps: seq<Blocks.Plan>)
    requires f.Known()
    ensures |ps| == NumSlices(h)
  {
    SlicePlans(GridOf(h, f), LayoutOf(h, f), NumSlices(h))
  }

  /** `LBIM::DecodeMipmap` on the output `o`: only the top mipmap is
      supported, an unknown format throws, and then every slice is decoded
      in turn. */
  function Decode(h: Header, data: seq<byte>, o: seq<byte>, mipIndex: nat): (r: Result<seq<byte>>)
    ensures mipIndex != 0 ==> r == Err(Assertion(MipIndexCheck))
    ensures mipIndex == 0 && FormatInfo(h.format).Err? ==> r == Err(Runtime(UnhandledFormat))
    ensures r.Ok? ==> |r.value| == |o|
  {
    if mipIndex != 0 then Err(Assertion(MipIndexCheck))
    else match FormatInfo(h.format)
      case Err(e) => Err(e)
      case Ok(f) => Blocks.Sequence(o, data, TexturePlans(h, f), NumSlices(h))
  }

  /** The unwrapped surface size fits a `uint32`, so that `surfaceSize`
      and the block offsets `(h * bWidth + w) * bpp` do not wrap. */
  predicate Fit(h: Header, f: BlockFormat)
    requires f.Known()
  {
    Blocks.SurfaceSize(GridOf(h, f)) < Word32
  }

  /** When the surface fits, `surfaceSize` is the unwrapped size. */
  lemma FitSurface(h: Header, f: BlockFormat)
    requires f.Known() && Fit(h, f)
    ensures LayoutOf(h, f).surface == Blocks.SurfaceSize(GridOf(h, f))
  {
    DivUnique(Blocks.SurfaceSize(GridOf(h, f)), Word32, 0, Blocks.SurfaceSize(GridOf(h, f)));
  }

  /** Slices whose `surfaceSize` is the unwrapped surface size follow each
      other in the output: slice `s` starts at `s` times that size. */
  lemma SlicesStacked(g: Blocks.Grid, lay: Layout, n: nat)
    requires lay.surface == Blocks.SurfaceSize(g)
    ensures Blocks.Stacked(SlicePlans(g, lay, n), g)
  {
    forall s | 0 <= s < n
      ensures SlicePlans(g, lay, n)[s].outBase == Blocks.SurfaceSize(g) * s
    {
      TimesIs(lay.surface, s);
    }
  }

  /** Slice `s`: block (`w`, `y`) is written at `surfaceSize * s + (y *
      bWidth + w) * bpp` of the output. */
  lemma SliceTarget(g: Blocks.Grid, lay: Layout, s: nat, w: nat, y: nat)
    ensures SlicePlan(g, lay, s).g == g
    ensures Blocks.Dest(SlicePlan(g, lay, s), w, y) == lay.surface * s + (y * g.width + w) * g.bpp
  {
    TimesIs(lay.surface, s);
  }

  /** Slice `s`: block (`w`, `y`) is read from `alignedSurfaceSize * s`
      plus its address, and copied only when `address + bpp` stays within
      the aligned surface. */
  lemma SliceSource(g: Blocks.Grid, lay: Layout, s: nat, w: nat, y: nat)
    ensures Blocks.Source(SlicePlan(g, lay, s), w, y) == lay.aligned * s + Address(w, y, lay)
    ensures SlicePlan(g, lay, s).copied(w, y) <==> (Address(w, y, lay) + g.bpp) % Word32 <= lay.aligned
  {
    TimesIs(lay.aligned, s);
  }

  /** The texture's slice `s` is `SlicePlan` with the layout of `LayoutOf`. */
  lemma TexturePlan(h: Header, f: BlockFormat, s: nat)
    requires f.Known() && s < NumSlices(h)
    ensures TexturePlans(h, f)[s] == SlicePlan(GridOf(h, f), LayoutOf(h, f), s)
  {
  }

  /** When the block offsets fit 32 bits, the decode of the top mipmap
      fails exactly when a copied block of some slice lies outside the
      buffers. When it succeeds, in every slice each copied block holds
      its source bytes and each skipped block is unchanged, and nothing
      after the last slice changed. */
  lemma DecodeMeaning(h: Header, data: seq<byte>, o: seq<byte>, f: BlockFormat)
    requires FormatInfo(h.format) == Ok(f) && Fit(h, f)
    ensures Decode(h, data, o, 0).Ok? <==>
              forall s: nat, w: nat, y: nat ::
                s < NumSlices(h) && w < GridOf(h, f).width && y < GridOf(h, f).height && TexturePlans(h, f)[s].copied(w, y) ==>
                  Blocks.InBounds(|o|, data, TexturePlans(h, f)[s], w, y)
    ensures Decode(h, data, o, 0).Ok? ==>
              Blocks.SequenceDone(o, Decode(h, data, o, 0).value, data, TexturePlans(h, f), GridOf(h, f), NumSlices(h))
  {
    FitSurface(h, f);
    SlicesStacked(GridOf(h, f), LayoutOf(h, f), NumSlices(h));
    Blocks.SequenceMeaning(o, data, TexturePlans(h, f), GridOf(h, f), NumSlices(h));
  }

  /** The slice loop: the block copy of each slice in turn; a failing
      slice ends the decode. */
  method DecodeSlices(ps: seq<Blocks.Plan>, data: seq<byte>, out: array<byte>) returns (r: Outcome)
    modifies out
    ensures Blocks.Sequence(old(out[..]), data, ps, |ps|) == if r.Pass? then Ok(out[..]) else Err(r.error)
  {
    ghost var o0 := out[..];
    var s := 0;
    while s < |ps|
      invariant s <= |ps|
      invariant Blocks.Sequence(o0, data, ps, s) == Ok(out[..])
    {
      r := Blocks.CopyBlocks(out, data, ps[s]);
      if r.Fail? {
        Blocks.SequenceStaysFailed(o0, data, ps, s + 1, |ps|);
        return;
      }
      s := s + 1;
    }
    return Pass;
  }

  /** The decode of a texture into the output array: the mip check, the
      format switch, the layout, then the slices. */
  method DecodeMipmap(h: Header, data: seq<byte>, out: array<byte>, mipIndex: nat) returns (r: Outcome)
    requires h.Valid()
    modifies out
    ensures Decode(h, data, old(out[..]), mipIndex) == if r.Pass? then Ok(out[..]) else Err(r.error)
  {
    if mipIndex != 0 {
      return Fail(Assertion(MipIndexCheck));
    }
    var info := FormatInfo(h.format);
    if info.Err? {
      return Fail(info.error);
    }
    var lay := ComputeLayout(h, info.value);
    r := DecodeSlices(SlicePlans(GridOf(h, info.value), lay, NumSlices(h)), data, out);
  }
}
