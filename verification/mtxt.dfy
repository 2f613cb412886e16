/** MTXT textures (`source/mtxt.cpp`, `include/xenolib/mtxt.hpp`): a
    112-byte trailer header of 32-bit fields at the end of the file, its
    word-by-word byte swap, and `DecodeMipmap`, which either copies a
    linear surface verbatim or rebuilds a GPU-tiled surface block by block
    in row-major order.

    The tiling address functions of the GPU address library
    (`computeSurfaceAddrFromCoordMacroTiled` and
    `computeSurfaceAddrFromCoordMicroTiled`, with the constructors of their
    precomputed parameters) are not part of this model: they are the
    parameters `macro` and `micro`, applied to the parameters the decoder
    passes them. */
module Mtxt {
  import opened Bytes
  import opened Outcomes
  import opened Bits
  import Blocks

  // Surface formats (`gx2::SurfaceFormat`).
  const UnormR8: nat := 0x01
  const UnormRGBA8: nat := 0x01a
  const UnormBC1: nat := 0x031
  const UnormBC2: nat := 0x032
  const UnormBC3: nat := 0x033
  const UnormBC4: nat := 0x034
  const UnormBC5: nat := 0x035
  const SnormBC4: nat := 0x234
  const SnormBC5: nat := 0x235
  const SrgbBC1: nat := 0x431
  const SrgbBC2: nat := 0x432
  const SrgbBC3: nat := 0x433

  /** The formats with 4 by 4 pixel blocks of 8 bytes. */
  const Blocks8: set<nat> := {UnormBC1, SrgbBC1, UnormBC4, SnormBC4}
  /** The formats with 4 by 4 pixel blocks of 16 bytes. */
  const Blocks16: set<nat> := {SrgbBC2, UnormBC2, SrgbBC3, UnormBC3, SnormBC5, UnormBC5}

  // Tiling modes (`gx2::TileMode`).
  const LinearAligned: nat := 1
  const Tiled2DThin1: nat := 4

  const UnhandledFormat := "Unhandled MTXT texture format: "
  const MipIndexCheck := "mipIndex == 0"

  /** The number of 32-bit fields of the header, and its size in bytes. */
  const NumFields: nat := 28
  const HeaderSize: nat := 112

  /** `MTXT::Header`: 32-bit fields, thirteen of them reserved. */
  datatype Header = Header(
    swizzle: nat, dimension: nat, width: nat, height: nat, depth: nat, numMips: nat,
    format: nat, size: nat, aaMode: nat, tilingMode: nat, unk: nat, alignment: nat,
    pitch: nat, reserved: seq<nat>, version: nat, id: nat)

  /** The fields of a header in their stored order. */
  function Fields(h: Header): (vs: seq<nat>)
    ensures |vs| == 15 + |h.reserved|
  {
    [h.swizzle, h.dimension, h.width, h.height, h.depth, h.numMips, h.format, h.size,
     h.aaMode, h.tilingMode, h.unk, h.alignment, h.pitch] + h.reserved + [h.version, h.id]
  }

  /** The header a sequence of 28 field values spells. */
  function FromFields(vs: seq<nat>): (h: Header)
    requires |vs| == NumFields
    ensures |h.reserved| == 13
  {
    Header(vs[0], vs[1], vs[2], vs[3], vs[4], vs[5], vs[6], vs[7], vs[8], vs[9], vs[10], vs[11],
           vs[12], vs[13..26], vs[26], vs[27])
  }

  /** Thirteen reserved words and every field fitting its 32 bits. */
  predicate Valid(h: Header) {
    |h.reserved| == 13 && forall i :: 0 <= i < |Fields(h)| ==> Fields(h)[i] < Word32
  }

  /** Splitting a header into its fields and back gives it again. */
  lemma FieldsRoundTrip(h: Header)
    requires |h.reserved| == 13
    ensures FromFields(Fields(h)) == h
  {
    assert Fields(h)[13..26] == h.reserved;
  }

  /** The `i`-th word of the trailer of `file`. */
  function TrailerWord(file: seq<byte>, i: nat): (s: seq<byte>)
    requires |file| >= HeaderSize && i < NumFields
    ensures |s| == 4
  {
    file[|file| - HeaderSize + 4 * i..|file| - HeaderSize + 4 * i + 4]
  }

  /** Building a header from 28 values and splitting it into its fields
      gives the values again. */
  lemma FromFieldsRoundTrip(vs: seq<nat>)
    requires |vs| == NumFields
    ensures Fields(FromFields(vs)) == vs
  {
    assert vs == vs[..13] + vs[13..26] + vs[26..];
  }

  /** The 28 little-endian words the header is stored as. */
  function Words(file: seq<byte>): (vs: seq<nat>)
    requires |file| >= HeaderSize
    ensures |vs| == NumFields
    ensures forall i :: 0 <= i < NumFields ==> vs[i] < Word32
  {
    assert Pow256(4) == Word32;
    seq(NumFields, i requires 0 <= i < NumFields => ReadLE(TrailerWord(file, i)))
  }

  /** `MTXT::Mount`: the header is the last 112 bytes of the file. A file
      shorter than the header has nothing to mount. */
  function Mount(file: seq<byte>): (r: Result<Header>)
    ensures r.Ok? <==> |file| >= HeaderSize
    ensures r.Ok? ==> Valid(r.value)
  {
    if |file| < HeaderSize then Err(OutOfBounds)
    else
      var vs := Words(file);
      FromFieldsRoundTrip(vs);
      Ok(FromFields(vs))
  }

  /** The 112 bytes of a header, as it is stored. */
  function Encode(h: Header): (e: seq<byte>)
    requires |h.reserved| == 13
    ensures |e| == HeaderSize
  {
    WriteWords(Fields(h))
  }

  /** Mounting a file that ends with an encoded header gives that header
      back, whatever comes before it. */
  lemma MountEncode(prefix: seq<byte>, h: Header)
    requires Valid(h)
    ensures Mount(prefix + Encode(h)) == Ok(h)
  {
    var file := prefix + Encode(h);
    forall i | 0 <= i < NumFields
      ensures Words(file)[i] == Fields(h)[i]
    {
      WordOf(prefix, h, i);
    }
    assert Words(file) == Fields(h);
    FieldsRoundTrip(h);
  }

  /** Word `i` of a file ending with an encoded header is field `i` of
      the header. */
  lemma WordOf(prefix: seq<byte>, h: Header, i: nat)
    requires Valid(h) && i < NumFields
    ensures Words(prefix + Encode(h))[i] == Fields(h)[i]
  {
    var file := prefix + Encode(h);
    WriteWordsAt(Fields(h), i);
    WordRead(prefix, Encode(h), i, Fields(h)[i]);
    assert U(file, |file| - HeaderSize + 4 * i, 4) == ReadLE(TrailerWord(file, i));
  }

  /** A 32-bit word with its four bytes reversed. */
  function Swap32(v: nat): (r: nat)
    ensures r < Word32
  {
    ReadBE(WriteLE(v, 4))
  }

  /** Swapping the bytes of a word read from memory gives the big-endian
      reading of those bytes. */
  lemma Swap32Read(s: seq<byte>)
    requires |s| == 4
    ensures Swap32(ReadLE(s)) == ReadBE(s)
  {
    WriteReadLE(s);
  }

  /** Swapping a 32-bit word twice restores it. */
  lemma Swap32Involutive(v: nat)
    requires v < Word32
    ensures Swap32(Swap32(v)) == v
  {
    var e := WriteLE(v, 4);
    Swap32Read(Reverse(e));
    ReverseInvolutive(e);
    ReadWriteLE(v, 4);
  }

  /** The byte swap of the header (`FByteswapper(MTXT::Header &)`): every
      32-bit field, reserved ones included, reversed byte by byte. */
  function SwapHeader(h: Header): (r: Header)
    requires |h.reserved| == 13
    ensures Valid(r)
  {
    var vs := seq(NumFields, i requires 0 <= i < NumFields => Swap32(Fields(h)[i]));
    FromFieldsRoundTrip(vs);
    FromFields(vs)
  }

  /** Every field of the swapped header is the swapped field. */
  lemma SwapHeaderFields(h: Header)
    requires |h.reserved| == 13
    ensures forall i :: 0 <= i < NumFields ==> Fields(SwapHeader(h))[i] == Swap32(Fields(h)[i])
  {
  }

  /** Swapping a header twice restores it. */
  lemma SwapHeaderInvolutive(h: Header)
    requires Valid(h)
    ensures SwapHeader(SwapHeader(h)) == h
  {
    var s := SwapHeader(h);
    SwapHeaderFields(h);
    SwapHeaderFields(s);
    forall i | 0 <= i < NumFields
      ensures Fields(SwapHeader(s))[i] == Fields(h)[i]
    {
      Swap32Involutive(Fields(h)[i]);
    }
    assert Fields(SwapHeader(s)) == Fields(h);
    FieldsRoundTrip(SwapHeader(s));
    FieldsRoundTrip(h);
  }

  /** The fields of a mounted header are the trailer's words. */
  lemma MountFields(file: seq<byte>)
    requires |file| >= HeaderSize
    ensures Mount(file).Ok? && Fields(Mount(file).value) == Words(file)
  {
  }

  /** The swapped header of a file is its trailer read as big-endian
      words: what the swap is for on a big-endian console file. */
  lemma SwapMounted(file: seq<byte>)
    requires |file| >= HeaderSize
    ensures Mount(file).Ok?
    ensures forall i :: 0 <= i < NumFields ==> Fields(SwapHeader(Mount(file).value))[i] == ReadBE(TrailerWord(file, i))
  {
    MountFields(file);
    var h := Mount(file).value;
    var sw := SwapHeader(h);
    SwapHeaderFields(h);
    forall i | 0 <= i < NumFields
      ensures Fields(sw)[i] == ReadBE(TrailerWord(file, i))
    {
      Swap32Read(TrailerWord(file, i));
    }
  }

  /** Bytes per block and pixels along a block's side. */
  datatype BlockFormat = BlockFormat(bpp: nat, ppb: nat)

  /** The format switch of `DecodeMipmap`: BC1 and BC4 have 4 by 4 pixel
      blocks of 8 bytes, BC2, BC3 and BC5 of 16 bytes, R8 single bytes,
      RGBA8 single 4-byte pixels, and any other format throws. */
  function FormatInfo(format: nat): (r: Result<BlockFormat>)
    ensures r.Ok? <==> format in Blocks8 + Blocks16 + {UnormR8, UnormRGBA8}
    ensures format in Blocks8 ==> r == Ok(BlockFormat(8, 4))
    ensures format in Blocks16 ==> r == Ok(BlockFormat(16, 4))
    ensures format == UnormR8 ==> r == Ok(BlockFormat(1, 1))
    ensures format == UnormRGBA8 ==> r == Ok(BlockFormat(4, 1))
    ensures r.Err? ==> r.error == Runtime(UnhandledFormat)
  {
    if format in Blocks8 then Ok(BlockFormat(8, 4))
    else if format in Blocks16 then Ok(BlockFormat(16, 4))
    else if format == UnormR8 then Ok(BlockFormat(1, 1))
    else if format == UnormRGBA8 then Ok(BlockFormat(4, 1))
    else Err(Runtime(UnhandledFormat))
  }

  /** Every format the switch accepts has a block size and a block side
      that are nonzero powers of two. */
  lemma FormatSizes(format: nat)
    requires FormatInfo(format).Ok?
    ensures FormatInfo(format).value.bpp in {1, 4, 8, 16}
    ensures FormatInfo(format).value.ppb in {1, 4}
    ensures FormatInfo(format).value.ppb == 4 <==> format in Blocks8 + Blocks16
  {
  }

  /** The surface in blocks: `width / ppb` by `height / ppb` blocks of
      `bpp` bytes. */
  function GridOf(h: Header, f: BlockFormat): (g: Blocks.Grid)
    requires f.ppb > 0
    ensures g.bpp == f.bpp
  {
    Blocks.Grid(h.width / f.ppb, h.height / f.ppb, f.bpp)
  }

  /** `surfaceSize`, a `uint32` product. */
  function SurfaceSize(h: Header, f: BlockFormat): nat
    requires f.ppb > 0
  {
    Blocks.SurfaceSize(GridOf(h, f)) % Word32
  }

  /** `pipeSwizzle`: `(swizzle >> 8) & 1`. */
  function PipeSwizzle(swizzle: nat): nat {
    And(Shr(swizzle, 8), 1)
  }

  /** `bankSwizzle`: `(swizzle >> 9) & 3`. */
  function BankSwizzle(swizzle: nat): nat {
    And(Shr(swizzle, 9), 3)
  }

  /** Masking with 1 keeps the lowest bit. */
  lemma AndOne(x: nat)
    ensures And(x, 1) == x % 2
  {
    if x != 0 {
      AndNone(x / 2);
    }
  }

  /** Masking with 3 keeps the two lowest bits. */
  lemma AndThree(x: nat)
    ensures And(x, 3) == x % 4
  {
    if x != 0 {
      AndOne(x / 2);
      LowBits(x);
    }
  }

  /** Masking with 0 clears everything. */
  lemma {:induction false} AndNone(x: nat)
    ensures And(x, 0) == 0
    decreases x
  {
    if x != 0 {
      AndNone(x / 2);
    }
  }

  /** The pipe swizzle is bit 8 of `swizzle` and the bank swizzle bits 9
      and 10; together they are bits 8 to 10. */
  lemma SwizzleBits(swizzle: nat)
    ensures PipeSwizzle(swizzle) == Bit(swizzle, 8)
    ensures BankSwizzle(swizzle) == Bit(swizzle, 9) + 2 * Bit(swizzle, 10)
    ensures PipeSwizzle(swizzle) + 2 * BankSwizzle(swizzle) == Shr(swizzle, 8) % 8
  {
    var x := Shr(swizzle, 8);
    AndOne(x);
    ShrNext(swizzle, 8);
    ShrNext(swizzle, 9);
    AndThree(x / 2);
    LowBits(x);
    LowBits(x / 2);
  }

  /** The low two and three bits of `x`, bit by bit. */
  lemma LowBits(x: nat)
    ensures x % 4 == x % 2 + 2 * ((x / 2) % 2)
    ensures x % 8 == x % 2 + 2 * ((x / 2) % 4)
  {
    var q := x / 2;
    DivUnique(x, 4, q / 2, x % 2 + 2 * (q % 2));
    DivUnique(x, 8, q / 4, x % 2 + 2 * (q % 4));
  }

  /** What `AddrLibMacroTilePrecomp` is built from: bits per pixel, pitch,
      height in blocks, tiling mode and the two swizzles. */
  datatype MacroTiling = MacroTiling(bitsPerPixel: nat, pitch: nat, height: nat, tileMode: nat, pipe: nat, bank: nat)

  /** What `AddrLibMicroTilePrecomp` is built from: bits per pixel, pitch
      and tiling mode. */
  datatype MicroTiling = MicroTiling(bitsPerPixel: nat, pitch: nat, tileMode: nat)

  /** The macro-tiled path serves the 2D and 3D tiling modes, from
      `Tiled2DThin1` on; the lower tiled modes are micro-tiled. */
  predicate MacroTiled(h: Header) {
    h.tilingMode >= Tiled2DThin1
  }

  /** A tiled surface, as opposed to the linear ones copied verbatim. */
  predicate Tiled(h: Header) {
    h.tilingMode > LinearAligned
  }

  /** The input address of block (`w`, `y`) on a tiled path, a `uint32`
      returned by the address library. */
  function TiledAddress(h: Header, f: BlockFormat, macro: (MacroTiling, nat, nat) -> nat,
                        micro: (MicroTiling, nat, nat) -> nat, w: nat, y: nat): (a: nat)
    requires f.ppb > 0
    ensures a < Word32
  {
    if MacroTiled(h) then
      macro(MacroTiling(f.bpp * 8, h.pitch, GridOf(h, f).height, h.tilingMode,
                        PipeSwizzle(h.swizzle), BankSwizzle(h.swizzle)), w, y) % Word32
    else
      micro(MicroTiling(f.bpp * 8, h.pitch, h.tilingMode), w, y) % Word32
  }

  /** The tiled copy: every block is copied, from the address the tiling
      gives, to its row-major place at the start of the output. */
  function TiledPlan(h: Header, f: BlockFormat, macro: (MacroTiling, nat, nat) -> nat,
                     micro: (MicroTiling, nat, nat) -> nat): (p: Blocks.Plan)
    requires f.ppb > 0
    ensures p.g == GridOf(h, f) && p.outBase == 0 && p.inBase == 0
  {
    Blocks.Plan(GridOf(h, f), 0, 0,
                (w: nat, y: nat) => TiledAddress(h, f, macro, micro, w, y) as int,
                (w: nat, y: nat) => true)
  }

  /** The linear path: one `memcpy` of `surfaceSize` bytes from the start
      of the input to the start of the output. */
  function Linear(o: seq<byte>, data: seq<byte>, size: nat): (r: Result<seq<byte>>)
    ensures r.Ok? <==> size <= |data| && size <= |o|
    ensures r.Ok? ==> |r.value| == |o|
    ensures r.Ok? ==> forall k :: 0 <= k < |o| ==> r.value[k] == if k < size then data[k] else o[k]
  {
    if size > |data| || size > |o| then Err(OutOfBounds)
    else Ok(data[..size] + o[size..])
  }

  /** `MTXT::DecodeMipmap` on the output `o`: only the top mipmap is
      supported, an unknown format throws, a linear surface is copied in
      one piece and a tiled one block by block. */
  function Decode(h: Header, data: seq<byte>, o: seq<byte>, mipIndex: nat,
                  macro: (MacroTiling, nat, nat) -> nat, micro: (MicroTiling, nat, nat) -> nat): (r: Result<seq<byte>>)
    ensures mipIndex != 0 ==> r == Err(Assertion(MipIndexCheck))
    ensures mipIndex == 0 && FormatInfo(h.format).Err? ==> r == Err(Runtime(UnhandledFormat))
    ensures r.Ok? ==> |r.value| == |o|
  {
    if mipIndex != 0 then Err(Assertion(MipIndexCheck))
    else match FormatInfo(h.format)
      case Err(e) => Err(e)
      case Ok(f) =>
        if Tiled(h) then Blocks.Decoded(o, data, TiledPlan(h, f, macro, micro))
        else Linear(o, data, SurfaceSize(h, f))
  }

  /** A linear surface (tiling mode up to `LinearAligned`) decodes exactly
      when both buffers hold `surfaceSize` bytes, and then its first
      `surfaceSize` bytes are the input's and the rest of the output is
      unchanged. */
  lemma LinearMeaning(h: Header, data: seq<byte>, o: seq<byte>, f: BlockFormat,
                      macro: (MacroTiling, nat, nat) -> nat, micro: (MicroTiling, nat, nat) -> nat)
    requires FormatInfo(h.format) == Ok(f) && !Tiled(h)
    ensures Decode(h, data, o, 0, macro, micro).Ok? <==> SurfaceSize(h, f) <= |data| && SurfaceSize(h, f) <= |o|
    ensures Decode(h, data, o, 0, macro, micro).Ok? ==>
              forall k :: 0 <= k < |o| ==>
                Decode(h, data, o, 0, macro, micro).value[k] == if k < SurfaceSize(h, f) then data[k] else o[k]
  {
  }

  /** Block (`w`, `y`) of the grid `g` holds, at its row-major place in
      `r`, the `bpp` bytes of `data` at address `a`. */
  predicate BlockPlaced(r: seq<byte>, data: seq<byte>, g: Blocks.Grid, a: nat, w: nat, y: nat) {
    && Blocks.Target(g, w, y) + g.bpp <= |r| && a + g.bpp <= |data|
    && r[Blocks.Target(g, w, y)..Blocks.Target(g, w, y) + g.bpp] == data[a..a + g.bpp]
  }

  /** A tiled surface is decoded by the block copy of `TiledPlan`. */
  lemma TiledDecode(h: Header, data: seq<byte>, o: seq<byte>, f: BlockFormat,
                    macro: (MacroTiling, nat, nat) -> nat, micro: (MicroTiling, nat, nat) -> nat)
    requires FormatInfo(h.format) == Ok(f) && Tiled(h)
    ensures f.ppb > 0
    ensures Decode(h, data, o, 0, macro, micro) == Blocks.Decoded(o, data, TiledPlan(h, f, macro, micro))
  {
  }

  /** A tiled surface decodes exactly when every block is read from inside
      the input and written inside the output. Then block (`w`, `y`)
      holds, at `(y * width + w) * bpp`, the `bpp` input bytes at the
      address the macro- or micro-tiling gives for it, and the output
      after the surface is unchanged. */
  lemma TiledMeaning(h: Header, data: seq<byte>, o: seq<byte>, f: BlockFormat,
                     macro: (MacroTiling, nat, nat) -> nat, micro: (MicroTiling, nat, nat) -> nat)
    requires FormatInfo(h.format) == Ok(f) && Tiled(h)
    ensures Decode(h, data, o, 0, macro, micro).Ok? <==>
              forall w: nat, y: nat :: w < GridOf(h, f).width && y < GridOf(h, f).height ==>
                Blocks.InBounds(|o|, data, TiledPlan(h, f, macro, micro), w, y)
    ensures Decode(h, data, o, 0, macro, micro).Ok? ==>
              forall w: nat, y: nat :: w < GridOf(h, f).width && y < GridOf(h, f).height ==>
                BlockPlaced(Decode(h, data, o, 0, macro, micro).value, data, GridOf(h, f),
                            TiledAddress(h, f, macro, micro, w, y), w, y)
    ensures Decode(h, data, o, 0, macro, micro).Ok? ==>
              forall k :: Blocks.SurfaceSize(GridOf(h, f)) <= k < |o| ==>
                Decode(h, data, o, 0, macro, micro).value[k] == o[k]
  {
    TiledDecode(h, data, o, f, macro, micro);
    var p := TiledPlan(h, f, macro, micro);
    var g := GridOf(h, f);
    var d := Decode(h, data, o, 0, macro, micro);
    assert d == Blocks.Decoded(o, data, p);
    Blocks.DecodedMeaning(o, data, p);
    assert d.Ok? <==> forall w: nat, y: nat :: w < g.width && y < g.height ==> Blocks.InBounds(|o|, data, p, w, y) by {
      assert forall w: nat, y: nat :: p.copied(w, y);
    }
    if d.Ok? {
      var r := d.value;
      forall w: nat, y: nat | w < g.width && y < g.height
        ensures BlockPlaced(r, data, g, TiledAddress(h, f, macro, micro, w, y), w, y)
      {
        assert Blocks.InBounds(|o|, data, p, w, y);
        assert Blocks.Dest(p, w, y) == Blocks.Target(p.g, w, y);
        assert Blocks.Source(p, w, y) == TiledAddress(h, f, macro, micro, w, y);
        assert Blocks.BlockBytes(r, p, w, y) == Blocks.SourceBytes(data, p, w, y);
      }
    }
  }

  /** The tiling mode picks the address function: macro-tiling from
      `Tiled2DThin1` on, with the pipe and bank swizzle bits, and
      micro-tiling below. */
  lemma TilingDispatch(h: Header, f: BlockFormat, macro: (MacroTiling, nat, nat) -> nat,
                       micro: (MicroTiling, nat, nat) -> nat, w: nat, y: nat)
    requires f.ppb > 0
    ensures h.tilingMode >= Tiled2DThin1 ==>
              TiledAddress(h, f, macro, micro, w, y) ==
                macro(MacroTiling(8 * f.bpp, h.pitch, h.height / f.ppb, h.tilingMode,
                                  Bit(h.swizzle, 8), Bit(h.swizzle, 9) + 2 * Bit(h.swizzle, 10)), w, y) % Word32
    ensures h.tilingMode < Tiled2DThin1 ==>
              TiledAddress(h, f, macro, micro, w, y) == micro(MicroTiling(8 * f.bpp, h.pitch, h.tilingMode), w, y) % Word32
  {
    SwizzleBits(h.swizzle);
  }

  /** The linear `memcpy`. */
  method CopyLinear(data: seq<byte>, out: array<byte>, size: nat) returns (r: Outcome)
    modifies out
    ensures Linear(old(out[..]), data, size) == if r.Pass? then Ok(out[..]) else Err(r.error)
  {
    if size > |data| || size > out.Length {
      return Fail(OutOfBounds);
    }
    ghost var o := out[..];
    forall k | 0 <= k < size {
      out[k] := data[k];
    }
    assert out[..] == data[..size] + o[size..];
    return Pass;
  }

  /** The decode of a texture into the output array: the mip check, the
      format switch, then the linear copy or the block copy of the tiled
      paths. */
  method DecodeMipmap(h: Header, data: seq<byte>, out: array<byte>, mipIndex: nat,
                      macro: (MacroTiling, nat, nat) -> nat, micro: (MicroTiling, nat, nat) -> nat)
    returns (r: Outcome)
    modifies out
    ensures Decode(h, data, old(out[..]), mipIndex, macro, micro) == if r.Pass? then Ok(out[..]) else Err(r.error)
  {
    if mipIndex != 0 {
      return Fail(Assertion(MipIndexCheck));
    }
    var info := FormatInfo(h.format);
    if info.Err? {
      return Fail(info.error);
    }
    var f := info.value;
    var width := h.width / f.ppb;
    var height := h.height / f.ppb;
    var surfaceSize := (width * height * f.bpp) % Word32;
    if h.tilingMode > LinearAligned {
      r := Blocks.CopyBlocks(out, data, TiledPlan(h, f, macro, micro));
    } else {
      r := CopyLinear(data, out, surfaceSize);
    }
  }
}
