/** MSMD map containers (`source/msmd.cpp`): the pass over the common
    header, which detects the byte order from the id, reads the version in
    that order and hands the header to the V1 or the V2 pass; the V1 pass
    over a big-endian header, which swaps it, fixes up its 22 pointers and
    walks its arrays; the V2 pass over a little-endian header, which only
    fixes up its pointers; and the passes of the records the V1 header
    leads to (`DataSpan`, `TerrainTextureHeader`, `BVSCBlock` and its
    entries).

    Record layouts (`include/xenolib/msmd.hpp`), as offsets in bytes; every
    field is a 32-bit word, an `Array` is a count followed by an items
    pointer, an `ArrayInv` and a `DataSpan` a pointer followed by a count:
    - HeaderBase (24 bytes): id 0, version 4.
    - V1 Header (216 bytes): the arrays terrainModels 24, objects 32,
      hkColisions 40, skyboxModels 48, objectStreams 80, objectTextures 88,
      grass 100, unk00 108, unk01 116, TGLDNames 124, TGLDs 136,
      terrainCachedTextures 144, terrainStreamingTextures 152, effects 176,
      terrainLODModels 184, unk02 196, mapTerrainBuffers 204; the pointers
      havokNames 96, cachedTGLD 132, CEMS 212; BVSC 160 (`ArrayInv`) and
      LCMD 168 (`DataSpan`).
    - V2 Header (264 bytes): the arrays terrainModels 24, objects 32,
      skyboxModels 48, objectStreams 80, objectTextures 88,
      terrainCachedTextures 144, unk0 204; the pointers cachedTGLD 132,
      nerd 212, lbigs 228, dlcm 232.
    - DataSpan (8 bytes): data 0, size 4.
    - TerrainTextureHeader (28 bytes): textures 0 (`Array` of four-word
      `TerrainTexture`s).
    - BVSCBlock (20 bytes): hash 0, entries 4 (`ArrayInv` of
      `BVSCBlockEntry`s), main 12 (`DataSpan`).
    - BVSCBlockEntry (28 bytes): data 0 (`DataSpan`). */
module Msmd {
  import opened Outcomes
  import opened Bytes
  import opened Memory
  import opened Flags
  import opened Records

  /** `CompileFourCC("MSMD")` and `CompileFourCC("DMSM")` read as
      little-endian words. */
  const IdBig: nat := 0x444D534D
  const Id: nat := 0x4D534D44

  /** The two `MSMD::Version`s. */
  const V10011: nat := 10011
  const V10112: nat := 10112

  const IdField: nat := 0
  const VersionField: nat := 4

  const V1Size: nat := 216
  const V1Words: nat := 54
  const V2Size: nat := 264

  const TgldNamesCount: nat := 124
  const TgldNamesItems: nat := 128
  const BvscItems: nat := 160

  /** A `TGLDNames` element: one pointer. */
  const NameLayout := Layout(1, 0)

  /** The V1 header's pointers in the order `FixupPointers` takes them:
      BVSC, cachedTGLD, CEMS, effects, grass, havokNames, hkColisions,
      LCMD, mapTerrainBuffers, objects, objectStreams, objectTextures,
      skyboxModels, terrainCachedTextures, terrainLODModels, terrainModels,
      terrainStreamingTextures, TGLDNames, TGLDs, unk00, unk01, unk02. */
  const V1Pointers: seq<Field> :=
    [Field(160, 4), Field(132, 4), Field(212, 4), Field(180, 4), Field(104, 4), Field(96, 4),
     Field(44, 4), Field(168, 4), Field(208, 4), Field(36, 4), Field(84, 4), Field(92, 4),
     Field(52, 4), Field(148, 4), Field(188, 4), Field(28, 4), Field(156, 4), Field(128, 4),
     Field(140, 4), Field(112, 4), Field(120, 4), Field(200, 4)]

  /** The arrays whose elements the V1 pass swaps before it walks
      TGLDNames, in its order, with the words of their elements: effects,
      grass, hkColisions, mapTerrainBuffers, objects, objectStreams,
      objectTextures, skyboxModels, terrainCachedTextures,
      terrainLODModels, terrainModels, terrainStreamingTextures. */
  const LeadingArrays: seq<ElementArray> :=
    [ElementArray(180, 176, 2, 4), ElementArray(104, 100, 15, 4), ElementArray(44, 40, 22, 4),
     ElementArray(208, 204, 2, 4), ElementArray(36, 32, 16, 4), ElementArray(84, 80, 2, 4),
     ElementArray(92, 88, 5, 4), ElementArray(52, 48, 15, 4), ElementArray(148, 144, 2, 4),
     ElementArray(188, 184, 18, 4), ElementArray(28, 24, 19, 4), ElementArray(156, 152, 2, 4)]

  /** The arrays whose elements the V1 pass swaps after TGLDNames: TGLDs,
      unk00, unk01, unk02. */
  const TrailingArrays: seq<ElementArray> :=
    [ElementArray(140, 136, 14, 4), ElementArray(112, 108, 2, 4), ElementArray(120, 116, 2, 4),
     ElementArray(200, 196, 2, 4)]

  /** The V2 header's pointers in the order `FixupPointers` takes them:
      cachedTGLD, objects, objectStreams, objectTextures, skyboxModels,
      terrainCachedTextures, terrainModels, unk0, nerd, lbigs, dlcm. */
  const V2Pointers: seq<Field> :=
    [Field(132, 4), Field(36, 4), Field(84, 4), Field(92, 4), Field(52, 4), Field(148, 4),
     Field(28, 4), Field(208, 4), Field(212, 4), Field(228, 4), Field(232, 4)]

  const DataSpanSize: nat := 8
  const DataSpanWords: nat := 2
  const DataField: nat := 0

  const TexturesSize: nat := 28
  const TexturesWords: nat := 7
  const TexturesCount: nat := 0
  const TexturesItems: nat := 4
  /** The words of a `TerrainTexture`. */
  const TextureWords: nat := 4

  const BlockSize: nat := 20
  const BlockWords: nat := 5
  const EntriesItems: nat := 4
  const EntriesCount: nat := 8
  const MainField: nat := 12
  /** The block's pointers in the order they are fixed up: entries, main. */
  const BlockPointers: seq<Field> := [Field(4, 4), Field(12, 4)]

  const EntrySize: nat := 28
  const EntryWords: nat := 7
  /** A `BVSCBlockEntry`: seven words, its `data` pointer first. */
  const EntryLayout := Layout(7, 0)

  // ---------------------------------------------------------------------
  // The common header
  // ---------------------------------------------------------------------

  /** The auto-detection of the byte order: with AutoDetectEndian set, the
      flag is dropped and the id decides, `ID_BIG` for big-endian and `ID`
      for little-endian; any other id is refused. Without it the flags are
      kept as they are. */
  function Detected(id: nat, flags: ProcessFlags): (r: Result<ProcessFlags>)
    ensures !flags.Has(AutoDetectEndian) ==> r == Ok(flags)
    ensures flags.Has(AutoDetectEndian) ==> (r.Ok? <==> id == IdBig || id == Id)
    ensures r.Err? ==> r.error == InvalidHeader(id)
    ensures r.Ok? ==> !r.value.Has(AutoDetectEndian) || !flags.Has(AutoDetectEndian)
    ensures r.Ok? && flags.Has(AutoDetectEndian) ==> (r.value.Has(EnsureBigEndian) <==> id == IdBig)
    ensures r.Ok? ==> r.value.Has(ProcessDataOut) == flags.Has(ProcessDataOut)
                      && r.value.base == flags.base && r.value.userData == flags.userData
  {
    if !flags.Has(AutoDetectEndian) then Ok(flags)
    else
      var f := flags.Without(AutoDetectEndian);
      if id == IdBig then Ok(f.With(EnsureBigEndian))
      else if id == Id then Ok(f.Without(EnsureBigEndian))
      else Err(InvalidHeader(id))
  }

  /** The local copy of the version, swapped when the data is big-endian;
      the stored field is not touched. */
  function VersionOf(s: seq<byte>, h: nat, f: ProcessFlags): nat
    requires h + VersionField + 4 <= |s|
  {
    if f.Has(EnsureBigEndian) then ReadBE(s[h + VersionField..h + VersionField + 4])
    else U(s, h + VersionField, 4)
  }

  /** `ProcessClass(MSMD::HeaderBase)` on the header at `h`, given no
      ProcessDataOut: the byte order detected (or taken from the flags),
      the version read in it, the base set to the header, and the header
      handed, unchanged, to the pass of its version; an unknown version is
      refused with the value as stored. */
  function BasePass(s: seq<byte>, refs: map<nat, Ref>, h: int, flags: ProcessFlags): (w: Step)
    ensures |w.bytes| == |s|
  {
    if flags.NoProcessDataOut().Fail? then Step(flags.NoProcessDataOut(), s, refs)
    else if !(0 <= h && h + VersionField + 4 <= |s|) then Step(Fail(OutOfBounds), s, refs)
    else
      match Detected(U(s, h + IdField, 4), flags)
      case Err(e) => Step(Fail(e), s, refs)
      case Ok(f) =>
        var v := VersionOf(s, h, f);
        if v == V10011 then V1Pass(s, refs, h, f.Rebased(h))
        else if v == V10112 then V2Pass(s, refs, h, f.Rebased(h))
        else Step(Fail(InvalidVersion(U(s, h + VersionField, 4))), s, refs)
  }

  /** The version reads as `v` exactly when the four stored bytes are `v`
      written in the byte order the flags select: little-endian, or
      reversed for big-endian data. */
  lemma VersionBytes(s: seq<byte>, h: nat, f: ProcessFlags, v: nat)
    requires h + VersionField + 4 <= |s| && v < Pow256(4)
    ensures VersionOf(s, h, f) == v <==>
              s[h + VersionField..h + VersionField + 4] ==
              (if f.Has(EnsureBigEndian) then Reverse(WriteLE(v, 4)) else WriteLE(v, 4))
  {
    var x := s[h + VersionField..h + VersionField + 4];
    ReadWriteLE(v, 4);
    if f.Has(EnsureBigEndian) {
      WriteReadLE(Reverse(x));
      ReverseInvolutive(x);
      ReverseInvolutive(WriteLE(v, 4));
    } else {
      WriteReadLE(x);
    }
  }

  /** The base pass refuses ProcessDataOut before anything else, then an
      unknown id when it is to detect the byte order; both leave the
      buffer as it was. */
  lemma BasePassRejects(s: seq<byte>, refs: map<nat, Ref>, h: int, flags: ProcessFlags)
    ensures flags.Has(ProcessDataOut) ==>
              BasePass(s, refs, h, flags) == Step(Fail(Runtime(NoProcessDataOutMessage)), s, refs)
    ensures !flags.Has(ProcessDataOut) && flags.Has(AutoDetectEndian) &&
            0 <= h && h + VersionField + 4 <= |s| && U(s, h + IdField, 4) != IdBig && U(s, h + IdField, 4) != Id ==>
              BasePass(s, refs, h, flags) == Step(Fail(InvalidHeader(U(s, h + IdField, 4))), s, refs)
  {
  }

  /** Auto-detection is asking for the byte order the id names: with the
      id `ID_BIG` the pass is the pass asked for big-endian data, with `ID`
      the pass asked for little-endian data. */
  lemma BasePassDetects(s: seq<byte>, refs: map<nat, Ref>, h: nat, flags: ProcessFlags)
    requires h + VersionField + 4 <= |s| && flags.Has(AutoDetectEndian)
    ensures U(s, h + IdField, 4) == IdBig ==>
              BasePass(s, refs, h, flags) ==
              BasePass(s, refs, h, flags.Without(AutoDetectEndian).With(EnsureBigEndian))
    ensures U(s, h + IdField, 4) == Id ==>
              BasePass(s, refs, h, flags) ==
              BasePass(s, refs, h, flags.Without(AutoDetectEndian).Without(EnsureBigEndian))
  {
  }

  /** Once the byte order is known the version decides: 10011 is the V1
      pass and 10112 the V2 pass, each on the header exactly as stored and
      with the base set to the header; any other version is refused with
      the stored, unswapped value and nothing changes. */
  lemma BasePassDispatches(s: seq<byte>, refs: map<nat, Ref>, h: nat, flags: ProcessFlags)
    requires h + VersionField + 4 <= |s|
    requires !flags.Has(ProcessDataOut) && !flags.Has(AutoDetectEndian)
    ensures VersionOf(s, h, flags) == V10011 ==> BasePass(s, refs, h, flags) == V1Pass(s, refs, h, flags.Rebased(h))
    ensures VersionOf(s, h, flags) == V10112 ==> BasePass(s, refs, h, flags) == V2Pass(s, refs, h, flags.Rebased(h))
    ensures VersionOf(s, h, flags) != V10011 && VersionOf(s, h, flags) != V10112 ==>
              BasePass(s, refs, h, flags) == Step(Fail(InvalidVersion(U(s, h + VersionField, 4))), s, refs)
  {
  }

  /** A header whose id names one byte order and whose version names the
      pass that refuses it fails with that pass's guard: a big-endian V2
      header and a little-endian V1 header are rejected. */
  lemma BasePassMismatch(s: seq<byte>, refs: map<nat, Ref>, h: nat, flags: ProcessFlags)
    requires h + VersionField + 4 <= |s| && !flags.Has(ProcessDataOut) && flags.Has(AutoDetectEndian)
    ensures U(s, h + IdField, 4) == IdBig && ReadBE(s[h + VersionField..h + VersionField + 4]) == V10112 ==>
              BasePass(s, refs, h, flags) == Step(Fail(Runtime(NoBigEndianMessage)), s, refs)
    ensures U(s, h + IdField, 4) == Id && U(s, h + VersionField, 4) == V10011 ==>
              BasePass(s, refs, h, flags) == Step(Fail(Runtime(NoLittleEndianMessage)), s, refs)
  {
  }

  // ---------------------------------------------------------------------
  // V1 header
  // ---------------------------------------------------------------------

  /** The V1 header's 22 pointers lie inside it and are distinct. */
  lemma V1PointersFit(h: nat, n: nat)
    requires h + V1Size <= n
    ensures FieldsFit(h, V1Pointers, n) && DistinctOffsets(V1Pointers)
  {
  }

  /** The counts of the V1 header's arrays lie inside it. */
  lemma V1ArraysFit(h: nat, n: nat)
    requires h + V1Size <= n
    ensures ElementsFit(h, LeadingArrays, n) && ElementsFit(h, TrailingArrays, n)
  {
  }

  /** The V1 header after its `FByteswapper`: every word reversed. */
  function V1Bytes(s: seq<byte>, h: nat): (r: seq<byte>)
    requires h + V1Size <= |s|
    ensures |r| == |s|
  {
    SwapSpan(s, h, V1Size)
  }

  /** The references after the V1 header's 22 fixups against `base`. */
  function V1Refs(s: seq<byte>, refs: map<nat, Ref>, h: nat, base: Ref): map<nat, Ref>
    requires h + V1Size <= |s|
  {
    V1PointersFit(h, |s|);
    FixEach(refs, V1Bytes(s, h), h, V1Pointers, base)
  }

  /** `ProcessClass(MSMD::V1::Header)` on the header at `h`: the guards in
      the source's order, the swap of the whole header, the fixups of its
      pointers against `flags.base`, then its arrays and its first BVSC
      block. */
  function V1Pass(s: seq<byte>, refs: map<nat, Ref>, h: int, flags: ProcessFlags): (w: Step)
    ensures |w.bytes| == |s|
  {
    if flags.NoProcessDataOut().Fail? then Step(flags.NoProcessDataOut(), s, refs)
    else if flags.NoLittleEndian().Fail? then Step(flags.NoLittleEndian(), s, refs)
    else if flags.NoAutoDetect().Fail? then Step(flags.NoAutoDetect(), s, refs)
    else if !(0 <= h && h + V1Size <= |s|) then Step(Fail(OutOfBounds), s, refs)
    else V1Arrays(Step(Pass, V1Bytes(s, h), V1Refs(s, refs, h, flags.base)), h, flags)
  }

  /** The loops of the V1 pass after the fixups, in the source's order:
      the twelve arrays before TGLDNames, whose elements are only swapped;
      TGLDNames, whose every element is swapped and then fixed up against
      the base; the four arrays after it; then the first BVSC block. */
  function V1Arrays(w: Step, h: nat, flags: ProcessFlags): (r: Step)
    requires h + V1Size <= |w.bytes|
    ensures |r.bytes| == |w.bytes|
  {
    V1ArraysFit(h, |w.bytes|);
    var w1 := SweptArrays(w.bytes, w.refs, h, LeadingArrays);
    if w1.outcome.Fail? then w1
    else
      var w2 := V1Names(w1, h, flags.base);
      if w2.outcome.Fail? then w2
      else
        var w3 := SweptArrays(w2.bytes, w2.refs, h, TrailingArrays);
        if w3.outcome.Fail? then w3 else V1Blocks(w3, h, flags)
  }

  /** The TGLDNames loop: each name pointer swapped, then fixed up against
      `base`. */
  function V1Names(w: Step, h: nat, base: Ref): (r: Step)
    requires h + V1Size <= |w.bytes|
    ensures |r.bytes| == |w.bytes|
  {
    Walked(w.bytes, w.refs, RefOf(w.refs, h + TgldNamesItems), U(w.bytes, h + TgldNamesCount, 4), NameLayout, true, base)
  }

  /** `ProcessClass(*item.BVSC.items, flags)`: the block BVSC's items
      pointer refers to, followed whatever the array's count; a null
      pointer is dereferenced. */
  function V1Blocks(w: Step, h: nat, flags: ProcessFlags): (r: Step)
    ensures |r.bytes| == |w.bytes|
  {
    match RefOf(w.refs, h + BvscItems)
    case Null => Step(Fail(NullReference), w.bytes, w.refs)
    case Wild => Step(Fail(WildReference), w.bytes, w.refs)
    case At(b) => BlockPass(w.bytes, w.refs, b, flags)
  }

  /** The V1 pass refuses ProcessDataOut, then little-endian data, then
      AutoDetectEndian, in that order and before it touches anything, and
      a header that does not fit fails with `OutOfBounds`. */
  lemma V1PassRejects(s: seq<byte>, refs: map<nat, Ref>, h: int, flags: ProcessFlags)
    ensures flags.Has(ProcessDataOut) ==>
              V1Pass(s, refs, h, flags) == Step(Fail(Runtime(NoProcessDataOutMessage)), s, refs)
    ensures !flags.Has(ProcessDataOut) && !flags.Has(EnsureBigEndian) ==>
              V1Pass(s, refs, h, flags) == Step(Fail(Runtime(NoLittleEndianMessage)), s, refs)
    ensures !flags.Has(ProcessDataOut) && flags.Has(EnsureBigEndian) && flags.Has(AutoDetectEndian) ==>
              V1Pass(s, refs, h, flags) == Step(Fail(Runtime(NoAutoDetectMessage)), s, refs)
    ensures !flags.Has(ProcessDataOut) && flags.Has(EnsureBigEndian) && !flags.Has(AutoDetectEndian) &&
            !(0 <= h && h + V1Size <= |s|) ==>
              V1Pass(s, refs, h, flags) == Step(Fail(OutOfBounds), s, refs)
  {
  }

  /** After the header's swap every one of its words reads as the
      big-endian value it held, and nothing outside it changes. */
  lemma V1BytesMeaning(s: seq<byte>, h: nat)
    requires h + V1Size <= |s|
    ensures forall k :: 0 <= k < V1Words ==> U(V1Bytes(s, h), h + 4 * k, 4) == ReadBE(s[h + 4 * k..h + 4 * k + 4])
    ensures V1Bytes(s, h)[..h] == s[..h] && V1Bytes(s, h)[h + V1Size..] == s[h + V1Size..]
  {
    forall k | 0 <= k < V1Words
      ensures U(V1Bytes(s, h), h + 4 * k, 4) == ReadBE(s[h + 4 * k..h + 4 * k + 4])
    {
      SwapSpanRead(s, h, V1Size, k);
    }
    assert V1Bytes(s, h)[..h] == s[..h];
    assert V1Bytes(s, h)[h + V1Size..] == s[h + V1Size..];
  }

  /** Each of the 22 pointers holds `base` plus the offset the swapped
      header stores there. */
  lemma V1RefsMeaning(s: seq<byte>, refs: map<nat, Ref>, h: nat, base: Ref)
    requires h + V1Size <= |s|
    ensures FieldsFit(h, V1Pointers, |s|) && FieldsFixed(V1Refs(s, refs, h, base), V1Bytes(s, h), h, V1Pointers, base)
  {
    V1PointersFit(h, |s|);
    FixEachAll(refs, V1Bytes(s, h), h, V1Pointers, base);
  }

  /** The arrays other than TGLDNames are only swapped: the loops over
      them change no reference, and one that cannot be followed fails
      with the error of following it. */
  lemma V1ArraysOnlySwap(s: seq<byte>, refs: map<nat, Ref>, h: nat)
    requires h + V1Size <= |s|
    ensures (V1ArraysFit(h, |s|); SweptArrays(s, refs, h, LeadingArrays).refs == refs)
    ensures (V1ArraysFit(h, |s|); SweptArrays(s, refs, h, TrailingArrays).refs == refs)
    ensures (V1ArraysFit(h, |s|); SweptArrays(s, refs, h, LeadingArrays).outcome.Fail? ==>
               SweptArrays(s, refs, h, LeadingArrays).outcome.error in {NullReference, WildReference, OutOfBounds})
  {
    V1ArraysFit(h, |s|);
    SweptArraysFails(s, refs, h, LeadingArrays);
  }

  /** Every TGLDNames element is swapped and then holds `base` plus the
      offset it stores; no pointer outside the array changes. */
  lemma V1NamesFixed(w: Step, h: nat, base: Ref)
    requires h + V1Size <= |w.bytes|
    requires V1Names(w, h, base).outcome.Pass?
    ensures var n, start := U(w.bytes, h + TgldNamesCount, 4), RefOf(w.refs, h + TgldNamesItems);
      n > 0 ==>
        && start.At? && 0 <= start.addr && start.addr + 4 * n <= |w.bytes|
        && V1Names(w, h, base).bytes == SwapSpan(w.bytes, start.addr, 4 * n)
        && (forall j :: 0 <= j < n ==>
              FixedAt(V1Names(w, h, base).bytes, V1Names(w, h, base).refs, start.addr + 4 * j, base))
        && (forall k :: !(start.addr <= k < start.addr + 4 * n) ==>
              RefOf(V1Names(w, h, base).refs, k) == RefOf(w.refs, k))
  {
    var n := U(w.bytes, h + TgldNamesCount, 4);
    if n > 0 {
      WalkedPointers(w.bytes, w.refs, RefOf(w.refs, h + TgldNamesItems), n, base);
    }
  }

  /** The first BVSC block is reached whatever the other arrays hold: a
      null items pointer fails, and otherwise the block's pass ends the V1
      pass. */
  lemma V1BlocksFollow(w: Step, h: nat, flags: ProcessFlags)
    ensures RefOf(w.refs, h + BvscItems).Null? ==> V1Blocks(w, h, flags) == Step(Fail(NullReference), w.bytes, w.refs)
    ensures RefOf(w.refs, h + BvscItems).At? ==>
              V1Blocks(w, h, flags) == BlockPass(w.bytes, w.refs, RefOf(w.refs, h + BvscItems).addr, flags)
  {
  }

  // ---------------------------------------------------------------------
  // V2 header
  // ---------------------------------------------------------------------

  /** The V2 header's 11 pointers lie inside it and are distinct. */
  lemma V2PointersFit(h: nat, n: nat)
    requires h + V2Size <= n
    ensures FieldsFit(h, V2Pointers, n) && DistinctOffsets(V2Pointers)
  {
  }

  /** `ProcessClass(MSMD::V2::Header)` on the header at `h`: the guards in
      the source's order, then the fixups of its pointers against
      `flags.base`; no byte is swapped. */
  function V2Pass(s: seq<byte>, refs: map<nat, Ref>, h: int, flags: ProcessFlags): (w: Step)
    ensures |w.bytes| == |s|
  {
    if flags.NoProcessDataOut().Fail? then Step(flags.NoProcessDataOut(), s, refs)
    else if flags.NoBigEndian().Fail? then Step(flags.NoBigEndian(), s, refs)
    else if flags.NoAutoDetect().Fail? then Step(flags.NoAutoDetect(), s, refs)
    else if !(0 <= h && h + V2Size <= |s|) then Step(Fail(OutOfBounds), s, refs)
    else
      V2PointersFit(h, |s|);
      Step(Pass, s, FixEach(refs, s, h, V2Pointers, flags.base))
  }

  /** The V2 pass refuses ProcessDataOut, then big-endian data, then
      AutoDetectEndian; when it passes it changes no byte and each of its
      11 pointers holds `base` plus the offset stored there. */
  lemma V2PassMeaning(s: seq<byte>, refs: map<nat, Ref>, h: int, flags: ProcessFlags)
    ensures flags.Has(ProcessDataOut) ==>
              V2Pass(s, refs, h, flags) == Step(Fail(Runtime(NoProcessDataOutMessage)), s, refs)
    ensures !flags.Has(ProcessDataOut) && flags.Has(EnsureBigEndian) ==>
              V2Pass(s, refs, h, flags) == Step(Fail(Runtime(NoBigEndianMessage)), s, refs)
    ensures !flags.Has(ProcessDataOut) && !flags.Has(EnsureBigEndian) && flags.Has(AutoDetectEndian) ==>
              V2Pass(s, refs, h, flags) == Step(Fail(Runtime(NoAutoDetectMessage)), s, refs)
    ensures V2Pass(s, refs, h, flags).bytes == s
    ensures V2Pass(s, refs, h, flags).outcome.Pass? ==>
              && 0 <= h && FieldsFit(h, V2Pointers, |s|)
              && FieldsFixed(V2Pass(s, refs, h, flags).refs, s, h, V2Pointers, flags.base)
  {
    if V2Pass(s, refs, h, flags).outcome.Pass? {
      V2PointersFit(h, |s|);
      FixEachAll(refs, s, h, V2Pointers, flags.base);
    }
  }

  // ---------------------------------------------------------------------
  // DataSpan
  // ---------------------------------------------------------------------

  /** `ProcessClass(MSMD::DataSpan)` on the span at `d`: no
      AutoDetectEndian, no ProcessDataOut, its two words swapped only for
      big-endian data, then `data` fixed up against `flags.base`. */
  function DataSpanPass(s: seq<byte>, refs: map<nat, Ref>, d: int, flags: ProcessFlags): (w: Step)
    ensures |w.bytes| == |s|
  {
    if flags.NoAutoDetect().Fail? then Step(flags.NoAutoDetect(), s, refs)
    else if flags.NoProcessDataOut().Fail? then Step(flags.NoProcessDataOut(), s, refs)
    else if !(0 <= d && d + DataSpanSize <= |s|) then Step(Fail(OutOfBounds), s, refs)
    else
      var t := if flags.Has(EnsureBigEndian) then SwapSpan(s, d, DataSpanSize) else s;
      Step(Pass, t, FixOne(refs, t, d, Field(DataField, 4), flags.base))
  }

  /** The span's words are swapped exactly for big-endian data, and then
      read as the big-endian values they held; either way `data` holds
      `base` plus the offset read in the data's byte order, and no other
      pointer changes. */
  lemma DataSpanMeaning(s: seq<byte>, refs: map<nat, Ref>, d: nat, flags: ProcessFlags)
    requires d + DataSpanSize <= |s| && DataSpanPass(s, refs, d, flags).outcome.Pass?
    ensures !flags.Has(AutoDetectEndian) && !flags.Has(ProcessDataOut)
    ensures var w := DataSpanPass(s, refs, d, flags);
      && (!flags.Has(EnsureBigEndian) ==> w.bytes == s)
      && (flags.Has(EnsureBigEndian) ==>
            && w.bytes == SwapSpan(s, d, DataSpanSize)
            && U(w.bytes, d + DataField, 4) == ReadBE(s[d + DataField..d + DataField + 4]))
      && RefOf(w.refs, d + DataField) == Resolve(flags.base, I(w.bytes, d + DataField, 4))
      && forall k :: k != d + DataField ==> RefOf(w.refs, k) == RefOf(refs, k)
  {
    if flags.Has(EnsureBigEndian) {
      SwapSpanRead(s, d, DataSpanSize, 0);
    }
  }

  // ---------------------------------------------------------------------
  // TerrainTextureHeader
  // ---------------------------------------------------------------------

  /** `ProcessClass(MSMD::V1::TerrainTextureHeader)` on the record at `t`:
      the guards, the record's swap, the base moved to the record itself,
      the textures pointer fixed up against it, then every texture's four
      words swapped. */
  function TexturesPass(s: seq<byte>, refs: map<nat, Ref>, t: int, flags: ProcessFlags): (w: Step)
    ensures |w.bytes| == |s|
  {
    if flags.NoAutoDetect().Fail? then Step(flags.NoAutoDetect(), s, refs)
    else if flags.NoLittleEndian().Fail? then Step(flags.NoLittleEndian(), s, refs)
    else if flags.NoProcessDataOut().Fail? then Step(flags.NoProcessDataOut(), s, refs)
    else if !(0 <= t && t + TexturesSize <= |s|) then Step(Fail(OutOfBounds), s, refs)
    else
      var b := SwapSpan(s, t, TexturesSize);
      var refs1 := FixOne(refs, b, t, Field(TexturesItems, 4), At(t));
      Swept(b, refs1, RefOf(refs1, t + TexturesItems), TextureWords * U(b, t + TexturesCount, 4), 4)
  }

  /** The textures pointer is fixed up against the record's own address,
      whatever base the caller passed: the pass does not depend on
      `flags.base`, and when it passes the pointer holds the record's
      address plus the offset it stores. */
  lemma TexturesPassRebases(s: seq<byte>, refs: map<nat, Ref>, t: int, flags: ProcessFlags, base: Ref)
    ensures TexturesPass(s, refs, t, flags) == TexturesPass(s, refs, t, flags.(base := base))
    ensures TexturesPass(s, refs, t, flags).outcome.Pass? ==>
              && 0 <= t && t + TexturesSize <= |s|
              && RefOf(TexturesPass(s, refs, t, flags).refs, t + TexturesItems) ==
                 Resolve(At(t), I(SwapSpan(s, t, TexturesSize), t + TexturesItems, 4))
  {
    var g := flags.(base := base);
    assert g.NoAutoDetect() == flags.NoAutoDetect();
    assert g.NoLittleEndian() == flags.NoLittleEndian();
    assert g.NoProcessDataOut() == flags.NoProcessDataOut();
    if flags.NoAutoDetect().Pass? && flags.NoLittleEndian().Pass? && flags.NoProcessDataOut().Pass?
       && 0 <= t && t + TexturesSize <= |s| {
      var b := SwapSpan(s, t, TexturesSize);
      var refs1 := FixOne(refs, b, t, Field(TexturesItems, 4), At(t));
      assert RefOf(refs1, t + TexturesItems) == Resolve(At(t), I(b, t + TexturesItems, 4));
      assert TexturesPass(s, refs, t, flags).refs == refs1;
    }
  }

  // ---------------------------------------------------------------------
  // BVSC blocks
  // ---------------------------------------------------------------------

  /** `ProcessClass(MSMD::V1::BVSCBlockEntry)` on the entry at `e`: the
      guards, the entry's swap, then `data` fixed up against
      `flags.base`. */
  function EntryPass(s: seq<byte>, refs: map<nat, Ref>, e: int, flags: ProcessFlags): (w: Step)
    ensures |w.bytes| == |s|
  {
    if flags.NoAutoDetect().Fail? then Step(flags.NoAutoDetect(), s, refs)
    else if flags.NoLittleEndian().Fail? then Step(flags.NoLittleEndian(), s, refs)
    else if flags.NoProcessDataOut().Fail? then Step(flags.NoProcessDataOut(), s, refs)
    else if !(0 <= e && e + EntrySize <= |s|) then Step(Fail(OutOfBounds), s, refs)
    else
      var b := SwapSpan(s, e, EntrySize);
      Step(Pass, b, FixOne(refs, b, e, Field(DataField, 4), flags.base))
  }

  /** Past its guards, the pass of one entry is the walk over an array of
      that one entry, swapping it and fixing up its `data`: the walk the
      block pass does over its entries. */
  lemma EntryPassIsWalk(s: seq<byte>, refs: map<nat, Ref>, e: int, flags: ProcessFlags)
    requires !flags.Has(AutoDetectEndian) && flags.Has(EnsureBigEndian) && !flags.Has(ProcessDataOut)
    ensures EntryPass(s, refs, e, flags) == Walked(s, refs, At(e), 1, EntryLayout, true, flags.base)
  {
    assert Words(0, EntryLayout) == 0;
    assert Words(1, EntryLayout) == EntryWords;
    if 0 <= e && e + EntrySize <= |s| {
      var b := SwapSpan(s, e, EntrySize);
      assert WalkedBytes(s, e, 1, EntryLayout, true) == b;
      assert FieldAt(e, 0, EntryLayout) == e + DataField;
      assert FixedFields(b, refs, e, 1, EntryLayout, flags.base) == FixOne(refs, b, e, Field(DataField, 4), flags.base);
    }
  }

  /** The references after the block's two fixups against `base`. */
  function BlockRefs(s: seq<byte>, refs: map<nat, Ref>, b: nat, base: Ref): map<nat, Ref>
    requires b + BlockSize <= |s|
  {
    FixEach(refs, SwapSpan(s, b, BlockSize), b, BlockPointers, base)
  }

  /** `ProcessClass(MSMD::V1::BVSCBlock)` on the block at `b`: the guards,
      the block's swap, `entries` and `main` fixed up against
      `flags.base`, then every entry processed with the same flags. */
  function BlockPass(s: seq<byte>, refs: map<nat, Ref>, b: int, flags: ProcessFlags): (w: Step)
    ensures |w.bytes| == |s|
  {
    if flags.NoAutoDetect().Fail? then Step(flags.NoAutoDetect(), s, refs)
    else if flags.NoLittleEndian().Fail? then Step(flags.NoLittleEndian(), s, refs)
    else if flags.NoProcessDataOut().Fail? then Step(flags.NoProcessDataOut(), s, refs)
    else if !(0 <= b && b + BlockSize <= |s|) then Step(Fail(OutOfBounds), s, refs)
    else
      var t := SwapSpan(s, b, BlockSize);
      var refs1 := BlockRefs(s, refs, b, flags.base);
      Walked(t, refs1, RefOf(refs1, b + EntriesItems), U(t, b + EntriesCount, 4), EntryLayout, true, flags.base)
  }

  /** `entries` and `main` hold `base` plus the offsets the swapped block
      stores. */
  lemma BlockRefsMeaning(s: seq<byte>, refs: map<nat, Ref>, b: nat, base: Ref)
    requires b + BlockSize <= |s|
    ensures var t, r := SwapSpan(s, b, BlockSize), BlockRefs(s, refs, b, base);
      && RefOf(r, b + EntriesItems) == Resolve(base, I(t, b + EntriesItems, 4))
      && RefOf(r, b + MainField) == Resolve(base, I(t, b + MainField, 4))
  {
    var t := SwapSpan(s, b, BlockSize);
    FixEachListed(refs, t, b, BlockPointers, base, 0);
    FixEachListed(refs, t, b, BlockPointers, base, 1);
  }

  /** When the block pass passes, every entry's `data` holds the same
      `base` the block's own pointers were fixed up against, plus the
      offset the swapped entry stores. */
  lemma BlockPassEntries(s: seq<byte>, refs: map<nat, Ref>, b: nat, flags: ProcessFlags)
    requires b + BlockSize <= |s| && BlockPass(s, refs, b, flags).outcome.Pass?
    ensures var t, refs1 := SwapSpan(s, b, BlockSize), BlockRefs(s, refs, b, flags.base);
      var start, n := RefOf(refs1, b + EntriesItems), U(t, b + EntriesCount, 4);
      n > 0 ==>
        && start.At? && 0 <= start.addr
        && forall j :: 0 <= j < n ==>
             FixedAt(BlockPass(s, refs, b, flags).bytes, BlockPass(s, refs, b, flags).refs,
                     FieldAt(start.addr, j, EntryLayout), flags.base)
  {
    var t, refs1 := SwapSpan(s, b, BlockSize), BlockRefs(s, refs, b, flags.base);
    var start, n := RefOf(refs1, b + EntriesItems), U(t, b + EntriesCount, 4);
    assert flags.NoAutoDetect().Pass? && flags.NoLittleEndian().Pass? && flags.NoProcessDataOut().Pass?;
    assert BlockPass(s, refs, b, flags) == Walked(t, refs1, start, n, EntryLayout, true, flags.base);
    WalkedMeaning(t, refs1, start, n, EntryLayout, true, flags.base);
  }

  // ---------------------------------------------------------------------
  // The passes on the buffer
  // ---------------------------------------------------------------------

  /** `ProcessClass(MSMD::HeaderBase)`, on the buffer. */
  method ProcessBase(buf: Buffer, h: int, flags: ProcessFlags) returns (r: Outcome)
    modifies buf, buf.bytes
    ensures Step(r, buf.bytes[..], buf.refs) == BasePass(old(buf.bytes[..]), old(buf.refs), h, flags)
  {
    r := flags.NoProcessDataOut();
    if r.Fail? {
      return;
    }
    if !buf.Fits(h, VersionField + 4) {
      return Fail(OutOfBounds);
    }
    var f;
    match Detected(U(buf.bytes[..], h + IdField, 4), flags)
    case Err(e) =>
      return Fail(e);
    case Ok(detected) =>
      f := detected;
    var version := U(buf.bytes[..], h + VersionField, 4);
    if f.Has(EnsureBigEndian) {
      version := ReadBE(buf.bytes[h + VersionField..h + VersionField + 4]);
    }
    if version == V10011 {
      r := ProcessV1Header(buf, h, f.Rebased(h));
    } else if version == V10112 {
      r := ProcessV2Header(buf, h, f.Rebased(h));
    } else {
      r := Fail(InvalidVersion(U(buf.bytes[..], h + VersionField, 4)));
    }
  }

  /** `ProcessClass(MSMD::V1::Header)`, on the buffer. */
  method ProcessV1Header(buf: Buffer, h: int, flags: ProcessFlags) returns (r: Outcome)
    modifies buf, buf.bytes
    ensures Step(r, buf.bytes[..], buf.refs) == V1Pass(old(buf.bytes[..]), old(buf.refs), h, flags)
  {
    r := flags.NoProcessDataOut();
    if r.Fail? {
      return;
    }
    :- flags.NoLittleEndian();
    :- flags.NoAutoDetect();
    if !buf.Fits(h, V1Size) {
      return Fail(OutOfBounds);
    }
    SwappedIsRun(buf.bytes[..], h, Layout(V1Words, 0));
    var _ := buf.SwapFields(h, V1Words, 4);
    V1PointersFit(h, buf.bytes.Length);
    buf.FixupList(h, V1Pointers, flags.base);
    r := ProcessV1Arrays(buf, h, flags);
  }

  /** The loops of `V1Arrays`, on the buffer. */
  method ProcessV1Arrays(buf: Buffer, h: nat, flags: ProcessFlags) returns (r: Outcome)
    requires h + V1Size <= buf.bytes.Length
    modifies buf, buf.bytes
    ensures Step(r, buf.bytes[..], buf.refs) == V1Arrays(Step(Pass, old(buf.bytes[..]), old(buf.refs)), h, flags)
  {
    V1ArraysFit(h, buf.bytes.Length);
    r := SweepArrays(buf, h, LeadingArrays);
    if r.Fail? {
      return;
    }
    r := Walk(buf, buf.RefAt(h + TgldNamesItems), U(buf.bytes[..], h + TgldNamesCount, 4), NameLayout, true, flags.base);
    if r.Fail? {
      return;
    }
    V1ArraysFit(h, buf.bytes.Length);
    r := SweepArrays(buf, h, TrailingArrays);
    if r.Fail? {
      return;
    }
    match buf.RefAt(h + BvscItems)
    case Null =>
      return Fail(NullReference);
    case Wild =>
      return Fail(WildReference);
    case At(b) =>
      r := ProcessBlock(buf, b, flags);
  }

  /** `ProcessClass(MSMD::V2::Header)`, on the buffer. */
  method ProcessV2Header(buf: Buffer, h: int, flags: ProcessFlags) returns (r: Outcome)
    modifies buf
    ensures Step(r, buf.bytes[..], buf.refs) == V2Pass(buf.bytes[..], old(buf.refs), h, flags)
  {
    r := flags.NoProcessDataOut();
    if r.Fail? {
      return;
    }
    :- flags.NoBigEndian();
    :- flags.NoAutoDetect();
    if !buf.Fits(h, V2Size) {
      return Fail(OutOfBounds);
    }
    V2PointersFit(h, buf.bytes.Length);
    buf.FixupList(h, V2Pointers, flags.base);
    return Pass;
  }

  /** `ProcessClass(MSMD::DataSpan)`, on the buffer. */
  method ProcessDataSpan(buf: Buffer, d: int, flags: ProcessFlags) returns (r: Outcome)
    modifies buf, buf.bytes
    ensures Step(r, buf.bytes[..], buf.refs) == DataSpanPass(old(buf.bytes[..]), old(buf.refs), d, flags)
  {
    r := flags.NoAutoDetect();
    if r.Fail? {
      return;
    }
    :- flags.NoProcessDataOut();
    if !buf.Fits(d, DataSpanSize) {
      return Fail(OutOfBounds);
    }
    if flags.Has(EnsureBigEndian) {
      SwappedIsRun(buf.bytes[..], d, Layout(DataSpanWords, 0));
      var _ := buf.SwapFields(d, DataSpanWords, 4);
    }
    var _ := buf.Fixup(d + DataField, 4, flags.base);
    return Pass;
  }

  /** `ProcessClass(MSMD::V1::TerrainTextureHeader)`, on the buffer. */
  method ProcessTextures(buf: Buffer, t: int, flags: ProcessFlags) returns (r: Outcome)
    modifies buf, buf.bytes
    ensures Step(r, buf.bytes[..], buf.refs) == TexturesPass(old(buf.bytes[..]), old(buf.refs), t, flags)
  {
    r := flags.NoAutoDetect();
    if r.Fail? {
      return;
    }
    :- flags.NoLittleEndian();
    :- flags.NoProcessDataOut();
    if !buf.Fits(t, TexturesSize) {
      return Fail(OutOfBounds);
    }
    SwappedIsRun(buf.bytes[..], t, Layout(TexturesWords, 0));
    var _ := buf.SwapFields(t, TexturesWords, 4);
    var base := flags.Rebased(t).base;
    var _ := buf.Fixup(t + TexturesItems, 4, base);
    r := Sweep(buf, buf.RefAt(t + TexturesItems), TextureWords * U(buf.bytes[..], t + TexturesCount, 4), 4);
  }

  /** `ProcessClass(MSMD::V1::BVSCBlockEntry)`, on the buffer. */
  method ProcessEntry(buf: Buffer, e: int, flags: ProcessFlags) returns (r: Outcome)
    modifies buf, buf.bytes
    ensures Step(r, buf.bytes[..], buf.refs) == EntryPass(old(buf.bytes[..]), old(buf.refs), e, flags)
  {
    r := flags.NoAutoDetect();
    if r.Fail? {
      return;
    }
    :- flags.NoLittleEndian();
    :- flags.NoProcessDataOut();
    if !buf.Fits(e, EntrySize) {
      return Fail(OutOfBounds);
    }
    SwappedIsRun(buf.bytes[..], e, Layout(EntryWords, 0));
    var _ := buf.SwapFields(e, EntryWords, 4);
    var _ := buf.Fixup(e + DataField, 4, flags.base);
    return Pass;
  }

  /** `ProcessClass(MSMD::V1::BVSCBlock)`, on the buffer. */
  method ProcessBlock(buf: Buffer, b: int, flags: ProcessFlags) returns (r: Outcome)
    modifies buf, buf.bytes
    ensures Step(r, buf.bytes[..], buf.refs) == BlockPass(old(buf.bytes[..]), old(buf.refs), b, flags)
  {
    r := flags.NoAutoDetect();
    if r.Fail? {
      return;
    }
    :- flags.NoLittleEndian();
    :- flags.NoProcessDataOut();
    if !buf.Fits(b, BlockSize) {
      return Fail(OutOfBounds);
    }
    SwappedIsRun(buf.bytes[..], b, Layout(BlockWords, 0));
    var _ := buf.SwapFields(b, BlockWords, 4);
    buf.FixupList(b, BlockPointers, flags.base);
    r := Walk(buf, buf.RefAt(b + EntriesItems), U(buf.bytes[..], b + EntriesCount, 4), EntryLayout, true, flags.base);
  }
}
