/** DRSM streaming resources (`source/drsm.cpp`): the passes over a
    little-endian DRSM header, its resources record and its texture table,
    which fix up the stored offsets and check the record's stream indices.

    Record layouts (`include/xenolib/drsm.hpp`), as offsets in bytes; every
    field is a 32-bit word and every pointer a 32-bit offset:
    - Header (16 bytes): id 0, version 4, streamData 8, resources 12.
    - Resources (76 bytes): id 0, version 4, streamEntries 8 (count, items),
      streams 16 (count, items), modelStreamEntryIndex 24,
      shaderStreamEntryIndex 28, lowTexturesStreamEntryIndex 32,
      lowTexturesStreamIndex 36, middleTexturesStreamIndex 40,
      middleTexturesStreamEntryBeginIndex 44, numMiddleTexturesStreamEntries 48,
      textureIndices 52 (count, items), textures 60, null0 64,
      externalResources 68 (count, items).
    - Textures (16 bytes): textures 0 (count, items), null 8, names 12.
    - Texture (16 bytes): unk 0, lowSize 4, lowOffset 8, name 12.
    - Stream (12 bytes): compressedSize 0, uncompressedSize 4, data 8. */
module Drsm {
  import opened Outcomes
  import opened Bytes
  import opened Memory
  import opened Flags
  import opened Records

  /** `CompileFourCC("DRSM")` read as a little-endian word. */
  const Id: nat := 0x4D535244
  const Version: nat := 0x2711
  const ResourcesId: nat := 0x1001

  const HeaderSize: nat := 16
  const VersionField: nat := 4
  const StreamDataField: nat := 8
  const ResourcesField: nat := 12

  const ResourcesSize: nat := 76
  const StreamsCountField: nat := 16
  const StreamsItemsField: nat := 20
  const ModelEntryField: nat := 24
  const ShaderEntryField: nat := 28
  const LowEntryField: nat := 32
  const LowStreamField: nat := 36
  const MiddleStreamField: nat := 40
  const MiddleBeginField: nat := 44
  const TexturesField: nat := 60

  /** The conditions of the resources pass's `assert`s. */
  const LowEntryCheck := "item.lowTexturesStreamEntryIndex == 2"
  const LowStreamCheck := "item.lowTexturesStreamIndex == 0"
  const MiddleBeginCheck := "item.middleTexturesStreamEntryBeginIndex == 3 || item.middleTexturesStreamEntryBeginIndex == 0"
  const MiddleStreamCheck := "item.middleTexturesStreamIndex == 1 || item.middleTexturesStreamEntryBeginIndex == 0"
  const ModelEntryCheck := "item.modelStreamEntryIndex == 0"
  const ShaderEntryCheck := "item.shaderStreamEntryIndex == 1"

  /** The pointers of a resources record in the order they are fixed up:
      externalResources, streamEntries, streams, textureIndices, textures. */
  const ResourcesPointers: seq<Field> := [Field(72, 4), Field(12, 4), Field(20, 4), Field(56, 4), Field(60, 4)]

  const TexturesSize: nat := 16
  const TexturesItemsField: nat := 4
  /** The texture table is four words with its `names` pointer last. */
  const TexturesLayout := Layout(4, 12)
  /** A texture is four words with its `name` pointer last. */
  const TextureLayout := Layout(4, 12)
  /** A stream is three words with its `data` pointer last. */
  const StreamLayout := Layout(3, 8)

  /** The texture table's bytes after its own swap. */
  function TexturesHead(s: seq<byte>, t: nat, flags: ProcessFlags): (r: seq<byte>)
    requires t + TexturesSize <= |s|
    ensures |r| == |s|
  {
    Swapped(s, t, TexturesLayout, flags.Has(EnsureBigEndian))
  }

  /** The texture array the table at `t` refers to, after the table's
      swap and fixup. */
  function TextureItems(s: seq<byte>, t: nat, flags: ProcessFlags): Ref
    requires t + TexturesSize <= |s|
  {
    Resolve(At(t), I(TexturesHead(s, t, flags), t + TexturesItemsField, 4))
  }

  /** The number of textures of the table at `t`, after its swap. */
  function TextureCount(s: seq<byte>, t: nat, flags: ProcessFlags): nat
    requires t + TexturesSize <= |s|
  {
    U(TexturesHead(s, t, flags), t, 4)
  }

  /** `ProcessClass(DRSM::Textures)` on the table at `t`: the guards, then
      the table's words swapped when big-endian, `names` and the array
      fixed up against the table itself, and the walk over the textures,
      each swapped when big-endian and its name fixed up. */
  function TexturesPass(s: seq<byte>, refs: map<nat, Ref>, t: int, flags: ProcessFlags): (w: Step)
    ensures |w.bytes| == |s|
    ensures w.outcome.Pass? ==> 0 <= t && t + TexturesSize <= |s|
  {
    if flags.NoProcessDataOut().Fail? then Step(flags.NoProcessDataOut(), s, refs)
    else if flags.NoAutoDetect().Fail? then Step(flags.NoAutoDetect(), s, refs)
    else if !(0 <= t && t + TexturesSize <= |s|) then Step(Fail(OutOfBounds), s, refs)
    else
      var s1 := TexturesHead(s, t, flags);
      var refs1 := refs[t + 12 := Resolve(At(t), I(s1, t + 12, 4))][t + 4 := TextureItems(s, t, flags)];
      Walked(s1, refs1, TextureItems(s, t, flags), TextureCount(s, t, flags), TextureLayout,
             flags.Has(EnsureBigEndian), At(t))
  }

  /** The texture pass runs exactly when neither ProcessDataOut nor
      AutoDetectEndian is set, the table lies in the buffer and so does its
      non-empty array. It swaps bytes only for big-endian data, and every
      texture's name ends up fixed up against the table's own address. */
  lemma TexturesPassMeaning(s: seq<byte>, refs: map<nat, Ref>, t: nat, flags: ProcessFlags)
    requires t + TexturesSize <= |s|
    ensures TexturesPass(s, refs, t, flags).outcome.Pass? <==>
              && !flags.Has(ProcessDataOut) && !flags.Has(AutoDetectEndian)
              && (TextureCount(s, t, flags) == 0 ||
                  (TextureItems(s, t, flags).At? && 0 <= TextureItems(s, t, flags).addr &&
                   TextureItems(s, t, flags).addr + 4 * Words(TextureCount(s, t, flags), TextureLayout) <= |s|))
    ensures !flags.Has(EnsureBigEndian) ==> TexturesPass(s, refs, t, flags).bytes == s
    ensures TexturesPass(s, refs, t, flags).outcome.Pass? && TextureCount(s, t, flags) > 0 ==>
              forall j :: 0 <= j < TextureCount(s, t, flags) ==>
                FixedAt(TexturesPass(s, refs, t, flags).bytes, TexturesPass(s, refs, t, flags).refs,
                        FieldAt(TextureItems(s, t, flags).addr, j, TextureLayout), At(t))
  {
    if !flags.Has(ProcessDataOut) && !flags.Has(AutoDetectEndian) {
      var s1 := TexturesHead(s, t, flags);
      var refs1 := refs[t + 12 := Resolve(At(t), I(s1, t + 12, 4))][t + 4 := TextureItems(s, t, flags)];
      WalkedMeaning(s1, refs1, TextureItems(s, t, flags), TextureCount(s, t, flags), TextureLayout,
                    flags.Has(EnsureBigEndian), At(t));
    }
  }

  /** The `assert`s of the resources pass, in order; the first four are
      made only when the record has a texture table. */
  function IndexChecks(s: seq<byte>, a: nat, textures: bool): (r: Outcome)
    requires a + ResourcesSize <= |s|
  {
    if textures && U(s, a + LowEntryField, 4) != 2 then
      Fail(Assertion(LowEntryCheck))
    else if textures && U(s, a + LowStreamField, 4) != 0 then
      Fail(Assertion(LowStreamCheck))
    else if textures && U(s, a + MiddleBeginField, 4) != 3 && U(s, a + MiddleBeginField, 4) != 0 then
      Fail(Assertion(MiddleBeginCheck))
    else if textures && U(s, a + MiddleStreamField, 4) != 1 && U(s, a + MiddleBeginField, 4) != 0 then
      Fail(Assertion(MiddleStreamCheck))
    else if U(s, a + ModelEntryField, 4) != 0 then
      Fail(Assertion(ModelEntryCheck))
    else if U(s, a + ShaderEntryField, 4) != 1 then
      Fail(Assertion(ShaderEntryCheck))
    else Pass
  }

  /** The stream-index invariants hold exactly when the checks pass: model
      entry 0 and shader entry 1 always, and with a texture table the low
      textures at entry 2 of stream 0 and the middle textures, if any, at
      entry 3 of stream 1. */
  lemma IndexChecksExactly(s: seq<byte>, a: nat, textures: bool)
    requires a + ResourcesSize <= |s|
    ensures IndexChecks(s, a, textures).Pass? <==>
              && U(s, a + ModelEntryField, 4) == 0 && U(s, a + ShaderEntryField, 4) == 1
              && (textures ==>
                    && U(s, a + LowEntryField, 4) == 2 && U(s, a + LowStreamField, 4) == 0
                    && (U(s, a + MiddleBeginField, 4) == 0 ||
                        (U(s, a + MiddleBeginField, 4) == 3 && U(s, a + MiddleStreamField, 4) == 1)))
    ensures IndexChecks(s, a, textures).Fail? ==> IndexChecks(s, a, textures).error.Assertion?
  {
  }

  /** The texture table a resources record at `a` refers to. */
  function TexturesOf(s: seq<byte>, a: nat): Ref
    requires a + ResourcesSize <= |s|
  {
    Resolve(At(a), I(s, a + TexturesField, 4))
  }

  lemma ResourcesPointersFit(a: nat, n: nat)
    requires a + ResourcesSize <= n
    ensures FieldsFit(a, ResourcesPointers, n) && DistinctOffsets(ResourcesPointers)
    ensures ResourcesPointers[4] == Field(TexturesField, 4)
  {
  }

  /** The references after the five pointers of the record at `a` were
      fixed up against the record. */
  function ResourcesRefs(s: seq<byte>, refs: map<nat, Ref>, a: nat): map<nat, Ref>
    requires a + ResourcesSize <= |s|
  {
    ResourcesPointersFit(a, |s|);
    FixEach(refs, s, a, ResourcesPointers, At(a))
  }

  /** `ProcessClass(DRSM::Resources)` on the record at `a`: the guards, the
      id check, the fixups of its five pointers against the record, the
      texture table when there is one (with AutoDetectEndian dropped), and
      the index checks. */
  function ResourcesPass(s: seq<byte>, refs: map<nat, Ref>, a: int, flags: ProcessFlags): (w: Step)
    ensures |w.bytes| == |s|
    ensures w.outcome.Pass? ==> 0 <= a && a + ResourcesSize <= |s|
  {
    if flags.NoProcessDataOut().Fail? then Step(flags.NoProcessDataOut(), s, refs)
    else if flags.NoBigEndian().Fail? then Step(flags.NoBigEndian(), s, refs)
    else if !(0 <= a && a + ResourcesSize <= |s|) then Step(Fail(OutOfBounds), s, refs)
    else if U(s, a, 4) != ResourcesId then Step(Fail(InvalidHeader(U(s, a, 4))), s, refs)
    else
      var refs1 := ResourcesRefs(s, refs, a);
      match TexturesOf(s, a)
      case At(t) =>
        var w := TexturesPass(s, refs1, t, flags.Without(AutoDetectEndian).Rebased(a));
        if w.outcome.Fail? then w else Step(IndexChecks(w.bytes, a, true), w.bytes, w.refs)
      case _ => Step(IndexChecks(s, a, false), s, refs1)
  }

  /** The resources pass never swaps a byte, since it rejects big-endian
      data before it starts. */
  lemma ResourcesPassKeepsBytes(s: seq<byte>, refs: map<nat, Ref>, a: nat, flags: ProcessFlags)
    requires a + ResourcesSize <= |s|
    ensures ResourcesPass(s, refs, a, flags).bytes == s
  {
    var f := flags.Without(AutoDetectEndian).Rebased(a);
    if !flags.Has(EnsureBigEndian) && TexturesOf(s, a).At? && 0 <= TexturesOf(s, a).addr
       && TexturesOf(s, a).addr + TexturesSize <= |s| {
      TexturesPassMeaning(s, ResourcesRefs(s, refs, a), TexturesOf(s, a).addr, f);
    }
  }

  /** A resources pass that passes had ProcessDataOut and EnsureBigEndian
      absent, a record with id 0x1001, model and shader entries 0 and 1,
      and, when it has a texture table, the low textures at entry 2 of
      stream 0 and the middle textures, if any, at entry 3 of stream 1. */
  lemma ResourcesPassValid(s: seq<byte>, refs: map<nat, Ref>, a: nat, flags: ProcessFlags)
    requires a + ResourcesSize <= |s| && ResourcesPass(s, refs, a, flags).outcome.Pass?
    ensures !flags.Has(EnsureBigEndian) && !flags.Has(ProcessDataOut) && U(s, a, 4) == ResourcesId
    ensures U(s, a + ModelEntryField, 4) == 0 && U(s, a + ShaderEntryField, 4) == 1
    ensures TexturesOf(s, a).At? ==>
              && U(s, a + LowEntryField, 4) == 2 && U(s, a + LowStreamField, 4) == 0
              && (U(s, a + MiddleBeginField, 4) == 0 ||
                  (U(s, a + MiddleBeginField, 4) == 3 && U(s, a + MiddleStreamField, 4) == 1))
  {
    ResourcesPassKeepsBytes(s, refs, a, flags);
    IndexChecksExactly(s, a, TexturesOf(s, a).At?);
  }

  /** A record without a texture table is not followed any further: only
      its five pointers change, and its outcome is that of the index
      checks. */
  lemma ResourcesWithoutTextures(s: seq<byte>, refs: map<nat, Ref>, a: nat, flags: ProcessFlags)
    requires a + ResourcesSize <= |s| && I(s, a + TexturesField, 4) == 0
    requires !flags.Has(ProcessDataOut) && !flags.Has(EnsureBigEndian) && U(s, a, 4) == ResourcesId
    ensures ResourcesPass(s, refs, a, flags) == Step(IndexChecks(s, a, false), s, ResourcesRefs(s, refs, a))
  {
  }

  /** The resources record the header at `h` refers to. */
  function ResourcesOf(s: seq<byte>, h: nat): Ref
    requires h + HeaderSize <= |s|
  {
    Resolve(At(h), I(s, h + ResourcesField, 4))
  }

  /** The references after the header's two fixups: `streamData` against
      the address one past the header's start, `resources` against the
      header. */
  function HeaderRefs(s: seq<byte>, refs: map<nat, Ref>, h: nat): map<nat, Ref>
    requires h + HeaderSize <= |s|
  {
    refs[h + StreamDataField := Resolve(At(h + 1), I(s, h + StreamDataField, 4))][h + ResourcesField := ResourcesOf(s, h)]
  }

  /** The checks of the header pass before it changes anything. */
  function HeaderCheck(s: seq<byte>, h: int, flags: ProcessFlags): (r: Outcome)
    ensures r.Pass? ==> 0 <= h && h + HeaderSize <= |s|
  {
    if flags.NoProcessDataOut().Fail? then flags.NoProcessDataOut()
    else if flags.NoBigEndian().Fail? then flags.NoBigEndian()
    else if !(0 <= h && h + HeaderSize <= |s|) then Fail(OutOfBounds)
    else if U(s, h, 4) != Id then Fail(InvalidHeader(U(s, h, 4)))
    else if U(s, h + VersionField, 4) != Version then Fail(InvalidVersion(U(s, h + VersionField, 4)))
    else Pass
  }

  /** A header is accepted exactly when ProcessDataOut and EnsureBigEndian
      are both absent, it lies in the buffer, its id is "DRSM" and its
      version 0x2711; the flag checks come first, then the id, then the
      version, each reported with the value read. */
  lemma HeaderCheckExactly(s: seq<byte>, h: nat, flags: ProcessFlags)
    requires h + HeaderSize <= |s|
    ensures HeaderCheck(s, h, flags).Pass? <==>
              && !flags.Has(ProcessDataOut) && !flags.Has(EnsureBigEndian)
              && U(s, h, 4) == Id && U(s, h + VersionField, 4) == Version
    ensures !flags.Has(ProcessDataOut) && !flags.Has(EnsureBigEndian) && U(s, h, 4) != Id ==>
              HeaderCheck(s, h, flags) == Fail(InvalidHeader(U(s, h, 4)))
    ensures !flags.Has(ProcessDataOut) && !flags.Has(EnsureBigEndian) && U(s, h, 4) == Id
            && U(s, h + VersionField, 4) != Version ==>
              HeaderCheck(s, h, flags) == Fail(InvalidVersion(U(s, h + VersionField, 4)))
  {
  }

  /** The flags the header passes on: AutoDetectEndian dropped, the
      header as base. */
  function Passed(flags: ProcessFlags, h: nat): (f: ProcessFlags)
    ensures f.flags == flags.flags - {AutoDetectEndian}
  {
    flags.Without(AutoDetectEndian).Rebased(h)
  }

  /** The resources pass the header at `h` leads to. */
  function ResourcesStep(s: seq<byte>, refs: map<nat, Ref>, h: nat, flags: ProcessFlags): (w: Step)
    requires h + HeaderSize <= |s| && ResourcesOf(s, h).At?
    ensures |w.bytes| == |s|
    ensures w.outcome.Pass? ==> 0 <= ResourcesOf(s, h).addr && ResourcesOf(s, h).addr + ResourcesSize <= |s|
  {
    ResourcesPass(s, HeaderRefs(s, refs, h), ResourcesOf(s, h).addr, Passed(flags, h))
  }

  /** Where the streams array starts when the header pass walks it: the
      `streams` pointer of the resources record as the resources pass left
      it. */
  function StreamsAt(s: seq<byte>, refs: map<nat, Ref>, h: nat, flags: ProcessFlags): Ref
    requires h + HeaderSize <= |s| && ResourcesOf(s, h).At?
  {
    RefOf(ResourcesStep(s, refs, h, flags).refs, ResourcesOf(s, h).addr + StreamsItemsField)
  }

  /** The number of streams of the resources record the header refers to. */
  function StreamCount(s: seq<byte>, h: nat): nat
    requires h + HeaderSize <= |s| && ResourcesOf(s, h).At?
  {
    var a := ResourcesOf(s, h).addr;
    if 0 <= a && a + ResourcesSize <= |s| then U(s, a + StreamsCountField, 4) else 0
  }

  /** `ProcessClass(DRSM::Header)` on the header at `h`: the checks, the two
      fixups, the resources pass with AutoDetectEndian dropped, and the walk
      over the streams the resources record lists, whose `data` pointers
      are fixed up against the header. */
  function HeaderPass(s: seq<byte>, refs: map<nat, Ref>, h: int, flags: ProcessFlags): (w: Step)
    ensures |w.bytes| == |s|
  {
    if HeaderCheck(s, h, flags).Fail? then Step(HeaderCheck(s, h, flags), s, refs)
    else if !ResourcesOf(s, h).At? then Step(Fail(NullReference), s, HeaderRefs(s, refs, h))
    else StreamsWalk(ResourcesStep(s, refs, h, flags), ResourcesOf(s, h).addr, h)
  }

  /** After the resources pass `w` on the record at `a`: the walk over the
      streams it lists, fixing up their `data` against the header at `h`. */
  function StreamsWalk(w: Step, a: int, h: nat): (w': Step)
    requires w.outcome.Pass? ==> 0 <= a && a + ResourcesSize <= |w.bytes|
    ensures |w'.bytes| == |w.bytes|
  {
    if w.outcome.Fail? then w
    else Walked(w.bytes, w.refs, RefOf(w.refs, a + StreamsItemsField), U(w.bytes, a + StreamsCountField, 4),
                StreamLayout, false, At(h))
  }

  /** The header pass never changes a byte of the buffer. */
  lemma HeaderPassKeepsBytes(s: seq<byte>, refs: map<nat, Ref>, h: nat, flags: ProcessFlags)
    requires h + HeaderSize <= |s|
    ensures HeaderPass(s, refs, h, flags).bytes == s
  {
    if HeaderCheck(s, h, flags).Pass? && ResourcesOf(s, h).At? {
      var a := ResourcesOf(s, h).addr;
      if 0 <= a && a + ResourcesSize <= |s| {
        ResourcesPassKeepsBytes(s, HeaderRefs(s, refs, h), a, Passed(flags, h));
        var w := ResourcesStep(s, refs, h, flags);
        WalkedMeaning(w.bytes, w.refs, StreamsAt(s, refs, h, flags), U(w.bytes, a + StreamsCountField, 4),
                      StreamLayout, false, At(h));
      }
    }
  }

  /** The header pass fails without changing anything when a check fails,
      and a null `resources` fails after the two fixups. */
  lemma HeaderPassRejects(s: seq<byte>, refs: map<nat, Ref>, h: nat, flags: ProcessFlags)
    requires h + HeaderSize <= |s|
    ensures HeaderCheck(s, h, flags).Fail? ==> HeaderPass(s, refs, h, flags) == Step(HeaderCheck(s, h, flags), s, refs)
    ensures HeaderCheck(s, h, flags).Pass? && I(s, h + ResourcesField, 4) == 0 ==>
              HeaderPass(s, refs, h, flags) == Step(Fail(NullReference), s, HeaderRefs(s, refs, h))
  {
  }

  /** A header pass that passes went through a passing resources pass. */
  lemma HeaderPassSteps(s: seq<byte>, refs: map<nat, Ref>, h: nat, flags: ProcessFlags)
    requires h + HeaderSize <= |s| && HeaderPass(s, refs, h, flags).outcome.Pass?
    ensures HeaderCheck(s, h, flags).Pass? && ResourcesOf(s, h).At?
    ensures ResourcesStep(s, refs, h, flags).outcome.Pass?
    ensures HeaderPass(s, refs, h, flags) == StreamsWalk(ResourcesStep(s, refs, h, flags), ResourcesOf(s, h).addr, h)
  {
  }

  /** The facts about a resources pass that passes, for the record the
      header at `h` refers to. */
  lemma ResourcesStepValid(s: seq<byte>, refs: map<nat, Ref>, h: nat, flags: ProcessFlags, a: int)
    requires h + HeaderSize <= |s| && ResourcesOf(s, h) == At(a) && ResourcesStep(s, refs, h, flags).outcome.Pass?
    ensures 0 <= a && a + ResourcesSize <= |s|
    ensures U(s, a, 4) == ResourcesId && U(s, a + ModelEntryField, 4) == 0 && U(s, a + ShaderEntryField, 4) == 1
    ensures ResourcesStep(s, refs, h, flags).bytes == s
  {
    var w := ResourcesPass(s, HeaderRefs(s, refs, h), a, Passed(flags, h));
    assert w == ResourcesStep(s, refs, h, flags);
    ResourcesPassValid(s, HeaderRefs(s, refs, h), a, Passed(flags, h));
    ResourcesPassKeepsBytes(s, HeaderRefs(s, refs, h), a, Passed(flags, h));
  }

  /** When the header pass passes, the header's checks held and the
      resources record it refers to lies in the buffer, has id 0x1001 and
      model and shader entries 0 and 1. */
  lemma HeaderPassValid(s: seq<byte>, refs: map<nat, Ref>, h: nat, flags: ProcessFlags, a: int)
    requires h + HeaderSize <= |s| && HeaderPass(s, refs, h, flags).outcome.Pass? && ResourcesOf(s, h) == At(a)
    ensures HeaderCheck(s, h, flags).Pass?
    ensures 0 <= a && a + ResourcesSize <= |s|
    ensures U(s, a, 4) == ResourcesId && U(s, a + ModelEntryField, 4) == 0 && U(s, a + ShaderEntryField, 4) == 1
  {
    HeaderPassSteps(s, refs, h, flags);
    ResourcesStepValid(s, refs, h, flags, a);
  }

  /** When the header pass passes, every stream the resources record lists
      has its `data` pointer fixed up against the header. */
  lemma HeaderPassFixesStreams(s: seq<byte>, refs: map<nat, Ref>, h: nat, flags: ProcessFlags)
    requires h + HeaderSize <= |s| && HeaderPass(s, refs, h, flags).outcome.Pass?
    ensures ResourcesOf(s, h).At?
    ensures StreamCount(s, h) > 0 ==> StreamsAt(s, refs, h, flags).At? && StreamsAt(s, refs, h, flags).addr >= 0
    ensures forall j :: 0 <= j < StreamCount(s, h) ==>
              FixedAt(s, HeaderPass(s, refs, h, flags).refs, FieldAt(StreamsAt(s, refs, h, flags).addr, j, StreamLayout), At(h))
  {
    HeaderPassSteps(s, refs, h, flags);
    ResourcesStepValid(s, refs, h, flags, ResourcesOf(s, h).addr);
    StreamsFixed(s, refs, h, flags);
  }

  /** The walk over the streams after a passing resources pass fixes up
      every stream's `data` against the header. */
  lemma StreamsFixed(s: seq<byte>, refs: map<nat, Ref>, h: nat, flags: ProcessFlags)
    requires h + HeaderSize <= |s| && ResourcesOf(s, h).At? && ResourcesStep(s, refs, h, flags).outcome.Pass?
    requires ResourcesStep(s, refs, h, flags).bytes == s
    requires StreamsWalk(ResourcesStep(s, refs, h, flags), ResourcesOf(s, h).addr, h).outcome.Pass?
    ensures StreamCount(s, h) > 0 ==> StreamsAt(s, refs, h, flags).At? && StreamsAt(s, refs, h, flags).addr >= 0
    ensures forall j :: 0 <= j < StreamCount(s, h) ==>
              FixedAt(s, StreamsWalk(ResourcesStep(s, refs, h, flags), ResourcesOf(s, h).addr, h).refs,
                      FieldAt(StreamsAt(s, refs, h, flags).addr, j, StreamLayout), At(h))
  {
    WalkedMeaning(s, ResourcesStep(s, refs, h, flags).refs, StreamsAt(s, refs, h, flags), StreamCount(s, h),
                  StreamLayout, false, At(h));
  }

  /** `ProcessClass(DRSM::Textures)`, on the buffer. */
  method ProcessTextures(buf: Buffer, t: int, flags: ProcessFlags) returns (r: Outcome)
    modifies buf, buf.bytes
    ensures Step(r, buf.bytes[..], buf.refs) == TexturesPass(old(buf.bytes[..]), old(buf.refs), t, flags)
  {
    r := flags.NoProcessDataOut();
    if r.Fail? {
      return;
    }
    :- flags.NoAutoDetect();
    if !buf.Fits(t, TexturesSize) {
      return Fail(OutOfBounds);
    }
    var swap := flags.Has(EnsureBigEndian);
    // The table's own words swapped and its `names` fixed up, as for a record.
    WalkOne(buf, t, TexturesLayout, swap, At(t));
    var _ := buf.Fixup(t + TexturesItemsField, 4, At(t));
    r := Walk(buf, buf.RefAt(t + TexturesItemsField), U(buf.bytes[..], t, 4), TextureLayout, swap, At(t));
  }

  /** `ProcessClass(DRSM::Resources)`, on the buffer. */
  method ProcessResources(buf: Buffer, a: int, flags: ProcessFlags) returns (r: Outcome)
    modifies buf, buf.bytes
    ensures Step(r, buf.bytes[..], buf.refs) == ResourcesPass(old(buf.bytes[..]), old(buf.refs), a, flags)
  {
    r := flags.NoProcessDataOut();
    if r.Fail? {
      return;
    }
    :- flags.NoBigEndian();
    var f := flags.Without(AutoDetectEndian);
    if !buf.Fits(a, ResourcesSize) {
      return Fail(OutOfBounds);
    }
    var id := U(buf.bytes[..], a, 4);
    if id != ResourcesId {
      return Fail(InvalidHeader(id));
    }
    ResourcesPointersFit(a, buf.bytes.Length);
    buf.FixupList(a, ResourcesPointers, At(a));
    FixEachListed(old(buf.refs), buf.bytes[..], a, ResourcesPointers, At(a), 4);
    assert buf.refs == ResourcesRefs(old(buf.bytes[..]), old(buf.refs), a);
    r := ProcessResourcesBody(buf, a, f.Rebased(a));
  }

  /** The textures and the index checks of `ProcessClass(DRSM::Resources)`,
      once the record's pointers are fixed up. */
  method ProcessResourcesBody(buf: Buffer, a: nat, f: ProcessFlags) returns (r: Outcome)
    requires a + ResourcesSize <= buf.bytes.Length
    requires RefOf(buf.refs, a + TexturesField) == TexturesOf(buf.bytes[..], a)
    modifies buf, buf.bytes
    ensures var s, refs := old(buf.bytes[..]), old(buf.refs);
      Step(r, buf.bytes[..], buf.refs) ==
        match TexturesOf(s, a)
        case At(t) =>
          var w := TexturesPass(s, refs, t, f);
          if w.outcome.Fail? then w else Step(IndexChecks(w.bytes, a, true), w.bytes, w.refs)
        case _ => Step(IndexChecks(s, a, false), s, refs)
  {
    var textures := buf.RefAt(a + TexturesField);
    if textures.At? {
      r := ProcessTextures(buf, textures.addr, f);
      if r.Fail? {
        return;
      }
      r := IndexChecks(buf.bytes[..], a, true);
    } else {
      r := IndexChecks(buf.bytes[..], a, false);
    }
  }

  /** `ProcessClass(DRSM::Header)`, on the buffer. */
  method ProcessHeader(buf: Buffer, h: int, flags: ProcessFlags) returns (r: Outcome)
    modifies buf, buf.bytes
    ensures Step(r, buf.bytes[..], buf.refs) == HeaderPass(old(buf.bytes[..]), old(buf.refs), h, flags)
  {
    r := flags.NoProcessDataOut();
    if r.Fail? {
      return;
    }
    :- flags.NoBigEndian();
    if !buf.Fits(h, HeaderSize) {
      return Fail(OutOfBounds);
    }
    var id := U(buf.bytes[..], h, 4);
    if id != Id {
      return Fail(InvalidHeader(id));
    }
    var version := U(buf.bytes[..], h + VersionField, 4);
    if version != Version {
      return Fail(InvalidVersion(version));
    }
    r := ProcessHeaderBody(buf, h, flags);
  }

  /** The header pass after its checks: the fixups, the resources pass and
      the walk over the streams. */
  method ProcessHeaderBody(buf: Buffer, h: nat, flags: ProcessFlags) returns (r: Outcome)
    requires HeaderCheck(buf.bytes[..], h, flags).Pass?
    modifies buf, buf.bytes
    ensures Step(r, buf.bytes[..], buf.refs) == HeaderPass(old(buf.bytes[..]), old(buf.refs), h, flags)
  {
    ghost var s0, r0 := buf.bytes[..], buf.refs;
    var _ := buf.Fixup(h + StreamDataField, 4, At(h + 1));
    var f := flags.Without(AutoDetectEndian).Rebased(h);
    var _ := buf.Fixup(h + ResourcesField, 4, f.base);
    assert buf.refs == HeaderRefs(s0, r0, h);
    var resources := buf.RefAt(h + ResourcesField);
    assert resources == ResourcesOf(s0, h);
    if !resources.At? {
      return Fail(NullReference);
    }
    assert HeaderPass(s0, r0, h, flags) == StreamsWalk(ResourcesPass(s0, buf.refs, resources.addr, f), resources.addr, h);
    r := ProcessStreams(buf, resources.addr, h, f);
  }

  /** The resources pass on the record at `a` and, when it passes, the
      walk over the streams, fixed up against the header at `h`. */
  method ProcessStreams(buf: Buffer, a: int, h: nat, f: ProcessFlags) returns (r: Outcome)
    modifies buf, buf.bytes
    ensures Step(r, buf.bytes[..], buf.refs) == StreamsWalk(ResourcesPass(old(buf.bytes[..]), old(buf.refs), a, f), a, h)
  {
    r := ProcessResources(buf, a, f);
    if r.Fail? {
      return;
    }
    ghost var w := Step(r, buf.bytes[..], buf.refs);
    var streams := buf.RefAt(a + StreamsItemsField);
    var n := U(buf.bytes[..], a + StreamsCountField, 4);
    assert StreamsWalk(w, a, h) == Walked(w.bytes, w.refs, streams, n, StreamLayout, false, At(h));
    r := Walk(buf, streams, n, StreamLayout, false, At(h));
  }
}
