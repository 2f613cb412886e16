/** MSTM terrain containers (`source/mstm.cpp`): the passes over the
    big-endian V1 header and its buffer lookup header, and `Impl::Load`,
    which gives every mesh of the terrain model a model of its own whose
    stream index and LOD level come from the mesh's lookup value.

    Record layouts (`include/xenolib/internal/mstm.hpp`), as offsets in
    bytes; an `Array` is its items pointer followed by its count:
    - Header (88 bytes): unk00 (16 bits) 0, unk01 (16 bits) 2, models 12,
      materials 16, externalTextures 28 (Array of four 16-bit fields),
      shaders 44, textureContainerIds 48 (Array of 16-bit fields),
      buffers 56.
    - TerrainBufferLookupHeader (44 bytes): bufferLookups 0 (Array of
      nine-word `TerrainBufferLookup`s, whose `bufferIndex[2]` is at 24),
      meshIndices 8 (Array of 16-bit fields).

    The model, shader and material records are MXMD V1 records, whose
    passes the header pass is given. */
module Mstm {
  import opened Outcomes
  import opened Bytes
  import opened Memory
  import opened Flags
  import opened Records
  import opened Passes
  import opened Bits
  import Msim
  import MsimLoad

  const HeaderSize: nat := 88
  const HeaderWords: nat := 22
  const Unk01Field: nat := 2
  const ModelsField: nat := 12
  const MaterialsField: nat := 16
  const ExternalTexturesField: nat := 28
  const ShadersField: nat := 44
  const TextureIdsField: nat := 48
  const BuffersField: nat := 56

  /** Bits of the user data: the `ExcludeLoad` enumerators. */
  const ExcludeModel: nat := 0
  const ExcludeMaterials: nat := 1
  const ExcludeShaders: nat := 2

  /** The header's pointers in the order `FixupPointers` takes them:
      buffers, externalTextures, materials, models, shaders,
      textureContainerIds. */
  const HeaderPointers: seq<Field> :=
    [Field(56, 4), Field(28, 4), Field(16, 4), Field(12, 4), Field(44, 4), Field(48, 4)]

  const LookupHeaderSize: nat := 44
  const LookupHeaderWords: nat := 11
  const BufferLookupsField: nat := 0
  const MeshIndicesField: nat := 8
  /** The words of a `TerrainBufferLookup`. */
  const LookupWords: nat := 9

  /** The lookup header's pointers in the order they are fixed up:
      bufferLookups, meshIndices. */
  const LookupPointers: seq<Field> := [Field(0, 4), Field(8, 4)]

  /** The header's six pointers lie inside it and are distinct. */
  lemma HeaderPointersFit(h: nat, n: nat)
    requires h + HeaderSize <= n
    ensures FieldsFit(h, HeaderPointers, n) && DistinctOffsets(HeaderPointers)
  {
  }

  /** The lookup header's two pointers lie inside it and are distinct. */
  lemma LookupPointersFit(a: nat, n: nat)
    requires a + LookupHeaderSize <= n
    ensures FieldsFit(a, LookupPointers, n) && DistinctOffsets(LookupPointers)
  {
  }

  /** The header's bytes after its `FByteswapper`: every 32-bit word
      reversed, then `unk00` and `unk01` exchanged. */
  function HeaderBytes(s: seq<byte>, h: nat): (r: seq<byte>)
    requires h + HeaderSize <= |s|
    ensures |r| == |s|
  {
    Msim.ExchangedSpan(s, h, HeaderSize)
  }

  /** After the header's swap `unk00` and `unk01` read as the big-endian
      values they hold, and so does every later word of the header; nothing
      outside the header changes. */
  lemma HeaderBytesMeaning(s: seq<byte>, h: nat)
    requires h + HeaderSize <= |s|
    ensures U(HeaderBytes(s, h), h, 2) == ReadBE(s[h..h + 2])
    ensures U(HeaderBytes(s, h), h + Unk01Field, 2) == ReadBE(s[h + 2..h + 4])
    ensures forall k :: 1 <= k < HeaderWords ==> U(HeaderBytes(s, h), h + 4 * k, 4) == ReadBE(s[h + 4 * k..h + 4 * k + 4])
    ensures HeaderBytes(s, h)[..h] == s[..h] && HeaderBytes(s, h)[h + HeaderSize..] == s[h + HeaderSize..]
  {
    Msim.ExchangedSpanMeaning(s, h, HeaderSize);
  }

  /** The lookup header's bytes after its word swap. */
  function LookupHead(s: seq<byte>, a: nat): (r: seq<byte>)
    requires a + LookupHeaderSize <= |s|
    ensures |r| == |s|
  {
    SwapSpan(s, a, LookupHeaderSize)
  }

  /** The references after the lookup header's two pointers were fixed up
      against the record. */
  function LookupRefs(s: seq<byte>, refs: map<nat, Ref>, a: nat): map<nat, Ref>
    requires a + LookupHeaderSize <= |s|
  {
    LookupPointersFit(a, |s|);
    FixEach(refs, LookupHead(s, a), a, LookupPointers, At(a))
  }

  /** `ProcessClass(MSTM::V1::TerrainBufferLookupHeader)` on the record at
      `a`: the guards in the source's order, the word swap, the fixups
      against the record, then the swaps of every buffer lookup and every
      mesh index, each array's count read as the walk reaches it. */
  function LookupPass(s: seq<byte>, refs: map<nat, Ref>, a: int, flags: ProcessFlags): (w: Step)
    ensures |w.bytes| == |s|
  {
    if flags.NoAutoDetect().Fail? then Step(flags.NoAutoDetect(), s, refs)
    else if flags.NoLittleEndian().Fail? then Step(flags.NoLittleEndian(), s, refs)
    else if flags.NoProcessDataOut().Fail? then Step(flags.NoProcessDataOut(), s, refs)
    else if !(0 <= a && a + LookupHeaderSize <= |s|) then Step(Fail(OutOfBounds), s, refs)
    else LookupArrays(Step(Pass, LookupHead(s, a), LookupRefs(s, refs, a)), a)
  }

  /** The element swaps of the two arrays of the lookup header at `a`,
      after the step `w`: nine words per lookup, one 16-bit field per mesh
      index. */
  function LookupArrays(w: Step, a: nat): (r: Step)
    requires a + LookupHeaderSize <= |w.bytes|
    ensures |r.bytes| == |w.bytes| && r.refs == w.refs
  {
    var w1 := Swept(w.bytes, w.refs, RefOf(w.refs, a + BufferLookupsField),
                    LookupWords * U(w.bytes, a + BufferLookupsField + 4, 4), 4);
    if w1.outcome.Fail? then w1
    else Swept(w1.bytes, w.refs, RefOf(w.refs, a + MeshIndicesField), U(w1.bytes, a + MeshIndicesField + 4, 4), 2)
  }

  /** The lookup pass refuses AutoDetectEndian, then little-endian data,
      then ProcessDataOut, in that order and before it touches anything. */
  lemma LookupPassRejects(s: seq<byte>, refs: map<nat, Ref>, a: int, flags: ProcessFlags)
    ensures flags.Has(AutoDetectEndian) ==>
              LookupPass(s, refs, a, flags) == Step(Fail(Runtime(NoAutoDetectMessage)), s, refs)
    ensures !flags.Has(AutoDetectEndian) && !flags.Has(EnsureBigEndian) ==>
              LookupPass(s, refs, a, flags) == Step(Fail(Runtime(NoLittleEndianMessage)), s, refs)
    ensures !flags.Has(AutoDetectEndian) && flags.Has(EnsureBigEndian) && flags.Has(ProcessDataOut) ==>
              LookupPass(s, refs, a, flags) == Step(Fail(Runtime(NoProcessDataOutMessage)), s, refs)
  {
  }

  /** The lookup header's two pointers, `bufferLookups` and `meshIndices`,
      are fixed up against the record from the offsets its swapped words
      hold. */
  lemma LookupRefsMeaning(s: seq<byte>, refs: map<nat, Ref>, a: nat)
    requires a + LookupHeaderSize <= |s|
    ensures var t, r := LookupHead(s, a), LookupRefs(s, refs, a);
      && RefOf(r, a + BufferLookupsField) == Resolve(At(a), I(t, a + BufferLookupsField, 4))
      && RefOf(r, a + MeshIndicesField) == Resolve(At(a), I(t, a + MeshIndicesField, 4))
  {
    var t := LookupHead(s, a);
    LookupPointersFit(a, |s|);
    FixEachListed(refs, t, a, LookupPointers, At(a), 0);
    FixEachListed(refs, t, a, LookupPointers, At(a), 1);
  }

  /** When the lookup pass passes, the flags asked for big-endian data
      without auto-detection or ProcessDataOut, the record lies in the
      buffer, and its references are those of the record's fixups. */
  lemma LookupPassFixes(s: seq<byte>, refs: map<nat, Ref>, a: int, flags: ProcessFlags)
    requires LookupPass(s, refs, a, flags).outcome.Pass?
    ensures flags.Has(EnsureBigEndian) && !flags.Has(AutoDetectEndian) && !flags.Has(ProcessDataOut)
    ensures 0 <= a && a + LookupHeaderSize <= |s|
    ensures LookupPass(s, refs, a, flags).refs == LookupRefs(s, refs, a)
  {
  }

  /** With both arrays empty the lookup pass only swaps the record's own
      words. */
  lemma LookupPassEmpty(s: seq<byte>, refs: map<nat, Ref>, a: nat, flags: ProcessFlags)
    requires a + LookupHeaderSize <= |s| && flags.Has(EnsureBigEndian)
    requires !flags.Has(AutoDetectEndian) && !flags.Has(ProcessDataOut)
    requires U(LookupHead(s, a), a + BufferLookupsField + 4, 4) == 0
    requires U(LookupHead(s, a), a + MeshIndicesField + 4, 4) == 0
    ensures LookupPass(s, refs, a, flags) == Step(Pass, LookupHead(s, a), LookupRefs(s, refs, a))
  {
  }

  /** The header's references after the swap and its six fixups against
      the header. */
  function HeaderRefs(s: seq<byte>, refs: map<nat, Ref>, h: nat): map<nat, Ref>
    requires h + HeaderSize <= |s|
  {
    HeaderPointersFit(h, |s|);
    FixEach(refs, HeaderBytes(s, h), h, HeaderPointers, At(h))
  }

  /** The header's six pointers (buffers, externalTextures, materials,
      models, shaders, textureContainerIds) are fixed up against the header
      from the offsets its swapped words hold. */
  lemma HeaderRefsMeaning(s: seq<byte>, refs: map<nat, Ref>, h: nat)
    requires h + HeaderSize <= |s|
    ensures var t, r := HeaderBytes(s, h), HeaderRefs(s, refs, h);
      && RefOf(r, h + BuffersField) == Resolve(At(h), I(t, h + BuffersField, 4))
      && RefOf(r, h + ExternalTexturesField) == Resolve(At(h), I(t, h + ExternalTexturesField, 4))
      && RefOf(r, h + MaterialsField) == Resolve(At(h), I(t, h + MaterialsField, 4))
      && RefOf(r, h + ModelsField) == Resolve(At(h), I(t, h + ModelsField, 4))
      && RefOf(r, h + ShadersField) == Resolve(At(h), I(t, h + ShadersField, 4))
      && RefOf(r, h + TextureIdsField) == Resolve(At(h), I(t, h + TextureIdsField, 4))
  {
    var t := HeaderBytes(s, h);
    HeaderPointersFit(h, |s|);
    FixEachListed(refs, t, h, HeaderPointers, At(h), 0);
    FixEachListed(refs, t, h, HeaderPointers, At(h), 1);
    FixEachListed(refs, t, h, HeaderPointers, At(h), 2);
    FixEachListed(refs, t, h, HeaderPointers, At(h), 3);
    FixEachListed(refs, t, h, HeaderPointers, At(h), 4);
    FixEachListed(refs, t, h, HeaderPointers, At(h), 5);
  }

  /** The header pass gets past its guards and its bounds check. */
  predicate Started(s: seq<byte>, h: int, flags: ProcessFlags) {
    && flags.NoAutoDetect().Pass? && flags.NoLittleEndian().Pass? && flags.NoProcessDataOut().Pass?
    && 0 <= h && h + HeaderSize <= |s|
  }

  /** `ProcessClass(MSTM::V1::Header)` on the header at `h`, given the MXMD
      V1 passes of the model, the shaders and the materials: the header's
      own part (`HeaderStart`), then, when it passes, the three optional
      records and the element swaps. */
  function HeaderPass(s: seq<byte>, refs: map<nat, Ref>, h: int, flags: ProcessFlags,
                      models: Pass, shaders: Pass, materials: Pass): (w: Step)
    requires Sized(models) && Sized(shaders) && Sized(materials)
    ensures |w.bytes| == |s|
  {
    var w := HeaderStart(s, refs, h, flags);
    if w.outcome.Fail? then w else HeaderRest(w, h, flags.Rebased(h), models, shaders, materials)
  }

  /** The header pass up to and including the lookup pass: the guards, the
      header's swap, its fixups against itself, and the pass over the
      lookup header with the flags rebased on the header (the `buffers`
      pointer is followed whatever it holds). */
  function HeaderStart(s: seq<byte>, refs: map<nat, Ref>, h: int, flags: ProcessFlags): (w: Step)
    ensures |w.bytes| == |s|
    ensures w.outcome.Pass? ==> Started(s, h, flags)
  {
    if flags.NoAutoDetect().Fail? then Step(flags.NoAutoDetect(), s, refs)
    else if flags.NoLittleEndian().Fail? then Step(flags.NoLittleEndian(), s, refs)
    else if flags.NoProcessDataOut().Fail? then Step(flags.NoProcessDataOut(), s, refs)
    else if !Started(s, h, flags) then Step(Fail(OutOfBounds), s, refs)
    else
      var t := HeaderBytes(s, h);
      var refs1 := HeaderRefs(s, refs, h);
      match RefOf(refs1, h + BuffersField)
      case Null => Step(Fail(NullReference), t, refs1)
      case Wild => Step(Fail(WildReference), t, refs1)
      case At(i) => LookupPass(t, refs1, i, flags.Rebased(h))
  }

  /** The header pass after the lookup pass `w`: models, shaders and
      materials, each followed unless excluded or null and reset
      otherwise, then the element swaps. */
  function HeaderRest(w: Step, h: nat, f: ProcessFlags, models: Pass, shaders: Pass, materials: Pass): (r: Step)
    requires Sized(models) && Sized(shaders) && Sized(materials)
    requires h + HeaderSize <= |w.bytes|
    ensures |r.bytes| == |w.bytes|
  {
    var w3 := Included(w, h, f, models, shaders, materials);
    if w3.outcome.Fail? then w3 else ElementSwaps(w3, h)
  }

  /** The three optional records of the header at `h`, in the source's
      order: models, shaders, materials. */
  function Included(w: Step, h: nat, f: ProcessFlags, models: Pass, shaders: Pass, materials: Pass): (r: Step)
    requires Sized(models) && Sized(shaders) && Sized(materials)
    ensures |r.bytes| == |w.bytes|
  {
    var w1 := Visited(w, h + ModelsField, Excluded(f.userData, ExcludeModel), models, f);
    var w2 := Visited(w1, h + ShadersField, Excluded(f.userData, ExcludeShaders), shaders, f);
    Visited(w2, h + MaterialsField, Excluded(f.userData, ExcludeMaterials), materials, f)
  }

  /** The swaps of the elements of externalTextures (four 16-bit fields
      each) and textureContainerIds (16-bit). */
  function ElementSwaps(w: Step, h: nat): (r: Step)
    requires h + HeaderSize <= |w.bytes|
    ensures |r.bytes| == |w.bytes| && r.refs == w.refs
  {
    var w1 := Swept(w.bytes, w.refs, RefOf(w.refs, h + ExternalTexturesField),
                    4 * U(w.bytes, h + ExternalTexturesField + 4, 4), 2);
    if w1.outcome.Fail? then w1
    else Swept(w1.bytes, w.refs, RefOf(w.refs, h + TextureIdsField), U(w1.bytes, h + TextureIdsField + 4, 4), 2)
  }

  /** The header pass refuses AutoDetectEndian, then little-endian data,
      then ProcessDataOut, in that order and before it touches anything,
      and a header that does not fit fails with `OutOfBounds`. */
  lemma HeaderPassRejects(s: seq<byte>, refs: map<nat, Ref>, h: int, flags: ProcessFlags,
                          models: Pass, shaders: Pass, materials: Pass)
    requires Sized(models) && Sized(shaders) && Sized(materials)
    ensures flags.Has(AutoDetectEndian) ==>
              HeaderPass(s, refs, h, flags, models, shaders, materials) == Step(Fail(Runtime(NoAutoDetectMessage)), s, refs)
    ensures !flags.Has(AutoDetectEndian) && !flags.Has(EnsureBigEndian) ==>
              HeaderPass(s, refs, h, flags, models, shaders, materials) == Step(Fail(Runtime(NoLittleEndianMessage)), s, refs)
    ensures !flags.Has(AutoDetectEndian) && flags.Has(EnsureBigEndian) && flags.Has(ProcessDataOut) ==>
              HeaderPass(s, refs, h, flags, models, shaders, materials) == Step(Fail(Runtime(NoProcessDataOutMessage)), s, refs)
    ensures !flags.Has(AutoDetectEndian) && flags.Has(EnsureBigEndian) && !flags.Has(ProcessDataOut) &&
            !(0 <= h && h + HeaderSize <= |s|) ==>
              HeaderPass(s, refs, h, flags, models, shaders, materials) == Step(Fail(OutOfBounds), s, refs)
  {
  }

  /** The lookup header is processed before anything else the header
      points to, whatever the exclusions: a null `buffers` pointer fails
      once the header is swapped and fixed up, and when the lookup pass
      fails the header pass ends with that failure. */
  lemma HeaderPassBuffersFirst(s: seq<byte>, refs: map<nat, Ref>, h: nat, flags: ProcessFlags,
                               models: Pass, shaders: Pass, materials: Pass)
    requires Sized(models) && Sized(shaders) && Sized(materials)
    requires h + HeaderSize <= |s| && flags.Has(EnsureBigEndian)
    requires !flags.Has(AutoDetectEndian) && !flags.Has(ProcessDataOut)
    ensures var t, refs1 := HeaderBytes(s, h), HeaderRefs(s, refs, h);
      && (RefOf(refs1, h + BuffersField).Null? ==>
            HeaderPass(s, refs, h, flags, models, shaders, materials) == Step(Fail(NullReference), t, refs1))
      && (RefOf(refs1, h + BuffersField).At? &&
          LookupPass(t, refs1, RefOf(refs1, h + BuffersField).addr, flags.Rebased(h)).outcome.Fail? ==>
            HeaderPass(s, refs, h, flags, models, shaders, materials) ==
            LookupPass(t, refs1, RefOf(refs1, h + BuffersField).addr, flags.Rebased(h)))
  {
  }

  /** With the Model exclusion set the models pass is never run: the header
      pass is the same whatever it is. */
  lemma ModelsExcluded(s: seq<byte>, refs: map<nat, Ref>, h: int, flags: ProcessFlags,
                       models: Pass, other: Pass, shaders: Pass, materials: Pass)
    requires Sized(models) && Sized(other) && Sized(shaders) && Sized(materials)
    requires Excluded(flags.userData, ExcludeModel)
    ensures HeaderPass(s, refs, h, flags, models, shaders, materials) ==
            HeaderPass(s, refs, h, flags, other, shaders, materials)
  {
    var w, f := HeaderStart(s, refs, h, flags), flags.Rebased(h);
    if w.outcome.Pass? {
      VisitedMeaning(w, h + ModelsField, true, models, other, f);
    }
  }

  /** With the Shaders exclusion set the shaders pass is never run. */
  lemma ShadersExcluded(s: seq<byte>, refs: map<nat, Ref>, h: int, flags: ProcessFlags,
                        models: Pass, shaders: Pass, other: Pass, materials: Pass)
    requires Sized(models) && Sized(shaders) && Sized(other) && Sized(materials)
    requires Excluded(flags.userData, ExcludeShaders)
    ensures HeaderPass(s, refs, h, flags, models, shaders, materials) ==
            HeaderPass(s, refs, h, flags, models, other, materials)
  {
    var w, f := HeaderStart(s, refs, h, flags), flags.Rebased(h);
    if w.outcome.Pass? {
      var w1 := Visited(w, h + ModelsField, Excluded(f.userData, ExcludeModel), models, f);
      if w1.outcome.Pass? {
        VisitedMeaning(w1, h + ShadersField, true, shaders, other, f);
      }
    }
  }

  /** With the Materials exclusion set the materials pass is never run. */
  lemma MaterialsExcluded(s: seq<byte>, refs: map<nat, Ref>, h: int, flags: ProcessFlags,
                          models: Pass, shaders: Pass, materials: Pass, other: Pass)
    requires Sized(models) && Sized(shaders) && Sized(materials) && Sized(other)
    requires Excluded(flags.userData, ExcludeMaterials)
    ensures HeaderPass(s, refs, h, flags, models, shaders, materials) ==
            HeaderPass(s, refs, h, flags, models, shaders, other)
  {
    var w, f := HeaderStart(s, refs, h, flags), flags.Rebased(h);
    if w.outcome.Pass? {
      var w1 := Visited(w, h + ModelsField, Excluded(f.userData, ExcludeModel), models, f);
      var w2 := Visited(w1, h + ShadersField, Excluded(f.userData, ExcludeShaders), shaders, f);
      if w2.outcome.Pass? {
        VisitedMeaning(w2, h + MaterialsField, true, materials, other, f);
      }
    }
  }

  /** `Load`'s flags (big-endian data, the exclusions as user data) get
      past the guards of the header and of the lookup header, so processing
      the header at the start of the file starts exactly when the file
      holds a whole header, and fails with `OutOfBounds`, changing nothing,
      when it does not. */
  lemma LoadFlagsAccepted(s: seq<byte>, excludeLoads: bv32, h: int)
    ensures Started(s, 0, Msim.LoadFlags(excludeLoads)) <==> HeaderSize <= |s|
    ensures HeaderSize > |s| ==>
              HeaderStart(s, map[], 0, Msim.LoadFlags(excludeLoads)) == Step(Fail(OutOfBounds), s, map[])
    ensures var f := Msim.LoadFlags(excludeLoads).Rebased(h);
      f.NoAutoDetect().Pass? && f.NoLittleEndian().Pass? && f.NoProcessDataOut().Pass?
  {
  }

  /** `ProcessClass(MSTM::V1::TerrainBufferLookupHeader)`, on the buffer. */
  method ProcessLookups(buf: Buffer, a: int, flags: ProcessFlags) returns (r: Outcome)
    modifies buf, buf.bytes
    ensures Step(r, buf.bytes[..], buf.refs) == LookupPass(old(buf.bytes[..]), old(buf.refs), a, flags)
  {
    r := flags.NoAutoDetect();
    if r.Fail? {
      return;
    }
    :- flags.NoLittleEndian();
    :- flags.NoProcessDataOut();
    if !buf.Fits(a, LookupHeaderSize) {
      return Fail(OutOfBounds);
    }
    SwappedIsRun(buf.bytes[..], a, Layout(LookupHeaderWords, 0));
    var _ := buf.SwapFields(a, LookupHeaderWords, 4);
    LookupPointersFit(a, buf.bytes.Length);
    buf.FixupList(a, LookupPointers, At(a));
    r := SweepLookups(buf, a);
  }

  /** The element swaps of `LookupArrays`, on the buffer. */
  method SweepLookups(buf: Buffer, a: nat) returns (r: Outcome)
    requires a + LookupHeaderSize <= buf.bytes.Length
    modifies buf.bytes
    ensures Step(r, buf.bytes[..], buf.refs) == LookupArrays(Step(Pass, old(buf.bytes[..]), buf.refs), a)
  {
    r := Sweep(buf, buf.RefAt(a + BufferLookupsField), LookupWords * U(buf.bytes[..], a + BufferLookupsField + 4, 4), 4);
    if r.Fail? {
      return;
    }
    r := Sweep(buf, buf.RefAt(a + MeshIndicesField), U(buf.bytes[..], a + MeshIndicesField + 4, 4), 2);
  }

  /** `ProcessClass(MSTM::V1::Header)`, on the buffer, given the passes of
      the model, the shaders and the materials. */
  method ProcessHeader(buf: Buffer, h: int, flags: ProcessFlags, models: Pass, shaders: Pass, materials: Pass)
    returns (r: Outcome)
    requires Sized(models) && Sized(shaders) && Sized(materials)
    modifies buf, buf.bytes
    ensures Step(r, buf.bytes[..], buf.refs) ==
            HeaderPass(old(buf.bytes[..]), old(buf.refs), h, flags, models, shaders, materials)
  {
    r := flags.NoAutoDetect();
    if r.Fail? {
      return;
    }
    :- flags.NoLittleEndian();
    :- flags.NoProcessDataOut();
    if !buf.Fits(h, HeaderSize) {
      return Fail(OutOfBounds);
    }
    ghost var s0, r0 := buf.bytes[..], buf.refs;
    Msim.SwapExchanged(buf, h, HeaderWords);
    HeaderPointersFit(h, buf.bytes.Length);
    buf.FixupList(h, HeaderPointers, At(h));
    assert buf.refs == HeaderRefs(s0, r0, h);
    var f := flags.Rebased(h);
    match buf.RefAt(h + BuffersField)
    case Null =>
      return Fail(NullReference);
    case Wild =>
      return Fail(WildReference);
    case At(i) =>
      r := ProcessLookups(buf, i, f);
      if r.Fail? {
        return;
      }
      r := ProcessIncluded(buf, h, f, models, shaders, materials);
  }

  /** The header pass after the lookup pass: `Included`, then the element
      swaps. */
  method ProcessIncluded(buf: Buffer, h: nat, f: ProcessFlags, models: Pass, shaders: Pass, materials: Pass)
    returns (r: Outcome)
    requires Sized(models) && Sized(shaders) && Sized(materials)
    requires h + HeaderSize <= buf.bytes.Length
    modifies buf, buf.bytes
    ensures Step(r, buf.bytes[..], buf.refs) ==
            HeaderRest(Step(Pass, old(buf.bytes[..]), old(buf.refs)), h, f, models, shaders, materials)
  {
    r := Visit(buf, h + ModelsField, Excluded(f.userData, ExcludeModel), models, f);
    if r.Fail? {
      return;
    }
    r := Visit(buf, h + ShadersField, Excluded(f.userData, ExcludeShaders), shaders, f);
    if r.Fail? {
      return;
    }
    r := Visit(buf, h + MaterialsField, Excluded(f.userData, ExcludeMaterials), materials, f);
    if r.Fail? {
      return;
    }
    r := SweepElements(buf, h);
  }

  /** The element swaps of `ElementSwaps`, on the buffer. */
  method SweepElements(buf: Buffer, h: nat) returns (r: Outcome)
    requires h + HeaderSize <= buf.bytes.Length
    modifies buf.bytes
    ensures Step(r, buf.bytes[..], buf.refs) == ElementSwaps(Step(Pass, old(buf.bytes[..]), buf.refs), h)
  {
    r := Sweep(buf, buf.RefAt(h + ExternalTexturesField), 4 * U(buf.bytes[..], h + ExternalTexturesField + 4, 4), 2);
    if r.Fail? {
      return;
    }
    r := Sweep(buf, buf.RefAt(h + TextureIdsField), U(buf.bytes[..], h + TextureIdsField + 4, 4), 2);
  }

  // The load: one model per mesh.

  /** A `TerrainBufferLookup`'s `bufferIndex[2]`: the stream of each of
      its two LOD levels. */
  datatype Lookup = Lookup(bufferIndex0: nat, bufferIndex1: nat)

  /** A loaded model (`VarModel` holding a `V1Model`): its primitives and
      the stream its buffers are in. */
  datatype Model = Model(primitives: seq<MsimLoad.Primitive>, streamIndex: nat)

  /** What `Load` reads from the processed header: the primitive records
      of each mesh of the MXMD model (none when `models` is null), and the
      lookup header's `meshIndices` and `bufferLookups`. */
  datatype Source = Source(meshes: Option<seq<seq<nat>>>, meshIndices: seq<nat>, lookups: seq<Lookup>)

  /** A lookup value `big` split by `numBuffers` into the lookup it names
      and the LOD level: `big % numBuffers` and `big / numBuffers`. The
      division of `size_t`s by zero is undefined. */
  function Split(big: nat, numBuffers: nat): (r: Result<(nat, nat)>)
    ensures r.Ok? <==> numBuffers > 0
    ensures r.Err? ==> r.error == DivisionByZero
    ensures r.Ok? ==> r.value.0 < numBuffers && big == r.value.1 * numBuffers + r.value.0
  {
    if numBuffers == 0 then Err(DivisionByZero) else Ok((big % numBuffers, big / numBuffers))
  }

  /** The lookup value of lookup `lookupIndex` at LOD level `lod`, the
      inverse of `Split`. */
  function Joined(lookupIndex: nat, lod: nat, numBuffers: nat): nat {
    lod * numBuffers + lookupIndex
  }

  /** `Split` and `Joined` are inverse: every lookup value is the value of
      the lookup and level it splits into, and a lookup below `numBuffers`
      and a level split back out of their value. */
  lemma SplitJoined(big: nat, lookupIndex: nat, lod: nat, numBuffers: nat)
    requires numBuffers > 0
    ensures Joined(Split(big, numBuffers).value.0, Split(big, numBuffers).value.1, numBuffers) == big
    ensures lookupIndex < numBuffers ==> Split(Joined(lookupIndex, lod, numBuffers), numBuffers) == Ok((lookupIndex, lod))
  {
    if lookupIndex < numBuffers {
      DivUnique(Joined(lookupIndex, lod, numBuffers), numBuffers, lod, lookupIndex);
    }
  }

  /** `bufferIndex[lod]` of a lookup; an index past the two-entry array is
      undefined. */
  function StreamAt(l: Lookup, lod: nat): (r: Result<nat>)
    ensures r.Ok? <==> lod < 2
    ensures r.Err? ==> r.error == OutOfBounds
    ensures r.Ok? ==> r.value == if lod == 0 then l.bufferIndex0 else l.bufferIndex1
  {
    if lod == 0 then Ok(l.bufferIndex0) else if lod == 1 then Ok(l.bufferIndex1) else Err(OutOfBounds)
  }

  /** The primitives of a mesh, copied with LOD level `lod`. */
  function Primitives(records: seq<nat>, lod: nat): (r: seq<MsimLoad.Primitive>)
  {
    seq(|records|, i requires 0 <= i < |records| => MsimLoad.Primitive(records[i], lod))
  }

  /** The model of mesh `i` with primitive records `records`: its entry in
      `meshIndices`, read without a bounds check, split by the number of
      lookups into a lookup and a LOD level, the lookup's stream at that
      level, and the primitives at that level. */
  function MeshModel(src: Source, records: seq<nat>, i: nat): (r: Result<Model>)
  {
    if i >= |src.meshIndices| then Err(OutOfBounds)
    else
      var (lookupIndex, lod) :- Split(src.meshIndices[i], |src.lookups|);
      var stream :- StreamAt(src.lookups[lookupIndex], lod);
      Ok(Model(Primitives(records, lod), stream))
  }

  /** The models `ms` followed by the models of the meshes from `i` on. */
  function AddedMeshes(ms: seq<Model>, src: Source, meshes: seq<seq<nat>>, i: nat): (r: Result<seq<Model>>)
    decreases |meshes| - i
  {
    if i >= |meshes| then Ok(ms)
    else
      var m :- MeshModel(src, meshes[i], i);
      AddedMeshes(ms + [m], src, meshes, i + 1)
  }

  /** `Load` after the header pass, on the models loaded so far: the mesh
      models appended when there is an MXMD model. */
  function Loaded(models: seq<Model>, src: Source): (r: Result<seq<Model>>)
  {
    if src.meshes.None? then Ok(models) else AddedMeshes(models, src, src.meshes.value, 0)
  }

  /** The meshes from `i` on are added exactly when each has a model; the
      models already there stay and the model of mesh `t` is
      `MeshModel`'s; a failure is the first failing mesh's. */
  lemma {:induction false} AddedMeshesMeaning(ms: seq<Model>, src: Source, meshes: seq<seq<nat>>, i: nat)
    requires i <= |meshes|
    ensures AddedMeshes(ms, src, meshes, i).Ok? <==> forall t :: i <= t < |meshes| ==> MeshModel(src, meshes[t], t).Ok?
    ensures AddedMeshes(ms, src, meshes, i).Err? ==>
              exists t :: i <= t < |meshes| && MeshModel(src, meshes[t], t).Err? &&
                          AddedMeshes(ms, src, meshes, i).error == MeshModel(src, meshes[t], t).error
    ensures AddedMeshes(ms, src, meshes, i).Ok? ==>
              var r := AddedMeshes(ms, src, meshes, i).value;
              && |r| == |ms| + |meshes| - i && r[..|ms|] == ms
              && forall t :: i <= t < |meshes| ==> r[|ms| + t - i] == MeshModel(src, meshes[t], t).value
    decreases |meshes| - i
  {
    if i < |meshes| {
      var m := MeshModel(src, meshes[i], i);
      if m.Ok? {
        AddedMeshesMeaning(ms + [m.value], src, meshes, i + 1);
        if AddedMeshes(ms, src, meshes, i).Ok? {
          var r := AddedMeshes(ms, src, meshes, i).value;
          assert r[..|ms| + 1] == ms + [m.value];
          assert r[..|ms|] == (ms + [m.value])[..|ms|];
        }
      }
    }
  }

  /** On a fresh load with an MXMD model there is one model per mesh; the
      model of mesh `i` splits its lookup value `big` by the number of
      lookups into lookup `big % n` and level `big / n` (below 2, which
      makes `big` below twice the number of lookups), takes that lookup's
      stream at that level (what `ModelIndex(i)` returns) and holds the
      mesh's primitives, each at that level. */
  lemma LoadedMeaning(src: Source, i: nat)
    requires Loaded([], src).Ok? && src.meshes.Some? && i < |src.meshes.value|
    ensures |Loaded([], src).value| == |src.meshes.value| <= |src.meshIndices|
    ensures var n, big, m := |src.lookups|, src.meshIndices[i], Loaded([], src).value[i];
      && 0 < n && big < 2 * n
      && m.streamIndex == (if big / n == 0 then src.lookups[big % n].bufferIndex0 else src.lookups[big % n].bufferIndex1)
      && |m.primitives| == |src.meshes.value[i]|
      && forall p :: 0 <= p < |m.primitives| ==>
           m.primitives[p] == MsimLoad.Primitive(src.meshes.value[i][p], big / n)
  {
    var meshes := src.meshes.value;
    AddedMeshesMeaning([], src, meshes, 0);
    assert MeshModel(src, meshes[|meshes| - 1], |meshes| - 1).Ok?;
    assert MeshModel(src, meshes[i], i).Ok?;
    var n, big := |src.lookups|, src.meshIndices[i];
    var q := Split(big, n).value;
    assert q.1 < 2;
  }

  /** The models `Load` leaves are `x`'s, or the step failed with `x`'s
      error. */
  predicate Agrees(r: Outcome, ms: seq<Model>, x: Result<seq<Model>>) {
    if x.Ok? then r.Pass? && ms == x.value else r == Fail(x.error)
  }

  /** `MSTM::Wrap`'s implementation: the models loaded so far. */
  class Loader {
    var models: seq<Model>

    /** A loader with no models. */
    constructor ()
      ensures models == []
    {
      models := [];
    }

    /** `ModelIndex(id)`: the stream index of model `id`, looked up with
        `at()`. */
    function ModelIndex(id: nat): (r: Result<nat>)
      reads this
      ensures r.Ok? <==> id < |models|
      ensures r.Ok? ==> r.value == models[id].streamIndex
      ensures r.Err? ==> r.error == OutOfRange
    {
      if id < |models| then Ok(models[id].streamIndex) else Err(OutOfRange)
    }

    /** `Load` after the header pass. A failure leaves models that are not
        described here. */
    method Load(src: Source) returns (r: Outcome)
      modifies this
      ensures Agrees(r, models, Loaded(old(models), src))
    {
      if src.meshes.None? {
        return Pass;
      }
      var meshes := src.meshes.value;
      var index := 0;
      while index < |meshes|
        invariant 0 <= index <= |meshes|
        invariant AddedMeshes(models, src, meshes, index) == AddedMeshes(old(models), src, meshes, 0)
      {
        if index >= |src.meshIndices| {
          return Fail(OutOfBounds);
        }
        var lookupIndexBig := src.meshIndices[index];
        var numBuffers := |src.lookups|;
        if numBuffers == 0 {
          return Fail(DivisionByZero);
        }
        var lookupIndex := lookupIndexBig % numBuffers;
        var lod := lookupIndexBig / numBuffers;
        var bufferIndex;
        if lod == 0 {
          bufferIndex := src.lookups[lookupIndex].bufferIndex0;
        } else if lod == 1 {
          bufferIndex := src.lookups[lookupIndex].bufferIndex1;
        } else {
          return Fail(OutOfBounds);
        }
        var records := meshes[index];
        var primitives: seq<MsimLoad.Primitive> := [];
        var p := 0;
        while p < |records|
          invariant 0 <= p <= |records| && |primitives| == p
          invariant forall t :: 0 <= t < p ==> primitives[t] == MsimLoad.Primitive(records[t], lod)
        {
          primitives := primitives + [MsimLoad.Primitive(records[p], lod)];
          p := p + 1;
        }
        assert primitives == Primitives(records, lod);
        models := models + [Model(primitives, bufferIndex)];
        index := index + 1;
      }
      return Pass;
    }
  }
}
