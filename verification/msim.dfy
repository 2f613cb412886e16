/** MSIM instance containers (`source/msim.cpp`): the passes over the
    big-endian V1 header and its instances record, and `Impl::LoadV1`,
    which turns the decoded arrays into one model per mesh, gives each
    model the instance matrices that use it and each primitive its LOD.

    Record layouts (`include/xenolib/internal/msim.hpp`), as offsets in
    bytes; an `Array` is its items pointer followed by its count, an
    `ArrayInv` its count followed by its items pointer:
    - Header (104 bytes): unk00 (16 bits) 0, unk01 (16 bits) 2, models 12,
      materials 16, instances 24, externalTextures 32 (Array of four 16-bit
      fields), bufferIndices 40 (Array of 32-bit words), shaders 68,
      textureContainerIds 72 (Array of 16-bit fields).
    - InstancesHeader (116 bytes): clusters 4 (ArrayInv of two words),
      modelLODs 12 (ArrayInv of nine words), matrices 20 (ArrayInv of 27
      words, `lodIndex` at 92).

    The public MSIM header, which declares `Wrap::ExcludeLoad`, is not part
    of this model; its enumerators are taken in the order MSTM declares
    them: Model, Materials, Shaders. The model, shader and material
    records are MXMD V1 records, whose passes the header pass is given. */
module Msim {
  import opened Outcomes
  import opened Bytes
  import opened Memory
  import opened Flags
  import opened Records
  import opened Passes
  import opened Bits

  const HeaderSize: nat := 104
  const HeaderWords: nat := 26
  const Unk01Field: nat := 2
  const ModelsField: nat := 12
  const MaterialsField: nat := 16
  const InstancesField: nat := 24
  const ExternalTexturesField: nat := 32
  const BufferIndicesField: nat := 40
  const ShadersField: nat := 68
  const TextureIdsField: nat := 72

  /** Bits of the user data: the `ExcludeLoad` enumerators. */
  const ExcludeModel: nat := 0
  const ExcludeMaterials: nat := 1
  const ExcludeShaders: nat := 2

  /** The header's pointers in the order `FixupPointers` takes them:
      bufferIndices, externalTextures, instances, materials, models,
      shaders, textureContainerIds. */
  const HeaderPointers: seq<Field> :=
    [Field(40, 4), Field(32, 4), Field(24, 4), Field(16, 4), Field(12, 4), Field(68, 4), Field(72, 4)]

  const InstancesSize: nat := 116
  const ClustersField: nat := 4
  const ModelLodsField: nat := 12
  const MatricesField: nat := 20
  /** The words of an `InstanceLOD`, an `InstancedModel` and an
      `InstanceMatrix`. */
  const ClusterWords: nat := 2
  const InstancedModelWords: nat := 9
  const MatrixWords: nat := 27

  /** The instances record's pointers in the order they are fixed up:
      clusters, modelLODs, matrices. */
  const InstancesPointers: seq<Field> := [Field(8, 4), Field(16, 4), Field(24, 4)]

  /** The header's seven pointers lie inside it and are distinct. */
  lemma HeaderPointersFit(h: nat, n: nat)
    requires h + HeaderSize <= n
    ensures FieldsFit(h, HeaderPointers, n) && DistinctOffsets(HeaderPointers)
  {
  }

  /** The instances record's three pointers lie inside it and are distinct. */
  lemma InstancesPointersFit(a: nat, n: nat)
    requires a + InstancesSize <= n
    ensures FieldsFit(a, InstancesPointers, n) && DistinctOffsets(InstancesPointers)
  {
  }

  /** `std::swap` of the two 16-bit fields at `p` and `p + 2`. */
  function Exchanged(t: seq<byte>, p: nat): (r: seq<byte>)
    requires p + 4 <= |t|
    ensures |r| == |t|
  {
    Put(Put(t, p, 2, U(t, p + 2, 2)), p + 2, 2, U(t, p, 2))
  }

  /** The exchange moves each half to the other's place and touches
      nothing else. */
  lemma ExchangedMeaning(t: seq<byte>, p: nat)
    requires p + 4 <= |t|
    ensures Exchanged(t, p)[p..p + 2] == t[p + 2..p + 4] && Exchanged(t, p)[p + 2..p + 4] == t[p..p + 2]
    ensures Exchanged(t, p)[..p] == t[..p] && Exchanged(t, p)[p + 4..] == t[p + 4..]
  {
    var lo, hi := U(t, p, 2), U(t, p + 2, 2);
    var t1 := Put(t, p, 2, hi);
    var r := Put(t1, p + 2, 2, lo);
    assert t1 == t[..p] + WriteLE(hi, 2) + t[p + 2..];
    assert r == t1[..p + 2] + WriteLE(lo, 2) + t1[p + 4..];
    WriteReadLE(t[p + 2..p + 4]);
    WriteReadLE(t[p..p + 2]);
  }

  /** The bytes of a record of `len` bytes at `h` after an `FByteswapper`
      that reverses every 32-bit word and then exchanges the two 16-bit
      fields at the start. */
  function ExchangedSpan(s: seq<byte>, h: nat, len: nat): (r: seq<byte>)
    requires 4 <= len && h + len <= |s|
    ensures |r| == |s|
  {
    Exchanged(SwapSpan(s, h, len), h)
  }

  /** The exchange after the word swap leaves each 16-bit field where it
      was, byte-reversed, so both read as the big-endian values they hold;
      every later word reads big-endian too, and nothing outside the record
      changes. */
  lemma ExchangedSpanMeaning(s: seq<byte>, h: nat, len: nat)
    requires 4 <= len && h + len <= |s|
    ensures U(ExchangedSpan(s, h, len), h, 2) == ReadBE(s[h..h + 2])
    ensures U(ExchangedSpan(s, h, len), h + 2, 2) == ReadBE(s[h + 2..h + 4])
    ensures forall k :: 1 <= k && 4 * k + 4 <= len ==> U(ExchangedSpan(s, h, len), h + 4 * k, 4) == ReadBE(s[h + 4 * k..h + 4 * k + 4])
    ensures ExchangedSpan(s, h, len)[..h] == s[..h] && ExchangedSpan(s, h, len)[h + len..] == s[h + len..]
  {
    var t := SwapSpan(s, h, len);
    var r := Exchanged(t, h);
    ExchangedMeaning(t, h);
    HeadWordReversed(s, h, len);
    Swap16(s[h..h + 4], t[h..h + 4], r[h..h + 4]);
    assert s[h..h + 4][..2] == s[h..h + 2] && s[h..h + 4][2..] == s[h + 2..h + 4];
    assert r[h..h + 4][..2] == r[h..h + 2] && r[h..h + 4][2..] == r[h + 2..h + 4];
    LaterWords(s, h, len);
    assert r[h + len..] == r[h + 4..][len - 4..] == t[h + 4..][len - 4..] == t[h + len..];
  }

  /** The header's bytes after its `FByteswapper`: every 32-bit word
      reversed, then `unk00` and `unk01` exchanged. */
  function HeaderBytes(s: seq<byte>, h: nat): (r: seq<byte>)
    requires h + HeaderSize <= |s|
    ensures |r| == |s|
  {
    ExchangedSpan(s, h, HeaderSize)
  }

  /** After the header's swap `unk00` and `unk01` read as the big-endian
      values they hold, and so does every later word of the header. */
  lemma HeaderBytesMeaning(s: seq<byte>, h: nat)
    requires h + HeaderSize <= |s|
    ensures U(HeaderBytes(s, h), h, 2) == ReadBE(s[h..h + 2])
    ensures U(HeaderBytes(s, h), h + Unk01Field, 2) == ReadBE(s[h + 2..h + 4])
    ensures forall k :: 1 <= k < HeaderWords ==> U(HeaderBytes(s, h), h + 4 * k, 4) == ReadBE(s[h + 4 * k..h + 4 * k + 4])
    ensures HeaderBytes(s, h)[..h] == s[..h] && HeaderBytes(s, h)[h + HeaderSize..] == s[h + HeaderSize..]
  {
    ExchangedSpanMeaning(s, h, HeaderSize);
  }

  /** The word swap reverses the record's first word. */
  lemma HeadWordReversed(s: seq<byte>, h: nat, len: nat)
    requires 4 <= len && h + len <= |s|
    ensures SwapSpan(s, h, len)[h..h + 4] == Reverse(s[h..h + 4])
    ensures SwapSpan(s, h, len)[..h] == s[..h]
    ensures SwapSpan(s, h, len)[h + len..] == s[h + len..]
  {
    var t := SwapSpan(s, h, len);
    SwapWordsWord(s[h..h + len], 0);
    SliceOfSlice(t, h, h + len, 0, 4);
    SliceOfSlice(s, h, h + len, 0, 4);
  }

  /** The record's words after the first read big-endian after the swap
      and the exchange. */
  lemma LaterWords(s: seq<byte>, h: nat, len: nat)
    requires 4 <= len && h + len <= |s|
    ensures forall k :: 1 <= k && 4 * k + 4 <= len ==> U(ExchangedSpan(s, h, len), h + 4 * k, 4) == ReadBE(s[h + 4 * k..h + 4 * k + 4])
  {
    var t := SwapSpan(s, h, len);
    var r := Exchanged(t, h);
    ExchangedMeaning(t, h);
    forall k | 1 <= k && 4 * k + 4 <= len
      ensures U(r, h + 4 * k, 4) == ReadBE(s[h + 4 * k..h + 4 * k + 4])
    {
      SwapSpanRead(s, h, len, k);
      assert r[h + 4 * k..h + 4 * k + 4] == r[h + 4..][4 * k - 4..4 * k];
      assert t[h + 4 * k..h + 4 * k + 4] == t[h + 4..][4 * k - 4..4 * k];
    }
  }

  /** A word reversed and then its halves exchanged has each half
      reversed in place. */
  lemma Swap16(x: seq<byte>, t: seq<byte>, r: seq<byte>)
    requires |x| == 4 && t == Reverse(x) && |r| == 4
    requires r[..2] == t[2..] && r[2..] == t[..2]
    ensures ReadLE(r[..2]) == ReadBE(x[..2]) && ReadLE(r[2..]) == ReadBE(x[2..])
  {
    ReverseAt(x, 0);
    ReverseAt(x, 1);
    ReverseAt(x, 2);
    ReverseAt(x, 3);
    assert r[..2] == Reverse(x[..2]);
    assert r[2..] == Reverse(x[2..]);
  }
  /** The instances record's bytes after its word swap. */
  function InstancesHead(s: seq<byte>, a: nat): (r: seq<byte>)
    requires a + InstancesSize <= |s|
    ensures |r| == |s|
  {
    SwapSpan(s, a, InstancesSize)
  }

  /** The references after the instances record's three pointers were
      fixed up against the record. */
  function InstancesRefs(s: seq<byte>, refs: map<nat, Ref>, a: nat): map<nat, Ref>
    requires a + InstancesSize <= |s|
  {
    InstancesPointersFit(a, |s|);
    FixEach(refs, InstancesHead(s, a), a, InstancesPointers, At(a))
  }

  /** `ProcessClass(MSIM::V1::InstancesHeader)` on the record at `a`: the
      guards in the source's order, the word swap, the fixups against the
      record, then the swaps of every cluster, every instanced model and
      every matrix, each array's count read as the walk reaches it. */
  function InstancesPass(s: seq<byte>, refs: map<nat, Ref>, a: int, flags: ProcessFlags): (w: Step)
    ensures |w.bytes| == |s|
  {
    if flags.NoAutoDetect().Fail? then Step(flags.NoAutoDetect(), s, refs)
    else if flags.NoLittleEndian().Fail? then Step(flags.NoLittleEndian(), s, refs)
    else if flags.NoProcessDataOut().Fail? then Step(flags.NoProcessDataOut(), s, refs)
    else if !(0 <= a && a + InstancesSize <= |s|) then Step(Fail(OutOfBounds), s, refs)
    else InstanceArrays(Step(Pass, InstancesHead(s, a), InstancesRefs(s, refs, a)), a)
  }

  /** The element swaps of the three arrays of the instances record at
      `a`, after the step `w`. */
  function InstanceArrays(w: Step, a: nat): (r: Step)
    requires a + InstancesSize <= |w.bytes|
    ensures |r.bytes| == |w.bytes| && r.refs == w.refs
  {
    var w1 := Swept(w.bytes, w.refs, RefOf(w.refs, a + 8), ClusterWords * U(w.bytes, a + ClustersField, 4), 4);
    if w1.outcome.Fail? then w1
    else
      var w2 := Swept(w1.bytes, w.refs, RefOf(w.refs, a + 16), InstancedModelWords * U(w1.bytes, a + ModelLodsField, 4), 4);
      if w2.outcome.Fail? then w2
      else Swept(w2.bytes, w.refs, RefOf(w.refs, a + 24), MatrixWords * U(w2.bytes, a + MatricesField, 4), 4)
  }

  /** The instances pass refuses AutoDetectEndian, then little-endian
      data, then ProcessDataOut, in that order and before it touches
      anything. */
  lemma InstancesPassRejects(s: seq<byte>, refs: map<nat, Ref>, a: int, flags: ProcessFlags)
    ensures flags.Has(AutoDetectEndian) ==>
              InstancesPass(s, refs, a, flags) == Step(Fail(Runtime(NoAutoDetectMessage)), s, refs)
    ensures !flags.Has(AutoDetectEndian) && !flags.Has(EnsureBigEndian) ==>
              InstancesPass(s, refs, a, flags) == Step(Fail(Runtime(NoLittleEndianMessage)), s, refs)
    ensures !flags.Has(AutoDetectEndian) && flags.Has(EnsureBigEndian) && flags.Has(ProcessDataOut) ==>
              InstancesPass(s, refs, a, flags) == Step(Fail(Runtime(NoProcessDataOutMessage)), s, refs)
  {
  }

  /** When the instances pass passes, the flags asked for big-endian data
      without auto-detection or ProcessDataOut, the record lies in the
      buffer and each of its three pointers is fixed up against it, from
      the offset its swapped word holds. */
  lemma InstancesPassFixes(s: seq<byte>, refs: map<nat, Ref>, a: int, flags: ProcessFlags, j: nat)
    requires InstancesPass(s, refs, a, flags).outcome.Pass? && j < |InstancesPointers|
    ensures flags.Has(EnsureBigEndian) && !flags.Has(AutoDetectEndian) && !flags.Has(ProcessDataOut)
    ensures 0 <= a && a + InstancesSize <= |s|
    ensures RefOf(InstancesPass(s, refs, a, flags).refs, a + InstancesPointers[j].offset) ==
            Resolve(At(a), I(InstancesHead(s, a), a + InstancesPointers[j].offset, 4))
  {
    InstancesPointersFit(a, |s|);
    FixEachListed(refs, InstancesHead(s, a), a, InstancesPointers, At(a), j);
  }

  /** With all three arrays empty the instances pass only swaps the
      record's own words. */
  lemma InstancesPassEmpty(s: seq<byte>, refs: map<nat, Ref>, a: nat, flags: ProcessFlags)
    requires a + InstancesSize <= |s| && flags.Has(EnsureBigEndian)
    requires !flags.Has(AutoDetectEndian) && !flags.Has(ProcessDataOut)
    requires U(InstancesHead(s, a), a + ClustersField, 4) == 0 && U(InstancesHead(s, a), a + ModelLodsField, 4) == 0
    requires U(InstancesHead(s, a), a + MatricesField, 4) == 0
    ensures InstancesPass(s, refs, a, flags) == Step(Pass, InstancesHead(s, a), InstancesRefs(s, refs, a))
  {
  }

  /** The header's references after the word swap and its seven fixups
      against the header. */
  function HeaderRefs(s: seq<byte>, refs: map<nat, Ref>, h: nat): map<nat, Ref>
    requires h + HeaderSize <= |s|
  {
    HeaderPointersFit(h, |s|);
    FixEach(refs, HeaderBytes(s, h), h, HeaderPointers, At(h))
  }

  /** The header's seven pointers (bufferIndices, externalTextures,
      instances, materials, models, shaders, textureContainerIds) are fixed
      up against the header from the offsets its swapped words hold. */
  lemma HeaderRefsMeaning(s: seq<byte>, refs: map<nat, Ref>, h: nat)
    requires h + HeaderSize <= |s|
    ensures var t, r := HeaderBytes(s, h), HeaderRefs(s, refs, h);
      && RefOf(r, h + BufferIndicesField) == Resolve(At(h), I(t, h + BufferIndicesField, 4))
      && RefOf(r, h + ExternalTexturesField) == Resolve(At(h), I(t, h + ExternalTexturesField, 4))
      && RefOf(r, h + InstancesField) == Resolve(At(h), I(t, h + InstancesField, 4))
      && RefOf(r, h + MaterialsField) == Resolve(At(h), I(t, h + MaterialsField, 4))
      && RefOf(r, h + ModelsField) == Resolve(At(h), I(t, h + ModelsField, 4))
      && RefOf(r, h + ShadersField) == Resolve(At(h), I(t, h + ShadersField, 4))
      && RefOf(r, h + TextureIdsField) == Resolve(At(h), I(t, h + TextureIdsField, 4))
  {
    var t := HeaderBytes(s, h);
    HeaderPointersFit(h, |s|);
    FixEachListed(refs, t, h, HeaderPointers, At(h), 0);
    FixEachListed(refs, t, h, HeaderPointers, At(h), 1);
    FixEachListed(refs, t, h, HeaderPointers, At(h), 2);
    FixEachListed(refs, t, h, HeaderPointers, At(h), 3);
    FixEachListed(refs, t, h, HeaderPointers, At(h), 4);
    FixEachListed(refs, t, h, HeaderPointers, At(h), 5);
    FixEachListed(refs, t, h, HeaderPointers, At(h), 6);
  }

  /** The header pass gets past its guards and its bounds check. */
  predicate Started(s: seq<byte>, h: int, flags: ProcessFlags) {
    && flags.NoAutoDetect().Pass? && flags.NoLittleEndian().Pass? && flags.NoProcessDataOut().Pass?
    && 0 <= h && h + HeaderSize <= |s|
  }

  /** `ProcessClass(MSIM::V1::Header)` on the header at `h`, given the MXMD
      V1 passes of the model, the shaders and the materials: the header's
      own part (`HeaderStart`), then, when it passes, the three optional
      records and the element swaps. */
  function HeaderPass(s: seq<byte>, refs: map<nat, Ref>, h: int, flags: ProcessFlags,
                      models: Pass, shaders: Pass, materials: Pass): (w: Step)
    requires Sized(models) && Sized(shaders) && Sized(materials)
    ensures |w.bytes| == |s|
  {
    var w := HeaderStart(s, refs, h, flags);
    if w.outcome.Fail? then w else HeaderRest(w, h, flags.Rebased(h), models, shaders, materials)
  }

  /** The header pass up to and including the instances pass: the guards,
      the header's swap, its fixups against itself, and the instances pass
      with the flags rebased on the header (the `instances` pointer is
      followed whatever it holds). */
  function HeaderStart(s: seq<byte>, refs: map<nat, Ref>, h: int, flags: ProcessFlags): (w: Step)
    ensures |w.bytes| == |s|
    ensures w.outcome.Pass? ==> Started(s, h, flags)
  {
    if flags.NoAutoDetect().Fail? then Step(flags.NoAutoDetect(), s, refs)
    else if flags.NoLittleEndian().Fail? then Step(flags.NoLittleEndian(), s, refs)
    else if flags.NoProcessDataOut().Fail? then Step(flags.NoProcessDataOut(), s, refs)
    else if !Started(s, h, flags) then Step(Fail(OutOfBounds), s, refs)
    else
      var t := HeaderBytes(s, h);
      var refs1 := HeaderRefs(s, refs, h);
      match RefOf(refs1, h + InstancesField)
      case Null => Step(Fail(NullReference), t, refs1)
      case Wild => Step(Fail(WildReference), t, refs1)
      case At(i) => InstancesPass(t, refs1, i, flags.Rebased(h))
  }

  /** The header pass after the instances pass `w`: models, shaders and
      materials, each followed unless excluded or null and reset
      otherwise, then the element swaps. */
  function HeaderRest(w: Step, h: nat, f: ProcessFlags, models: Pass, shaders: Pass, materials: Pass): (r: Step)
    requires Sized(models) && Sized(shaders) && Sized(materials)
    requires h + HeaderSize <= |w.bytes|
    ensures |r.bytes| == |w.bytes|
  {
    var w3 := Included(w, h, f, models, shaders, materials);
    if w3.outcome.Fail? then w3 else ElementSwaps(w3, h)
  }

  /** The three optional records of the header at `h`, in the source's
      order: models, shaders, materials. */
  function Included(w: Step, h: nat, f: ProcessFlags, models: Pass, shaders: Pass, materials: Pass): (r: Step)
    requires Sized(models) && Sized(shaders) && Sized(materials)
    ensures |r.bytes| == |w.bytes|
  {
    var w1 := Visited(w, h + ModelsField, Excluded(f.userData, ExcludeModel), models, f);
    var w2 := Visited(w1, h + ShadersField, Excluded(f.userData, ExcludeShaders), shaders, f);
    Visited(w2, h + MaterialsField, Excluded(f.userData, ExcludeMaterials), materials, f)
  }

  /** The swaps of the elements of bufferIndices (32-bit), externalTextures
      (four 16-bit fields each) and textureContainerIds (16-bit). */
  function ElementSwaps(w: Step, h: nat): (r: Step)
    requires h + HeaderSize <= |w.bytes|
    ensures |r.bytes| == |w.bytes| && r.refs == w.refs
  {
    var w1 := Swept(w.bytes, w.refs, RefOf(w.refs, h + BufferIndicesField), U(w.bytes, h + BufferIndicesField + 4, 4), 4);
    if w1.outcome.Fail? then w1
    else
      var w2 := Swept(w1.bytes, w.refs, RefOf(w.refs, h + ExternalTexturesField),
                      4 * U(w1.bytes, h + ExternalTexturesField + 4, 4), 2);
      if w2.outcome.Fail? then w2
      else Swept(w2.bytes, w.refs, RefOf(w.refs, h + TextureIdsField), U(w2.bytes, h + TextureIdsField + 4, 4), 2)
  }
  /** The header pass refuses AutoDetectEndian, then little-endian data,
      then ProcessDataOut, in that order and before it touches anything. */
  lemma HeaderPassRejects(s: seq<byte>, refs: map<nat, Ref>, h: int, flags: ProcessFlags,
                          models: Pass, shaders: Pass, materials: Pass)
    requires Sized(models) && Sized(shaders) && Sized(materials)
    ensures flags.Has(AutoDetectEndian) ==>
              HeaderPass(s, refs, h, flags, models, shaders, materials) == Step(Fail(Runtime(NoAutoDetectMessage)), s, refs)
    ensures !flags.Has(AutoDetectEndian) && !flags.Has(EnsureBigEndian) ==>
              HeaderPass(s, refs, h, flags, models, shaders, materials) == Step(Fail(Runtime(NoLittleEndianMessage)), s, refs)
    ensures !flags.Has(AutoDetectEndian) && flags.Has(EnsureBigEndian) && flags.Has(ProcessDataOut) ==>
              HeaderPass(s, refs, h, flags, models, shaders, materials) == Step(Fail(Runtime(NoProcessDataOutMessage)), s, refs)
    ensures !flags.Has(AutoDetectEndian) && flags.Has(EnsureBigEndian) && !flags.Has(ProcessDataOut) &&
            !(0 <= h && h + HeaderSize <= |s|) ==>
              HeaderPass(s, refs, h, flags, models, shaders, materials) == Step(Fail(OutOfBounds), s, refs)
  {
  }

  /** The instances record is processed before anything the header points
      to, with the header's flags rebased on the header: a null `instances`
      pointer fails once the header is swapped and fixed up, and when the
      instances pass fails the header pass ends with that failure. */
  lemma HeaderPassInstancesFirst(s: seq<byte>, refs: map<nat, Ref>, h: nat, flags: ProcessFlags,
                                 models: Pass, shaders: Pass, materials: Pass)
    requires Sized(models) && Sized(shaders) && Sized(materials)
    requires h + HeaderSize <= |s| && flags.Has(EnsureBigEndian)
    requires !flags.Has(AutoDetectEndian) && !flags.Has(ProcessDataOut)
    ensures var t, refs1 := HeaderBytes(s, h), HeaderRefs(s, refs, h);
      && (RefOf(refs1, h + InstancesField).Null? ==>
            HeaderPass(s, refs, h, flags, models, shaders, materials) == Step(Fail(NullReference), t, refs1))
      && (RefOf(refs1, h + InstancesField).At? &&
          InstancesPass(t, refs1, RefOf(refs1, h + InstancesField).addr, flags.Rebased(h)).outcome.Fail? ==>
            HeaderPass(s, refs, h, flags, models, shaders, materials) ==
            InstancesPass(t, refs1, RefOf(refs1, h + InstancesField).addr, flags.Rebased(h)))
  {
  }

  /** With the Model exclusion set the models pass is never run: the header
      pass is the same whatever it is. */
  lemma ModelsExcluded(s: seq<byte>, refs: map<nat, Ref>, h: int, flags: ProcessFlags,
                       models: Pass, other: Pass, shaders: Pass, materials: Pass)
    requires Sized(models) && Sized(other) && Sized(shaders) && Sized(materials)
    requires Excluded(flags.userData, ExcludeModel)
    ensures HeaderPass(s, refs, h, flags, models, shaders, materials) ==
            HeaderPass(s, refs, h, flags, other, shaders, materials)
  {
    var w, f := HeaderStart(s, refs, h, flags), flags.Rebased(h);
    if w.outcome.Pass? {
      VisitedMeaning(w, h + ModelsField, true, models, other, f);
    }
  }

  /** With the Shaders exclusion set the shaders pass is never run. */
  lemma ShadersExcluded(s: seq<byte>, refs: map<nat, Ref>, h: int, flags: ProcessFlags,
                        models: Pass, shaders: Pass, other: Pass, materials: Pass)
    requires Sized(models) && Sized(shaders) && Sized(other) && Sized(materials)
    requires Excluded(flags.userData, ExcludeShaders)
    ensures HeaderPass(s, refs, h, flags, models, shaders, materials) ==
            HeaderPass(s, refs, h, flags, models, other, materials)
  {
    var w, f := HeaderStart(s, refs, h, flags), flags.Rebased(h);
    if w.outcome.Pass? {
      var w1 := Visited(w, h + ModelsField, Excluded(f.userData, ExcludeModel), models, f);
      if w1.outcome.Pass? {
        VisitedMeaning(w1, h + ShadersField, true, shaders, other, f);
      }
    }
  }

  /** With the Materials exclusion set the materials pass is never run. */
  lemma MaterialsExcluded(s: seq<byte>, refs: map<nat, Ref>, h: int, flags: ProcessFlags,
                          models: Pass, shaders: Pass, materials: Pass, other: Pass)
    requires Sized(models) && Sized(shaders) && Sized(materials) && Sized(other)
    requires Excluded(flags.userData, ExcludeMaterials)
    ensures HeaderPass(s, refs, h, flags, models, shaders, materials) ==
            HeaderPass(s, refs, h, flags, models, shaders, other)
  {
    var w, f := HeaderStart(s, refs, h, flags), flags.Rebased(h);
    if w.outcome.Pass? {
      var w1 := Visited(w, h + ModelsField, Excluded(f.userData, ExcludeModel), models, f);
      var w2 := Visited(w1, h + ShadersField, Excluded(f.userData, ExcludeShaders), shaders, f);
      if w2.outcome.Pass? {
        VisitedMeaning(w2, h + MaterialsField, true, materials, other, f);
      }
    }
  }

  /** The flags `LoadV1` processes the header with: big-endian data, no
      auto-detection, and the exclusions as user data. */
  function LoadFlags(excludeLoads: bv32): (f: ProcessFlags)
    ensures f.userData == excludeLoads
  {
    ProcessFlags({EnsureBigEndian}, Null, excludeLoads)
  }

  /** `LoadV1`'s flags get past the guards of the header and of the
      instances record, so processing the header at the start of the file
      starts exactly when the file holds a whole header, and fails with
      `OutOfBounds`, changing nothing, when it does not. */
  lemma LoadFlagsAccepted(s: seq<byte>, excludeLoads: bv32, h: int)
    ensures Started(s, 0, LoadFlags(excludeLoads)) <==> HeaderSize <= |s|
    ensures HeaderSize > |s| ==> HeaderStart(s, map[], 0, LoadFlags(excludeLoads)) == Step(Fail(OutOfBounds), s, map[])
    ensures var f := LoadFlags(excludeLoads).Rebased(h);
      f.NoAutoDetect().Pass? && f.NoLittleEndian().Pass? && f.NoProcessDataOut().Pass?
  {
  }

  /** An `FByteswapper` that reverses the `words` 32-bit words of the
      record at `h` and then exchanges its two leading 16-bit fields, on
      the buffer: the header's swap. */
  method SwapExchanged(buf: Buffer, h: nat, words: nat)
    requires 1 <= words && h + 4 * words <= buf.bytes.Length
    modifies buf.bytes
    ensures buf.bytes[..] == ExchangedSpan(old(buf.bytes[..]), h, 4 * words)
  {
    SwappedIsRun(buf.bytes[..], h, Layout(words, 0));
    var _ := buf.SwapFields(h, words, 4);
    ghost var t := buf.bytes[..];
    var lo, hi := U(buf.bytes[..], h, 2), U(buf.bytes[..], h + 2, 2);
    var _ := buf.Write(h, 2, hi);
    var _ := buf.Write(h + 2, 2, lo);
    ExchangedByWrites(t, h);
  }

  /** Writing each 16-bit half over the other is the exchange. */
  lemma ExchangedByWrites(t: seq<byte>, p: nat)
    requires p + 4 <= |t|
    ensures Put(Put(t, p, 2, U(t, p + 2, 2) % Pow256(2)), p + 2, 2, U(t, p, 2) % Pow256(2)) == Exchanged(t, p)
  {
    Reduced(t, p + 2);
    Reduced(t, p);
  }

  /** A 16-bit field is its own value modulo 2^16. */
  lemma Reduced(t: seq<byte>, p: nat)
    requires p + 2 <= |t|
    ensures U(t, p, 2) % Pow256(2) == U(t, p, 2)
  {
    var v := U(t, p, 2);
    assert v < Pow256(2) by {
      assert |t[p..p + 2]| == 2;
    }
    DivUnique(v, Pow256(2), 0, v);
  }

  /** `ProcessClass(MSIM::V1::InstancesHeader)`, on the buffer. */
  method ProcessInstances(buf: Buffer, a: int, flags: ProcessFlags) returns (r: Outcome)
    modifies buf, buf.bytes
    ensures Step(r, buf.bytes[..], buf.refs) == InstancesPass(old(buf.bytes[..]), old(buf.refs), a, flags)
  {
    r := flags.NoAutoDetect();
    if r.Fail? {
      return;
    }
    :- flags.NoLittleEndian();
    :- flags.NoProcessDataOut();
    if !buf.Fits(a, InstancesSize) {
      return Fail(OutOfBounds);
    }
    SwappedIsRun(buf.bytes[..], a, Layout(InstancesSize / 4, 0));
    var _ := buf.SwapFields(a, InstancesSize / 4, 4);
    InstancesPointersFit(a, buf.bytes.Length);
    buf.FixupList(a, InstancesPointers, At(a));
    r := SweepInstanceArrays(buf, a);
  }

  /** The element swaps of `InstanceArrays`, on the buffer. */
  method SweepInstanceArrays(buf: Buffer, a: nat) returns (r: Outcome)
    requires a + InstancesSize <= buf.bytes.Length
    modifies buf.bytes
    ensures Step(r, buf.bytes[..], buf.refs) == InstanceArrays(Step(Pass, old(buf.bytes[..]), buf.refs), a)
  {
    r := Sweep(buf, buf.RefAt(a + 8), ClusterWords * U(buf.bytes[..], a + ClustersField, 4), 4);
    if r.Fail? {
      return;
    }
    r := Sweep(buf, buf.RefAt(a + 16), InstancedModelWords * U(buf.bytes[..], a + ModelLodsField, 4), 4);
    if r.Fail? {
      return;
    }
    r := Sweep(buf, buf.RefAt(a + 24), MatrixWords * U(buf.bytes[..], a + MatricesField, 4), 4);
  }

  /** `ProcessClass(MSIM::V1::Header)`, on the buffer, given the passes of
      the model, the shaders and the materials. */
  method ProcessHeader(buf: Buffer, h: int, flags: ProcessFlags, models: Pass, shaders: Pass, materials: Pass)
    returns (r: Outcome)
    requires Sized(models) && Sized(shaders) && Sized(materials)
    modifies buf, buf.bytes
    ensures Step(r, buf.bytes[..], buf.refs) ==
            HeaderPass(old(buf.bytes[..]), old(buf.refs), h, flags, models, shaders, materials)
  {
    r := flags.NoAutoDetect();
    if r.Fail? {
      return;
    }
    :- flags.NoLittleEndian();
    :- flags.NoProcessDataOut();
    if !buf.Fits(h, HeaderSize) {
      return Fail(OutOfBounds);
    }
    ghost var s0, r0 := buf.bytes[..], buf.refs;
    SwapExchanged(buf, h, HeaderWords);
    HeaderPointersFit(h, buf.bytes.Length);
    buf.FixupList(h, HeaderPointers, At(h));
    assert buf.refs == HeaderRefs(s0, r0, h);
    var f := flags.Rebased(h);
    match buf.RefAt(h + InstancesField)
    case Null =>
      return Fail(NullReference);
    case Wild =>
      return Fail(WildReference);
    case At(i) =>
      r := ProcessInstances(buf, i, f);
      if r.Fail? {
        return;
      }
      r := ProcessIncluded(buf, h, f, models, shaders, materials);
  }

  /** The header pass after the instances pass: `Included`, then the
      element swaps. */
  method ProcessIncluded(buf: Buffer, h: nat, f: ProcessFlags, models: Pass, shaders: Pass, materials: Pass)
    returns (r: Outcome)
    requires Sized(models) && Sized(shaders) && Sized(materials)
    requires h + HeaderSize <= buf.bytes.Length
    modifies buf, buf.bytes
    ensures Step(r, buf.bytes[..], buf.refs) ==
            HeaderRest(Step(Pass, old(buf.bytes[..]), old(buf.refs)), h, f, models, shaders, materials)
  {
    r := Visit(buf, h + ModelsField, Excluded(f.userData, ExcludeModel), models, f);
    if r.Fail? {
      return;
    }
    r := Visit(buf, h + ShadersField, Excluded(f.userData, ExcludeShaders), shaders, f);
    if r.Fail? {
      return;
    }
    r := Visit(buf, h + MaterialsField, Excluded(f.userData, ExcludeMaterials), materials, f);
    if r.Fail? {
      return;
    }
    r := SweepElements(buf, h);
  }

  /** The element swaps of `ElementSwaps`, on the buffer. */
  method SweepElements(buf: Buffer, h: nat) returns (r: Outcome)
    requires h + HeaderSize <= buf.bytes.Length
    modifies buf.bytes
    ensures Step(r, buf.bytes[..], buf.refs) == ElementSwaps(Step(Pass, old(buf.bytes[..]), buf.refs), h)
  {
    r := Sweep(buf, buf.RefAt(h + BufferIndicesField), U(buf.bytes[..], h + BufferIndicesField + 4, 4), 4);
    if r.Fail? {
      return;
    }
    r := Sweep(buf, buf.RefAt(h + ExternalTexturesField), 4 * U(buf.bytes[..], h + ExternalTexturesField + 4, 4), 2);
    if r.Fail? {
      return;
    }
    r := Sweep(buf, buf.RefAt(h + TextureIdsField), U(buf.bytes[..], h + TextureIdsField + 4, 4), 2);
  }
}
