/** MXMD, the model container: the header all versions start with, the
    byte-order detection, and the headers of versions 1, 2 and 3 with the
    `ExcludeLoad` switches the caller passes in the user data.

    The version 2 record types are not part of this model: its header is
    taken to have the version 1 layout, its cached textures to be a DRSM
    texture table and its uncached textures a version 1 SMT header. */
module Mxmd {
  import opened Outcomes
  import opened Bytes
  import opened Memory
  import opened Flags
  import opened Records
  import opened Passes
  import Drsm
  import MxmdV1
  import MxmdV3

  /** The magic of little-endian files, "DMXM" read little-endian. */
  const Id: nat := 0x4D584D44
  /** The magic of big-endian files, "MXMD" read little-endian. */
  const IdBig: nat := 0x444D584D

  const Version1: nat := 10040
  const Version2: nat := 10111
  const Version3: nat := 10112

  const MagicField: nat := 0
  const VersionField: nat := 4
  /** The magic and the version. */
  const BaseSize: nat := 8
  /** The header of every version: the base, six pointers, two unknown
      words and seven reserved ones. */
  const HeaderSize: nat := 68
  const HeaderWords: nat := 17

  const ModelsField: nat := 8
  const MaterialsField: nat := 12
  const StreamsField: nat := 20
  const ShadersField: nat := 24
  const CachedField: nat := 28
  const UncachedField: nat := 36

  /** Bits of the user data: the `ExcludeLoad` enumerators. */
  const ExcludeModel: nat := 0
  const ExcludeMaterials: nat := 1
  const ExcludeLowTextures: nat := 2
  const ExcludeTextureStreams: nat := 3
  const ExcludeShaders: nat := 4

  /** The header's pointers in the order `FixupPointers` takes them:
      models, materials, streams, shaders, cachedTextures,
      uncachedTextures. */
  const HeaderPointers: seq<Field> :=
    [Field(ModelsField, 4), Field(MaterialsField, 4), Field(StreamsField, 4),
     Field(ShadersField, 4), Field(CachedField, 4), Field(UncachedField, 4)]

  lemma HeaderPointersFit(h: nat, n: nat)
    requires h + HeaderSize <= n
    ensures FieldsFit(h, HeaderPointers, n) && DistinctOffsets(HeaderPointers)
  {
  }

  /** The header's six pointers fixed up against the header itself. */
  function HeaderRefs(s: seq<byte>, refs: map<nat, Ref>, h: nat): map<nat, Ref>
    requires h + HeaderSize <= |s|
  {
    HeaderPointersFit(h, |s|);
    FixEach(refs, s, h, HeaderPointers, At(h))
  }

  /** Whether `q` is the position of one of the header's pointers. */
  predicate IsHeaderPointer(h: nat, q: nat) {
    q == h + ModelsField || q == h + MaterialsField || q == h + StreamsField ||
    q == h + ShadersField || q == h + CachedField || q == h + UncachedField
  }

  /** Each of the six pointers holds the header's address plus the offset
      stored in it. */
  lemma HeaderRefsFixed(s: seq<byte>, refs: map<nat, Ref>, h: nat)
    requires h + HeaderSize <= |s|
    ensures forall j :: 0 <= j < |HeaderPointers| ==>
              RefOf(HeaderRefs(s, refs, h), h + HeaderPointers[j].offset) ==
              Resolve(At(h), I(s, h + HeaderPointers[j].offset, 4))
  {
    HeaderPointersFit(h, |s|);
    FixEachAll(refs, s, h, HeaderPointers, At(h));
  }

  /** No reference but the six pointers changes. */
  lemma HeaderRefsOther(s: seq<byte>, refs: map<nat, Ref>, h: nat)
    requires h + HeaderSize <= |s|
    ensures forall q: nat :: !IsHeaderPointer(h, q) ==>
              (q in HeaderRefs(s, refs, h) <==> q in refs) && RefOf(HeaderRefs(s, refs, h), q) == RefOf(refs, q)
  {
    HeaderPointersFit(h, |s|);
    forall q: nat | !IsHeaderPointer(h, q)
      ensures (q in HeaderRefs(s, refs, h) <==> q in refs) && RefOf(HeaderRefs(s, refs, h), q) == RefOf(refs, q)
    {
      FixEachOther(refs, s, h, HeaderPointers, At(h), q);
    }
  }

  /** The six pointers reset to null. */
  function Cleared(refs: map<nat, Ref>, h: nat): map<nat, Ref> {
    refs[h + ModelsField := Null][h + StreamsField := Null][h + ShadersField := Null]
        [h + MaterialsField := Null][h + CachedField := Null][h + UncachedField := Null]
  }

  /** Resetting all six pointers forgets their fixups: what is left is
      the references from before the header was fixed up, with the six
      pointers null. */
  lemma ClearedForgetsFixups(s: seq<byte>, refs: map<nat, Ref>, h: nat)
    requires h + HeaderSize <= |s|
    ensures Cleared(HeaderRefs(s, refs, h), h) == Cleared(refs, h)
  {
    HeaderRefsOther(s, refs, h);
    var a, b := Cleared(HeaderRefs(s, refs, h), h), Cleared(refs, h);
    forall q | q in a
      ensures q in b && a[q] == b[q]
    {
      if !IsHeaderPointer(h, q) {
        assert q in HeaderRefs(s, refs, h);
        assert RefOf(HeaderRefs(s, refs, h), q) == RefOf(refs, q);
      }
    }
    forall q | q in b
      ensures q in a
    {
    }
  }

  /** The passes the headers call keep the buffer's size. */
  lemma HeaderPassesSized()
    ensures Sized(MxmdV1.ModelPass) && Sized(MxmdV1.StreamPass) && Sized(MxmdV1.ShadersPass)
    ensures Sized(MxmdV1.MaterialsPass) && Sized(MxmdV1.SmtPass) && Sized(Drsm.TexturesPass)
    ensures Sized(Drsm.ResourcesPass) && Sized(Skip)
  {
    MxmdV3.PassesSized();
  }

  /** The passes the steps call directly keep the buffer's size. */
  lemma LeafSized()
    ensures Sized(Drsm.TexturesPass) && Sized(MxmdV1.SmtPass) && Sized(Skip)
  {
  }

  // ---------------------------------------------------------------------
  // Steps shared by the versions
  // ---------------------------------------------------------------------

  /** A pass that does nothing: the version 3 shaders, whose pass the
      source leaves commented out. */
  function Skip(s: seq<byte>, refs: map<nat, Ref>, a: int, f: ProcessFlags): (w: Step)
    ensures w.outcome.Pass? && w.bytes == s
  {
    Step(Pass, s, refs)
  }

  /** The models step: `if (!excluded && models) { ProcessClass(*models);
      streams } else { models.Reset(); streams.Reset(); }`. The streams
      pointer is followed unchecked by version 1 and only when it is set
      by version 3 (`checked`). */
  function ModelsVisited(w: Step, h: nat, excluded: bool, model: Pass, streams: Pass, checked: bool, f: ProcessFlags): (r: Step)
    requires Sized(model) && Sized(streams)
    ensures |r.bytes| == |w.bytes|
  {
    if w.outcome.Fail? then w
    else if excluded || RefOf(w.refs, h + ModelsField).Null? then
      Step(Pass, w.bytes, w.refs[h + ModelsField := Null][h + StreamsField := Null])
    else
      match RefOf(w.refs, h + ModelsField)
      case At(m) =>
        var w1 := model(w.bytes, w.refs, m, f);
        if checked then Present(w1, h + StreamsField, streams, f) else Deref(w1, h + StreamsField, streams, f)
      case _ => Step(Fail(WildReference), w.bytes, w.refs)
  }

  /** An excluded or null models pointer resets both pointers whatever the
      passes; after the model's pass, a null streams pointer is skipped by
      version 3 and dereferenced by version 1, and any other is followed
      the same way by both. */
  lemma ModelsVisitedMeaning(w: Step, h: nat, excluded: bool, model: Pass, streams: Pass, f: ProcessFlags)
    requires Sized(model) && Sized(streams) && w.outcome.Pass?
    ensures excluded || RefOf(w.refs, h + ModelsField).Null? ==>
              && ModelsVisited(w, h, excluded, model, streams, true, f) ==
                 Step(Pass, w.bytes, w.refs[h + ModelsField := Null][h + StreamsField := Null])
              && ModelsVisited(w, h, excluded, model, streams, false, f) ==
                 ModelsVisited(w, h, excluded, Skip, Skip, true, f)
    ensures !excluded && RefOf(w.refs, h + ModelsField).At? ==>
              var w1 := model(w.bytes, w.refs, RefOf(w.refs, h + ModelsField).addr, f);
              && (w1.outcome.Pass? && RefOf(w1.refs, h + StreamsField).Null? ==>
                    && ModelsVisited(w, h, excluded, model, streams, true, f) == w1
                    && ModelsVisited(w, h, excluded, model, streams, false, f) == Step(Fail(NullReference), w1.bytes, w1.refs))
              && (!RefOf(w1.refs, h + StreamsField).Null? ==>
                    ModelsVisited(w, h, excluded, model, streams, true, f) ==
                    ModelsVisited(w, h, excluded, model, streams, false, f))
  {
    LeafSized();
    if !excluded && RefOf(w.refs, h + ModelsField).At? {
      var w1 := model(w.bytes, w.refs, RefOf(w.refs, h + ModelsField).addr, f);
      if w1.outcome.Pass? {
        PresentOrDeref(w1, h + StreamsField, streams, f);
      }
    }
  }

  /** The passes a version gives the models, streams, shaders and
      materials of its header. */
  datatype Parts = Parts(model: Pass, streams: Pass, shaders: Pass, materials: Pass) {
    ghost predicate Valid() {
      Sized(model) && Sized(streams) && Sized(shaders) && Sized(materials)
    }
  }

  const V1Parts := Parts(MxmdV1.ModelPass, MxmdV1.StreamPass, MxmdV1.ShadersPass, MxmdV1.MaterialsPass)
  /** Version 3 never follows the shaders pointer. */
  const V3Parts := Parts(MxmdV3.ModelPass, MxmdV3.StreamPass, Skip, MxmdV3.MaterialsPass)

  lemma PartsValid()
    ensures V1Parts.Valid() && V3Parts.Valid()
  {
    HeaderPassesSized();
    MxmdV3.PassesSized();
  }

  /** The steps versions 1 and 3 share, in their order: models and
      streams, shaders, materials and the cached textures (a DRSM texture
      table), each reset when excluded or null. */
  function Sections(w: Step, h: nat, f: ProcessFlags, parts: Parts, checked: bool): (r: Step)
    requires parts.Valid()
    ensures |r.bytes| == |w.bytes|
  {
    LeafSized();
    var x := f.userData;
    var w1 := ModelsVisited(w, h, Excluded(x, ExcludeModel), parts.model, parts.streams, checked, f);
    var w2 := Visited(w1, h + ShadersField, Excluded(x, ExcludeShaders), parts.shaders, f);
    var w3 := Visited(w2, h + MaterialsField, Excluded(x, ExcludeMaterials), parts.materials, f);
    Visited(w3, h + CachedField, Excluded(x, ExcludeLowTextures), Drsm.TexturesPass, f)
  }

  /** The shared steps followed by the uncached textures with the pass
      `uncached`. */
  function Steps(w: Step, h: nat, f: ProcessFlags, parts: Parts, checked: bool, uncached: Pass): (r: Step)
    requires parts.Valid() && Sized(uncached)
    ensures |r.bytes| == |w.bytes|
  {
    Visited(Sections(w, h, f, parts, checked), h + UncachedField, Excluded(f.userData, ExcludeTextureStreams), uncached, f)
  }

  // ---------------------------------------------------------------------
  // Version 1: big-endian
  // ---------------------------------------------------------------------

  /** The start of `ProcessClass(V1::Header)`: the guards, the swap of the
      whole header, and the fixups of its six pointers against it. */
  function V1Start(s: seq<byte>, refs: map<nat, Ref>, h: int, flags: ProcessFlags): (w: Step)
    ensures |w.bytes| == |s|
    ensures w.outcome.Pass? ==> 0 <= h && h + HeaderSize <= |s|
  {
    if MxmdV1.BigGuards(flags).Fail? then Step(MxmdV1.BigGuards(flags), s, refs)
    else if !(0 <= h && h + HeaderSize <= |s|) then Step(Fail(OutOfBounds), s, refs)
    else
      var t := SwapSpan(s, h, HeaderSize);
      Step(Pass, t, HeaderRefs(t, refs, h))
  }

  /** The rest of it: the shared steps with the version 1 passes, then the
      uncached textures, a version 1 SMT header. */
  function V1Rest(w: Step, h: nat, f: ProcessFlags): (r: Step)
    ensures |r.bytes| == |w.bytes|
  {
    PartsValid();
    LeafSized();
    Steps(w, h, f, V1Parts, false, MxmdV1.SmtPass)
  }

  /** `ProcessClass(V1::Header)` on the header at `h`, with the header's
      own address as the base. */
  function V1HeaderPass(s: seq<byte>, refs: map<nat, Ref>, h: int, flags: ProcessFlags): (w: Step)
    ensures |w.bytes| == |s|
  {
    var w := V1Start(s, refs, h, flags);
    if w.outcome.Fail? then w else V1Rest(w, h, flags.Rebased(h))
  }

  // ---------------------------------------------------------------------
  // Versions 2 and 3: little-endian
  // ---------------------------------------------------------------------

  /** The start of the version 2 and 3 header passes: the guards and the
      fixups of the six pointers; no byte is swapped. */
  function LittleStart(s: seq<byte>, refs: map<nat, Ref>, h: int, flags: ProcessFlags): (w: Step)
    ensures w.bytes == s
    ensures w.outcome.Pass? ==> 0 <= h && h + HeaderSize <= |s|
  {
    if MxmdV3.MaterialGuards(flags).Fail? then Step(MxmdV3.MaterialGuards(flags), s, refs)
    else if !(0 <= h && h + HeaderSize <= |s|) then Step(Fail(OutOfBounds), s, refs)
    else Step(Pass, s, HeaderRefs(s, refs, h))
  }

  /** The rest of `ProcessClass(V2::Header)`: only the cached and uncached
      textures; the models, shaders and materials steps are commented out
      in the source. */
  function V2Rest(w: Step, h: nat, f: ProcessFlags): (r: Step)
    ensures |r.bytes| == |w.bytes|
  {
    LeafSized();
    var w1 := Visited(w, h + CachedField, Excluded(f.userData, ExcludeLowTextures), Drsm.TexturesPass, f);
    Visited(w1, h + UncachedField, Excluded(f.userData, ExcludeTextureStreams), MxmdV1.SmtPass, f)
  }

  /** `ProcessClass(V2::Header)` on the header at `h`. */
  function V2HeaderPass(s: seq<byte>, refs: map<nat, Ref>, h: int, flags: ProcessFlags): (w: Step)
    ensures |w.bytes| == |s|
  {
    var w := LittleStart(s, refs, h, flags);
    if w.outcome.Fail? then w else V2Rest(w, h, flags.Rebased(h))
  }

  /** `GetSMT`: the uncached textures are a version 3 SMT header when the
      header has cached textures, and a DRSM resources record otherwise. */
  function SmtOf(cached: Ref): Pass {
    if cached.Null? then Drsm.ResourcesPass else MxmdV3.SmtPass
  }

  lemma SmtOfSized(cached: Ref)
    ensures Sized(SmtOf(cached))
  {
    HeaderPassesSized();
    MxmdV3.PassesSized();
  }

  /** The rest of `ProcessClass(V3::Header)` after the fixups of `w`: the
      shared steps with the version 3 passes, then the uncached textures,
      whose kind is chosen by the cachedTextures pointer as the file
      stores it. */
  function V3Rest(w: Step, h: nat, f: ProcessFlags): (r: Step)
    ensures |r.bytes| == |w.bytes|
  {
    PartsValid();
    SmtOfSized(RefOf(w.refs, h + CachedField));
    Steps(w, h, f, V3Parts, true, SmtOf(RefOf(w.refs, h + CachedField)))
  }

  /** The same, as the source writes it: `GetSMT` reads cachedTextures
      after the cached-textures step, which resets it when LowTextures is
      excluded. */
  function V3RestAsWritten(w: Step, h: nat, f: ProcessFlags): (r: Step)
    ensures |r.bytes| == |w.bytes|
  {
    PartsValid();
    var w4 := Sections(w, h, f, V3Parts, true);
    SmtOfSized(RefOf(w4.refs, h + CachedField));
    Visited(w4, h + UncachedField, Excluded(f.userData, ExcludeTextureStreams),
            SmtOf(RefOf(w4.refs, h + CachedField)), f)
  }

  /** `ProcessClass(V3::Header)` on the header at `h`. */
  function V3HeaderPass(s: seq<byte>, refs: map<nat, Ref>, h: int, flags: ProcessFlags): (w: Step)
    ensures |w.bytes| == |s|
  {
    var w := LittleStart(s, refs, h, flags);
    if w.outcome.Fail? then w else V3Rest(w, h, flags.Rebased(h))
  }

  // ---------------------------------------------------------------------
  // The base header
  // ---------------------------------------------------------------------

  /** The flags after the magic check: without AutoDetectEndian they are
      kept as given; with it, AutoDetectEndian is dropped and the magic
      chooses the byte order. */
  function Detected(magic: nat, flags: ProcessFlags): (r: Result<ProcessFlags>)
    ensures !flags.Has(AutoDetectEndian) ==> r == Ok(flags)
    ensures flags.Has(AutoDetectEndian) ==> (r.Ok? <==> magic == IdBig || magic == Id)
    ensures r.Err? ==> r.error == InvalidHeader(magic)
    ensures r.Ok? && flags.Has(AutoDetectEndian) ==>
              && !r.value.Has(AutoDetectEndian)
              && (r.value.Has(EnsureBigEndian) <==> magic == IdBig)
              && r.value.Has(ProcessDataOut) == flags.Has(ProcessDataOut)
              && r.value.base == flags.base && r.value.userData == flags.userData
  {
    if !flags.Has(AutoDetectEndian) then Ok(flags)
    else
      var f := flags.Without(AutoDetectEndian);
      if magic == IdBig then Ok(f.With(EnsureBigEndian))
      else if magic == Id then Ok(f.Without(EnsureBigEndian))
      else Err(InvalidHeader(magic))
  }

  /** `ProcessClass(MXMD::HeaderBase)`: the guard, the magic check, which
      swaps the stored version in place for a detected big-endian file,
      and the dispatch on the version as it is then stored. */
  function BasePass(s: seq<byte>, refs: map<nat, Ref>, h: int, flags: ProcessFlags): (w: Step)
    ensures |w.bytes| == |s|
  {
    if flags.NoProcessDataOut().Fail? then Step(flags.NoProcessDataOut(), s, refs)
    else if !(0 <= h && h + BaseSize <= |s|) then Step(Fail(OutOfBounds), s, refs)
    else
      match Detected(U(s, h + MagicField, 4), flags)
      case Err(e) => Step(Fail(e), s, refs)
      case Ok(f) =>
        var t := if flags.Has(AutoDetectEndian) && f.Has(EnsureBigEndian) then SwapAt(s, h + VersionField, 4) else s;
        Dispatched(t, refs, h, f)
  }

  /** The dispatch on the stored version; version 1 swaps the version back
      before its header pass swaps the whole header. */
  function Dispatched(t: seq<byte>, refs: map<nat, Ref>, h: nat, f: ProcessFlags): (w: Step)
    requires h + BaseSize <= |t|
    ensures |w.bytes| == |t|
  {
    var v := U(t, h + VersionField, 4);
    if v == Version1 then V1HeaderPass(SwapAt(t, h + VersionField, 4), refs, h, f)
    else if v == Version2 then V2HeaderPass(t, refs, h, f)
    else if v == Version3 then V3HeaderPass(t, refs, h, f)
    else Step(Fail(InvalidVersion(v)), t, refs)
  }

  // ---------------------------------------------------------------------
  // Properties of the base header
  // ---------------------------------------------------------------------

  /** Four stored bytes that read `v` little-endian read, big-endian, what
      the little-endian bytes of `v` read big-endian, and conversely. */
  lemma WordBytes(x: seq<byte>, v: nat)
    requires |x| == 4
    ensures ReadLE(x) == v ==> ReadBE(x) == ReadBE(WriteLE(v, 4))
    ensures ReadBE(x) == v ==> ReadLE(x) == ReadLE(Reverse(WriteLE(v, 4)))
  {
    WriteReadLE(x);
    WriteReadLE(Reverse(x));
    ReverseInvolutive(x);
  }

  /** The value of four bytes, least significant first. */
  lemma ReadFour(x: seq<byte>)
    requires |x| == 4
    ensures ReadLE(x) == x[0] as nat + 0x100 * x[1] as nat + 0x1_0000 * x[2] as nat + 0x100_0000 * x[3] as nat
  {
    var r3 := ReadLE(x[3..]);
    assert x[3..][1..] == [];
    assert r3 == x[3] as nat;
    var r2 := ReadLE(x[2..]);
    assert x[2..][1..] == x[3..];
    assert r2 == x[2] as nat + 0x100 * r3;
    var r1 := ReadLE(x[1..]);
    assert x[1..][1..] == x[2..];
    assert r1 == x[1] as nat + 0x100 * r2;
  }

  /** Four bytes reversed. */
  lemma ReverseFour(x: seq<byte>)
    requires |x| == 4
    ensures Reverse(x) == [x[3], x[2], x[1], x[0]]
  {
    ReverseAt(x, 0);
    ReverseAt(x, 1);
    ReverseAt(x, 2);
    ReverseAt(x, 3);
  }

  /** The two magics are each other's bytes reversed. */
  lemma MagicsReversed()
    ensures ReadBE(WriteLE(IdBig, 4)) == Id
  {
    var e: seq<byte> := [0x4D, 0x58, 0x4D, 0x44];
    ReadFour(e);
    WriteReadLE(e);
    ReverseFour(e);
    ReadFour(Reverse(e));
  }

  /** The version 1 number stored big-endian reads 0x38270000
      little-endian. */
  lemma Version1Reversed()
    ensures ReadLE(Reverse(WriteLE(Version1, 4))) == 0x38270000
  {
    var e: seq<byte> := [0x38, 0x27, 0, 0];
    ReadFour(e);
    WriteReadLE(e);
    ReverseFour(e);
    ReadFour(Reverse(e));
  }

  /** The pass refuses ProcessDataOut before reading anything, and a magic
      that is neither "DMXM" nor "MXMD" under AutoDetectEndian, leaving
      the buffer as it was. */
  lemma BasePassRejects(s: seq<byte>, refs: map<nat, Ref>, h: int, flags: ProcessFlags)
    ensures flags.Has(ProcessDataOut) ==>
              BasePass(s, refs, h, flags) == Step(Fail(Runtime(NoProcessDataOutMessage)), s, refs)
    ensures !flags.Has(ProcessDataOut) && flags.Has(AutoDetectEndian) && 0 <= h && h + BaseSize <= |s| &&
            U(s, h, 4) != Id && U(s, h, 4) != IdBig ==>
              BasePass(s, refs, h, flags) == Step(Fail(InvalidHeader(U(s, h, 4))), s, refs)
  {
  }

  /** A detected big-endian version 1 file reaches the version 1 header
      pass with its bytes as stored, since the version is swapped twice,
      and with EnsureBigEndian set; that pass's swap of the header makes
      the version read 10040 and the magic read "DMXM". */
  lemma BigEndianVersion1(s: seq<byte>, refs: map<nat, Ref>, h: nat, flags: ProcessFlags)
    requires !flags.Has(ProcessDataOut) && flags.Has(AutoDetectEndian)
    requires h + HeaderSize <= |s| && U(s, h, 4) == IdBig
    requires ReadBE(s[h + VersionField..h + VersionField + 4]) == Version1
    ensures BasePass(s, refs, h, flags) ==
            V1HeaderPass(s, refs, h, flags.Without(AutoDetectEndian).With(EnsureBigEndian))
    ensures U(SwapSpan(s, h, HeaderSize), h + VersionField, 4) == Version1
    ensures U(SwapSpan(s, h, HeaderSize), h + MagicField, 4) == Id
  {
    var f := flags.Without(AutoDetectEndian).With(EnsureBigEndian);
    var t := SwapAt(s, h + VersionField, 4);
    ReadAfterSwap(s, h + VersionField, 4);
    SwapAtInvolutive(s, h + VersionField, 4);
    assert Detected(U(s, h + MagicField, 4), flags) == Ok(f);
    BaseDispatches(s, refs, h, flags, f);
    assert Dispatched(t, refs, h, f) == V1HeaderPass(s, refs, h, f);
    BigEndianHeaderWords(s, h);
  }

  /** The swap of a big-endian version 1 header makes its version read
      10040 and its magic read "DMXM". */
  lemma BigEndianHeaderWords(s: seq<byte>, h: nat)
    requires h + HeaderSize <= |s| && U(s, h, 4) == IdBig
    requires ReadBE(s[h + VersionField..h + VersionField + 4]) == Version1
    ensures U(SwapSpan(s, h, HeaderSize), h + VersionField, 4) == Version1
    ensures U(SwapSpan(s, h, HeaderSize), h + MagicField, 4) == Id
  {
    var t := SwapSpan(s, h, HeaderSize);
    assert HeaderSize == 4 * HeaderWords;
    MxmdV1.BigEndianWord(s, h, HeaderWords, 1);
    assert U(t, h + VersionField, 4) == ReadBE(s[h + VersionField..h + VersionField + 4]);
    MxmdV1.BigEndianWord(s, h, HeaderWords, 0);
    assert U(t, h + MagicField, 4) == ReadBE(s[h..h + 4]);
    WordBytes(s[h..h + 4], IdBig);
    MagicsReversed();
  }

  /** Each version insists on its byte order: a detected little-endian
      version 1 file is refused, with its version field already swapped
      by the dispatch. */
  lemma LittleEndianVersion1Refused(s: seq<byte>, refs: map<nat, Ref>, h: nat, flags: ProcessFlags)
    requires !flags.Has(ProcessDataOut) && flags.Has(AutoDetectEndian) && h + BaseSize <= |s|
    requires U(s, h, 4) == Id && U(s, h + VersionField, 4) == Version1
    ensures BasePass(s, refs, h, flags) ==
            Step(Fail(Runtime(NoLittleEndianMessage)), SwapAt(s, h + VersionField, 4), refs)
  {
    var f := flags.Without(AutoDetectEndian).Without(EnsureBigEndian);
    assert Detected(U(s, h + MagicField, 4), flags) == Ok(f);
    BaseDispatches(s, refs, h, flags, f);
    assert MxmdV1.BigGuards(f) == Fail(Runtime(NoLittleEndianMessage));
  }

  /** A detected big-endian file whose version reads 10111 or 10112 once
      swapped is refused by the version 2 or 3 header, with its version
      field swapped. */
  lemma BigEndianLaterVersionsRefused(s: seq<byte>, refs: map<nat, Ref>, h: nat, flags: ProcessFlags)
    requires !flags.Has(ProcessDataOut) && flags.Has(AutoDetectEndian) && h + BaseSize <= |s|
    requires U(s, h, 4) == IdBig
    requires ReadBE(s[h + VersionField..h + VersionField + 4]) == Version2 ||
             ReadBE(s[h + VersionField..h + VersionField + 4]) == Version3
    ensures BasePass(s, refs, h, flags) ==
            Step(Fail(Runtime(NoBigEndianMessage)), SwapAt(s, h + VersionField, 4), refs)
  {
    var f := flags.Without(AutoDetectEndian).With(EnsureBigEndian);
    var t := SwapAt(s, h + VersionField, 4);
    ReadAfterSwap(s, h + VersionField, 4);
    assert Detected(U(s, h + MagicField, 4), flags) == Ok(f);
    BaseDispatches(s, refs, h, flags, f);
    DispatchedBigLater(t, refs, h, f);
  }

  /** The version 2 and 3 headers refuse big-endian data before changing
      anything. */
  lemma DispatchedBigLater(t: seq<byte>, refs: map<nat, Ref>, h: nat, f: ProcessFlags)
    requires h + BaseSize <= |t| && f.Has(EnsureBigEndian)
    requires !f.Has(ProcessDataOut) && !f.Has(AutoDetectEndian)
    requires U(t, h + VersionField, 4) == Version2 || U(t, h + VersionField, 4) == Version3
    ensures Dispatched(t, refs, h, f) == Step(Fail(Runtime(NoBigEndianMessage)), t, refs)
  {
    assert MxmdV3.MaterialGuards(f) == Fail(Runtime(NoBigEndianMessage));
  }

  /** Without AutoDetectEndian the version is never swapped: a big-endian
      version 1 file given EnsureBigEndian explicitly reads version
      0x38270000 and is refused, with nothing changed. */
  lemma ExplicitBigEndianVersion1(s: seq<byte>, refs: map<nat, Ref>, h: nat, flags: ProcessFlags)
    requires !flags.Has(ProcessDataOut) && !flags.Has(AutoDetectEndian) && h + BaseSize <= |s|
    requires ReadBE(s[h + VersionField..h + VersionField + 4]) == Version1
    ensures BasePass(s, refs, h, flags) == Step(Fail(InvalidVersion(0x38270000)), s, refs)
  {
    BaseDispatches(s, refs, h, flags, flags);
    StoredVersion1(s, h);
  }

  /** A version 10040 stored big-endian reads 0x38270000 as little-endian. */
  lemma StoredVersion1(s: seq<byte>, h: nat)
    requires h + BaseSize <= |s| && ReadBE(s[h + VersionField..h + VersionField + 4]) == Version1
    ensures U(s, h + VersionField, 4) == 0x38270000
  {
    WordBytes(s[h + VersionField..h + VersionField + 4], Version1);
    Version1Reversed();
  }

  /** On a file in the host's byte order (AutoDetectEndian with "DMXM",
      or neither flag), versions 2 and 3 run on the bytes as stored, and
      any version but the three fails with nothing changed. */
  lemma LittleEndianDispatch(s: seq<byte>, refs: map<nat, Ref>, h: nat, flags: ProcessFlags)
    requires !flags.Has(ProcessDataOut) && h + BaseSize <= |s|
    requires flags.Has(AutoDetectEndian) ==> U(s, h, 4) == Id
    ensures var f := if flags.Has(AutoDetectEndian) then flags.Without(AutoDetectEndian).Without(EnsureBigEndian) else flags;
            var v := U(s, h + VersionField, 4);
            && (v == Version2 ==> BasePass(s, refs, h, flags) == V2HeaderPass(s, refs, h, f))
            && (v == Version3 ==> BasePass(s, refs, h, flags) == V3HeaderPass(s, refs, h, f))
            && (v != Version1 && v != Version2 && v != Version3 ==>
                  BasePass(s, refs, h, flags) == Step(Fail(InvalidVersion(v)), s, refs))
  {
    var f := if flags.Has(AutoDetectEndian) then flags.Without(AutoDetectEndian).Without(EnsureBigEndian) else flags;
    assert Detected(U(s, h, 4), flags) == Ok(f);
    assert BasePass(s, refs, h, flags) == Dispatched(s, refs, h, f);
  }

  // ---------------------------------------------------------------------
  // Properties of the version headers
  // ---------------------------------------------------------------------

  /** With every part excluded, the version 1 header pass only swaps the
      header and leaves the six pointers null; the version 3 pass changes
      no byte at all. */
  lemma AllExcluded(s: seq<byte>, refs: map<nat, Ref>, h: nat, flags: ProcessFlags)
    requires h + HeaderSize <= |s|
    requires Excluded(flags.userData, ExcludeModel) && Excluded(flags.userData, ExcludeMaterials)
    requires Excluded(flags.userData, ExcludeLowTextures) && Excluded(flags.userData, ExcludeTextureStreams)
    requires Excluded(flags.userData, ExcludeShaders)
    ensures MxmdV1.BigGuards(flags).Pass? ==>
              V1HeaderPass(s, refs, h, flags) == Step(Pass, SwapSpan(s, h, HeaderSize), Cleared(refs, h))
    ensures MxmdV3.MaterialGuards(flags).Pass? ==>
              V3HeaderPass(s, refs, h, flags) == Step(Pass, s, Cleared(refs, h))
  {
    ClearedForgetsFixups(SwapSpan(s, h, HeaderSize), refs, h);
    ClearedForgetsFixups(s, refs, h);
    PartsValid();
    HeaderPassesSized();
    SmtOfSized(RefOf(HeaderRefs(s, refs, h), h + CachedField));
  }

  /** A pass that changes no byte when run with the flags `f`. */
  ghost predicate KeepsBytesWith(pass: Pass, f: ProcessFlags) {
    forall s, refs, a :: pass(s, refs, a, f).bytes == s
  }

  /** The passes the little-endian headers call change no byte of
      little-endian data. */
  lemma LittlePassesKeepBytes(f: ProcessFlags)
    requires !f.Has(EnsureBigEndian)
    ensures KeepsBytesWith(Drsm.TexturesPass, f) && KeepsBytesWith(Drsm.ResourcesPass, f)
    ensures KeepsBytesWith(MxmdV1.SmtPass, f) && KeepsBytesWith(MxmdV3.SmtPass, f)
    ensures KeepsBytesWith(MxmdV3.ModelPass, f) && KeepsBytesWith(MxmdV3.StreamPass, f)
    ensures KeepsBytesWith(MxmdV3.MaterialsPass, f)
  {
    MxmdV3.PassesKeepBytes();
    MxmdV3.ReusedKeepBytes();
    TexturesKeepBytes(f);
    forall s, refs, a
      ensures Drsm.ResourcesPass(s, refs, a, f).bytes == s
      ensures MxmdV1.SmtPass(s, refs, a, f).bytes == s
    {
      MxmdV1.SmtLittle(s, refs, a, f);
      if 0 <= a && a + Drsm.ResourcesSize <= |s| {
        Drsm.ResourcesPassKeepsBytes(s, refs, a, f);
      }
    }
  }

  /** The texture pass changes no byte of little-endian data. */
  lemma TexturesKeepBytes(f: ProcessFlags)
    requires !f.Has(EnsureBigEndian)
    ensures KeepsBytesWith(Drsm.TexturesPass, f)
  {
    forall s, refs, a
      ensures Drsm.TexturesPass(s, refs, a, f).bytes == s
    {
      if 0 <= a && a + Drsm.TexturesSize <= |s| {
        Drsm.TexturesPassMeaning(s, refs, a, f);
      }
    }
  }

  /** A visit whose pass keeps the bytes keeps them. */
  lemma VisitedKeeps(w: Step, p: nat, excluded: bool, pass: Pass, f: ProcessFlags)
    requires Sized(pass) && KeepsBytesWith(pass, f)
    ensures Visited(w, p, excluded, pass, f).bytes == w.bytes
  {
  }

  /** The version 2 and 3 header passes change no byte: a little-endian
      file is loaded by fixing up pointers only. */
  lemma LittleHeadersKeepBytes(s: seq<byte>, refs: map<nat, Ref>, h: int, flags: ProcessFlags)
    ensures V2HeaderPass(s, refs, h, flags).bytes == s
    ensures V3HeaderPass(s, refs, h, flags).bytes == s
  {
    var w := LittleStart(s, refs, h, flags);
    if w.outcome.Pass? {
      V2RestKeepsBytes(w, h, flags.Rebased(h));
      V3RestKeepsBytes(w, h, flags.Rebased(h));
    }
  }

  lemma V2RestKeepsBytes(w: Step, h: nat, f: ProcessFlags)
    requires !f.Has(EnsureBigEndian)
    ensures V2Rest(w, h, f).bytes == w.bytes
  {
    LittlePassesKeepBytes(f);
    LeafSized();
    var w1 := Visited(w, h + CachedField, Excluded(f.userData, ExcludeLowTextures), Drsm.TexturesPass, f);
    VisitedKeeps(w, h + CachedField, Excluded(f.userData, ExcludeLowTextures), Drsm.TexturesPass, f);
    VisitedKeeps(w1, h + UncachedField, Excluded(f.userData, ExcludeTextureStreams), MxmdV1.SmtPass, f);
  }

  lemma V3RestKeepsBytes(w: Step, h: nat, f: ProcessFlags)
    requires !f.Has(EnsureBigEndian)
    ensures V3Rest(w, h, f).bytes == w.bytes
  {
    LittlePassesKeepBytes(f);
    PartsValid();
    SectionsKeepBytes(w, h, f, V3Parts, true);
    var c := RefOf(w.refs, h + CachedField);
    SmtOfSized(c);
    assert KeepsBytesWith(SmtOf(c), f);
    VisitedKeeps(Sections(w, h, f, V3Parts, true), h + UncachedField, Excluded(f.userData, ExcludeTextureStreams), SmtOf(c), f);
  }

  /** The shared steps keep the bytes when the passes they are given and
      the texture pass do. */
  lemma SectionsKeepBytes(w: Step, h: nat, f: ProcessFlags, parts: Parts, checked: bool)
    requires parts.Valid() && !f.Has(EnsureBigEndian)
    requires KeepsBytesWith(parts.model, f) && KeepsBytesWith(parts.streams, f)
    requires KeepsBytesWith(parts.shaders, f) && KeepsBytesWith(parts.materials, f)
    ensures Sections(w, h, f, parts, checked).bytes == w.bytes
  {
    TexturesKeepBytes(f);
    LeafSized();
    var x := f.userData;
    var w1 := ModelsVisited(w, h, Excluded(x, ExcludeModel), parts.model, parts.streams, checked, f);
    ModelsVisitedKeeps(w, h, Excluded(x, ExcludeModel), parts.model, parts.streams, checked, f);
    var w2 := Visited(w1, h + ShadersField, Excluded(x, ExcludeShaders), parts.shaders, f);
    var w3 := Visited(w2, h + MaterialsField, Excluded(x, ExcludeMaterials), parts.materials, f);
    VisitedKeeps(w1, h + ShadersField, Excluded(x, ExcludeShaders), parts.shaders, f);
    VisitedKeeps(w2, h + MaterialsField, Excluded(x, ExcludeMaterials), parts.materials, f);
    VisitedKeeps(w3, h + CachedField, Excluded(x, ExcludeLowTextures), Drsm.TexturesPass, f);
    assert Sections(w, h, f, parts, checked) ==
           Visited(w3, h + CachedField, Excluded(x, ExcludeLowTextures), Drsm.TexturesPass, f);
  }

  /** The models step keeps the bytes when the model and streams passes
      do. */
  lemma ModelsVisitedKeeps(w: Step, h: nat, excluded: bool, model: Pass, streams: Pass, checked: bool, f: ProcessFlags)
    requires Sized(model) && Sized(streams)
    requires KeepsBytesWith(model, f) && KeepsBytesWith(streams, f)
    ensures ModelsVisited(w, h, excluded, model, streams, checked, f).bytes == w.bytes
  {
  }

  /** A little-endian version 2 or 3 file comes out of the base header
      pass with the bytes it went in with. */
  lemma LittleFileKeepsBytes(s: seq<byte>, refs: map<nat, Ref>, h: nat, flags: ProcessFlags)
    requires h + BaseSize <= |s| && U(s, h, 4) == Id
    requires U(s, h + VersionField, 4) == Version2 || U(s, h + VersionField, 4) == Version3
    requires flags.Has(AutoDetectEndian) || !flags.Has(EnsureBigEndian)
    ensures BasePass(s, refs, h, flags).bytes == s
  {
    var f := if flags.Has(AutoDetectEndian) then flags.Without(AutoDetectEndian).Without(EnsureBigEndian) else flags;
    assert Detected(U(s, h, 4), flags) == Ok(f);
    if flags.NoProcessDataOut().Pass? {
      BaseDispatches(s, refs, h, flags, f);
      DispatchedLittle(s, refs, h, f);
    }
  }

  /** Past its guards and the detection, the base header pass is the
      dispatch on the stored version, with the version field swapped when
      a big-endian file was detected. */
  lemma BaseDispatches(s: seq<byte>, refs: map<nat, Ref>, h: nat, flags: ProcessFlags, f: ProcessFlags)
    requires h + BaseSize <= |s| && flags.NoProcessDataOut().Pass?
    requires Detected(U(s, h + MagicField, 4), flags) == Ok(f)
    ensures BasePass(s, refs, h, flags) ==
            Dispatched(if flags.Has(AutoDetectEndian) && f.Has(EnsureBigEndian) then SwapAt(s, h + VersionField, 4) else s, refs, h, f)
  {
    var t := if flags.Has(AutoDetectEndian) && f.Has(EnsureBigEndian) then SwapAt(s, h + VersionField, 4) else s;
    assert |t| == |s|;
    var w := Dispatched(t, refs, h, f);
    assert BasePass(s, refs, h, flags) == w;
  }

  /** The dispatch of a little-endian version 2 or 3 header keeps the
      bytes. */
  lemma DispatchedLittle(t: seq<byte>, refs: map<nat, Ref>, h: nat, f: ProcessFlags)
    requires h + BaseSize <= |t|
    requires U(t, h + VersionField, 4) == Version2 || U(t, h + VersionField, 4) == Version3
    ensures Dispatched(t, refs, h, f).bytes == t
  {
    LittleHeadersKeepBytes(t, refs, h, f);
  }

  // ---------------------------------------------------------------------
  // The choice of the streamed-texture header
  // ---------------------------------------------------------------------

  /** As written, excluding LowTextures turns the streamed-texture header
      of a file with cached textures into a DRSM resources record: the
      cached pointer has just been reset, so `GetSMT` picks the resources
      type whatever the file stores, and an SMT header, whose first word
      its own pass requires to be below 2, fails the resources record's
      id check (0x1001). */
  lemma LowTexturesExcludedAsWritten(w: Step, h: nat, f: ProcessFlags)
    requires w.outcome.Pass? && h + HeaderSize <= |w.bytes|
    requires Excluded(f.userData, ExcludeLowTextures) && !Excluded(f.userData, ExcludeTextureStreams)
    requires !f.Has(ProcessDataOut) && !f.Has(EnsureBigEndian)
    ensures var w4 := Sections(w, h, f, V3Parts, true);
            w4.outcome.Pass? && RefOf(w4.refs, h + UncachedField).At? ==>
              var u := RefOf(w4.refs, h + UncachedField).addr;
              && V3RestAsWritten(w, h, f) == Drsm.ResourcesPass(w4.bytes, w4.refs, u, f)
              && (0 <= u && u + Drsm.ResourcesSize <= |w4.bytes| && U(w4.bytes, u, 4) < 2 ==>
                    V3RestAsWritten(w, h, f) == Step(Fail(InvalidHeader(U(w4.bytes, u, 4))), w4.bytes, w4.refs))
  {
    PartsValid();
    HeaderPassesSized();
    var w4 := Sections(w, h, f, V3Parts, true);
    if w4.outcome.Pass? && RefOf(w4.refs, h + UncachedField).At? {
      SectionsResetCached(w, h, f, V3Parts, true);
      SmtOfSized(Null);
      var u := RefOf(w4.refs, h + UncachedField).addr;
      assert V3RestAsWritten(w, h, f) == Visited(w4, h + UncachedField, false, Drsm.ResourcesPass, f);
      VisitedMeaning(w4, h + UncachedField, false, Drsm.ResourcesPass, Drsm.ResourcesPass, f);
    }
  }

  /** With LowTextures excluded, the shared steps end with the cached
      textures pointer null. */
  lemma SectionsResetCached(w: Step, h: nat, f: ProcessFlags, parts: Parts, checked: bool)
    requires parts.Valid() && Excluded(f.userData, ExcludeLowTextures)
    ensures Sections(w, h, f, parts, checked).outcome.Pass? ==>
              RefOf(Sections(w, h, f, parts, checked).refs, h + CachedField).Null?
  {
    LeafSized();
    var x := f.userData;
    var w1 := ModelsVisited(w, h, Excluded(x, ExcludeModel), parts.model, parts.streams, checked, f);
    var w2 := Visited(w1, h + ShadersField, Excluded(x, ExcludeShaders), parts.shaders, f);
    var w3 := Visited(w2, h + MaterialsField, Excluded(x, ExcludeMaterials), parts.materials, f);
    assert Sections(w, h, f, parts, checked) == Visited(w3, h + CachedField, true, Drsm.TexturesPass, f);
  }

  /** Corrected, the choice follows the cachedTextures pointer the file
      stores: with LowTextures excluded, a file with cached textures
      still has its streamed textures processed as an SMT header, and the
      corrected and the written pass differ only when the cached step
      changed whether that pointer is null. */
  lemma LowTexturesExcludedIntended(w: Step, h: nat, f: ProcessFlags)
    requires w.outcome.Pass? && h + HeaderSize <= |w.bytes|
    requires !Excluded(f.userData, ExcludeTextureStreams)
    ensures var w4 := Sections(w, h, f, V3Parts, true);
            w4.outcome.Pass? && RefOf(w4.refs, h + UncachedField).At? && !RefOf(w.refs, h + CachedField).Null? ==>
              V3Rest(w, h, f) == MxmdV3.SmtPass(w4.bytes, w4.refs, RefOf(w4.refs, h + UncachedField).addr, f)
    ensures var w4 := Sections(w, h, f, V3Parts, true);
            RefOf(w4.refs, h + CachedField).Null? == RefOf(w.refs, h + CachedField).Null? ==>
              V3Rest(w, h, f) == V3RestAsWritten(w, h, f)
  {
    PartsValid();
    var w4 := Sections(w, h, f, V3Parts, true);
    var c, c4 := RefOf(w.refs, h + CachedField), RefOf(w4.refs, h + CachedField);
    SmtOfSized(c);
    SmtOfSized(c4);
    assert V3Rest(w, h, f) == Visited(w4, h + UncachedField, false, SmtOf(c), f);
    assert V3RestAsWritten(w, h, f) == Visited(w4, h + UncachedField, false, SmtOf(c4), f);
    if w4.outcome.Pass? && RefOf(w4.refs, h + UncachedField).At? && !c.Null? {
      VisitedMeaning(w4, h + UncachedField, false, SmtOf(c), SmtOf(c), f);
    }
    if c4.Null? == c.Null? {
      assert SmtOf(c) == SmtOf(c4);
    }
  }

  // ---------------------------------------------------------------------
  // The passes, on the buffer
  // ---------------------------------------------------------------------

  /** `ProcessClass(MXMD::HeaderBase)`, on the buffer. */
  method ProcessHeaderBase(buf: Buffer, h: int, flags: ProcessFlags) returns (r: Outcome)
    modifies buf, buf.bytes
    ensures Step(r, buf.bytes[..], buf.refs) == BasePass(old(buf.bytes[..]), old(buf.refs), h, flags)
  {
    r := flags.NoProcessDataOut();
    if r.Fail? {
      return;
    }
    if !buf.Fits(h, BaseSize) {
      return Fail(OutOfBounds);
    }
    var f: ProcessFlags;
    match Detected(U(buf.bytes[..], h + MagicField, 4), flags)
    case Err(e) =>
      return Fail(e);
    case Ok(detected) =>
      f := detected;
    if flags.Has(AutoDetectEndian) && f.Has(EnsureBigEndian) {
      var _ := buf.Swap(h + VersionField, 4);
    }
    r := ProcessDispatch(buf, h, f);
  }

  /** The dispatch on the stored version, on the buffer. */
  method ProcessDispatch(buf: Buffer, h: nat, f: ProcessFlags) returns (r: Outcome)
    requires h + BaseSize <= buf.bytes.Length
    modifies buf, buf.bytes
    ensures Step(r, buf.bytes[..], buf.refs) == Dispatched(old(buf.bytes[..]), old(buf.refs), h, f)
  {
    var version := U(buf.bytes[..], h + VersionField, 4);
    if version == Version1 {
      r := ProcessSwappedV1(buf, h, f);
    } else if version == Version2 {
      r := ProcessV2Header(buf, h, f);
    } else if version == Version3 {
      r := ProcessV3Header(buf, h, f);
    } else {
      r := Fail(InvalidVersion(version));
    }
  }

  /** The version swapped back, then `ProcessClass(V1::Header)`, on the
      buffer. */
  method ProcessSwappedV1(buf: Buffer, h: nat, f: ProcessFlags) returns (r: Outcome)
    requires h + BaseSize <= buf.bytes.Length
    modifies buf, buf.bytes
    ensures Step(r, buf.bytes[..], buf.refs) == V1HeaderPass(SwapAt(old(buf.bytes[..]), h + VersionField, 4), old(buf.refs), h, f)
  {
    var _ := buf.Swap(h + VersionField, 4);
    r := ProcessV1Header(buf, h, f);
  }

  /** The fixups of the six pointers, on the buffer. */
  method FixupHeader(buf: Buffer, h: nat)
    requires h + HeaderSize <= buf.bytes.Length
    modifies buf
    ensures buf.refs == HeaderRefs(buf.bytes[..], old(buf.refs), h)
  {
    HeaderPointersFit(h, buf.bytes.Length);
    buf.FixupList(h, HeaderPointers, At(h));
  }

  /** `ProcessClass(V1::Header)`, on the buffer. */
  method ProcessV1Header(buf: Buffer, h: int, flags: ProcessFlags) returns (r: Outcome)
    modifies buf, buf.bytes
    ensures Step(r, buf.bytes[..], buf.refs) == V1HeaderPass(old(buf.bytes[..]), old(buf.refs), h, flags)
  {
    r := MxmdV1.BigGuards(flags);
    if r.Fail? {
      return;
    }
    if !buf.Fits(h, HeaderSize) {
      return Fail(OutOfBounds);
    }
    MxmdV1.SwapRecord(buf, h, HeaderWords);
    FixupHeader(buf, h);
    r := ProcessV1Rest(buf, h, flags.Rebased(h));
  }

  /** The models step, on the buffer. */
  method VisitModels(buf: Buffer, h: nat, excluded: bool, model: Pass, streams: Pass, checked: bool, f: ProcessFlags)
    returns (r: Outcome)
    requires Sized(model) && Sized(streams)
    modifies buf, buf.bytes
    ensures Step(r, buf.bytes[..], buf.refs) ==
            ModelsVisited(Step(Pass, old(buf.bytes[..]), old(buf.refs)), h, excluded, model, streams, checked, f)
  {
    var m := buf.RefAt(h + ModelsField);
    if excluded || m.Null? {
      var _ := buf.Reset(h + ModelsField);
      var _ := buf.Reset(h + StreamsField);
      r := Pass;
    } else if m.At? {
      r := Run(buf, model, m.addr, f);
      if r.Fail? {
        return;
      }
      if checked {
        r := VisitPresent(buf, h + StreamsField, streams, f);
      } else {
        r := VisitDeref(buf, h + StreamsField, streams, f);
      }
    } else {
      r := Fail(WildReference);
    }
  }

  /** The shared steps, on the buffer. */
  method ProcessSections(buf: Buffer, h: nat, f: ProcessFlags, parts: Parts, checked: bool) returns (r: Outcome)
    requires parts.Valid()
    modifies buf, buf.bytes
    ensures Step(r, buf.bytes[..], buf.refs) == Sections(Step(Pass, old(buf.bytes[..]), old(buf.refs)), h, f, parts, checked)
  {
    LeafSized();
    var x := f.userData;
    r := VisitModels(buf, h, Excluded(x, ExcludeModel), parts.model, parts.streams, checked, f);
    if r.Fail? {
      return;
    }
    r := Visit(buf, h + ShadersField, Excluded(x, ExcludeShaders), parts.shaders, f);
    if r.Fail? {
      return;
    }
    r := Visit(buf, h + MaterialsField, Excluded(x, ExcludeMaterials), parts.materials, f);
    if r.Fail? {
      return;
    }
    r := Visit(buf, h + CachedField, Excluded(x, ExcludeLowTextures), Drsm.TexturesPass, f);
  }

  /** The shared steps and the uncached textures, on the buffer. */
  method ProcessSteps(buf: Buffer, h: nat, f: ProcessFlags, parts: Parts, checked: bool, uncached: Pass)
    returns (r: Outcome)
    requires parts.Valid() && Sized(uncached)
    modifies buf, buf.bytes
    ensures Step(r, buf.bytes[..], buf.refs) ==
            Steps(Step(Pass, old(buf.bytes[..]), old(buf.refs)), h, f, parts, checked, uncached)
  {
    r := ProcessSections(buf, h, f, parts, checked);
    if r.Fail? {
      return;
    }
    r := Visit(buf, h + UncachedField, Excluded(f.userData, ExcludeTextureStreams), uncached, f);
  }

  /** The version 1 steps after the fixups, on the buffer. */
  method ProcessV1Rest(buf: Buffer, h: nat, f: ProcessFlags) returns (r: Outcome)
    modifies buf, buf.bytes
    ensures Step(r, buf.bytes[..], buf.refs) == V1Rest(Step(Pass, old(buf.bytes[..]), old(buf.refs)), h, f)
  {
    PartsValid();
    LeafSized();
    r := ProcessSteps(buf, h, f, V1Parts, false, MxmdV1.SmtPass);
  }

  /** `ProcessClass(V2::Header)`, on the buffer. */
  method ProcessV2Header(buf: Buffer, h: int, flags: ProcessFlags) returns (r: Outcome)
    modifies buf, buf.bytes
    ensures Step(r, buf.bytes[..], buf.refs) == V2HeaderPass(old(buf.bytes[..]), old(buf.refs), h, flags)
  {
    r := MxmdV3.MaterialGuards(flags);
    if r.Fail? {
      return;
    }
    if !buf.Fits(h, HeaderSize) {
      return Fail(OutOfBounds);
    }
    FixupHeader(buf, h);
    r := ProcessV2Rest(buf, h, flags.Rebased(h));
  }

  /** The version 2 steps after the fixups, on the buffer. */
  method ProcessV2Rest(buf: Buffer, h: nat, f: ProcessFlags) returns (r: Outcome)
    modifies buf, buf.bytes
    ensures Step(r, buf.bytes[..], buf.refs) == V2Rest(Step(Pass, old(buf.bytes[..]), old(buf.refs)), h, f)
  {
    LeafSized();
    r := Visit(buf, h + CachedField, Excluded(f.userData, ExcludeLowTextures), Drsm.TexturesPass, f);
    if r.Fail? {
      return;
    }
    r := Visit(buf, h + UncachedField, Excluded(f.userData, ExcludeTextureStreams), MxmdV1.SmtPass, f);
  }

  /** `ProcessClass(V3::Header)`, on the buffer. */
  method ProcessV3Header(buf: Buffer, h: int, flags: ProcessFlags) returns (r: Outcome)
    modifies buf, buf.bytes
    ensures Step(r, buf.bytes[..], buf.refs) == V3HeaderPass(old(buf.bytes[..]), old(buf.refs), h, flags)
  {
    r := MxmdV3.MaterialGuards(flags);
    if r.Fail? {
      return;
    }
    if !buf.Fits(h, HeaderSize) {
      return Fail(OutOfBounds);
    }
    FixupHeader(buf, h);
    r := ProcessV3Rest(buf, h, flags.Rebased(h));
  }

  /** The version 3 steps after the fixups, on the buffer; `GetSMT` reads
      the cachedTextures pointer as it was fixed up. */
  method ProcessV3Rest(buf: Buffer, h: nat, f: ProcessFlags) returns (r: Outcome)
    modifies buf, buf.bytes
    ensures Step(r, buf.bytes[..], buf.refs) == V3Rest(Step(Pass, old(buf.bytes[..]), old(buf.refs)), h, f)
  {
    PartsValid();
    var cached := buf.RefAt(h + CachedField);
    SmtOfSized(cached);
    r := ProcessSteps(buf, h, f, V3Parts, true, SmtOf(cached));
  }
}
