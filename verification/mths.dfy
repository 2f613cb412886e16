/** MTHS shader containers (`source/mths.cpp`): the pass over a big-endian
    MTHS header, which swaps it, fixes up its ten section pointers against
    itself and then processes the vertex and fragment shaders it refers to;
    a shader's arrays are fixed up relative to the matching section of the
    header, and the names of their elements relative to its string section.

    Record layouts (`include/xenolib/mths.hpp`, `include/xenolib/internal/gx2.hpp`),
    as offsets in bytes; every field is a 32-bit word, every pointer a
    32-bit offset and an `Array` a count followed by a pointer:
    - Header (48 bytes): id 0, version 4, vertexShader 8, fragmentShader 12,
      geometryShader 16, then the sections uniformBlocks 20, uniformVars 24,
      attributes 28, samplers 32, registries 36, strings 40, programs 44.
    - FragmentShader (60 bytes): registries 0, numRegistries 4, program 8,
      shaderMode 16, uniformBlocks 20, uniformVars 28, null01 36 (four
      words), samplers 52.
    - VertexShader (92 bytes): a FragmentShader, then attributes 60 and
      null02 68 (six words).
    - Sampler and UniformBlock (12 bytes), UniformValue (20 bytes) and
      Attribute (16 bytes): `name` at 0, the other fields plain words. */
module Mths {
  import opened Outcomes
  import opened Bytes
  import opened Memory
  import opened Flags
  import opened Records

  /** `CompileFourCC("MTHS")` read as a little-endian word. */
  const Id: nat := 0x5348544D
  const Version: nat := 0x2711

  const HeaderSize: nat := 48
  const HeaderWords: nat := 12
  const VersionField: nat := 4
  const VertexShaderField: nat := 8
  const FragmentShaderField: nat := 12
  const UniformBlocksSection: nat := 20
  const UniformVarsSection: nat := 24
  const AttributesSection: nat := 28
  const SamplersSection: nat := 32
  const RegistriesSection: nat := 36
  const StringsSection: nat := 40
  const ProgramsSection: nat := 44

  const GeometryShaderField: nat := 16

  const FragmentSize: nat := 60
  const FragmentWords: nat := 15
  const RegistriesField: nat := 0
  const ProgramItemsField: nat := 12
  const UniformBlocksCount: nat := 20
  const UniformBlocksItems: nat := 24
  const UniformVarsCount: nat := 28
  const UniformVarsItems: nat := 32
  const Null01Field: nat := 36
  const SamplersCount: nat := 52
  const SamplersItems: nat := 56

  const VertexSize: nat := 92
  const AttributesCount: nat := 60
  const AttributesItems: nat := 64
  const AttributesArraySize: nat := 8
  const Null02Field: nat := 68

  const SamplerLayout := Layout(3, 0)
  const UniformBlockLayout := Layout(3, 0)
  const UniformVarLayout := Layout(5, 0)
  const AttributeLayout := Layout(4, 0)

  /** The conditions of the shaders' `assert`s on their reserved words. */
  const Null01Checks: seq<string> :=
    ["item.null01[0] == 0", "item.null01[1] == 0", "item.null01[2] == 0", "item.null01[3] == 0"]
  const Null02Checks: seq<string> :=
    ["item.null02[0] == 0", "item.null02[1] == 0", "item.null02[2] == 0",
     "item.null02[3] == 0", "item.null02[4] == 0", "item.null02[5] == 0"]

  // ---------------------------------------------------------------------
  // Reserved words
  // ---------------------------------------------------------------------

  /** The `assert`s that the words at `q`, `q + 4`, ... are zero, from
      word `k` on, in order; the first non-zero word fails with its check. */
  function NullChecks(s: seq<byte>, q: nat, checks: seq<string>, k: nat): (r: Outcome)
    requires k <= |checks| && q + 4 * |checks| <= |s|
    decreases |checks| - k
  {
    if k == |checks| then Pass
    else if U(s, q + 4 * k, 4) != 0 then Fail(Assertion(checks[k]))
    else NullChecks(s, q, checks, k + 1)
  }

  /** The checks pass exactly when every word from `k` on is zero, and a
      failure names the check of the first word from `k` on that is not. */
  lemma {:induction false} NullChecksExactly(s: seq<byte>, q: nat, checks: seq<string>, k: nat)
    requires k <= |checks| && q + 4 * |checks| <= |s|
    ensures NullChecks(s, q, checks, k).Pass? <==> forall j :: k <= j < |checks| ==> U(s, q + 4 * j, 4) == 0
    ensures NullChecks(s, q, checks, k).Fail? ==>
              exists j :: k <= j < |checks| && U(s, q + 4 * j, 4) != 0
                          && NullChecks(s, q, checks, k) == Fail(Assertion(checks[j]))
                          && forall i :: k <= i < j ==> U(s, q + 4 * i, 4) == 0
    decreases |checks| - k
  {
    if k < |checks| && U(s, q + 4 * k, 4) == 0 {
      NullChecksExactly(s, q, checks, k + 1);
    }
  }

  /** The `assert`s on the reserved words, on the buffer. */
  method CheckNulls(buf: Buffer, q: nat, checks: seq<string>) returns (r: Outcome)
    requires q + 4 * |checks| <= buf.bytes.Length
    ensures r == NullChecks(buf.bytes[..], q, checks, 0)
  {
    var k := 0;
    while k < |checks|
      invariant 0 <= k <= |checks|
      invariant NullChecks(buf.bytes[..], q, checks, 0) == NullChecks(buf.bytes[..], q, checks, k)
    {
      if U(buf.bytes[..], q + 4 * k, 4) != 0 {
        return Fail(Assertion(checks[k]));
      }
      k := k + 1;
    }
    return Pass;
  }

  // ---------------------------------------------------------------------
  // Shaders
  // ---------------------------------------------------------------------

  /** The checks both shader passes start with: no ProcessDataOut,
      big-endian data, no AutoDetectEndian. */
  function ShaderGuards(flags: ProcessFlags): (r: Outcome)
    ensures r.Pass? <==> !flags.Has(ProcessDataOut) && flags.Has(EnsureBigEndian) && !flags.Has(AutoDetectEndian)
  {
    if flags.NoProcessDataOut().Fail? then flags.NoProcessDataOut()
    else if flags.NoLittleEndian().Fail? then flags.NoLittleEndian()
    else flags.NoAutoDetect()
  }

  /** `FixupRelative(hdr->section)`: the pointer at `q` fixed up against
      what the header's section pointer at `section` refers to. */
  function Relative(refs: map<nat, Ref>, s: seq<byte>, q: nat, section: nat): (r: map<nat, Ref>)
    requires q + 4 <= |s|
  {
    refs[q := Resolve(RefOf(refs, section), I(s, q, 4))]
  }

  /** A relative fixup changes no other pointer field. */
  lemma RelativeOther(refs: map<nat, Ref>, s: seq<byte>, q: nat, section: nat, k: int)
    requires q + 4 <= |s| && k != q
    ensures RefOf(Relative(refs, s, q, section), k) == RefOf(refs, k)
  {
  }

  /** A pointer of a shader fixed up relative to a section of the header:
      the pointer's position in the shader and the section pointer's
      position in the header. */
  datatype Relocation = Relocation(field: nat, section: nat)

  /** The fragment shader's relative fixups, in order: `program` against the
      header's programs, `registries` against its registries, then
      `samplers`, `uniformBlocks` and `uniformVars` against the sections of
      the same names. */
  const FragmentRelocations: seq<Relocation> :=
    [Relocation(ProgramItemsField, ProgramsSection), Relocation(RegistriesField, RegistriesSection),
     Relocation(SamplersItems, SamplersSection), Relocation(UniformBlocksItems, UniformBlocksSection),
     Relocation(UniformVarsItems, UniformVarsSection)]

  /** Every pointer the relocations `rs` fix up in the shader at `p` lies
      inside `n` bytes. */
  predicate RelocationsFit(p: nat, rs: seq<Relocation>, n: nat) {
    forall i :: 0 <= i < |rs| ==> p + rs[i].field + 4 <= n
  }

  /** The relative fixups `rs` of the shader at `p` from the `i`-th on, one
      after the other, for the header at `hdr`. */
  function Relocated(refs: map<nat, Ref>, s: seq<byte>, p: nat, hdr: nat, rs: seq<Relocation>, i: nat): map<nat, Ref>
    requires i <= |rs| && RelocationsFit(p, rs, |s|)
    decreases |rs| - i
  {
    if i == |rs| then refs
    else Relocated(Relative(refs, s, p + rs[i].field, hdr + rs[i].section), s, p, hdr, rs, i + 1)
  }

  /** The five relative fixups of the fragment shader at `p`, for the
      header at `hdr`. */
  function FragmentFixups(s: seq<byte>, refs: map<nat, Ref>, p: nat, hdr: nat): map<nat, Ref>
    requires p + FragmentSize <= |s|
  {
    assert RelocationsFit(p, FragmentRelocations, |s|);
    Relocated(refs, s, p, hdr, FragmentRelocations, 0)
  }

  /** The loop over one of a shader's arrays, after the step `w`: the
      array's count at `count` and its items at `items`, every element
      swapped and its `name` fixed up against the header's strings at
      `strings`. Nothing happens after a failure. */
  function ArrayStage(w: Step, count: nat, items: nat, l: Layout, strings: nat): (w': Step)
    requires l.Valid() && count + 4 <= |w.bytes|
    ensures |w'.bytes| == |w.bytes|
    ensures w.outcome.Fail? ==> w' == w
  {
    if w.outcome.Fail? then w
    else Walked(w.bytes, w.refs, RefOf(w.refs, items), U(w.bytes, count, 4), l, true, RefOf(w.refs, strings))
  }

  /** An `Array` field of a shader: its count at `count` from the shader's
      start, its items pointer right after it, and its elements' layout. */
  datatype ArrayField = ArrayField(count: nat, layout: Layout)

  /** The arrays the fragment shader walks, in order: samplers, uniform
      blocks, uniform values. */
  const FragmentArrays: seq<ArrayField> :=
    [ArrayField(SamplersCount, SamplerLayout), ArrayField(UniformBlocksCount, UniformBlockLayout),
     ArrayField(UniformVarsCount, UniformVarLayout)]

  /** The array the vertex shader walks besides: its attributes. */
  const VertexArrays: seq<ArrayField> := [ArrayField(AttributesCount, AttributeLayout)]

  /** Every array field of the shader at `p` lies inside `n` bytes. */
  predicate ArraysFit(p: nat, arrays: seq<ArrayField>, n: nat) {
    forall i :: 0 <= i < |arrays| ==> arrays[i].layout.Valid() && p + arrays[i].count + 8 <= n
  }

  lemma ShaderArraysFit(p: nat, n: nat)
    requires p + FragmentSize <= n
    ensures ArraysFit(p, FragmentArrays, n)
    ensures p + VertexSize <= n ==> ArraysFit(p, VertexArrays, n)
  {
  }

  /** The loops over the arrays of the shader at `p`, one after the other,
      from the step `w` on, each element's `name` fixed up against the
      header's strings at `strings`. */
  function Arrays(w: Step, p: nat, arrays: seq<ArrayField>, strings: nat): (w': Step)
    requires ArraysFit(p, arrays, |w.bytes|)
    ensures |w'.bytes| == |w.bytes|
    ensures w.outcome.Fail? ==> w' == w
    decreases |arrays|
  {
    if arrays == [] then w
    else
      var a := arrays[0];
      Arrays(ArrayStage(w, p + a.count, p + a.count + 4, a.layout, strings), p, arrays[1..], strings)
  }

  /** The first of the loops over `arrays`, then the others. */
  lemma ArraysNext(w: Step, p: nat, arrays: seq<ArrayField>, strings: nat)
    requires arrays != [] && ArraysFit(p, arrays, |w.bytes|)
    ensures arrays[0].layout.Valid() && p + arrays[0].count + 4 <= |w.bytes|
    ensures ArraysFit(p, arrays[1..], |w.bytes|)
    ensures Arrays(w, p, arrays, strings) ==
              Arrays(ArrayStage(w, p + arrays[0].count, p + arrays[0].count + 4, arrays[0].layout, strings),
                     p, arrays[1..], strings)
  {
  }

  /** The reserved-word checks after the step `w`: the `assert`s that the
      words at `q`, `q + 4`, ... are zero, on the bytes `w` left. They
      pass exactly when all those words are zero, and change nothing. */
  function Checked(w: Step, q: nat, checks: seq<string>): (w': Step)
    requires q + 4 * |checks| <= |w.bytes|
    ensures w'.bytes == w.bytes && w'.refs == w.refs
    ensures w.outcome.Fail? ==> w' == w
    ensures w'.outcome.Pass? <==> w.outcome.Pass? && forall k :: 0 <= k < |checks| ==> U(w.bytes, q + 4 * k, 4) == 0
  {
    NullChecksExactly(w.bytes, q, checks, 0);
    if w.outcome.Fail? then w else Step(NullChecks(w.bytes, q, checks, 0), w.bytes, w.refs)
  }

  /** The fragment shader pass after its words were swapped: the header
      `base` refers to must be there; then `FragmentAt`. */
  function FragmentBody(s: seq<byte>, refs: map<nat, Ref>, p: nat, base: Ref): (w: Step)
    requires p + FragmentSize <= |s|
    ensures |w.bytes| == |s|
  {
    match Follow(base, HeaderSize, |s|)
    case Err(e) => Step(Fail(e), s, refs)
    case Ok(hdr) => FragmentAt(s, refs, p, hdr)
  }

  /** The fragment shader at `p`, for the header at `hdr`: the relative
      fixups, the loops over its arrays and the checks of `null01`. */
  function FragmentAt(s: seq<byte>, refs: map<nat, Ref>, p: nat, hdr: nat): (w: Step)
    requires p + FragmentSize <= |s|
    ensures |w.bytes| == |s|
  {
    ShaderArraysFit(p, |s|);
    ArraysChecked(Step(Pass, s, FragmentFixups(s, refs, p, hdr)), p, FragmentArrays, hdr + StringsSection,
                  p + Null01Field, Null01Checks)
  }

  /** The loops over `arrays` after the step `w`, then, when they pass, the
      checks of the reserved words at `q`. */
  function ArraysChecked(w: Step, p: nat, arrays: seq<ArrayField>, strings: nat, q: nat, checks: seq<string>): (w': Step)
    requires ArraysFit(p, arrays, |w.bytes|) && q + 4 * |checks| <= |w.bytes|
    ensures |w'.bytes| == |w.bytes|
  {
    Checked(Arrays(w, p, arrays, strings), q, checks)
  }

  /** What the vertex shader at `p` adds to the fragment shader pass: its
      `attributes` array swapped, the header `base` refers to must be
      there, then `AttributesAt`. */
  function AttributesBody(s: seq<byte>, refs: map<nat, Ref>, p: nat, base: Ref): (w: Step)
    requires p + VertexSize <= |s|
    ensures |w.bytes| == |s|
  {
    var s1 := SwapSpan(s, p + AttributesCount, AttributesArraySize);
    match Follow(base, HeaderSize, |s|)
    case Err(e) => Step(Fail(e), s1, refs)
    case Ok(hdr) => AttributesAt(s1, refs, p, hdr)
  }

  /** The attributes of the vertex shader at `p`, for the header at `hdr`:
      fixed up against the header's attributes, the loop over them, and the
      checks of `null02`. */
  function AttributesAt(s: seq<byte>, refs: map<nat, Ref>, p: nat, hdr: nat): (w: Step)
    requires p + VertexSize <= |s|
    ensures |w.bytes| == |s|
  {
    ShaderArraysFit(p, |s|);
    ArraysChecked(Step(Pass, s, Relative(refs, s, p + AttributesItems, hdr + AttributesSection)), p, VertexArrays,
                  hdr + StringsSection, p + Null02Field, Null02Checks)
  }

  /** The two kinds of shader a header refers to. */
  datatype Shader = VertexShader | FragmentShader {
    function Size(): nat {
      if VertexShader? then VertexSize else FragmentSize
    }
  }

  /** `ProcessClass` on the shader of kind `kind` that `item` refers to:
      the guards, then, for a fragment shader, its 15 words swapped and
      `FragmentBody` with the header `flags.base` refers to; for a vertex
      shader, the fragment shader pass on the same record (the base class)
      and, when it passes, `AttributesBody`. */
  function ShaderPass(s: seq<byte>, refs: map<nat, Ref>, item: Ref, flags: ProcessFlags, kind: Shader): (w: Step)
    ensures |w.bytes| == |s|
    decreases kind.VertexShader?
  {
    if ShaderGuards(flags).Fail? then Step(ShaderGuards(flags), s, refs)
    else match Follow(item, kind.Size(), |s|)
      case Err(e) => Step(Fail(e), s, refs)
      case Ok(p) =>
        if kind.FragmentShader? then FragmentBody(SwapSpan(s, p, FragmentSize), refs, p, flags.base)
        else
          var w := ShaderPass(s, refs, item, flags, FragmentShader);
          if w.outcome.Fail? then w else AttributesBody(w.bytes, w.refs, p, flags.base)
  }

  // ---------------------------------------------------------------------
  // Header
  // ---------------------------------------------------------------------

  /** The checks of the header pass before it changes anything, and the
      flags it goes on with: ProcessDataOut is refused; the id must be
      "MTHS", and AutoDetectEndian, dropped, selects big-endian; without
      it, the flags must already ask for big-endian. */
  function HeaderFlags(s: seq<byte>, h: int, flags: ProcessFlags): (r: Result<ProcessFlags>)
    ensures r.Ok? ==> 0 <= h && h + HeaderSize <= |s|
  {
    if flags.NoProcessDataOut().Fail? then Err(flags.NoProcessDataOut().error)
    else if !(0 <= h && h + HeaderSize <= |s|) then Err(OutOfBounds)
    else
      var f := if flags.Has(AutoDetectEndian) then flags.Without(AutoDetectEndian).With(EnsureBigEndian) else flags;
      if U(s, h, 4) != Id then Err(InvalidHeader(U(s, h, 4)))
      else if f.NoLittleEndian().Fail? then Err(f.NoLittleEndian().error)
      else Ok(f)
  }

  /** The vertex shader the header at `h` refers to, processed when its
      pointer is not null. */
  function VertexStage(s: seq<byte>, refs: map<nat, Ref>, h: nat, f: ProcessFlags): (w: Step)
    ensures |w.bytes| == |s|
  {
    var v := RefOf(refs, h + VertexShaderField);
    if v.Null? then Step(Pass, s, refs) else ShaderPass(s, refs, v, f, VertexShader)
  }

  /** After the step `w`, the fragment shader the header at `h` refers to,
      processed when its pointer is not null. */
  function FragmentStage(w: Step, h: nat, f: ProcessFlags): (w': Step)
    ensures |w'.bytes| == |w.bytes|
  {
    if w.outcome.Fail? then w
    else
      var v := RefOf(w.refs, h + FragmentShaderField);
      if v.Null? then w else ShaderPass(w.bytes, w.refs, v, f, FragmentShader)
  }

  /** The header's words after the swap. */
  function HeaderBytes(s: seq<byte>, h: nat): (t: seq<byte>)
    requires h + HeaderSize <= |s|
    ensures |t| == |s|
  {
    SwapSpan(s, h, HeaderSize)
  }

  /** The header's ten pointers, in the order `es::FixupPointers` is given
      them: attributes, geometryShader, fragmentShader, programs,
      registries, samplers, strings, uniformBlocks, uniformVars,
      vertexShader. */
  const HeaderPointers: seq<Field> :=
    [Field(AttributesSection, 4), Field(GeometryShaderField, 4), Field(FragmentShaderField, 4),
     Field(ProgramsSection, 4), Field(RegistriesSection, 4), Field(SamplersSection, 4),
     Field(StringsSection, 4), Field(UniformBlocksSection, 4), Field(UniformVarsSection, 4),
     Field(VertexShaderField, 4)]

  /** The references after `es::FixupPointers` fixed up the header's ten
      pointers against the header. */
  function HeaderRefs(s: seq<byte>, refs: map<nat, Ref>, h: nat): map<nat, Ref>
    requires h + HeaderSize <= |s|
  {
    assert FieldsFit(h, HeaderPointers, |s|);
    FixEach(refs, s, h, HeaderPointers, At(h))
  }

  /** `ProcessClass(MTHS::Header)` on the header at `h`: the checks of
      `HeaderFlags`, the swap of its 12 words, the version check, the fixups
      of its pointers, then the vertex shader and the fragment shader, with
      the header as base. */
  function HeaderPass(s: seq<byte>, refs: map<nat, Ref>, h: int, flags: ProcessFlags): (w: Step)
    ensures |w.bytes| == |s|
  {
    match HeaderFlags(s, h, flags)
    case Err(e) => Step(Fail(e), s, refs)
    case Ok(f) =>
      var s1 := HeaderBytes(s, h);
      if U(s1, h + VersionField, 4) != Version then Step(Fail(InvalidVersion(U(s1, h + VersionField, 4))), s1, refs)
      else FragmentStage(VertexStage(s1, HeaderRefs(s1, refs, h), h, f.Rebased(h)), h, f.Rebased(h))
  }

  // ---------------------------------------------------------------------
  // Properties
  // ---------------------------------------------------------------------

  /** The header is accepted exactly when ProcessDataOut is absent, it lies
      in the buffer, its id (read before any swap) is "MTHS", and either
      AutoDetectEndian or EnsureBigEndian is set. The flags passed on are
      big-endian without AutoDetectEndian, nothing else changed. A wrong id
      is reported with the id read, whether AutoDetectEndian was set or not;
      a right id without either flag is refused as little-endian. */
  lemma HeaderFlagsExactly(s: seq<byte>, h: nat, flags: ProcessFlags)
    requires h + HeaderSize <= |s|
    ensures HeaderFlags(s, h, flags).Ok? <==>
              && !flags.Has(ProcessDataOut) && U(s, h, 4) == Id
              && (flags.Has(AutoDetectEndian) || flags.Has(EnsureBigEndian))
    ensures HeaderFlags(s, h, flags).Ok? ==>
              HeaderFlags(s, h, flags).value == flags.(flags := flags.flags - {AutoDetectEndian} + {EnsureBigEndian})
    ensures !flags.Has(ProcessDataOut) && U(s, h, 4) != Id ==> HeaderFlags(s, h, flags) == Err(InvalidHeader(U(s, h, 4)))
    ensures !flags.Has(ProcessDataOut) && U(s, h, 4) == Id && !flags.Has(AutoDetectEndian) && !flags.Has(EnsureBigEndian) ==>
              HeaderFlags(s, h, flags) == Err(Runtime(NoLittleEndianMessage))
  {
    if HeaderFlags(s, h, flags).Ok? && !flags.Has(AutoDetectEndian) {
      assert flags.flags - {AutoDetectEndian} + {EnsureBigEndian} == flags.flags;
    }
  }

  /** A header whose checks fail is refused before any byte or reference
      is touched; one whose version, read big-endian, is not 0x2711 is
      refused with that version after the header's words were swapped. */
  lemma HeaderPassRejects(s: seq<byte>, refs: map<nat, Ref>, h: nat, flags: ProcessFlags)
    requires h + HeaderSize <= |s|
    ensures HeaderFlags(s, h, flags).Err? ==>
              HeaderPass(s, refs, h, flags) == Step(Fail(HeaderFlags(s, h, flags).error), s, refs)
    ensures HeaderFlags(s, h, flags).Ok? && ReadBE(s[h + VersionField..h + VersionField + 4]) != Version ==>
              HeaderPass(s, refs, h, flags) ==
                Step(Fail(InvalidVersion(ReadBE(s[h + VersionField..h + VersionField + 4]))), HeaderBytes(s, h), refs)
  {
    SwapSpanRead(s, h, HeaderSize, 1);
  }

  /** After the header's fixups, each of its ten pointers holds the
      header's address plus the offset it stores. */
  lemma HeaderRefsMeaning(s: seq<byte>, refs: map<nat, Ref>, h: nat)
    requires h + HeaderSize <= |s|
    ensures forall j :: 0 <= j < |HeaderPointers| ==>
              RefOf(HeaderRefs(s, refs, h), h + HeaderPointers[j].offset) == Resolve(At(h), I(s, h + HeaderPointers[j].offset, 4))
  {
    HeaderPointersDistinct();
    HeaderPointersWords();
    assert FieldsFit(h, HeaderPointers, |s|);
    FixEachAll(refs, s, h, HeaderPointers, At(h));
  }

  /** The header's ten pointers are 32-bit words. */
  lemma HeaderPointersWords()
    ensures forall j :: 0 <= j < |HeaderPointers| ==> HeaderPointers[j].width == 4
  {
  }

  /** The header's fixups change no pointer field outside the header. */
  lemma HeaderRefsFrame(s: seq<byte>, refs: map<nat, Ref>, h: nat)
    requires h + HeaderSize <= |s|
    ensures forall k :: !(h <= k < h + HeaderSize) ==> RefOf(HeaderRefs(s, refs, h), k) == RefOf(refs, k)
  {
    var fs := HeaderPointers;
    assert FieldsFit(h, fs, |s|);
    forall k: int | !(h <= k < h + HeaderSize)
      ensures RefOf(FixEach(refs, s, h, fs, At(h)), k) == RefOf(refs, k)
    {
      if k >= 0 {
        FixEachOther(refs, s, h, fs, At(h), k);
      }
    }
  }

  /** The header's ten pointers are distinct fields. */
  lemma HeaderPointersDistinct()
    ensures DistinctOffsets(HeaderPointers)
  {
  }

  /** A header pass that passes went through accepted checks and a version
      that, read big-endian, is 0x2711. */
  lemma HeaderPassValid(s: seq<byte>, refs: map<nat, Ref>, h: nat, flags: ProcessFlags)
    requires h + HeaderSize <= |s| && HeaderPass(s, refs, h, flags).outcome.Pass?
    ensures HeaderFlags(s, h, flags).Ok?
    ensures !flags.Has(ProcessDataOut) && U(s, h, 4) == Id
    ensures ReadBE(s[h + VersionField..h + VersionField + 4]) == Version
  {
    SwapSpanRead(s, h, HeaderSize, 1);
    HeaderFlagsExactly(s, h, flags);
  }

  /** Once the header is accepted, the pass goes on with the vertex
      shader and then the fragment shader, on the swapped header's bytes and
      its fixed-up pointers, with the accepted flags and the header as base. */
  lemma HeaderPassShaders(s: seq<byte>, refs: map<nat, Ref>, h: nat, flags: ProcessFlags)
    requires h + HeaderSize <= |s| && HeaderFlags(s, h, flags).Ok?
    requires ReadBE(s[h + VersionField..h + VersionField + 4]) == Version
    ensures HeaderPass(s, refs, h, flags) ==
              FragmentStage(VertexStage(HeaderBytes(s, h), HeaderRefs(HeaderBytes(s, h), refs, h), h, HeaderFlags(s, h, flags).value.Rebased(h)),
                            h, HeaderFlags(s, h, flags).value.Rebased(h))
  {
    SwapSpanRead(s, h, HeaderSize, 1);
  }

  /** The fragment shader's five pointers (`program`, `registries`,
      `samplers`, `uniformBlocks`, `uniformVars`) hold what the matching
      section pointer of the header refers to plus their offsets, when the
      shader and the header do not overlap. */
  lemma FragmentFixupsMeaning(s: seq<byte>, refs: map<nat, Ref>, p: nat, hdr: nat)
    requires p + FragmentSize <= |s| && (p + FragmentSize <= hdr || hdr + HeaderSize <= p)
    ensures forall j :: 0 <= j < |FragmentRelocations| ==>
              RefOf(FragmentFixups(s, refs, p, hdr), p + FragmentRelocations[j].field) ==
                Resolve(RefOf(refs, hdr + FragmentRelocations[j].section), I(s, p + FragmentRelocations[j].field, 4))
  {
    var rs := FragmentRelocations;
    assert RelocationsFit(p, rs, |s|);
    assert Apart(p, hdr, rs);
    forall j | 0 <= j < |rs|
      ensures RefOf(Relocated(refs, s, p, hdr, rs, 0), p + rs[j].field) ==
                Resolve(RefOf(refs, hdr + rs[j].section), I(s, p + rs[j].field, 4))
    {
      RelocatedAt(refs, s, p, hdr, rs, 0, j);
    }
  }

  /** The fragment shader's fixups change no pointer field outside the
      shader. */
  lemma FragmentFixupsFrame(s: seq<byte>, refs: map<nat, Ref>, p: nat, hdr: nat)
    requires p + FragmentSize <= |s|
    ensures forall k :: !(p <= k < p + FragmentSize) ==> RefOf(FragmentFixups(s, refs, p, hdr), k) == RefOf(refs, k)
  {
    var rs := FragmentRelocations;
    assert RelocationsFit(p, rs, |s|);
    forall k: int | !(p <= k < p + FragmentSize)
      ensures RefOf(Relocated(refs, s, p, hdr, rs, 0), k) == RefOf(refs, k)
    {
      RelocatedOther(refs, s, p, hdr, rs, 0, k);
    }
  }

  /** The relocations `rs` fix up distinct pointers of the shader at `p`,
      and read section pointers of the header at `hdr`, which lies apart
      from the shader. */
  predicate Apart(p: nat, hdr: nat, rs: seq<Relocation>) {
    (p + FragmentSize <= hdr || hdr + HeaderSize <= p)
    && (forall i :: 0 <= i < |rs| ==> rs[i].section + 4 <= HeaderSize && rs[i].field + 4 <= FragmentSize)
    && (forall i, j :: 0 <= i < j < |rs| ==> rs[i].field != rs[j].field)
  }

  /** Relative fixups change no pointer field but their own. */
  lemma {:induction false} RelocatedOther(refs: map<nat, Ref>, s: seq<byte>, p: nat, hdr: nat, rs: seq<Relocation>, i: nat, k: int)
    requires i <= |rs| && RelocationsFit(p, rs, |s|)
    requires forall m :: i <= m < |rs| ==> k != p + rs[m].field
    ensures RefOf(Relocated(refs, s, p, hdr, rs, i), k) == RefOf(refs, k)
    decreases |rs| - i
  {
    if i < |rs| {
      RelativeOther(refs, s, p + rs[i].field, hdr + rs[i].section, k);
      RelocatedOther(Relative(refs, s, p + rs[i].field, hdr + rs[i].section), s, p, hdr, rs, i + 1, k);
    }
  }

  /** When the relocations are apart, each pointer holds what its section
      pointer held before any of them, plus the pointer's offset. */
  lemma {:induction false} RelocatedAt(refs: map<nat, Ref>, s: seq<byte>, p: nat, hdr: nat, rs: seq<Relocation>, i: nat, j: nat)
    requires RelocationsFit(p, rs, |s|) && Apart(p, hdr, rs) && i <= j < |rs|
    ensures RefOf(Relocated(refs, s, p, hdr, rs, i), p + rs[j].field) ==
              Resolve(RefOf(refs, hdr + rs[j].section), I(s, p + rs[j].field, 4))
    decreases |rs| - i, 1
  {
    if j == i {
      RelocatedFirst(refs, s, p, hdr, rs, i);
    } else {
      RelocatedLater(refs, s, p, hdr, rs, i, j);
    }
  }

  /** The first of the relocations from the `i`-th on: the later ones
      leave its pointer alone. */
  lemma RelocatedFirst(refs: map<nat, Ref>, s: seq<byte>, p: nat, hdr: nat, rs: seq<Relocation>, i: nat)
    requires RelocationsFit(p, rs, |s|) && Apart(p, hdr, rs) && i < |rs|
    ensures RefOf(Relocated(refs, s, p, hdr, rs, i), p + rs[i].field) ==
              Resolve(RefOf(refs, hdr + rs[i].section), I(s, p + rs[i].field, 4))
  {
    RelocatedOther(Relative(refs, s, p + rs[i].field, hdr + rs[i].section), s, p, hdr, rs, i + 1, p + rs[i].field);
  }

  /** A later relocation reads its section pointer as it was before the
      `i`-th, which fixed up a pointer of the shader. */
  lemma {:induction false} RelocatedLater(refs: map<nat, Ref>, s: seq<byte>, p: nat, hdr: nat, rs: seq<Relocation>, i: nat, j: nat)
    requires RelocationsFit(p, rs, |s|) && Apart(p, hdr, rs) && i < j < |rs|
    ensures RefOf(Relocated(refs, s, p, hdr, rs, i), p + rs[j].field) ==
              Resolve(RefOf(refs, hdr + rs[j].section), I(s, p + rs[j].field, 4))
    decreases |rs| - i, 0
  {
    var r1 := Relative(refs, s, p + rs[i].field, hdr + rs[i].section);
    RelocatedAt(r1, s, p, hdr, rs, i + 1, j);
    RelativeOther(refs, s, p + rs[i].field, hdr + rs[i].section, hdr + rs[j].section);
  }

  /** A loop over a shader's array fails exactly when a non-empty array is
      not inside the buffer; when it passes every element's `name` holds
      what the header's strings refer to plus the offset the element
      stores, and no pointer field outside the array changed. */
  lemma ArrayStageNames(w: Step, count: nat, items: nat, l: Layout, strings: nat)
    requires l.Valid() && count + 4 <= |w.bytes| && w.outcome.Pass?
    ensures ArrayStage(w, count, items, l, strings).outcome.Pass? <==>
              U(w.bytes, count, 4) == 0
              || (RefOf(w.refs, items).At? && 0 <= RefOf(w.refs, items).addr
                  && RefOf(w.refs, items).addr + 4 * Words(U(w.bytes, count, 4), l) <= |w.bytes|)
    ensures ArrayStage(w, count, items, l, strings).outcome.Pass? && U(w.bytes, count, 4) > 0 ==>
              && RefOf(w.refs, items).At? && RefOf(w.refs, items).addr >= 0
              && (forall j :: 0 <= j < U(w.bytes, count, 4) ==>
                    FixedAt(ArrayStage(w, count, items, l, strings).bytes, ArrayStage(w, count, items, l, strings).refs,
                            FieldAt(RefOf(w.refs, items).addr, j, l), RefOf(w.refs, strings)))
              && (forall k :: !(RefOf(w.refs, items).addr <= k < RefOf(w.refs, items).addr + 4 * Words(U(w.bytes, count, 4), l)) ==>
                    RefOf(ArrayStage(w, count, items, l, strings).refs, k) == RefOf(w.refs, k))
  {
    WalkedMeaning(w.bytes, w.refs, RefOf(w.refs, items), U(w.bytes, count, 4), l, true, RefOf(w.refs, strings));
  }

  /** A fragment shader pass that passes had its guards pass, lay inside
      the buffer, found the header, and leaves the four `null01` words
      zero. */
  lemma FragmentPassNulls(s: seq<byte>, refs: map<nat, Ref>, p: nat, flags: ProcessFlags)
    requires ShaderPass(s, refs, At(p), flags, FragmentShader).outcome.Pass?
    ensures ShaderGuards(flags).Pass? && p + FragmentSize <= |s| && Follow(flags.base, HeaderSize, |s|).Ok?
    ensures forall k :: 0 <= k < |Null01Checks| ==>
              U(ShaderPass(s, refs, At(p), flags, FragmentShader).bytes, p + Null01Field + 4 * k, 4) == 0
  {
  }

  /** The vertex shader pass is the fragment shader pass on the same
      record followed by the attributes: it fails as the fragment pass
      does, and otherwise continues from the state the fragment pass
      leaves. */
  lemma VertexIsFragmentPlus(s: seq<byte>, refs: map<nat, Ref>, p: nat, flags: ProcessFlags)
    requires p + VertexSize <= |s| && ShaderGuards(flags).Pass?
    ensures ShaderPass(s, refs, At(p), flags, FragmentShader).outcome.Fail? ==>
              ShaderPass(s, refs, At(p), flags, VertexShader) == ShaderPass(s, refs, At(p), flags, FragmentShader)
    ensures ShaderPass(s, refs, At(p), flags, FragmentShader).outcome.Pass? ==>
              ShaderPass(s, refs, At(p), flags, VertexShader) ==
                AttributesBody(ShaderPass(s, refs, At(p), flags, FragmentShader).bytes,
                               ShaderPass(s, refs, At(p), flags, FragmentShader).refs, p, flags.base)
  {
  }

  /** A vertex shader pass that passes went through a passing fragment
      shader pass and leaves the six `null02` words zero. */
  lemma VertexPassNulls(s: seq<byte>, refs: map<nat, Ref>, p: nat, flags: ProcessFlags)
    requires ShaderPass(s, refs, At(p), flags, VertexShader).outcome.Pass?
    ensures ShaderGuards(flags).Pass? && p + VertexSize <= |s|
    ensures ShaderPass(s, refs, At(p), flags, FragmentShader).outcome.Pass?
    ensures forall k :: 0 <= k < |Null02Checks| ==>
              U(ShaderPass(s, refs, At(p), flags, VertexShader).bytes, p + Null02Field + 4 * k, 4) == 0
  {
  }

  // ---------------------------------------------------------------------
  // The passes on the buffer
  // ---------------------------------------------------------------------

  /** The loop over one array of a shader, on the buffer: the elements
      at what the pointer at `items` refers to, as many as the count at
      `count` says, each swapped and its `name` fixed up against what the
      pointer at `strings` refers to. */
  method ProcessArray(buf: Buffer, count: nat, items: nat, l: Layout, strings: nat) returns (r: Outcome)
    requires l.Valid() && count + 4 <= buf.bytes.Length
    modifies buf, buf.bytes
    ensures Step(r, buf.bytes[..], buf.refs) == ArrayStage(Step(Pass, old(buf.bytes[..]), old(buf.refs)), count, items, l, strings)
  {
    r := Walk(buf, buf.RefAt(items), U(buf.bytes[..], count, 4), l, true, buf.RefAt(strings));
  }

  /** The loops over the arrays `arrays` of the shader at `p`, one after
      the other, stopping at the first failure. */
  method ProcessArrays(buf: Buffer, p: nat, arrays: seq<ArrayField>, strings: nat) returns (r: Outcome)
    requires ArraysFit(p, arrays, buf.bytes.Length)
    modifies buf, buf.bytes
    ensures Step(r, buf.bytes[..], buf.refs) == Arrays(Step(Pass, old(buf.bytes[..]), old(buf.refs)), p, arrays, strings)
  {
    ghost var goal := Arrays(Step(Pass, buf.bytes[..], buf.refs), p, arrays, strings);
    var i := 0;
    while i < |arrays|
      invariant 0 <= i <= |arrays|
      invariant ArraysFit(p, arrays[i..], buf.bytes.Length)
      invariant goal == Arrays(Step(Pass, buf.bytes[..], buf.refs), p, arrays[i..], strings)
    {
      ghost var before := Step(Pass, buf.bytes[..], buf.refs);
      var a := arrays[i];
      ArraysNext(before, p, arrays[i..], strings);
      assert arrays[i..][0] == a && arrays[i..][1..] == arrays[i + 1..];
      r := ProcessArray(buf, p + a.count, p + a.count + 4, a.layout, strings);
      assert goal == Arrays(Step(r, buf.bytes[..], buf.refs), p, arrays[i + 1..], strings);
      if r.Fail? {
        return;
      }
      i := i + 1;
    }
    return Pass;
  }

  /** The fragment shader pass after the swap of its words, on the buffer. */
  method ProcessFragmentBody(buf: Buffer, p: nat, base: Ref) returns (r: Outcome)
    requires p + FragmentSize <= buf.bytes.Length
    modifies buf, buf.bytes
    ensures Step(r, buf.bytes[..], buf.refs) == FragmentBody(old(buf.bytes[..]), old(buf.refs), p, base)
  {
    match buf.Target(base, HeaderSize)
    case Err(e) =>
      return Fail(e);
    case Ok(hdr) =>
      r := ProcessFragmentAt(buf, p, hdr);
  }

  /** `FragmentAt` on the buffer. */
  method ProcessFragmentAt(buf: Buffer, p: nat, hdr: nat) returns (r: Outcome)
    requires p + FragmentSize <= buf.bytes.Length
    modifies buf, buf.bytes
    ensures Step(r, buf.bytes[..], buf.refs) == FragmentAt(old(buf.bytes[..]), old(buf.refs), p, hdr)
  {
    ghost var s, refs := buf.bytes[..], buf.refs;
    FragmentFits(p, buf.bytes.Length);
    Relocate(buf, p, hdr, FragmentRelocations);
    FragmentAtFixed(s, refs, p, hdr, buf.refs);
    r := ProcessArraysChecked(buf, p, FragmentArrays, hdr + StringsSection, p + Null01Field, Null01Checks);
  }

  /** `FragmentAt` is the array loops and checks after the fixups. */
  lemma FragmentAtFixed(s: seq<byte>, refs: map<nat, Ref>, p: nat, hdr: nat, refs1: map<nat, Ref>)
    requires p + FragmentSize <= |s| && refs1 == Relocated(refs, s, p, hdr, FragmentRelocations, 0)
    ensures ArraysFit(p, FragmentArrays, |s|) && p + Null01Field + 4 * |Null01Checks| <= |s|
    ensures FragmentAt(s, refs, p, hdr) ==
              ArraysChecked(Step(Pass, s, refs1), p, FragmentArrays, hdr + StringsSection, p + Null01Field, Null01Checks)
  {
    FragmentFits(p, |s|);
  }

  /** The relocations, arrays and reserved words of a fragment shader at
      `p` lie inside `n` bytes. */
  lemma FragmentFits(p: nat, n: nat)
    requires p + FragmentSize <= n
    ensures RelocationsFit(p, FragmentRelocations, n) && ArraysFit(p, FragmentArrays, n)
    ensures p + Null01Field + 4 * |Null01Checks| <= n
  {
    ShaderArraysFit(p, n);
  }

  /** `ArraysChecked` on the buffer. */
  method ProcessArraysChecked(buf: Buffer, p: nat, arrays: seq<ArrayField>, strings: nat, q: nat, checks: seq<string>)
    returns (r: Outcome)
    requires ArraysFit(p, arrays, buf.bytes.Length) && q + 4 * |checks| <= buf.bytes.Length
    modifies buf, buf.bytes
    ensures Step(r, buf.bytes[..], buf.refs) ==
              ArraysChecked(Step(Pass, old(buf.bytes[..]), old(buf.refs)), p, arrays, strings, q, checks)
  {
    r := ProcessArrays(buf, p, arrays, strings);
    if r.Fail? {
      return;
    }
    r := CheckNulls(buf, q, checks);
  }

  /** The relative fixups `rs` of the shader at `p`, one after the other,
      on the buffer, against the sections of the header at `hdr`. */
  method Relocate(buf: Buffer, p: nat, hdr: nat, rs: seq<Relocation>)
    requires RelocationsFit(p, rs, buf.bytes.Length)
    modifies buf
    ensures buf.refs == Relocated(old(buf.refs), buf.bytes[..], p, hdr, rs, 0)
  {
    ghost var s := buf.bytes[..];
    ghost var goal := Relocated(buf.refs, s, p, hdr, rs, 0);
    var i := 0;
    while i < |rs|
      invariant 0 <= i <= |rs| && buf.bytes[..] == s
      invariant goal == Relocated(buf.refs, s, p, hdr, rs, i)
    {
      FixupRelative(buf, p + rs[i].field, hdr + rs[i].section, s);
      i := i + 1;
    }
  }

  /** `FixupRelative(hdr->section)` on the buffer: the pointer at `q` fixed
      up against what the pointer at `section` refers to. */
  method FixupRelative(buf: Buffer, q: nat, section: nat, ghost s: seq<byte>)
    requires q + 4 <= buf.bytes.Length && s == buf.bytes[..]
    modifies buf
    ensures buf.refs == Relative(old(buf.refs), s, q, section)
  {
    var _ := buf.Fixup(q, 4, buf.RefAt(section));
  }

  /** What the vertex shader adds to the fragment shader pass, on the
      buffer. */
  method ProcessAttributesBody(buf: Buffer, p: nat, base: Ref) returns (r: Outcome)
    requires p + VertexSize <= buf.bytes.Length
    modifies buf, buf.bytes
    ensures Step(r, buf.bytes[..], buf.refs) == AttributesBody(old(buf.bytes[..]), old(buf.refs), p, base)
  {
    var _ := buf.SwapFields(p + AttributesCount, 2, 4);
    assert buf.bytes[..] == SwapSpan(old(buf.bytes[..]), p + AttributesCount, AttributesArraySize);
    match buf.Target(base, HeaderSize)
    case Err(e) =>
      return Fail(e);
    case Ok(hdr) =>
      r := ProcessAttributesAt(buf, p, hdr);
  }

  /** `AttributesAt` on the buffer. */
  method ProcessAttributesAt(buf: Buffer, p: nat, hdr: nat) returns (r: Outcome)
    requires p + VertexSize <= buf.bytes.Length
    modifies buf, buf.bytes
    ensures Step(r, buf.bytes[..], buf.refs) == AttributesAt(old(buf.bytes[..]), old(buf.refs), p, hdr)
  {
    FixupRelative(buf, p + AttributesItems, hdr + AttributesSection, buf.bytes[..]);
    ShaderArraysFit(p, buf.bytes.Length);
    r := ProcessArraysChecked(buf, p, VertexArrays, hdr + StringsSection, p + Null02Field, Null02Checks);
  }

  /** `ProcessClass` on the shader of kind `kind` that `item` refers to,
      on the buffer. */
  method ProcessShader(buf: Buffer, item: Ref, flags: ProcessFlags, kind: Shader) returns (r: Outcome)
    modifies buf, buf.bytes
    ensures Step(r, buf.bytes[..], buf.refs) == ShaderPass(old(buf.bytes[..]), old(buf.refs), item, flags, kind)
    decreases kind.VertexShader?
  {
    r := flags.NoProcessDataOut();
    if r.Fail? {
      return;
    }
    :- flags.NoLittleEndian();
    :- flags.NoAutoDetect();
    match buf.Target(item, kind.Size())
    case Err(e) =>
      return Fail(e);
    case Ok(p) =>
      if kind.FragmentShader? {
        var _ := buf.SwapFields(p, FragmentWords, 4);
        assert buf.bytes[..] == SwapSpan(old(buf.bytes[..]), p, FragmentSize);
        r := ProcessFragmentBody(buf, p, flags.base);
      } else {
        r := ProcessShader(buf, item, flags, FragmentShader);
        if r.Fail? {
          return;
        }
        r := ProcessAttributesBody(buf, p, flags.base);
      }
  }

  /** `ProcessClass(MTHS::Header)`, on the buffer. */
  method ProcessHeader(buf: Buffer, h: int, flags: ProcessFlags) returns (r: Outcome)
    modifies buf, buf.bytes
    ensures Step(r, buf.bytes[..], buf.refs) == HeaderPass(old(buf.bytes[..]), old(buf.refs), h, flags)
  {
    r := flags.NoProcessDataOut();
    if r.Fail? {
      return;
    }
    if !buf.Fits(h, HeaderSize) {
      return Fail(OutOfBounds);
    }
    var f := flags;
    var id := U(buf.bytes[..], h, 4);
    if f.Has(AutoDetectEndian) {
      f := f.Without(AutoDetectEndian);
      if id == Id {
        f := f.With(EnsureBigEndian);
      } else {
        return Fail(InvalidHeader(id));
      }
    }
    if id != Id {
      return Fail(InvalidHeader(id));
    }
    :- f.NoLittleEndian();
    assert HeaderFlags(old(buf.bytes[..]), h, flags) == Ok(f);
    var _ := buf.SwapFields(h, HeaderWords, 4);
    assert buf.bytes[..] == HeaderBytes(old(buf.bytes[..]), h);
    var version := U(buf.bytes[..], h + VersionField, 4);
    if version != Version {
      return Fail(InvalidVersion(version));
    }
    r := ProcessShaders(buf, h, f.Rebased(h));
  }

  /** `es::FixupPointers` on the header at `h`: its ten pointers fixed up
      against the header, on the buffer. */
  method ProcessHeaderFixups(buf: Buffer, h: nat)
    requires h + HeaderSize <= buf.bytes.Length
    modifies buf
    ensures buf.refs == HeaderRefs(buf.bytes[..], old(buf.refs), h)
  {
    assert FieldsFit(h, HeaderPointers, buf.bytes.Length);
    buf.FixupList(h, HeaderPointers, At(h));
  }

  /** The header pass after its checks and swap: the fixups of its ten
      pointers against the header, then the vertex shader and the fragment
      shader when their pointers are not null. */
  method ProcessShaders(buf: Buffer, h: nat, f: ProcessFlags) returns (r: Outcome)
    requires h + HeaderSize <= buf.bytes.Length
    modifies buf, buf.bytes
    ensures Step(r, buf.bytes[..], buf.refs) ==
              FragmentStage(VertexStage(old(buf.bytes[..]), HeaderRefs(old(buf.bytes[..]), old(buf.refs), h), h, f), h, f)
  {
    ProcessHeaderFixups(buf, h);
    var vertex := buf.RefAt(h + VertexShaderField);
    r := Pass;
    if !vertex.Null? {
      r := ProcessShader(buf, vertex, f, VertexShader);
      if r.Fail? {
        return;
      }
    }
    var fragment := buf.RefAt(h + FragmentShaderField);
    if !fragment.Null? {
      r := ProcessShader(buf, fragment, f, FragmentShader);
    }
  }
}
