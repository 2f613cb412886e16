/** The passes over the records of a version 1 (big-endian) MXMD model
    container (`source/mxmd.cpp`): bones, meshes and their skins, models,
    materials, vertex and index buffers and the streams that hold them, the
    streamed-texture header and the shaders.

    Record layouts (`include/xenolib/internal/mxmd_v1.inl`), as offsets in
    bytes; an `Array` is an items pointer followed by a 32-bit count:
    - MeshSkin (8 bytes): boneIndices 0 (`Array` of 16-bit values).
    - Bone (184 bytes): name 0, then 45 words of numbers.
    - Mesh (68 bytes): primitives 0 (`Array` of 16-word `Primitive`s).
    - Model (148 bytes): meshes 24, skins 32, bones 80, floats 88,
      boneNames 100 (all `Array`s).
    - Material (136 bytes): textures 60 (`Array` of `TextureLink`s, two
      16-bit values each).
    - MaterialsHeader (104 bytes): materials 0 (`Array`).
    - VertexBuffer (24 bytes): data 0 (`Array` of bytes), stride 8,
      descriptors 12 (`Array` of `VertexType`s, a 16-bit type and a 16-bit
      size each).
    - IndexBuffer (12 bytes): indices 0 (`Array` of 16-bit values).
    - Stream (48 bytes): vertexBuffers 0, indexBuffers 8 (`Array`s),
      mergeData 16 (sixteen 16-bit values).
    - SMTHeader (40 bytes): unk 0, numUsedGroups 4, groups 8 and 12,
      groupIds 16 and 20.
    - Shader (16 bytes): data 0 (`Array` of bytes).
    - Shaders (32 bytes): shaders 0 (`Array`).

    Every record is swapped as a run of 32-bit words (`FArraySwapper`),
    except `Stream`, whose two arrays are words and whose merge data are
    16-bit values. */
module MxmdV1 {
  import opened Outcomes
  import opened Bytes
  import opened Memory
  import opened Flags
  import opened Records
  import opened Passes
  import opened ModelViews
  import opened MxmdVertices
  import Drsm

  const SkinSize: nat := 8
  const SkinWords: nat := 2
  const BoneSize: nat := 184
  const BoneWords: nat := 46
  const MeshSize: nat := 68
  const MeshWords: nat := 17
  const ModelSize: nat := 148
  const ModelWords: nat := 37
  const MaterialSize: nat := 136
  const MaterialWords: nat := 34
  const MaterialsSize: nat := 104
  const MaterialsWords: nat := 26
  const VertexBufferSize: nat := 24
  const IndexBufferSize: nat := 12
  const StreamSize: nat := 48
  const SmtSize: nat := 40
  const ShaderSize: nat := 16
  const ShadersSize: nat := 32
  const ShadersWords: nat := 8

  /** A bone: 46 words with its `name` pointer first. */
  const BoneLayout := Layout(46, 0)
  /** A shader: four words with its `data` pointer first. */
  const ShaderLayout := Layout(4, 0)
  /** A `boneNames` element: one pointer. */
  const NameLayout := Layout(1, 0)
  /** A vertex buffer, an index buffer and a streamed-texture header, each
      as a run of words. */
  const VertexBufferLayout := Layout(6, 0)
  const IndexBufferLayout := Layout(3, 0)
  const SmtLayout := Layout(10, 0)

  /** The arrays of plain values the passes swap element by element. */
  const BoneIndices := ElementArray(0, 4, 1, 2)
  const Primitives := ElementArray(0, 4, 16, 4)
  const TextureLinks := ElementArray(60, 64, 2, 2)
  const Floats := ElementArray(88, 92, 1, 4)
  const DescriptorArray := ElementArray(12, 16, 2, 2)
  const Indices := ElementArray(0, 4, 1, 2)

  /** The model's pointers in the order `FixupPointers` takes them:
      boneNames, bones, floats, meshes, skins. */
  const ModelPointers: seq<Field> := [Field(100, 4), Field(80, 4), Field(88, 4), Field(24, 4), Field(32, 4)]

  /** The messages of the streamed-texture header's checks. */
  const SmtUnkMessage := "SMTHeader.unk should be <2"
  const SmtGroupsMessage := "SMTHeader.numGroups should be <= 2"

  /** The three guards the big-endian-only passes start with, in their
      order: no ProcessDataOut, no AutoDetectEndian, EnsureBigEndian. */
  function BigGuards(f: ProcessFlags): (r: Outcome)
    ensures r.Pass? <==> !f.Has(ProcessDataOut) && !f.Has(AutoDetectEndian) && f.Has(EnsureBigEndian)
    ensures !f.Has(ProcessDataOut) && !f.Has(AutoDetectEndian) && !f.Has(EnsureBigEndian) ==>
              r == Fail(Runtime(NoLittleEndianMessage))
  {
    if f.NoProcessDataOut().Fail? then f.NoProcessDataOut()
    else if f.NoAutoDetect().Fail? then f.NoAutoDetect()
    else f.NoLittleEndian()
  }

  /** The two guards of the passes that take either byte order. */
  function EitherGuards(f: ProcessFlags): (r: Outcome)
    ensures r.Pass? <==> !f.Has(ProcessDataOut) && !f.Has(AutoDetectEndian)
  {
    if f.NoProcessDataOut().Fail? then f.NoProcessDataOut() else f.NoAutoDetect()
  }

  // ---------------------------------------------------------------------
  // Records with one pointer
  // ---------------------------------------------------------------------

  /** A record whose words are all swapped and whose one pointer field is
      then fixed up against `base`. */
  function Fixed(s: seq<byte>, refs: map<nat, Ref>, p: nat, l: Layout, base: Ref): (w: Step)
    requires l.Valid() && p + l.Size() <= |s|
    ensures |w.bytes| == |s| && w.outcome.Pass?
  {
    var t := Swapped(s, p, l, true);
    Step(Pass, t, refs[p + l.field := Resolve(base, I(t, p + l.field, 4))])
  }

  /** The swap is what makes big-endian data readable: each word of the
      record now reads, little-endian, the value its bytes held big-endian,
      so the pointer holds the base plus the big-endian offset; no byte
      outside the record and no other pointer changes. */
  lemma FixedMeaning(s: seq<byte>, refs: map<nat, Ref>, p: nat, l: Layout, base: Ref, kf: nat)
    requires l.Valid() && p + l.Size() <= |s| && l.field == 4 * kf
    ensures var w := Fixed(s, refs, p, l, base);
      && (forall k :: 0 <= k < l.words ==> U(w.bytes, p + 4 * k, 4) == ReadBE(s[p + 4 * k..p + 4 * k + 4]))
      && RefOf(w.refs, p + l.field) == Resolve(base, Signed(ReadBE(s[p + l.field..p + l.field + 4]), 4))
      && (forall k :: k != p + l.field ==> RefOf(w.refs, k) == RefOf(refs, k))
      && (forall i :: 0 <= i < |s| && !(p <= i < p + l.Size()) ==> w.bytes[i] == s[i])
  {
    var t := Swapped(s, p, l, true);
    forall k | 0 <= k < l.words
      ensures U(t, p + 4 * k, 4) == ReadBE(s[p + 4 * k..p + 4 * k + 4])
    {
      SwapSpanRead(s, p, l.Size(), k);
    }
    assert U(t, p + 4 * kf, 4) == ReadBE(s[p + 4 * kf..p + 4 * kf + 4]);
    SpanOutside(s, p, l.Size());
  }

  /** A word swap of a span leaves every byte outside it alone. */
  lemma SpanOutside(s: seq<byte>, p: nat, len: nat)
    requires p + len <= |s|
    ensures forall i :: 0 <= i < |s| && !(p <= i < p + len) ==> SwapSpan(s, p, len)[i] == s[i]
  {
    var t := SwapSpan(s, p, len);
    forall i | 0 <= i < |s| && !(p <= i < p + len)
      ensures t[i] == s[i]
    {
      if i < p {
        assert t[i] == s[..p][i];
      } else {
        assert t[i] == s[p + len..][i - p - len];
      }
    }
  }

  /** `ProcessClass(V1::Bone)`: the guards, the bone swapped and its name
      fixed up against `flags.base`. */
  function BonePass(s: seq<byte>, refs: map<nat, Ref>, a: int, f: ProcessFlags): (w: Step)
    ensures |w.bytes| == |s|
    ensures w.outcome.Pass? ==> 0 <= a && a + BoneSize <= |s|
  {
    if BigGuards(f).Fail? then Step(BigGuards(f), s, refs)
    else if !(0 <= a && a + BoneSize <= |s|) then Step(Fail(OutOfBounds), s, refs)
    else Fixed(s, refs, a, BoneLayout, f.base)
  }

  /** `ProcessClass(V1::Shader)`: the guards, the shader swapped and its
      data fixed up against `flags.base`. */
  function ShaderPass(s: seq<byte>, refs: map<nat, Ref>, a: int, f: ProcessFlags): (w: Step)
    ensures |w.bytes| == |s|
    ensures w.outcome.Pass? ==> 0 <= a && a + ShaderSize <= |s|
  {
    if BigGuards(f).Fail? then Step(BigGuards(f), s, refs)
    else if !(0 <= a && a + ShaderSize <= |s|) then Step(Fail(OutOfBounds), s, refs)
    else Fixed(s, refs, a, ShaderLayout, f.base)
  }

  // ---------------------------------------------------------------------
  // Records that own an array of plain values
  // ---------------------------------------------------------------------

  /** A record of `words` words that owns the array `arr` of plain values:
      the record swapped, the array's items pointer fixed up against
      `base`, then every value of the array swapped, with the count read
      from the swapped record. */
  function Owning(s: seq<byte>, refs: map<nat, Ref>, p: nat, words: nat, arr: ElementArray, base: Ref): (w: Step)
    requires p + 4 * words <= |s| && arr.items + 4 <= 4 * words && arr.count + 4 <= 4 * words && arr.width > 0
    ensures |w.bytes| == |s|
  {
    var t := SwapSpan(s, p, 4 * words);
    ArraySwept(t, refs[p + arr.items := Resolve(base, I(t, p + arr.items, 4))], p, arr)
  }

  /** What `Owning` does, in terms of the bytes before it: the items
      pointer holds the base plus the big-endian offset, no other pointer
      changes, and the array it loops over has the big-endian count of
      elements; the pass fails exactly when a non-empty array is not
      inside the buffer. */
  lemma OwningMeaning(s: seq<byte>, refs: map<nat, Ref>, p: nat, words: nat, arr: ElementArray, base: Ref, ki: nat, kc: nat)
    requires p + 4 * words <= |s| && arr.items + 4 <= 4 * words && arr.count + 4 <= 4 * words && arr.width > 0
    requires arr.items == 4 * ki && arr.count == 4 * kc
    ensures var w := Owning(s, refs, p, words, arr, base);
      var items := RefOf(w.refs, p + arr.items);
      var n := arr.Fields(ReadBE(s[p + arr.count..p + arr.count + 4]));
      && items == Resolve(base, Signed(ReadBE(s[p + arr.items..p + arr.items + 4]), 4))
      && (forall k :: k != p + arr.items ==> RefOf(w.refs, k) == RefOf(refs, k))
      && (w.outcome.Pass? <==> n == 0 || (items.At? && 0 <= items.addr && items.addr + n * arr.width <= |s|))
  {
    var t := SwapSpan(s, p, 4 * words);
    OwningAfterSwap(s, refs, p, words, arr, base, t, refs[p + arr.items := Resolve(base, I(t, p + arr.items, 4))]);
    BigEndianWord(s, p, words, ki);
    BigEndianWord(s, p, words, kc);
    assert |t| == |s|;
    SweptFixed(t, refs, p, arr, base);
  }

  /** The array loop of a record whose items pointer was just fixed up. */
  lemma SweptFixed(t: seq<byte>, refs: map<nat, Ref>, p: nat, arr: ElementArray, base: Ref)
    requires arr.FitsAt(p, |t|) && p + arr.items + 4 <= |t|
    ensures var w := ArraySwept(t, refs[p + arr.items := Resolve(base, I(t, p + arr.items, 4))], p, arr);
      var items := RefOf(w.refs, p + arr.items);
      var n := arr.Fields(U(t, p + arr.count, 4));
      && items == Resolve(base, I(t, p + arr.items, 4))
      && (forall k :: k != p + arr.items ==> RefOf(w.refs, k) == RefOf(refs, k))
      && (w.outcome.Pass? <==> n == 0 || (items.At? && 0 <= items.addr && items.addr + n * arr.width <= |t|))
  {
    var refs1 := refs[p + arr.items := Resolve(base, I(t, p + arr.items, 4))];
    SweptMeaning(t, refs1, RefOf(refs1, p + arr.items), arr.Fields(U(t, p + arr.count, 4)), arr.width);
  }

  /** A word of a record of `words` words reads, after the record's swap,
      the value it held big-endian. */
  lemma BigEndianWord(s: seq<byte>, p: nat, words: nat, k: nat)
    requires p + 4 * words <= |s| && k < words
    ensures U(SwapSpan(s, p, 4 * words), p + 4 * k, 4) == ReadBE(s[p + 4 * k..p + 4 * k + 4])
    ensures I(SwapSpan(s, p, 4 * words), p + 4 * k, 4) == Signed(ReadBE(s[p + 4 * k..p + 4 * k + 4]), 4)
  {
    SwapSpanRead(s, p, 4 * words, k);
  }

  /** `ProcessClass(V1::MeshSkin)`: the guards, then the skin and its
      16-bit bone indices swapped, the indices fixed up against
      `flags.base`. */
  function SkinPass(s: seq<byte>, refs: map<nat, Ref>, a: int, f: ProcessFlags): (w: Step)
    ensures |w.bytes| == |s|
  {
    if BigGuards(f).Fail? then Step(BigGuards(f), s, refs)
    else if !(0 <= a && a + SkinSize <= |s|) then Step(Fail(OutOfBounds), s, refs)
    else Owning(s, refs, a, SkinWords, BoneIndices, f.base)
  }

  /** `ProcessClass(V1::Mesh)`: the guards, then the mesh and each of its
      16-word primitives swapped, the primitives fixed up against
      `flags.base`. */
  function MeshPass(s: seq<byte>, refs: map<nat, Ref>, a: int, f: ProcessFlags): (w: Step)
    ensures |w.bytes| == |s|
  {
    if BigGuards(f).Fail? then Step(BigGuards(f), s, refs)
    else if !(0 <= a && a + MeshSize <= |s|) then Step(Fail(OutOfBounds), s, refs)
    else Owning(s, refs, a, MeshWords, Primitives, f.base)
  }

  /** `ProcessClass(V1::Material)`: the guards, then the material and the
      two 16-bit values of each texture link swapped, the links fixed up
      against `flags.base`. */
  function MaterialPass(s: seq<byte>, refs: map<nat, Ref>, a: int, f: ProcessFlags): (w: Step)
    ensures |w.bytes| == |s|
  {
    if BigGuards(f).Fail? then Step(BigGuards(f), s, refs)
    else if !(0 <= a && a + MaterialSize <= |s|) then Step(Fail(OutOfBounds), s, refs)
    else Owning(s, refs, a, MaterialWords, TextureLinks, f.base)
  }

  lemma RecordPassesSized()
    ensures Sized(BonePass) && Sized(ShaderPass) && Sized(SkinPass) && Sized(MeshPass) && Sized(MaterialPass)
  {
  }

  // ---------------------------------------------------------------------
  // Records that hold arrays of records
  // ---------------------------------------------------------------------

  /** The model's five pointers lie inside it and are distinct. */
  lemma ModelPointersFit(a: nat, n: nat)
    requires a + ModelSize <= n
    ensures FieldsFit(a, ModelPointers, n) && DistinctOffsets(ModelPointers)
  {
  }

  /** `ProcessClass(V1::Model)`: the guards, the model swapped, its base
      set to itself, its five arrays fixed up against it, then its arrays
      in the source's order. */
  function ModelPass(s: seq<byte>, refs: map<nat, Ref>, a: int, f: ProcessFlags): (w: Step)
    ensures |w.bytes| == |s|
  {
    if BigGuards(f).Fail? then Step(BigGuards(f), s, refs)
    else if !(0 <= a && a + ModelSize <= |s|) then Step(Fail(OutOfBounds), s, refs)
    else
      var t := SwapSpan(s, a, ModelSize);
      ModelPointersFit(a, |s|);
      ModelArrays(Step(Pass, t, FixEach(refs, t, a, ModelPointers, At(a))), a, f.Rebased(a))
  }

  /** The model's loops: the skeleton, then each mesh and each skin with
      the model as base. */
  function ModelArrays(w: Step, a: nat, f: ProcessFlags): (r: Step)
    requires a + ModelSize <= |w.bytes|
    ensures |r.bytes| == |w.bytes|
  {
    RecordPassesSized();
    var w1 := Skeleton(w, a, f);
    var w2 := ForEach(w1, RefOf(w1.refs, a + 24), U(w1.bytes, a + 28, 4), MeshSize, MeshPass, f);
    ForEach(w2, RefOf(w2.refs, a + 32), U(w2.bytes, a + 36, 4), SkinSize, SkinPass, f)
  }

  /** The model's first three loops: each bone name swapped and fixed up
      against the model; each bone's pass with the start of the bones
      array as base; each float swapped. */
  function Skeleton(w: Step, a: nat, f: ProcessFlags): (r: Step)
    requires a + ModelSize <= |w.bytes|
    ensures |r.bytes| == |w.bytes|
  {
    RecordPassesSized();
    if w.outcome.Fail? then w
    else
      var w1 := Walked(w.bytes, w.refs, RefOf(w.refs, a + 100), U(w.bytes, a + 104, 4), NameLayout, true, f.base);
      if w1.outcome.Fail? then w1
      else
        var bones := RefOf(w1.refs, a + 80);
        var w2 := ForEach(w1, bones, U(w1.bytes, a + 84, 4), BoneSize, BonePass, f.(base := bones));
        if w2.outcome.Fail? then w2 else ArraySwept(w2.bytes, w2.refs, a, Floats)
  }

  /** `ProcessClass(V1::MaterialsHeader)`: the guards, the header swapped,
      its materials fixed up against itself and each material's pass with
      the header as base. */
  function MaterialsPass(s: seq<byte>, refs: map<nat, Ref>, a: int, f: ProcessFlags): (w: Step)
    ensures |w.bytes| == |s|
  {
    if BigGuards(f).Fail? then Step(BigGuards(f), s, refs)
    else if !(0 <= a && a + MaterialsSize <= |s|) then Step(Fail(OutOfBounds), s, refs)
    else
      RecordPassesSized();
      var t := SwapSpan(s, a, MaterialsSize);
      var refs1 := refs[a := Resolve(At(a), I(t, a, 4))];
      ForEach(Step(Pass, t, refs1), RefOf(refs1, a), U(t, a + 4, 4), MaterialSize, MaterialPass, f.Rebased(a))
  }

  /** `ProcessClass(V1::Shaders)`: the guards, the header swapped, its
      shaders fixed up against itself and each shader's pass with the
      header as base. */
  function ShadersPass(s: seq<byte>, refs: map<nat, Ref>, a: int, f: ProcessFlags): (w: Step)
    ensures |w.bytes| == |s|
  {
    if BigGuards(f).Fail? then Step(BigGuards(f), s, refs)
    else if !(0 <= a && a + ShadersSize <= |s|) then Step(Fail(OutOfBounds), s, refs)
    else
      RecordPassesSized();
      var t := SwapSpan(s, a, ShadersSize);
      var refs1 := refs[a := Resolve(At(a), I(t, a, 4))];
      ForEach(Step(Pass, t, refs1), RefOf(refs1, a), U(t, a + 4, 4), ShaderSize, ShaderPass, f.Rebased(a))
  }

  // ---------------------------------------------------------------------
  // Vertex and index buffers, streams
  // ---------------------------------------------------------------------

  /** The vertex buffer after its swap, when big-endian, and the fixups of
      its data and its descriptors against `flags.base`. */
  function VertexHead(s: seq<byte>, refs: map<nat, Ref>, a: nat, f: ProcessFlags): (w: Step)
    requires a + VertexBufferSize <= |s|
    ensures |w.bytes| == |s| && w.outcome.Pass?
  {
    var t := Swapped(s, a, VertexBufferLayout, f.Has(EnsureBigEndian));
    Step(Pass, t, refs[a := Resolve(f.base, I(t, a, 4))][a + 12 := Resolve(f.base, I(t, a + 12, 4))])
  }

  /** The descriptor table of the vertex buffer at `a`, as the bytes `w`
      hold it; a table outside the buffer reads as empty. */
  function DescriptorTable(w: Step, a: nat): (ts: seq<VertexType>)
    requires a + VertexBufferSize <= |w.bytes|
  {
    var n := U(w.bytes, a + 16, 4);
    var d := RefOf(w.refs, a + 12);
    if d.At? && 0 <= d.addr && d.addr + 4 * n <= |w.bytes| then DescriptorsAt(w.bytes, d.addr, n) else []
  }

  /** The big-endian part of the vertex buffer pass: the descriptors
      swapped, then the vertex loop. No pointer changes. */
  function VertexData(w: Step, a: nat): (r: Step)
    requires a + VertexBufferSize <= |w.bytes|
    ensures |r.bytes| == |w.bytes| && r.refs == w.refs
  {
    VertexLoop(ArraySwept(w.bytes, w.refs, a, DescriptorArray), a)
  }

  /** The vertex loop: the number of vertices is the data size divided by
      the stride (a zero stride divides by zero), and each descriptor of
      the table swaps its column. */
  function VertexLoop(w: Step, a: nat): (r: Step)
    requires a + VertexBufferSize <= |w.bytes|
    ensures |r.bytes| == |w.bytes| && r.refs == w.refs
  {
    if w.outcome.Fail? then w
    else StridedColumns(w, a, U(w.bytes, a + 8, 4), U(w.bytes, a + 4, 4))
  }

  /** The vertex loop over `size` bytes of vertex data of `stride` bytes
      each. */
  function StridedColumns(w: Step, a: nat, stride: nat, size: nat): (r: Step)
    requires a + VertexBufferSize <= |w.bytes|
    ensures |r.bytes| == |w.bytes| && r.refs == w.refs
  {
    if stride == 0 then Step(Fail(DivisionByZero), w.bytes, w.refs)
    else Columns(w, RefOf(w.refs, a), stride, size / stride, DescriptorTable(w, a), 0)
  }

  /** `ProcessClass(V1::VertexBuffer)`: the two guards, then the head, and
      for big-endian data the descriptors and the vertex loop. */
  function VertexBufferPass(s: seq<byte>, refs: map<nat, Ref>, a: int, f: ProcessFlags): (w: Step)
    ensures |w.bytes| == |s|
  {
    if EitherGuards(f).Fail? then Step(EitherGuards(f), s, refs)
    else if !(0 <= a && a + VertexBufferSize <= |s|) then Step(Fail(OutOfBounds), s, refs)
    else if f.Has(EnsureBigEndian) then VertexData(VertexHead(s, refs, a, f), a)
    else VertexHead(s, refs, a, f)
  }

  /** Little-endian vertex data is not touched: the pass only fixes up
      the two pointers. */
  lemma VertexBufferLittle(s: seq<byte>, refs: map<nat, Ref>, a: nat, f: ProcessFlags)
    requires a + VertexBufferSize <= |s| && EitherGuards(f).Pass? && !f.Has(EnsureBigEndian)
    ensures VertexBufferPass(s, refs, a, f) ==
            Step(Pass, s, refs[a := Resolve(f.base, I(s, a, 4))][a + 12 := Resolve(f.base, I(s, a + 12, 4))])
  {
  }

  /** The vertex loop fails only with its own errors, a zero stride or
      the errors of following a pointer; a zero stride is a division by
      zero, and a table whose descriptors are all made of bytes keeps the
      vertex data as it was. */
  lemma VertexLoopMeaning(w: Step, a: nat)
    requires a + VertexBufferSize <= |w.bytes| && w.outcome.Pass?
    ensures var r := VertexLoop(w, a);
      && (r.outcome.Fail? ==>
            r.outcome.error in {OutOfBounds, NullReference, WildReference, DivisionByZero, Runtime(UnhandledType)})
      && (U(w.bytes, a + 8, 4) == 0 ==> r.outcome == Fail(DivisionByZero))
      && (U(w.bytes, a + 8, 4) != 0 &&
          (forall j :: 0 <= j < |DescriptorTable(w, a)| ==> VertexSwap(DescriptorTable(w, a)[j].kind) == Ok(Untouched)) ==>
            r == w)
  {
    var stride, size := U(w.bytes, a + 8, 4), U(w.bytes, a + 4, 4);
    assert VertexLoop(w, a) == StridedColumns(w, a, stride, size);
    StridedColumnsMeaning(w, a, stride, size);
  }

  /** `VertexLoopMeaning` for a given stride and data size. */
  lemma StridedColumnsMeaning(w: Step, a: nat, stride: nat, size: nat)
    requires a + VertexBufferSize <= |w.bytes| && w.outcome.Pass?
    ensures var r := StridedColumns(w, a, stride, size);
      && (r.outcome.Fail? ==>
            r.outcome.error in {OutOfBounds, NullReference, WildReference, DivisionByZero, Runtime(UnhandledType)})
      && (stride == 0 ==> r.outcome == Fail(DivisionByZero))
      && (stride != 0 &&
          (forall j :: 0 <= j < |DescriptorTable(w, a)| ==> VertexSwap(DescriptorTable(w, a)[j].kind) == Ok(Untouched)) ==>
            r == w)
  {
    if stride != 0 {
      var n, ts := size / stride, DescriptorTable(w, a);
      assert StridedColumns(w, a, stride, size) == Columns(w, RefOf(w.refs, a), stride, n, ts, 0);
      ColumnsFail(w, RefOf(w.refs, a), stride, n, ts, 0);
      if forall j :: 0 <= j < |ts| ==> VertexSwap(ts[j].kind) == Ok(Untouched) {
        ColumnsUntouched(w, RefOf(w.refs, a), stride, n, ts, 0);
      }
    }
  }

  /** The descriptors' swap fails exactly when a non-empty table is not
      inside the buffer, and then the vertex loop does not run. */
  lemma VertexDataFails(w: Step, a: nat)
    requires a + VertexBufferSize <= |w.bytes|
    ensures var d := RefOf(w.refs, a + 12); var n := 2 * U(w.bytes, a + 16, 4);
      ArraySwept(w.bytes, w.refs, a, DescriptorArray).outcome.Fail? <==>
        n != 0 && !(d.At? && 0 <= d.addr && d.addr + 2 * n <= |w.bytes|)
    ensures ArraySwept(w.bytes, w.refs, a, DescriptorArray).outcome.Fail? ==>
              VertexData(w, a) == Step(ArraySwept(w.bytes, w.refs, a, DescriptorArray).outcome, w.bytes, w.refs)
  {
    SweptMeaning(w.bytes, w.refs, RefOf(w.refs, a + 12), DescriptorArray.Fields(U(w.bytes, a + 16, 4)), 2);
  }

  /** `ProcessClass(V1::IndexBuffer)`: the two guards, the buffer swapped
      when big-endian, its indices fixed up against `flags.base`, and for
      big-endian data each 16-bit index swapped. */
  function IndexBufferPass(s: seq<byte>, refs: map<nat, Ref>, a: int, f: ProcessFlags): (w: Step)
    ensures |w.bytes| == |s|
  {
    if EitherGuards(f).Fail? then Step(EitherGuards(f), s, refs)
    else if !(0 <= a && a + IndexBufferSize <= |s|) then Step(Fail(OutOfBounds), s, refs)
    else
      var t := Swapped(s, a, IndexBufferLayout, f.Has(EnsureBigEndian));
      var refs1 := refs[a := Resolve(f.base, I(t, a, 4))];
      if f.Has(EnsureBigEndian) then ArraySwept(t, refs1, a, Indices) else Step(Pass, t, refs1)
  }

  /** On big-endian data the index buffer pass is a record that owns its
      indices; on little-endian data it only fixes up their pointer. */
  lemma IndexBufferMeaning(s: seq<byte>, refs: map<nat, Ref>, a: nat, f: ProcessFlags)
    requires a + IndexBufferSize <= |s| && EitherGuards(f).Pass?
    ensures f.Has(EnsureBigEndian) ==> IndexBufferPass(s, refs, a, f) == Owning(s, refs, a, 3, Indices, f.base)
    ensures !f.Has(EnsureBigEndian) ==> IndexBufferPass(s, refs, a, f) == Step(Pass, s, refs[a := Resolve(f.base, I(s, a, 4))])
  {
  }

  lemma BufferPassesSized()
    ensures Sized(VertexBufferPass) && Sized(IndexBufferPass)
  {
  }

  /** The stream after its `FByteswapper`: the four words of its two
      arrays, then its sixteen 16-bit merge values. */
  function StreamSwapped(s: seq<byte>, a: nat): (t: seq<byte>)
    requires a + StreamSize <= |s|
    ensures |t| == |s|
  {
    SwapRun(SwapSpan(s, a, 16), a + 16, 16, 2)
  }

  /** `ProcessClass(V1::Stream)`: the guards, the stream swapped, its base
      set to itself, its two arrays fixed up against it, then each vertex
      buffer's and each index buffer's pass with the stream as base. */
  function StreamPass(s: seq<byte>, refs: map<nat, Ref>, a: int, f: ProcessFlags): (w: Step)
    ensures |w.bytes| == |s|
  {
    if BigGuards(f).Fail? then Step(BigGuards(f), s, refs)
    else if !(0 <= a && a + StreamSize <= |s|) then Step(Fail(OutOfBounds), s, refs)
    else
      BufferPassesSized();
      var t := StreamSwapped(s, a);
      var refs1 := refs[a := Resolve(At(a), I(t, a, 4))][a + 8 := Resolve(At(a), I(t, a + 8, 4))];
      var w1 := ForEach(Step(Pass, t, refs1), RefOf(refs1, a), U(t, a + 4, 4), VertexBufferSize, VertexBufferPass, f.Rebased(a));
      ForEach(w1, RefOf(w1.refs, a + 8), U(w1.bytes, a + 12, 4), IndexBufferSize, IndexBufferPass, f.Rebased(a))
  }

  // ---------------------------------------------------------------------
  // The streamed-texture header
  // ---------------------------------------------------------------------

  /** The checks on the (swapped) header at `a`: `unk` at most 1, then 1
      or 2 used groups. */
  function SmtChecks(t: seq<byte>, a: nat): (r: Outcome)
    requires a + SmtSize <= |t|
    ensures r.Pass? <==> U(t, a, 4) <= 1 && 1 <= U(t, a + 4, 4) <= 2
    ensures r.Fail? ==> r.error in {Runtime(SmtUnkMessage), Runtime(SmtGroupsMessage)}
    ensures U(t, a, 4) > 1 ==> r == Fail(Runtime(SmtUnkMessage))
  {
    if U(t, a, 4) > 1 then Fail(Runtime(SmtUnkMessage))
    else if U(t, a + 4, 4) > 2 || U(t, a + 4, 4) == 0 then Fail(Runtime(SmtGroupsMessage))
    else Pass
  }

  /** `ProcessClass(V1::SMTHeader)`: the two guards, the header swapped
      when big-endian, its checks, then its base set to itself and its
      used groups one after the other. */
  function SmtPass(s: seq<byte>, refs: map<nat, Ref>, a: int, f: ProcessFlags): (w: Step)
    ensures |w.bytes| == |s|
  {
    if EitherGuards(f).Fail? then Step(EitherGuards(f), s, refs)
    else if !(0 <= a && a + SmtSize <= |s|) then Step(Fail(OutOfBounds), s, refs)
    else
      var t := Swapped(s, a, SmtLayout, f.Has(EnsureBigEndian));
      if SmtChecks(t, a).Fail? then Step(SmtChecks(t, a), t, refs)
      else Groups(Step(Pass, t, refs), a, 0, U(t, a + 4, 4), f.Rebased(a))
  }

  /** The used groups from `i` on. */
  function Groups(w: Step, a: nat, i: nat, n: nat, f: ProcessFlags): (r: Step)
    requires a + SmtSize <= |w.bytes| && i <= n <= 2
    ensures |r.bytes| == |w.bytes|
    decreases n - i
  {
    if w.outcome.Fail? || i == n then w else Groups(Group(w, a, i, f), a, i + 1, n, f)
  }

  /** Group `i`: its ids and its texture table fixed up against the
      header, the table's pass (a null table is dereferenced), then for
      big-endian data each 16-bit id swapped, as many as the table has
      textures once its pass is over. */
  function Group(w: Step, a: nat, i: nat, f: ProcessFlags): (r: Step)
    requires a + SmtSize <= |w.bytes| && i < 2
    ensures |r.bytes| == |w.bytes|
  {
    var ids, table := a + 16 + 4 * i, a + 8 + 4 * i;
    var refs1 := w.refs[ids := Resolve(At(a), I(w.bytes, ids, 4))][table := Resolve(At(a), I(w.bytes, table, 4))];
    match RefOf(refs1, table)
    case Null => Step(Fail(NullReference), w.bytes, refs1)
    case Wild => Step(Fail(WildReference), w.bytes, refs1)
    case At(g) =>
      var w1 := Drsm.TexturesPass(w.bytes, refs1, g, f);
      if w1.outcome.Fail? || !f.Has(EnsureBigEndian) then w1
      else Swept(w1.bytes, w1.refs, RefOf(w1.refs, ids), U(w1.bytes, g, 4), 2)
  }

  /** The header is refused, after its swap and before anything else
      changes, exactly when `unk` exceeds 1 or the number of used groups
      is not 1 or 2; a header that passes its checks goes on to exactly
      its used groups. */
  lemma SmtPassChecks(s: seq<byte>, refs: map<nat, Ref>, a: nat, f: ProcessFlags)
    requires a + SmtSize <= |s| && EitherGuards(f).Pass?
    ensures var t := Swapped(s, a, SmtLayout, f.Has(EnsureBigEndian));
      && (U(t, a, 4) > 1 ==> SmtPass(s, refs, a, f) == Step(Fail(Runtime(SmtUnkMessage)), t, refs))
      && (U(t, a, 4) <= 1 && !(1 <= U(t, a + 4, 4) <= 2) ==>
            SmtPass(s, refs, a, f) == Step(Fail(Runtime(SmtGroupsMessage)), t, refs))
      && (U(t, a, 4) == 1 || U(t, a, 4) == 0) && U(t, a + 4, 4) == 1 ==>
            SmtPass(s, refs, a, f) == Groups(Group(Step(Pass, t, refs), a, 0, f.Rebased(a)), a, 1, 1, f.Rebased(a))
  {
  }

  /** A group whose table pointer is null fails, and on little-endian
      data a group never changes a byte, whether it passes or fails. */
  lemma GroupFixes(w: Step, a: nat, i: nat, f: ProcessFlags)
    requires a + SmtSize <= |w.bytes| && i < 2
    ensures I(w.bytes, a + 8 + 4 * i, 4) == 0 ==> Group(w, a, i, f).outcome == Fail(NullReference)
    ensures !f.Has(EnsureBigEndian) ==> Group(w, a, i, f).bytes == w.bytes
  {
    var ids, table := a + 16 + 4 * i, a + 8 + 4 * i;
    var refs1 := w.refs[ids := Resolve(At(a), I(w.bytes, ids, 4))][table := Resolve(At(a), I(w.bytes, table, 4))];
    if RefOf(refs1, table).At? {
      var g := RefOf(refs1, table).addr;
      if 0 <= g && g + Drsm.TexturesSize <= |w.bytes| {
        Drsm.TexturesPassMeaning(w.bytes, refs1, g, f);
      }
    }
  }

  /** On little-endian data the groups never change a byte. */
  lemma {:induction false} GroupsLittle(w: Step, a: nat, i: nat, n: nat, f: ProcessFlags)
    requires a + SmtSize <= |w.bytes| && i <= n <= 2 && !f.Has(EnsureBigEndian)
    ensures Groups(w, a, i, n, f).bytes == w.bytes
    decreases n - i
  {
    if w.outcome.Pass? && i < n {
      var w1 := Group(w, a, i, f);
      GroupFixes(w, a, i, f);
      assert w1.bytes == w.bytes;
      GroupsLittle(w1, a, i + 1, n, f);
      assert Groups(w, a, i, n, f) == Groups(w1, a, i + 1, n, f);
    }
  }

  /** The streamed-texture header pass, on little-endian data, only fixes
      up pointers: it never changes a byte. */
  lemma SmtLittle(s: seq<byte>, refs: map<nat, Ref>, a: int, f: ProcessFlags)
    requires !f.Has(EnsureBigEndian)
    ensures SmtPass(s, refs, a, f).bytes == s
  {
    if EitherGuards(f).Pass? && 0 <= a && a + SmtSize <= |s| && SmtChecks(s, a).Pass? {
      GroupsLittle(Step(Pass, s, refs), a, 0, U(s, a + 4, 4), f.Rebased(a));
    }
  }

  // ---------------------------------------------------------------------
  // Byte order
  // ---------------------------------------------------------------------

  /** Little-endian data is refused by every pass over a V1 record except
      the buffers and the streamed-texture header, before anything
      changes. */
  lemma LittleEndianRefused(s: seq<byte>, refs: map<nat, Ref>, a: int, f: ProcessFlags)
    requires !f.Has(ProcessDataOut) && !f.Has(AutoDetectEndian) && !f.Has(EnsureBigEndian)
    ensures var e := Step(Fail(Runtime(NoLittleEndianMessage)), s, refs);
      && BonePass(s, refs, a, f) == e && ShaderPass(s, refs, a, f) == e && SkinPass(s, refs, a, f) == e
      && MeshPass(s, refs, a, f) == e && MaterialPass(s, refs, a, f) == e && ModelPass(s, refs, a, f) == e
      && MaterialsPass(s, refs, a, f) == e && ShadersPass(s, refs, a, f) == e && StreamPass(s, refs, a, f) == e
  {
  }

  // ---------------------------------------------------------------------
  // The passes, on the buffer
  // ---------------------------------------------------------------------

  /** `FArraySwapper` of the record of `words` words at `a`. */
  method SwapRecord(buf: Buffer, a: nat, words: nat)
    requires a + 4 * words <= buf.bytes.Length
    modifies buf.bytes
    ensures buf.bytes[..] == SwapSpan(old(buf.bytes[..]), a, 4 * words)
  {
    SwappedIsRun(buf.bytes[..], a, Layout(words, 0));
    var _ := buf.SwapFields(a, words, 4);
  }

  /** `ProcessClass(V1::Bone)`, on the buffer. */
  method ProcessBone(buf: Buffer, a: int, flags: ProcessFlags) returns (r: Outcome)
    modifies buf, buf.bytes
    ensures Step(r, buf.bytes[..], buf.refs) == BonePass(old(buf.bytes[..]), old(buf.refs), a, flags)
  {
    r := BigGuards(flags);
    if r.Fail? {
      return;
    }
    if !buf.Fits(a, BoneSize) {
      return Fail(OutOfBounds);
    }
    WalkOne(buf, a, BoneLayout, true, flags.base);
    r := Pass;
  }

  /** `ProcessClass(V1::Shader)`, on the buffer. */
  method ProcessShader(buf: Buffer, a: int, flags: ProcessFlags) returns (r: Outcome)
    modifies buf, buf.bytes
    ensures Step(r, buf.bytes[..], buf.refs) == ShaderPass(old(buf.bytes[..]), old(buf.refs), a, flags)
  {
    r := BigGuards(flags);
    if r.Fail? {
      return;
    }
    if !buf.Fits(a, ShaderSize) {
      return Fail(OutOfBounds);
    }
    WalkOne(buf, a, ShaderLayout, true, flags.base);
    r := Pass;
  }

  /** The body of `Owning`, on the buffer. */
  method ProcessOwning(buf: Buffer, a: nat, words: nat, arr: ElementArray, base: Ref) returns (r: Outcome)
    requires a + 4 * words <= buf.bytes.Length && arr.items + 4 <= 4 * words && arr.count + 4 <= 4 * words && arr.width > 0
    modifies buf, buf.bytes
    ensures Step(r, buf.bytes[..], buf.refs) == Owning(old(buf.bytes[..]), old(buf.refs), a, words, arr, base)
  {
    ghost var s, refs := buf.bytes[..], buf.refs;
    SwapOwner(buf, a, words, arr, base);
    OwningAfterSwap(s, refs, a, words, arr, base, buf.bytes[..], buf.refs);
    r := ArraySweep(buf, a, arr);
  }

  /** `Owning` is the array sweep of the record once swapped and fixed up. */
  lemma OwningAfterSwap(s: seq<byte>, refs: map<nat, Ref>, a: nat, words: nat, arr: ElementArray, base: Ref,
                        t: seq<byte>, refs1: map<nat, Ref>)
    requires a + 4 * words <= |s| && arr.items + 4 <= 4 * words && arr.count + 4 <= 4 * words && arr.width > 0
    requires t == SwapSpan(s, a, 4 * words) && refs1 == refs[a + arr.items := Resolve(base, I(t, a + arr.items, 4))]
    ensures Owning(s, refs, a, words, arr, base) == ArraySwept(t, refs1, a, arr)
  {
  }

  /** The record swap and the items fix-up that start `Owning`. */
  method SwapOwner(buf: Buffer, a: nat, words: nat, arr: ElementArray, base: Ref)
    requires a + 4 * words <= buf.bytes.Length && arr.items + 4 <= 4 * words
    modifies buf, buf.bytes
    ensures buf.bytes[..] == SwapSpan(old(buf.bytes[..]), a, 4 * words)
    ensures buf.refs == old(buf.refs)[a + arr.items := Resolve(base, I(buf.bytes[..], a + arr.items, 4))]
  {
    SwapRecord(buf, a, words);
    var _ := buf.Fixup(a + arr.items, 4, base);
  }

  /** `ProcessClass(V1::MeshSkin)`, on the buffer. */
  method ProcessSkin(buf: Buffer, a: int, flags: ProcessFlags) returns (r: Outcome)
    modifies buf, buf.bytes
    ensures Step(r, buf.bytes[..], buf.refs) == SkinPass(old(buf.bytes[..]), old(buf.refs), a, flags)
  {
    r := BigGuards(flags);
    if r.Fail? {
      return;
    }
    if !buf.Fits(a, SkinSize) {
      return Fail(OutOfBounds);
    }
    r := ProcessOwning(buf, a, SkinWords, BoneIndices, flags.base);
  }

  /** `ProcessClass(V1::Mesh)`, on the buffer. */
  method ProcessMesh(buf: Buffer, a: int, flags: ProcessFlags) returns (r: Outcome)
    modifies buf, buf.bytes
    ensures Step(r, buf.bytes[..], buf.refs) == MeshPass(old(buf.bytes[..]), old(buf.refs), a, flags)
  {
    r := BigGuards(flags);
    if r.Fail? {
      return;
    }
    if !buf.Fits(a, MeshSize) {
      return Fail(OutOfBounds);
    }
    r := ProcessOwning(buf, a, MeshWords, Primitives, flags.base);
  }

  /** `ProcessClass(V1::Material)`, on the buffer. */
  method ProcessMaterial(buf: Buffer, a: int, flags: ProcessFlags) returns (r: Outcome)
    modifies buf, buf.bytes
    ensures Step(r, buf.bytes[..], buf.refs) == MaterialPass(old(buf.bytes[..]), old(buf.refs), a, flags)
  {
    r := BigGuards(flags);
    if r.Fail? {
      return;
    }
    if !buf.Fits(a, MaterialSize) {
      return Fail(OutOfBounds);
    }
    r := ProcessOwning(buf, a, MaterialWords, TextureLinks, flags.base);
  }

  /** `ProcessClass(V1::Model)`, on the buffer. */
  method ProcessModel(buf: Buffer, a: int, flags: ProcessFlags) returns (r: Outcome)
    modifies buf, buf.bytes
    ensures Step(r, buf.bytes[..], buf.refs) == ModelPass(old(buf.bytes[..]), old(buf.refs), a, flags)
  {
    r := BigGuards(flags);
    if r.Fail? {
      return;
    }
    if !buf.Fits(a, ModelSize) {
      return Fail(OutOfBounds);
    }
    SwapRecord(buf, a, ModelWords);
    ModelPointersFit(a, buf.bytes.Length);
    buf.FixupList(a, ModelPointers, At(a));
    r := ProcessModelArrays(buf, a, flags.Rebased(a));
  }

  /** The loops of `ModelArrays`, on the buffer. */
  method ProcessModelArrays(buf: Buffer, a: nat, f: ProcessFlags) returns (r: Outcome)
    requires a + ModelSize <= buf.bytes.Length
    modifies buf, buf.bytes
    ensures Step(r, buf.bytes[..], buf.refs) == ModelArrays(Step(Pass, old(buf.bytes[..]), old(buf.refs)), a, f)
  {
    RecordPassesSized();
    r := ProcessSkeleton(buf, a, f);
    ghost var w1 := Step(r, buf.bytes[..], buf.refs);
    if r.Fail? {
      assert ForEach(w1, RefOf(w1.refs, a + 24), U(w1.bytes, a + 28, 4), MeshSize, MeshPass, f) == w1;
      return;
    }
    r := RunForEach(buf, buf.RefAt(a + 24), U(buf.bytes[..], a + 28, 4), MeshSize, MeshPass, f);
    ghost var w2 := Step(r, buf.bytes[..], buf.refs);
    if r.Fail? {
      assert ForEach(w2, RefOf(w2.refs, a + 32), U(w2.bytes, a + 36, 4), SkinSize, SkinPass, f) == w2;
      return;
    }
    r := RunForEach(buf, buf.RefAt(a + 32), U(buf.bytes[..], a + 36, 4), SkinSize, SkinPass, f);
  }

  /** The loops of `Skeleton`, on the buffer. */
  method ProcessSkeleton(buf: Buffer, a: nat, f: ProcessFlags) returns (r: Outcome)
    requires a + ModelSize <= buf.bytes.Length
    modifies buf, buf.bytes
    ensures Step(r, buf.bytes[..], buf.refs) == Skeleton(Step(Pass, old(buf.bytes[..]), old(buf.refs)), a, f)
  {
    RecordPassesSized();
    r := Walk(buf, buf.RefAt(a + 100), U(buf.bytes[..], a + 104, 4), NameLayout, true, f.base);
    if r.Fail? {
      return;
    }
    var bones := buf.RefAt(a + 80);
    r := RunForEach(buf, bones, U(buf.bytes[..], a + 84, 4), BoneSize, BonePass, f.(base := bones));
    if r.Fail? {
      return;
    }
    r := ArraySweep(buf, a, Floats);
  }

  /** `ProcessClass(V1::MaterialsHeader)`, on the buffer. */
  method ProcessMaterials(buf: Buffer, a: int, flags: ProcessFlags) returns (r: Outcome)
    modifies buf, buf.bytes
    ensures Step(r, buf.bytes[..], buf.refs) == MaterialsPass(old(buf.bytes[..]), old(buf.refs), a, flags)
  {
    r := BigGuards(flags);
    if r.Fail? {
      return;
    }
    if !buf.Fits(a, MaterialsSize) {
      return Fail(OutOfBounds);
    }
    RecordPassesSized();
    SwapRecord(buf, a, MaterialsWords);
    var _ := buf.Fixup(a, 4, At(a));
    r := RunForEach(buf, buf.RefAt(a), U(buf.bytes[..], a + 4, 4), MaterialSize, MaterialPass, flags.Rebased(a));
  }

  /** `ProcessClass(V1::Shaders)`, on the buffer. */
  method ProcessShaders(buf: Buffer, a: int, flags: ProcessFlags) returns (r: Outcome)
    modifies buf, buf.bytes
    ensures Step(r, buf.bytes[..], buf.refs) == ShadersPass(old(buf.bytes[..]), old(buf.refs), a, flags)
  {
    r := BigGuards(flags);
    if r.Fail? {
      return;
    }
    if !buf.Fits(a, ShadersSize) {
      return Fail(OutOfBounds);
    }
    RecordPassesSized();
    SwapRecord(buf, a, ShadersWords);
    var _ := buf.Fixup(a, 4, At(a));
    r := RunForEach(buf, buf.RefAt(a), U(buf.bytes[..], a + 4, 4), ShaderSize, ShaderPass, flags.Rebased(a));
  }

  /** `ProcessClass(V1::VertexBuffer)`, on the buffer. */
  method ProcessVertexBuffer(buf: Buffer, a: int, flags: ProcessFlags) returns (r: Outcome)
    modifies buf, buf.bytes
    ensures Step(r, buf.bytes[..], buf.refs) == VertexBufferPass(old(buf.bytes[..]), old(buf.refs), a, flags)
  {
    r := EitherGuards(flags);
    if r.Fail? {
      return;
    }
    if !buf.Fits(a, VertexBufferSize) {
      return Fail(OutOfBounds);
    }
    var big := flags.Has(EnsureBigEndian);
    if big {
      SwapRecord(buf, a, 6);
    }
    var _ := buf.Fixup(a, 4, flags.base);
    var _ := buf.Fixup(a + 12, 4, flags.base);
    if !big {
      return Pass;
    }
    r := ProcessVertexData(buf, a);
  }

  /** The big-endian part of the vertex buffer pass, on the buffer. */
  method ProcessVertexData(buf: Buffer, a: nat) returns (r: Outcome)
    requires a + VertexBufferSize <= buf.bytes.Length
    modifies buf.bytes
    ensures Step(r, buf.bytes[..], buf.refs) == VertexData(Step(Pass, old(buf.bytes[..]), buf.refs), a)
  {
    r := ArraySweep(buf, a, DescriptorArray);
    if r.Fail? {
      return;
    }
    r := ProcessVertexLoop(buf, a);
  }

  /** The vertex loop of `VertexLoop`, on the buffer. */
  method ProcessVertexLoop(buf: Buffer, a: nat) returns (r: Outcome)
    requires a + VertexBufferSize <= buf.bytes.Length
    modifies buf.bytes
    ensures Step(r, buf.bytes[..], buf.refs) == VertexLoop(Step(Pass, old(buf.bytes[..]), buf.refs), a)
  {
    ghost var w := Step(Pass, buf.bytes[..], buf.refs);
    var stride := U(buf.bytes[..], a + 8, 4);
    if stride == 0 {
      return Fail(DivisionByZero);
    }
    var ts := DescriptorTable(Step(Pass, buf.bytes[..], buf.refs), a);
    var size := U(buf.bytes[..], a + 4, 4);
    var n := size / stride;
    assert VertexLoop(w, a) == StridedColumns(w, a, stride, size);
    assert StridedColumns(w, a, stride, size) == Columns(w, RefOf(w.refs, a), stride, n, ts, 0);
    r := SwapVertices(buf, buf.RefAt(a), stride, n, ts);
  }

  /** `ProcessClass(V1::IndexBuffer)`, on the buffer. */
  method ProcessIndexBuffer(buf: Buffer, a: int, flags: ProcessFlags) returns (r: Outcome)
    modifies buf, buf.bytes
    ensures Step(r, buf.bytes[..], buf.refs) == IndexBufferPass(old(buf.bytes[..]), old(buf.refs), a, flags)
  {
    r := EitherGuards(flags);
    if r.Fail? {
      return;
    }
    if !buf.Fits(a, IndexBufferSize) {
      return Fail(OutOfBounds);
    }
    var big := flags.Has(EnsureBigEndian);
    if big {
      SwapRecord(buf, a, 3);
    }
    var _ := buf.Fixup(a, 4, flags.base);
    if !big {
      return Pass;
    }
    r := ArraySweep(buf, a, Indices);
  }

  /** `ProcessClass(V1::Stream)`, on the buffer. */
  method ProcessStream(buf: Buffer, a: int, flags: ProcessFlags) returns (r: Outcome)
    modifies buf, buf.bytes
    ensures Step(r, buf.bytes[..], buf.refs) == StreamPass(old(buf.bytes[..]), old(buf.refs), a, flags)
  {
    r := BigGuards(flags);
    if r.Fail? {
      return;
    }
    if !buf.Fits(a, StreamSize) {
      return Fail(OutOfBounds);
    }
    BufferPassesSized();
    SwapRecord(buf, a, 4);
    var _ := buf.SwapFields(a + 16, 16, 2);
    var f := flags.Rebased(a);
    var _ := buf.Fixup(a, 4, f.base);
    var _ := buf.Fixup(a + 8, 4, f.base);
    r := RunForEach(buf, buf.RefAt(a), U(buf.bytes[..], a + 4, 4), VertexBufferSize, VertexBufferPass, f);
    ghost var w1 := Step(r, buf.bytes[..], buf.refs);
    if r.Fail? {
      assert ForEach(w1, RefOf(w1.refs, a + 8), U(w1.bytes, a + 12, 4), IndexBufferSize, IndexBufferPass, f) == w1;
      return;
    }
    r := RunForEach(buf, buf.RefAt(a + 8), U(buf.bytes[..], a + 12, 4), IndexBufferSize, IndexBufferPass, f);
  }

  /** `ProcessClass(V1::SMTHeader)`, on the buffer. */
  method ProcessSmt(buf: Buffer, a: int, flags: ProcessFlags) returns (r: Outcome)
    modifies buf, buf.bytes
    ensures Step(r, buf.bytes[..], buf.refs) == SmtPass(old(buf.bytes[..]), old(buf.refs), a, flags)
  {
    r := EitherGuards(flags);
    if r.Fail? {
      return;
    }
    if !buf.Fits(a, SmtSize) {
      return Fail(OutOfBounds);
    }
    if flags.Has(EnsureBigEndian) {
      SwapRecord(buf, a, 10);
    }
    :- SmtChecks(buf.bytes[..], a);
    var n := U(buf.bytes[..], a + 4, 4);
    var f := flags.Rebased(a);
    ghost var w0 := Step(Pass, buf.bytes[..], buf.refs);
    var i := 0;
    while i < n
      invariant 0 <= i <= n && a + SmtSize <= buf.bytes.Length
      invariant Groups(Step(Pass, buf.bytes[..], buf.refs), a, i, n, f) == Groups(w0, a, 0, n, f)
    {
      r := ProcessGroup(buf, a, i, f);
      if r.Fail? {
        return;
      }
      i := i + 1;
    }
    r := Pass;
  }

  /** One used group, on the buffer. */
  method ProcessGroup(buf: Buffer, a: nat, i: nat, f: ProcessFlags) returns (r: Outcome)
    requires a + SmtSize <= buf.bytes.Length && i < 2
    modifies buf, buf.bytes
    ensures Step(r, buf.bytes[..], buf.refs) == Group(Step(Pass, old(buf.bytes[..]), old(buf.refs)), a, i, f)
  {
    var ids, table := a + 16 + 4 * i, a + 8 + 4 * i;
    var _ := buf.Fixup(ids, 4, At(a));
    var _ := buf.Fixup(table, 4, At(a));
    match buf.RefAt(table) {
      case Null =>
        return Fail(NullReference);
      case Wild =>
        return Fail(WildReference);
      case At(g) =>
        r := Drsm.ProcessTextures(buf, g, f);
        if r.Fail? || !f.Has(EnsureBigEndian) {
          return;
        }
        r := Sweep(buf, buf.RefAt(ids), U(buf.bytes[..], g, 4), 2);
    }
  }
}
