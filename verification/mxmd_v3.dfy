/** The passes over the records of a version 3 (little-endian) MXMD model
    container (`source/mxmd.cpp`). Version 3 data is stored in the host's
    byte order, so none of these passes swaps anything: they check their
    flags and fix up pointers.

    Record layouts (`include/xenolib/internal/mxmd_v3.inl`), as offsets in
    bytes; an `Array` is an items pointer followed by a 32-bit count:
    - Mesh (40 bytes): primitives 0 (`Array`).
    - Bone (24 bytes): name 0.
    - Skin (24 bytes): nodesOffset 8, nodeTMSOffset 12.
    - MorphControl (28 bytes): name1 0, name2 4.
    - Morphs (24 bytes): controls 0 (`Array` of MorphControl).
    - Model (152 bytes): meshes 28 (`Array` of Mesh), skin 40, morphs 128.
    - Material (116 bytes): textures 32 (`Array`).
    - MaterialsHeader (104 bytes): materials 0 (`Array` of Material).
    - SMTHeader (48), VertexBuffer (32), IndexBuffer (20): the version 1
      record followed by two more words.
    - MorphDescriptor (20 bytes): targetIds 12.
    - MorphsHeader (16 bytes): descs 0, buffers 8.
    - BufferManager (16 bytes): weightPalettes 4, morph 12.
    - Stream (60 bytes): vertexBuffers 0, indexBuffers 8 (`Array`s),
      bufferManager 56. */
module MxmdV3 {
  import opened Outcomes
  import opened Bytes
  import opened Memory
  import opened Flags
  import opened Passes
  import MxmdV1

  const MeshSize: nat := 40
  const BoneSize: nat := 24
  const SkinSize: nat := 24
  const MorphControlSize: nat := 28
  const MorphsSize: nat := 24
  const ModelSize: nat := 152
  const MaterialSize: nat := 116
  const MaterialsSize: nat := 104
  const SmtSize: nat := 48
  const VertexBufferSize: nat := 32
  const IndexBufferSize: nat := 20
  const MorphDescriptorSize: nat := 20
  const MorphsHeaderSize: nat := 16
  const BufferManagerSize: nat := 16
  const StreamSize: nat := 60

  /** The pointer fields each record fixes up, in the source's order. */
  const SkinPointers: seq<Field> := [Field(8, 4), Field(12, 4)]
  const MorphControlPointers: seq<Field> := [Field(0, 4), Field(4, 4)]
  const ModelPointers: seq<Field> := [Field(28, 4), Field(128, 4), Field(40, 4)]
  const MorphsHeaderPointers: seq<Field> := [Field(0, 4), Field(8, 4)]
  const BufferManagerPointers: seq<Field> := [Field(4, 4), Field(12, 4)]
  const StreamPointers: seq<Field> := [Field(0, 4), Field(8, 4), Field(56, 4)]

  /** The guards of most version 3 passes, in their order: NoBigEndian,
      NoProcessDataOut, NoAutoDetect. */
  function LittleGuards(f: ProcessFlags): (r: Outcome)
    ensures r.Pass? <==> !f.Has(EnsureBigEndian) && !f.Has(ProcessDataOut) && !f.Has(AutoDetectEndian)
    ensures f.Has(EnsureBigEndian) ==> r == Fail(Runtime(NoBigEndianMessage))
  {
    if f.NoBigEndian().Fail? then f.NoBigEndian()
    else if f.NoProcessDataOut().Fail? then f.NoProcessDataOut()
    else f.NoAutoDetect()
  }

  /** The guards of the two material passes, in their order:
      NoProcessDataOut, NoAutoDetect, NoBigEndian. They pass exactly when
      `LittleGuards` do, but report a different flag first. */
  function MaterialGuards(f: ProcessFlags): (r: Outcome)
    ensures r.Pass? <==> LittleGuards(f).Pass?
    ensures f.Has(ProcessDataOut) ==> r == Fail(Runtime(NoProcessDataOutMessage))
  {
    if f.NoProcessDataOut().Fail? then f.NoProcessDataOut()
    else if f.NoAutoDetect().Fail? then f.NoAutoDetect()
    else f.NoBigEndian()
  }

  /** The fixups of the pointer fields `fs` of the record at `a` against
      `base`; the bytes stay as they are. */
  function Fixes(s: seq<byte>, refs: map<nat, Ref>, a: nat, fs: seq<Field>, base: Ref): (w: Step)
    requires FieldsFit(a, fs, |s|)
    ensures w.bytes == s && w.outcome.Pass?
  {
    Step(Pass, s, FixEach(refs, s, a, fs, base))
  }

  lemma PointersFit(a: nat, n: nat)
    ensures a + SkinSize <= n ==> FieldsFit(a, SkinPointers, n)
    ensures a + MorphControlSize <= n ==> FieldsFit(a, MorphControlPointers, n)
    ensures a + ModelSize <= n ==> FieldsFit(a, ModelPointers, n)
    ensures a + MorphsHeaderSize <= n ==> FieldsFit(a, MorphsHeaderPointers, n)
    ensures a + BufferManagerSize <= n ==> FieldsFit(a, BufferManagerPointers, n)
    ensures a + StreamSize <= n ==> FieldsFit(a, StreamPointers, n)
  {
  }

  // ---------------------------------------------------------------------
  // Records with pointers only
  // ---------------------------------------------------------------------

  /** `ProcessClass(V3::Mesh)`: the primitives fixed up against
      `flags.base`. */
  function MeshPass(s: seq<byte>, refs: map<nat, Ref>, a: int, f: ProcessFlags): (w: Step)
    ensures w.bytes == s
  {
    if LittleGuards(f).Fail? then Step(LittleGuards(f), s, refs)
    else if !(0 <= a && a + MeshSize <= |s|) then Step(Fail(OutOfBounds), s, refs)
    else Fixes(s, refs, a, [Field(0, 4)], f.base)
  }

  /** `ProcessClass(V3::Bone)`: the name fixed up against `flags.base`. No
      other pass of the format calls it. */
  function BonePass(s: seq<byte>, refs: map<nat, Ref>, a: int, f: ProcessFlags): (w: Step)
    ensures w.bytes == s
  {
    if LittleGuards(f).Fail? then Step(LittleGuards(f), s, refs)
    else if !(0 <= a && a + BoneSize <= |s|) then Step(Fail(OutOfBounds), s, refs)
    else Fixes(s, refs, a, [Field(0, 4)], f.base)
  }

  /** `ProcessClass(V3::Skin)`: its two pointers fixed up against
      `flags.base`; the bones they point to are not followed. */
  function SkinPass(s: seq<byte>, refs: map<nat, Ref>, a: int, f: ProcessFlags): (w: Step)
    ensures w.bytes == s
  {
    if LittleGuards(f).Fail? then Step(LittleGuards(f), s, refs)
    else if !(0 <= a && a + SkinSize <= |s|) then Step(Fail(OutOfBounds), s, refs)
    else
      PointersFit(a, |s|);
      Fixes(s, refs, a, SkinPointers, f.base)
  }

  /** `ProcessClass(V3::MorphControl)`: both names fixed up against
      `flags.base`. */
  function MorphControlPass(s: seq<byte>, refs: map<nat, Ref>, a: int, f: ProcessFlags): (w: Step)
    ensures w.bytes == s
  {
    if LittleGuards(f).Fail? then Step(LittleGuards(f), s, refs)
    else if !(0 <= a && a + MorphControlSize <= |s|) then Step(Fail(OutOfBounds), s, refs)
    else
      PointersFit(a, |s|);
      Fixes(s, refs, a, MorphControlPointers, f.base)
  }

  /** `ProcessClass(V3::Material)`: the textures fixed up against
      `flags.base`. */
  function MaterialPass(s: seq<byte>, refs: map<nat, Ref>, a: int, f: ProcessFlags): (w: Step)
    ensures w.bytes == s
  {
    if MaterialGuards(f).Fail? then Step(MaterialGuards(f), s, refs)
    else if !(0 <= a && a + MaterialSize <= |s|) then Step(Fail(OutOfBounds), s, refs)
    else Fixes(s, refs, a, [Field(32, 4)], f.base)
  }

  /** `ProcessClass(V3::MorphDescriptor)`: the target ids fixed up against
      `flags.base`. No other pass of the format calls it. */
  function MorphDescriptorPass(s: seq<byte>, refs: map<nat, Ref>, a: int, f: ProcessFlags): (w: Step)
    ensures w.bytes == s
  {
    if LittleGuards(f).Fail? then Step(LittleGuards(f), s, refs)
    else if !(0 <= a && a + MorphDescriptorSize <= |s|) then Step(Fail(OutOfBounds), s, refs)
    else Fixes(s, refs, a, [Field(12, 4)], f.base)
  }

  /** `ProcessClass(V3::MorphsHeader)`: descriptors and buffers fixed up
      against `flags.base`, neither followed. No other pass of the format
      calls it. */
  function MorphsHeaderPass(s: seq<byte>, refs: map<nat, Ref>, a: int, f: ProcessFlags): (w: Step)
    ensures w.bytes == s
  {
    if LittleGuards(f).Fail? then Step(LittleGuards(f), s, refs)
    else if !(0 <= a && a + MorphsHeaderSize <= |s|) then Step(Fail(OutOfBounds), s, refs)
    else
      PointersFit(a, |s|);
      Fixes(s, refs, a, MorphsHeaderPointers, f.base)
  }

  /** `ProcessClass(V3::BufferManager)`: the weight palettes and the morph
      header fixed up against `flags.base`; the morph header is not
      followed. */
  function BufferManagerPass(s: seq<byte>, refs: map<nat, Ref>, a: int, f: ProcessFlags): (w: Step)
    ensures w.bytes == s
  {
    if LittleGuards(f).Fail? then Step(LittleGuards(f), s, refs)
    else if !(0 <= a && a + BufferManagerSize <= |s|) then Step(Fail(OutOfBounds), s, refs)
    else
      PointersFit(a, |s|);
      Fixes(s, refs, a, BufferManagerPointers, f.base)
  }

  /** The version 1 passes the version 3 buffers and streamed-texture
      header reuse, after refusing big-endian data. */
  function SmtPass(s: seq<byte>, refs: map<nat, Ref>, a: int, f: ProcessFlags): (w: Step)
    ensures |w.bytes| == |s|
  {
    if f.NoBigEndian().Fail? then Step(f.NoBigEndian(), s, refs) else MxmdV1.SmtPass(s, refs, a, f)
  }

  function VertexBufferPass(s: seq<byte>, refs: map<nat, Ref>, a: int, f: ProcessFlags): (w: Step)
    ensures |w.bytes| == |s|
  {
    if f.NoBigEndian().Fail? then Step(f.NoBigEndian(), s, refs) else MxmdV1.VertexBufferPass(s, refs, a, f)
  }

  function IndexBufferPass(s: seq<byte>, refs: map<nat, Ref>, a: int, f: ProcessFlags): (w: Step)
    ensures |w.bytes| == |s|
  {
    if f.NoBigEndian().Fail? then Step(f.NoBigEndian(), s, refs) else MxmdV1.IndexBufferPass(s, refs, a, f)
  }

  // ---------------------------------------------------------------------
  // Records that hold other records
  // ---------------------------------------------------------------------

  lemma LeafPassesSized()
    ensures Sized(MeshPass) && Sized(SkinPass) && Sized(MorphControlPass) && Sized(MaterialPass)
    ensures Sized(VertexBufferPass) && Sized(IndexBufferPass) && Sized(BufferManagerPass)
  {
  }

  /** `ProcessClass(V3::Morphs)`: the controls fixed up against
      `flags.base`, then each control's pass. */
  function MorphsPass(s: seq<byte>, refs: map<nat, Ref>, a: int, f: ProcessFlags): (w: Step)
    ensures |w.bytes| == |s|
  {
    if LittleGuards(f).Fail? then Step(LittleGuards(f), s, refs)
    else if !(0 <= a && a + MorphsSize <= |s|) then Step(Fail(OutOfBounds), s, refs)
    else
      LeafPassesSized();
      var w := Fixes(s, refs, a, [Field(0, 4)], f.base);
      ForEach(w, RefOf(w.refs, a), U(s, a + 4, 4), MorphControlSize, MorphControlPass, f)
  }

  lemma MorphsPassSized()
    ensures Sized(MorphsPass)
  {
  }

  /** `ProcessClass(V3::Model)`: meshes, morphs and skin fixed up against
      `flags.base`, then each mesh's pass, then the morphs' and the skin's
      passes when their pointers are not null. */
  function ModelPass(s: seq<byte>, refs: map<nat, Ref>, a: int, f: ProcessFlags): (w: Step)
    ensures |w.bytes| == |s|
  {
    if LittleGuards(f).Fail? then Step(LittleGuards(f), s, refs)
    else if !(0 <= a && a + ModelSize <= |s|) then Step(Fail(OutOfBounds), s, refs)
    else
      LeafPassesSized();
      MorphsPassSized();
      PointersFit(a, |s|);
      var w := Fixes(s, refs, a, ModelPointers, f.base);
      var w1 := ForEach(w, RefOf(w.refs, a + 28), U(s, a + 32, 4), MeshSize, MeshPass, f);
      Present(Present(w1, a + 128, MorphsPass, f), a + 40, SkinPass, f)
  }

  /** `ProcessClass(V3::MaterialsHeader)`: its base set to itself, the
      materials fixed up against it and each material's pass with the
      header as base. */
  function MaterialsPass(s: seq<byte>, refs: map<nat, Ref>, a: int, f: ProcessFlags): (w: Step)
    ensures |w.bytes| == |s|
  {
    if MaterialGuards(f).Fail? then Step(MaterialGuards(f), s, refs)
    else if !(0 <= a && a + MaterialsSize <= |s|) then Step(Fail(OutOfBounds), s, refs)
    else
      LeafPassesSized();
      var w := Fixes(s, refs, a, [Field(0, 4)], At(a));
      ForEach(w, RefOf(w.refs, a), U(s, a + 4, 4), MaterialSize, MaterialPass, f.Rebased(a))
  }

  /** `ProcessClass(V3::Stream)`: its base set to itself, its buffers and
      its buffer manager fixed up against it, then each vertex buffer's
      and each index buffer's pass, then the buffer manager's when its
      pointer is not null. */
  function StreamPass(s: seq<byte>, refs: map<nat, Ref>, a: int, f: ProcessFlags): (w: Step)
    ensures |w.bytes| == |s|
  {
    if LittleGuards(f).Fail? then Step(LittleGuards(f), s, refs)
    else if !(0 <= a && a + StreamSize <= |s|) then Step(Fail(OutOfBounds), s, refs)
    else
      LeafPassesSized();
      PointersFit(a, |s|);
      var g := f.Rebased(a);
      var w := Fixes(s, refs, a, StreamPointers, At(a));
      var w1 := ForEach(w, RefOf(w.refs, a), U(s, a + 4, 4), VertexBufferSize, VertexBufferPass, g);
      var w2 := ForEach(w1, RefOf(w1.refs, a + 8), U(w1.bytes, a + 12, 4), IndexBufferSize, IndexBufferPass, g);
      Present(w2, a + 56, BufferManagerPass, g)
  }

  lemma PassesSized()
    ensures Sized(ModelPass) && Sized(MaterialsPass) && Sized(StreamPass) && Sized(SmtPass)
  {
  }

  // ---------------------------------------------------------------------
  // Properties
  // ---------------------------------------------------------------------

  /** A pass that never changes a byte of the buffer. */
  ghost predicate KeepsBytes(pass: Pass) {
    forall s, refs, a, f :: pass(s, refs, a, f).bytes == s
  }

  /** A loop over records whose pass never changes a byte never changes a
      byte. */
  lemma {:induction false} EachKeeps(w: Step, p: int, n: nat, size: nat, pass: Pass, f: ProcessFlags)
    requires Sized(pass) && KeepsBytes(pass)
    ensures Each(w, p, n, size, pass, f).bytes == w.bytes
    decreases n
  {
    if w.outcome.Pass? && n > 0 {
      EachKeeps(pass(w.bytes, w.refs, p, f), p + size, n - 1, size, pass, f);
    }
  }

  lemma ForEachKeeps(w: Step, start: Ref, n: nat, size: nat, pass: Pass, f: ProcessFlags)
    requires Sized(pass) && KeepsBytes(pass)
    ensures ForEach(w, start, n, size, pass, f).bytes == w.bytes
  {
    if w.outcome.Pass? && n > 0 && start.At? {
      EachKeeps(w, start.addr, n, size, pass, f);
    }
  }

  /** The buffers and the streamed-texture header of version 3 reuse the
      version 1 passes on little-endian data only, where those passes
      change no byte. */
  lemma ReusedKeepBytes()
    ensures KeepsBytes(VertexBufferPass) && KeepsBytes(IndexBufferPass) && KeepsBytes(SmtPass)
  {
    forall s, refs, a, f
      ensures VertexBufferPass(s, refs, a, f).bytes == s && IndexBufferPass(s, refs, a, f).bytes == s
      ensures SmtPass(s, refs, a, f).bytes == s
    {
      if f.NoBigEndian().Pass? {
        MxmdV1.SmtLittle(s, refs, a, f);
        if MxmdV1.EitherGuards(f).Pass? && 0 <= a && a + MxmdV1.VertexBufferSize <= |s| {
          MxmdV1.VertexBufferLittle(s, refs, a, f);
        }
        if MxmdV1.EitherGuards(f).Pass? && 0 <= a && a + MxmdV1.IndexBufferSize <= |s| {
          MxmdV1.IndexBufferMeaning(s, refs, a, f);
        }
      }
    }
  }

  /** Every version 3 pass leaves the bytes of the buffer as they were:
      the data is already in the host's byte order, and only pointers are
      fixed up. */
  lemma PassesKeepBytes()
    ensures KeepsBytes(MorphsPass) && KeepsBytes(ModelPass) && KeepsBytes(MaterialsPass) && KeepsBytes(StreamPass)
  {
    MorphsKeepBytes();
    ModelKeepsBytes();
    MaterialsKeepBytes();
    StreamKeepsBytes();
  }

  lemma MorphsKeepBytes()
    ensures KeepsBytes(MorphsPass)
  {
    LeafPassesSized();
    forall s, refs, a, f
      ensures MorphsPass(s, refs, a, f).bytes == s
    {
      if LittleGuards(f).Pass? && 0 <= a && a + MorphsSize <= |s| {
        var w := Fixes(s, refs, a, [Field(0, 4)], f.base);
        ForEachKeeps(w, RefOf(w.refs, a), U(s, a + 4, 4), MorphControlSize, MorphControlPass, f);
      }
    }
  }

  lemma ModelKeepsBytes()
    ensures KeepsBytes(ModelPass)
  {
    LeafPassesSized();
    MorphsPassSized();
    MorphsKeepBytes();
    forall s, refs, a, f
      ensures ModelPass(s, refs, a, f).bytes == s
    {
      if LittleGuards(f).Pass? && 0 <= a && a + ModelSize <= |s| {
        PointersFit(a, |s|);
        var w := Fixes(s, refs, a, ModelPointers, f.base);
        ForEachKeeps(w, RefOf(w.refs, a + 28), U(s, a + 32, 4), MeshSize, MeshPass, f);
      }
    }
  }

  lemma MaterialsKeepBytes()
    ensures KeepsBytes(MaterialsPass)
  {
    LeafPassesSized();
    forall s, refs, a, f
      ensures MaterialsPass(s, refs, a, f).bytes == s
    {
      if MaterialGuards(f).Pass? && 0 <= a && a + MaterialsSize <= |s| {
        var w := Fixes(s, refs, a, [Field(0, 4)], At(a));
        ForEachKeeps(w, RefOf(w.refs, a), U(s, a + 4, 4), MaterialSize, MaterialPass, f.Rebased(a));
      }
    }
  }

  lemma StreamKeepsBytes()
    ensures KeepsBytes(StreamPass)
  {
    LeafPassesSized();
    ReusedKeepBytes();
    forall s, refs, a, f
      ensures StreamPass(s, refs, a, f).bytes == s
    {
      if LittleGuards(f).Pass? && 0 <= a && a + StreamSize <= |s| {
        PointersFit(a, |s|);
        var g := f.Rebased(a);
        var w := Fixes(s, refs, a, StreamPointers, At(a));
        ForEachKeeps(w, RefOf(w.refs, a), U(s, a + 4, 4), VertexBufferSize, VertexBufferPass, g);
        var w1 := ForEach(w, RefOf(w.refs, a), U(s, a + 4, 4), VertexBufferSize, VertexBufferPass, g);
        ForEachKeeps(w1, RefOf(w1.refs, a + 8), U(w1.bytes, a + 12, 4), IndexBufferSize, IndexBufferPass, g);
      }
    }
  }

  /** Big-endian data is refused by every version 3 pass before anything
      changes; the material passes report ProcessDataOut first. */
  lemma BigEndianRefused(s: seq<byte>, refs: map<nat, Ref>, a: int, f: ProcessFlags)
    requires f.Has(EnsureBigEndian)
    ensures var e := Step(Fail(Runtime(NoBigEndianMessage)), s, refs);
      && MeshPass(s, refs, a, f) == e && SkinPass(s, refs, a, f) == e && MorphControlPass(s, refs, a, f) == e
      && MorphsPass(s, refs, a, f) == e && ModelPass(s, refs, a, f) == e && StreamPass(s, refs, a, f) == e
      && BufferManagerPass(s, refs, a, f) == e && SmtPass(s, refs, a, f) == e
      && VertexBufferPass(s, refs, a, f) == e && IndexBufferPass(s, refs, a, f) == e
    ensures !f.Has(ProcessDataOut) && !f.Has(AutoDetectEndian) ==>
              MaterialPass(s, refs, a, f) == Step(Fail(Runtime(NoBigEndianMessage)), s, refs) &&
              MaterialsPass(s, refs, a, f) == Step(Fail(Runtime(NoBigEndianMessage)), s, refs)
  {
  }

  /** A model's morphs and skin are optional: a null pointer to either is
      left alone, where a mesh array with a count is followed whatever its
      pointer holds. The skin's pass runs after the morphs' pass. */
  lemma ModelOptional(s: seq<byte>, refs: map<nat, Ref>, a: nat, f: ProcessFlags)
    requires a + ModelSize <= |s| && LittleGuards(f).Pass?
    ensures (PointersFit(a, |s|);
      var w := Fixes(s, refs, a, ModelPointers, f.base);
      var w1 := ForEach(w, RefOf(w.refs, a + 28), U(s, a + 32, 4), MeshSize, MeshPass, f);
      RefOf(w1.refs, a + 128).Null? && RefOf(w1.refs, a + 40).Null? ==> ModelPass(s, refs, a, f) == w1)
  {
  }

  // ---------------------------------------------------------------------
  // The passes, on the buffer
  // ---------------------------------------------------------------------

  /** `Fixes`, on the buffer. */
  method FixupAll(buf: Buffer, a: nat, fs: seq<Field>, base: Ref)
    requires FieldsFit(a, fs, buf.bytes.Length)
    modifies buf
    ensures Step(Pass, buf.bytes[..], buf.refs) == Fixes(old(buf.bytes[..]), old(buf.refs), a, fs, base)
  {
    buf.FixupList(a, fs, base);
  }

  /** `ProcessClass(V3::Mesh)`, on the buffer. */
  method ProcessMesh(buf: Buffer, a: int, flags: ProcessFlags) returns (r: Outcome)
    modifies buf
    ensures Step(r, buf.bytes[..], buf.refs) == MeshPass(old(buf.bytes[..]), old(buf.refs), a, flags)
  {
    r := LittleGuards(flags);
    if r.Fail? {
      return;
    }
    if !buf.Fits(a, MeshSize) {
      return Fail(OutOfBounds);
    }
    FixupAll(buf, a, [Field(0, 4)], flags.base);
    r := Pass;
  }

  /** `ProcessClass(V3::Skin)`, on the buffer. */
  method ProcessSkin(buf: Buffer, a: int, flags: ProcessFlags) returns (r: Outcome)
    modifies buf
    ensures Step(r, buf.bytes[..], buf.refs) == SkinPass(old(buf.bytes[..]), old(buf.refs), a, flags)
  {
    r := LittleGuards(flags);
    if r.Fail? {
      return;
    }
    if !buf.Fits(a, SkinSize) {
      return Fail(OutOfBounds);
    }
    PointersFit(a, buf.bytes.Length);
    FixupAll(buf, a, SkinPointers, flags.base);
    r := Pass;
  }

  /** `ProcessClass(V3::Material)`, on the buffer. */
  method ProcessMaterial(buf: Buffer, a: int, flags: ProcessFlags) returns (r: Outcome)
    modifies buf
    ensures Step(r, buf.bytes[..], buf.refs) == MaterialPass(old(buf.bytes[..]), old(buf.refs), a, flags)
  {
    r := MaterialGuards(flags);
    if r.Fail? {
      return;
    }
    if !buf.Fits(a, MaterialSize) {
      return Fail(OutOfBounds);
    }
    FixupAll(buf, a, [Field(32, 4)], flags.base);
    r := Pass;
  }

  /** `ProcessClass(V3::BufferManager)`, on the buffer. */
  method ProcessBufferManager(buf: Buffer, a: int, flags: ProcessFlags) returns (r: Outcome)
    modifies buf
    ensures Step(r, buf.bytes[..], buf.refs) == BufferManagerPass(old(buf.bytes[..]), old(buf.refs), a, flags)
  {
    r := LittleGuards(flags);
    if r.Fail? {
      return;
    }
    if !buf.Fits(a, BufferManagerSize) {
      return Fail(OutOfBounds);
    }
    PointersFit(a, buf.bytes.Length);
    FixupAll(buf, a, BufferManagerPointers, flags.base);
    r := Pass;
  }

  /** `ProcessClass(V3::Morphs)`, on the buffer. */
  method ProcessMorphs(buf: Buffer, a: int, flags: ProcessFlags) returns (r: Outcome)
    modifies buf, buf.bytes
    ensures Step(r, buf.bytes[..], buf.refs) == MorphsPass(old(buf.bytes[..]), old(buf.refs), a, flags)
  {
    r := LittleGuards(flags);
    if r.Fail? {
      return;
    }
    if !buf.Fits(a, MorphsSize) {
      return Fail(OutOfBounds);
    }
    LeafPassesSized();
    FixupAll(buf, a, [Field(0, 4)], flags.base);
    r := RunForEach(buf, buf.RefAt(a), U(buf.bytes[..], a + 4, 4), MorphControlSize, MorphControlPass, flags);
  }

  /** `ProcessClass(V3::Model)`, on the buffer. */
  method ProcessModel(buf: Buffer, a: int, flags: ProcessFlags) returns (r: Outcome)
    modifies buf, buf.bytes
    ensures Step(r, buf.bytes[..], buf.refs) == ModelPass(old(buf.bytes[..]), old(buf.refs), a, flags)
  {
    r := LittleGuards(flags);
    if r.Fail? {
      return;
    }
    if !buf.Fits(a, ModelSize) {
      return Fail(OutOfBounds);
    }
    PointersFit(a, buf.bytes.Length);
    FixupAll(buf, a, ModelPointers, flags.base);
    r := ProcessModelParts(buf, a, flags);
  }

  /** The meshes, morphs and skinning of `ProcessClass(V3::Model)`, once
      the model's pointers are fixed up. */
  method ProcessModelParts(buf: Buffer, a: nat, flags: ProcessFlags) returns (r: Outcome)
    requires a + ModelSize <= buf.bytes.Length
    modifies buf, buf.bytes
    ensures Sized(MeshPass) && Sized(MorphsPass) && Sized(SkinPass)
    ensures var w := Step(Pass, old(buf.bytes[..]), old(buf.refs));
      var w1 := ForEach(w, RefOf(w.refs, a + 28), U(w.bytes, a + 32, 4), MeshSize, MeshPass, flags);
      Step(r, buf.bytes[..], buf.refs) == Present(Present(w1, a + 128, MorphsPass, flags), a + 40, SkinPass, flags)
  {
    LeafPassesSized();
    MorphsPassSized();
    r := RunForEach(buf, buf.RefAt(a + 28), U(buf.bytes[..], a + 32, 4), MeshSize, MeshPass, flags);
    ghost var w1 := Step(r, buf.bytes[..], buf.refs);
    if r.Fail? {
      assert Present(Present(w1, a + 128, MorphsPass, flags), a + 40, SkinPass, flags) == w1;
      return;
    }
    r := VisitPresent(buf, a + 128, MorphsPass, flags);
    ghost var w2 := Step(r, buf.bytes[..], buf.refs);
    if r.Fail? {
      assert Present(w2, a + 40, SkinPass, flags) == w2;
      return;
    }
    r := VisitPresent(buf, a + 40, SkinPass, flags);
  }

  /** `ProcessClass(V3::MaterialsHeader)`, on the buffer. */
  method ProcessMaterials(buf: Buffer, a: int, flags: ProcessFlags) returns (r: Outcome)
    modifies buf, buf.bytes
    ensures Step(r, buf.bytes[..], buf.refs) == MaterialsPass(old(buf.bytes[..]), old(buf.refs), a, flags)
  {
    r := MaterialGuards(flags);
    if r.Fail? {
      return;
    }
    if !buf.Fits(a, MaterialsSize) {
      return Fail(OutOfBounds);
    }
    LeafPassesSized();
    FixupAll(buf, a, [Field(0, 4)], At(a));
    r := RunForEach(buf, buf.RefAt(a), U(buf.bytes[..], a + 4, 4), MaterialSize, MaterialPass, flags.Rebased(a));
  }

  /** `ProcessClass(V3::Stream)`, on the buffer. */
  method ProcessStream(buf: Buffer, a: int, flags: ProcessFlags) returns (r: Outcome)
    modifies buf, buf.bytes
    ensures Step(r, buf.bytes[..], buf.refs) == StreamPass(old(buf.bytes[..]), old(buf.refs), a, flags)
  {
    r := LittleGuards(flags);
    if r.Fail? {
      return;
    }
    if !buf.Fits(a, StreamSize) {
      return Fail(OutOfBounds);
    }
    LeafPassesSized();
    PointersFit(a, buf.bytes.Length);
    var g := flags.Rebased(a);
    FixupAll(buf, a, StreamPointers, At(a));
    r := RunForEach(buf, buf.RefAt(a), U(buf.bytes[..], a + 4, 4), VertexBufferSize, VertexBufferPass, g);
    ghost var w1 := Step(r, buf.bytes[..], buf.refs);
    if r.Fail? {
      assert ForEach(w1, RefOf(w1.refs, a + 8), U(w1.bytes, a + 12, 4), IndexBufferSize, IndexBufferPass, g) == w1;
      return;
    }
    r := RunForEach(buf, buf.RefAt(a + 8), U(buf.bytes[..], a + 12, 4), IndexBufferSize, IndexBufferPass, g);
    ghost var w2 := Step(r, buf.bytes[..], buf.refs);
    if r.Fail? {
      assert Present(w2, a + 56, BufferManagerPass, g) == w2;
      return;
    }
    r := VisitPresent(buf, a + 56, BufferManagerPass, g);
  }
}
