/** The views the model adapters build over decoded MXMD records
    (`include/xenolib/internal/model.hpp`, namespace `MDO`, and the adapter
    part of `source/mxmd.cpp`): vertex descriptors with their offsets inside
    a vertex, the morph-target descriptors, skeletons with parent links,
    skins, the primitives of a version 1 model, and the table of weight
    samplers a version 3 model picks from.

    The adapters read records the decode passes have already fixed up; the
    model takes those records as values (the fields the adapters read) and
    a pointer into the vertex data as a position. */
module ModelViews {
  import opened Outcomes
  import opened Bits

  /** The message of the conversions' `std::runtime_error`. */
  const UnhandledType := "Unhandled vertex type"
  /** The condition of the `assert` in `V3WeightSamplers_t::Get`. */
  const BoundCheck := "smplIndex->buffer != nullptr"

  // The enumerators of `VertexDescriptorType`, a `uint16` field.
  const Position: nat := 0
  const Weight32: nat := 1
  const BoneId: nat := 2
  const WeightId: nat := 3
  const VertexColor2: nat := 4
  const Uv1: nat := 5
  const Uv2: nat := 6
  const Uv3: nat := 7
  const Uv4: nat := 8
  const VertexColor3: nat := 14
  const Normal32: nat := 15
  const Tangent16: nat := 16
  const VertexColor: nat := 17
  const Normal: nat := 28
  const Tangent: nat := 29
  const Tangent2: nat := 31
  const Normal2: nat := 32
  const Reflection: nat := 33
  const Weight16: nat := 41
  const BoneId2: nat := 42

  /** The kind of a descriptor entry: the value stored in the record, or
      one of the two morph kinds the conversions handle although the
      enumeration gives them no value, so that no stored value reads as
      them. */
  datatype VertexKind = Stored(code: nat) | MorphVertexId | NormalMorph

  /** `uni::PrimitiveDescriptor::Usage_e`, for the usages the adapters use. */
  datatype Usage =
    | UsePosition | UseNormal | UseBoneWeights | UseBoneIndices | UseVertexIndex
    | UseVertexColor | UseTexCoord | UsePositionDelta

  /** `uni::FormatType`. */
  datatype FormatType = FloatFormat | NormFormat | UnormFormat | UintFormat

  /** `uni::DataType`, for the layouts the adapters use. */
  datatype DataType = R32G32B32 | R8G8B8A8 | R16 | R32G32 | R16G16B16A16 | R32

  /** `uni::FormatDescr`: how the components are stored. */
  datatype Format = Format(kind: FormatType, data: DataType)

  /** The bytes one element of a layout takes. */
  function ElementBytes(d: DataType): nat {
    match d
    case R32G32B32 => 12
    case R8G8B8A8 => 4
    case R16 => 2
    case R32G32 => 8
    case R16G16B16A16 => 8
    case R32 => 4
  }

  /** The kinds both `VertexType` conversions accept; every other kind
      throws "Unhandled vertex type". */
  predicate Handled(k: VertexKind) {
    match k
    case Stored(c) =>
      || c == Position || c == Normal32 || c == Weight32 || c == Normal || c == Normal2 || c == BoneId
      || c == BoneId2 || c == WeightId || c == VertexColor || c == Uv1 || c == Uv2 || c == Uv3 || c == Weight16
    case _ => true
  }

  /** `VertexType::operator uni::FormatDescr`. */
  function FormatOf(k: VertexKind): (r: Result<Format>)
    ensures r.Ok? <==> Handled(k)
    ensures r.Err? ==> r.error == Runtime(UnhandledType)
  {
    match k
    case MorphVertexId => Ok(Format(UintFormat, R32))
    case NormalMorph => Ok(Format(UnormFormat, R8G8B8A8))
    case Stored(c) =>
      if c == Position || c == Normal32 || c == Weight32 then Ok(Format(FloatFormat, R32G32B32))
      else if c == Normal || c == Normal2 then Ok(Format(NormFormat, R8G8B8A8))
      else if c == BoneId || c == BoneId2 || c == VertexColor then Ok(Format(UintFormat, R8G8B8A8))
      else if c == WeightId then Ok(Format(UintFormat, R16))
      else if c == Uv1 || c == Uv2 || c == Uv3 then Ok(Format(FloatFormat, R32G32))
      else if c == Weight16 then Ok(Format(UnormFormat, R16G16B16A16))
      else Err(Runtime(UnhandledType))
  }

  /** `VertexType::operator uni::PrimitiveDescriptor::Usage_e`. */
  function UsageOf(k: VertexKind): (r: Result<Usage>)
    ensures r.Ok? <==> Handled(k)
    ensures r.Err? ==> r.error == Runtime(UnhandledType)
  {
    match k
    case MorphVertexId => Ok(UseVertexIndex)
    case NormalMorph => Ok(UseNormal)
    case Stored(c) =>
      if c == Position then Ok(UsePosition)
      else if c == Normal32 || c == Normal || c == Normal2 then Ok(UseNormal)
      else if c == Weight32 || c == Weight16 then Ok(UseBoneWeights)
      else if c == BoneId || c == BoneId2 then Ok(UseBoneIndices)
      else if c == WeightId then Ok(UseVertexIndex)
      else if c == VertexColor then Ok(UseVertexColor)
      else if c == Uv1 || c == Uv2 || c == Uv3 then Ok(UseTexCoord)
      else Err(Runtime(UnhandledType))
  }

  /** The two conversions agree on what they accept, and on what a usage
      is stored as: positions and texture coordinates are floats, bone
      indices unsigned bytes, vertex indices unsigned integers. */
  lemma ConversionsAgree(k: VertexKind)
    ensures UsageOf(k).Ok? <==> FormatOf(k).Ok?
    ensures UsageOf(k) == Ok(UsePosition) ==> FormatOf(k) == Ok(Format(FloatFormat, R32G32B32))
    ensures UsageOf(k) == Ok(UseTexCoord) ==> FormatOf(k) == Ok(Format(FloatFormat, R32G32))
    ensures UsageOf(k) == Ok(UseBoneIndices) ==> FormatOf(k) == Ok(Format(UintFormat, R8G8B8A8))
    ensures UsageOf(k) == Ok(UseVertexIndex) ==> FormatOf(k).value.kind == UintFormat
    ensures UsageOf(k) == Ok(UseNormal) ==> ElementBytes(FormatOf(k).value.data) in {4, 12}
  {
  }

  /** Which of the two descriptor builders: the one of `model.hpp`
      (namespace `MDO`) or the one of `mxmd.cpp` (namespace `MXMD`). */
  datatype Dialect = Mdo | Mxmd

  /** The numbered set a kind belongs to: texture coordinates 1 to 4 and
      vertex colours 1 to 3, 0 for the rest. */
  function SetNumber(k: VertexKind): nat {
    if k == Stored(Uv1) || k == Stored(VertexColor) then 1
    else if k == Stored(Uv2) || k == Stored(VertexColor2) then 2
    else if k == Stored(Uv3) || k == Stored(VertexColor3) then 3
    else if k == Stored(Uv4) then 4
    else 0
  }

  /** The descriptor index the builder's lambda picks. */
  function IndexOf(k: VertexKind, dialect: Dialect): nat {
    match dialect
    case Mdo =>
      if k == Stored(Uv2) || k == Stored(VertexColor2) then 1
      else if k == Stored(Uv3) || k == Stored(VertexColor3) then 2
      else if k == Stored(Uv4) then 3
      else 0
    case Mxmd =>
      if k == Stored(Uv2) || k == MorphVertexId then 1
      else if k == Stored(Uv3) then 2
      else 0
  }

  /** In `MDO` the index numbers the set from 0. On the kinds the
      conversions accept, `MXMD` picks the same index, except that the
      morph vertex index gets 1. */
  lemma IndexMeaning(k: VertexKind)
    ensures IndexOf(k, Mdo) == if SetNumber(k) > 0 then SetNumber(k) - 1 else 0
    ensures Handled(k) && k != MorphVertexId ==> IndexOf(k, Mxmd) == IndexOf(k, Mdo)
    ensures IndexOf(MorphVertexId, Mxmd) == 1
  {
  }

  /** How a descriptor's values are shifted when read. */
  datatype Unpack = NoUnpack | AddMinusHalf

  /** A `PrimitiveDescriptor`: where the vertex data starts, the stride,
      the field's offset inside a vertex, the set index, usage, format and
      unpack. */
  datatype Descriptor = Descriptor(buffer: nat, stride: nat, offset: nat, index: nat,
                                   usage: Usage, format: Format, unpack: Unpack)

  /** A `VertexType` descriptor entry: its kind and its size in bytes. */
  datatype VertexType = VertexType(kind: VertexKind, size: nat)

  /** A `V1::VertexBuffer` as the builders read it: where its data starts,
      `data.numItems`, the stride and the descriptor entries. */
  datatype VertexSource = VertexSource(data: nat, numItems: nat, stride: nat, types: seq<VertexType>)

  /** The sum of the sizes of `ts`. */
  function Sizes(ts: seq<VertexType>): nat
    decreases |ts|
  {
    if ts == [] then 0 else Sizes(ts[..|ts| - 1]) + ts[|ts| - 1].size
  }

  /** One of the first `n` entries is a morph normal. */
  predicate MorphSeen(ts: seq<VertexType>, n: nat)
    requires n <= |ts|
  {
    n > 0 && (ts[n - 1].kind == NormalMorph || MorphSeen(ts, n - 1))
  }

  /** The unpack of descriptor `j`: in `MXMD` the builder reuses one
      descriptor value and sets its unpack at a morph normal, so the
      setting stays for every later entry. */
  function UnpackAt(ts: seq<VertexType>, j: nat, dialect: Dialect): Unpack
    requires j < |ts|
  {
    if dialect == Mxmd && MorphSeen(ts, j + 1) then AddMinusHalf else NoUnpack
  }

  /** The descriptor built for entry `j`. */
  function Describe(src: VertexSource, j: nat, dialect: Dialect): (r: Result<Descriptor>)
    requires j < |src.types|
    ensures r.Ok? <==> Handled(src.types[j].kind)
    ensures r.Err? ==> r.error == Runtime(UnhandledType)
  {
    var k := src.types[j].kind;
    if !Handled(k) then Err(Runtime(UnhandledType))
    else
      Ok(Descriptor(src.data, src.stride, Sizes(src.types[..j]), IndexOf(k, dialect), UsageOf(k).value,
                    FormatOf(k).value, UnpackAt(src.types, j, dialect)))
  }

  /** Every entry is of a kind the conversions accept. */
  predicate AllHandled(ts: seq<VertexType>) {
    forall j :: 0 <= j < |ts| ==> Handled(ts[j].kind)
  }

  /** The descriptor built for each entry, or why it could not be. */
  function DescribeAll(src: VertexSource, dialect: Dialect): (rs: seq<Result<Descriptor>>)
    ensures |rs| == |src.types|
  {
    seq(|src.types|, j requires 0 <= j < |src.types| => Describe(src, j, dialect))
  }

  /** The descriptors of a vertex buffer, built entry by entry. */
  function Described(src: VertexSource, dialect: Dialect): Result<seq<Descriptor>> {
    Gathered(DescribeAll(src, dialect))
  }

  /** Adding one entry adds its size. */
  lemma SizesNext(ts: seq<VertexType>, j: nat)
    requires j < |ts|
    ensures Sizes(ts[..j + 1]) == Sizes(ts[..j]) + ts[j].size
  {
    assert ts[..j + 1][..j] == ts[..j];
  }

  /** `MorphSeen` is "some earlier entry is a morph normal". */
  lemma {:induction false} MorphSeenMeaning(ts: seq<VertexType>, n: nat)
    requires n <= |ts|
    ensures MorphSeen(ts, n) <==> exists k :: 0 <= k < n && ts[k].kind == NormalMorph
  {
    if n > 0 {
      MorphSeenMeaning(ts, n - 1);
    }
  }

  /** The descriptors are built exactly when every entry is of a handled
      kind, and fail with "Unhandled vertex type" otherwise; there is then
      one per entry, the one `Describe` gives. */
  lemma DescriptorsExist(src: VertexSource, dialect: Dialect)
    ensures Described(src, dialect).Ok? <==> AllHandled(src.types)
    ensures Described(src, dialect).Err? ==> Described(src, dialect).error == Runtime(UnhandledType)
    ensures Described(src, dialect).Ok? ==>
              && |Described(src, dialect).value| == |src.types|
              && forall j :: 0 <= j < |src.types| ==> Ok(Described(src, dialect).value[j]) == Describe(src, j, dialect)
  {
    var rs := DescribeAll(src, dialect);
    var first := GatheredMeaning(rs);
    forall j | 0 <= j < |rs|
      ensures rs[j] == Describe(src, j, dialect)
      ensures rs[j].Ok? <==> Handled(src.types[j].kind)
    {
    }
    if Gathered(rs).Err? {
      assert !Handled(src.types[first].kind);
    }
  }

  /** The offsets of the descriptors are the prefix sums of the entry
      sizes: the first is 0 and each next one starts where the previous
      entry ends. */
  lemma DescriptorsLayout(src: VertexSource, dialect: Dialect)
    requires Described(src, dialect).Ok?
    ensures |src.types| > 0 ==> Described(src, dialect).value[0].offset == 0
    ensures forall j :: 0 <= j < |src.types| ==> Described(src, dialect).value[j].offset == Sizes(src.types[..j])
    ensures forall j :: 0 <= j < |src.types| - 1 ==>
              Described(src, dialect).value[j + 1].offset == Described(src, dialect).value[j].offset + src.types[j].size
  {
    DescriptorsExist(src, dialect);
    var ds := Described(src, dialect).value;
    forall j | 0 <= j < |src.types|
      ensures ds[j].offset == Sizes(src.types[..j])
    {
      assert Ok(ds[j]) == Describe(src, j, dialect);
    }
    forall j | 0 <= j < |src.types| - 1
      ensures ds[j + 1].offset == ds[j].offset + src.types[j].size
    {
      SizesNext(src.types, j);
    }
  }

  /** Every descriptor shares the buffer's data and stride, carries the
      usage, format and set index of its entry's kind, and unpacks exactly
      in `MXMD` from the first morph normal on. */
  lemma DescriptorsFields(src: VertexSource, dialect: Dialect)
    requires Described(src, dialect).Ok?
    ensures forall j :: 0 <= j < |src.types| ==>
              var d := Described(src, dialect).value[j];
              && d.buffer == src.data && d.stride == src.stride
              && Ok(d.usage) == UsageOf(src.types[j].kind) && Ok(d.format) == FormatOf(src.types[j].kind)
              && d.index == IndexOf(src.types[j].kind, dialect)
              && (d.unpack == AddMinusHalf <==>
                    dialect == Mxmd && exists k :: 0 <= k <= j && src.types[k].kind == NormalMorph)
  {
    DescriptorsExist(src, dialect);
    var ds := Described(src, dialect).value;
    forall j | 0 <= j < |src.types|
      ensures && ds[j].buffer == src.data && ds[j].stride == src.stride
              && Ok(ds[j].usage) == UsageOf(src.types[j].kind) && Ok(ds[j].format) == FormatOf(src.types[j].kind)
              && ds[j].index == IndexOf(src.types[j].kind, dialect)
              && (ds[j].unpack == AddMinusHalf <==>
                    dialect == Mxmd && exists k :: 0 <= k <= j && src.types[k].kind == NormalMorph)
    {
      assert Ok(ds[j]) == Describe(src, j, dialect);
      MorphSeenMeaning(src.types, j + 1);
    }
  }

  /** The descriptor loop of both builders (`VertexBuffer(V1::VertexBuffer
      &)`): a running offset, and one descriptor value reused from entry to
      entry. */
  method BuildDescriptors(src: VertexSource, dialect: Dialect) returns (r: Result<seq<Descriptor>>)
    ensures r == Described(src, dialect)
  {
    ghost var rs := DescribeAll(src, dialect);
    var storage: seq<Descriptor> := [];
    var curOffset: nat := 0;
    var unpack := NoUnpack;
    for i := 0 to |src.types|
      invariant Gathered(rs[..i]) == Ok(storage)
      invariant curOffset == Sizes(src.types[..i])
      invariant unpack == if dialect == Mxmd && MorphSeen(src.types, i) then AddMinusHalf else NoUnpack
    {
      var d := src.types[i];
      var offset := curOffset;
      curOffset := curOffset + d.size;
      SizesNext(src.types, i);
      GatheredNext(rs, i);
      var usage := UsageOf(d.kind);
      var format := FormatOf(d.kind);
      if usage.Err? || format.Err? {
        GatheredStaysFailed(rs, i + 1, |rs|);
        return Err(Runtime(UnhandledType));
      }
      if dialect == Mxmd && d.kind == NormalMorph {
        unpack := AddMinusHalf;
      }
      storage := storage + [Descriptor(src.data, src.stride, offset, IndexOf(d.kind, dialect),
                                       usage.value, format.value, unpack)];
    }
    assert rs[..|rs|] == rs;
    return Ok(storage);
  }

  /** A `V3::MorphBuffer`: where its vertices start in the stream buffer,
      how many there are, and their stride. */
  datatype MorphBuffer = MorphBuffer(vertexBufferOffset: nat, vertexBufferSize: nat, stride: nat)

  /** The two descriptors `AppendMorphBuffer` adds for the buffer at
      `buffer`: float positions at offset 0, then unsigned-normalised
      normals at offset 12 shifted by -0.5. */
  function MorphViews(buff: MorphBuffer, buffer: nat): seq<Descriptor> {
    var at := buffer + buff.vertexBufferOffset;
    [Descriptor(at, buff.stride, 0, 0, UsePosition, Format(FloatFormat, R32G32B32), NoUnpack),
     Descriptor(at, buff.stride, 12, 0, UseNormal, Format(UnormFormat, R8G8B8A8), AddMinusHalf)]
  }

  /** `MDO::VertexBuffer`: its descriptors and its vertex count. */
  class VertexArray {
    var descs: seq<Descriptor>
    var numVertices: nat

    constructor (descs: seq<Descriptor>, numVertices: nat)
      ensures this.descs == descs && this.numVertices == numVertices
    {
      this.descs := descs;
      this.numVertices := numVertices;
    }

    /** `AppendMorphBuffer`: two more descriptors, the vertex count as it
        was. */
    method AppendMorphBuffer(buff: MorphBuffer, buffer: nat)
      modifies this
      ensures descs == old(descs) + MorphViews(buff, buffer)
      ensures numVertices == old(numVertices)
    {
      var at := buffer + buff.vertexBufferOffset;
      descs := descs + [Descriptor(at, buff.stride, 0, 0, UsePosition, Format(FloatFormat, R32G32B32), NoUnpack)];
      descs := descs + [Descriptor(at, buff.stride, 12, 0, UseNormal, Format(UnormFormat, R8G8B8A8), AddMinusHalf)];
    }
  }

  /** `MDO::VertexBuffer(V1::VertexBuffer &)`: the `MDO` descriptors, and
      `data.numItems` as the vertex count. */
  method NewVertexArray(src: VertexSource) returns (r: Result<VertexArray>)
    ensures r.Ok? <==> Described(src, Mdo).Ok?
    ensures r.Ok? ==> fresh(r.value) && r.value.descs == Described(src, Mdo).value && r.value.numVertices == src.numItems
    ensures r.Err? ==> Described(src, Mdo) == Err(r.error)
  {
    var descs :- BuildDescriptors(src, Mdo);
    var v := new VertexArray(descs, src.numItems);
    return Ok(v);
  }

  /** The fields the descriptors `ds` describe do not overlap: each ends,
      by the size of its format, before the next one starts. */
  predicate Disjoint(ds: seq<Descriptor>) {
    forall i, j :: 0 <= i < |ds| && 0 <= j < |ds| && i != j ==>
      ds[i].offset + ElementBytes(ds[i].format.data) <= ds[j].offset ||
      ds[j].offset + ElementBytes(ds[j].format.data) <= ds[i].offset
  }

  /** The morph descriptors share the buffer and stride, and the normal
      starts right where the position ends. */
  lemma MorphViewsLayout(buff: MorphBuffer, buffer: nat)
    ensures |MorphViews(buff, buffer)| == 2 && Disjoint(MorphViews(buff, buffer))
    ensures MorphViews(buff, buffer)[1].offset ==
              MorphViews(buff, buffer)[0].offset + ElementBytes(MorphViews(buff, buffer)[0].format.data)
    ensures forall d :: d in MorphViews(buff, buffer) ==>
              d.buffer == buffer + buff.vertexBufferOffset && d.stride == buff.stride
  {
  }

  /** A `V3Morph`: its descriptors and its vertex count. */
  datatype Morph = Morph(descs: seq<Descriptor>, numVertices: nat)

  /** `V3Morph(V3::MorphBuffer *, char *)`: position deltas at offset 0,
      vertex indices at 28 and normals at 16, shifted by -0.5, over
      `vertexBufferSize` vertices. */
  function MorphTarget(buff: MorphBuffer, buffer: nat): Morph {
    var at := buffer + buff.vertexBufferOffset;
    Morph([Descriptor(at, buff.stride, 0, 0, UsePositionDelta, Format(FloatFormat, R32G32B32), NoUnpack),
           Descriptor(at, buff.stride, 28, 0, UseVertexIndex, Format(UintFormat, R32), NoUnpack),
           Descriptor(at, buff.stride, 16, 0, UseNormal, Format(UnormFormat, R8G8B8A8), AddMinusHalf)],
          buff.vertexBufferSize)
  }

  /** The three fields of a morph vertex do not overlap and end at byte
      32, and only the normals are shifted. */
  lemma MorphTargetLayout(buff: MorphBuffer, buffer: nat)
    ensures |MorphTarget(buff, buffer).descs| == 3 && Disjoint(MorphTarget(buff, buffer).descs)
    ensures forall d :: d in MorphTarget(buff, buffer).descs ==>
              d.offset + ElementBytes(d.format.data) <= 32 && d.buffer == buffer + buff.vertexBufferOffset
              && (d.unpack == AddMinusHalf <==> d.usage == UseNormal)
    ensures MorphTarget(buff, buffer).numVertices == buff.vertexBufferSize
  {
  }

  /** A bone of a skeleton view: its index and the index of its parent. */
  datatype BoneLink = BoneLink(index: nat, parent: Option<nat>)

  /** Bone `i` of the skeleton of bones storing the `parentID`s `parents`;
      a parent past the last bone indexes outside the bone storage. */
  function LinkOf(parents: seq<int>, i: nat): Result<BoneLink>
    requires i < |parents|
  {
    var p := parents[i];
    if p >= |parents| then Err(OutOfBounds)
    else Ok(BoneLink(i, if p >= 0 then Some(p) else None))
  }

  /** Every bone's link, or why it could not be made. */
  function LinkAll(parents: seq<int>): (rs: seq<Result<BoneLink>>)
    ensures |rs| == |parents|
  {
    seq(|parents|, i requires 0 <= i < |parents| => LinkOf(parents, i))
  }

  /** The skeleton, built bone by bone. */
  function Linked(parents: seq<int>): Result<seq<BoneLink>> {
    Gathered(LinkAll(parents))
  }

  /** The skeleton is built exactly when every `parentID` is below the
      bone count. Bone `i` then has index `i`, and its parent is bone
      `parentID` exactly when `parentID` is not negative. */
  lemma LinkedMeaning(parents: seq<int>)
    ensures Linked(parents).Ok? <==> forall i :: 0 <= i < |parents| ==> parents[i] < |parents|
    ensures Linked(parents).Err? ==> Linked(parents).error == OutOfBounds
    ensures Linked(parents).Ok? ==>
              && |Linked(parents).value| == |parents|
              && forall i :: 0 <= i < |parents| ==>
                   && Linked(parents).value[i].index == i
                   && (Linked(parents).value[i].parent.Some? <==> parents[i] >= 0)
                   && (parents[i] >= 0 ==> Linked(parents).value[i].parent == Some(parents[i]))
  {
    var rs := LinkAll(parents);
    var first := GatheredMeaning(rs);
    forall i | 0 <= i < |parents|
      ensures rs[i].Ok? <==> parents[i] < |parents|
      ensures rs[i].Err? ==> rs[i].error == OutOfBounds
    {
      assert rs[i] == LinkOf(parents, i);
    }
  }

  /** `Skeleton(V1::Bone *, size_t)`, in `model.hpp` and `mxmd.cpp` alike:
      one bone per record, linked to its parent's slot in the storage. */
  method BuildSkeleton(parents: seq<int>) returns (r: Result<seq<BoneLink>>)
    ensures r == Linked(parents)
  {
    ghost var rs := LinkAll(parents);
    var bones: seq<BoneLink> := [];
    for i := 0 to |parents|
      invariant Gathered(rs[..i]) == Ok(bones)
    {
      GatheredNext(rs, i);
      var parent := None;
      if parents[i] >= 0 {
        if parents[i] >= |parents| {
          GatheredStaysFailed(rs, i + 1, |rs|);
          return Err(OutOfBounds);
        }
        parent := Some(parents[i]);
      }
      bones := bones + [BoneLink(i, parent)];
    }
    assert rs[..|rs|] == rs;
    return Ok(bones);
  }

  /** `V3Skeleton(V3::Skin *)`: `count1` bones, none with a parent. */
  method BuildFlatSkeleton(count: nat) returns (bones: seq<BoneLink>)
    ensures |bones| == count
    ensures forall i :: 0 <= i < count ==> bones[i] == BoneLink(i, None)
  {
    bones := [];
    for i := 0 to count
      invariant |bones| == i
      invariant forall j :: 0 <= j < i ==> bones[j] == BoneLink(j, None)
    {
      bones := bones + [BoneLink(i, None)];
    }
  }

  /** A version 3 skeleton is the version 1 skeleton of bones that all
      store a negative `parentID`. */
  lemma FlatIsUnlinked(count: nat, bones: seq<BoneLink>)
    requires |bones| == count && forall i :: 0 <= i < count ==> bones[i] == BoneLink(i, None)
    ensures Linked(seq(count, _ => -1)) == Ok(bones)
  {
    var parents := seq(count, _ => -1);
    LinkedMeaning(parents);
    assert Linked(parents).value == bones;
  }

  /** A skin view: a version 1 skin lists bone indices, a version 3 skin
      has `count1` nodes numbered in order. */
  datatype SkinView = V1Skin(boneIndices: seq<nat>) | V3Skin(count: nat) {
    /** `NumNodes`. */
    function NumNodes(): nat {
      match this
      case V1Skin(ids) => |ids|
      case V3Skin(c) => c
    }

    /** `NodeIndex(index)`: the listed bone index, read without a bounds
        check; a version 3 node is its own index. */
    function NodeIndex(index: nat): (r: Result<nat>)
      ensures r.Ok? <==> V3Skin? || index < NumNodes()
      ensures r.Err? ==> r.error == OutOfBounds
      ensures r.Ok? && V1Skin? ==> r.value == boneIndices[index]
      ensures r.Ok? && V3Skin? ==> r.value == index
    {
      match this
      case V1Skin(ids) => if index < |ids| then Ok(ids[index]) else Err(OutOfBounds)
      case V3Skin(_) => Ok(index)
    }
  }

  /** The fields of a `V1::Primitive` the model adapter reads. */
  datatype PrimitiveRecord = PrimitiveRecord(bufferID: nat, uvFacesID: nat, materialID: nat, meshFacesID: nat)

  /** A primitive of the `mxmd.cpp` model adapter: its record, the
      descriptors of its vertex buffer, that buffer's `data.numItems` and
      stride, and the positions of its vertex and index buffers. */
  datatype PrimitiveView = PrimitiveView(main: PrimitiveRecord, descs: seq<Descriptor>, numItems: nat, stride: nat,
                                         vertexBuffer: nat, indexBuffer: nat) {
    /** `NumVertices`: the data size divided by the stride. */
    function NumVertices(): (r: Result<nat>)
      ensures r.Ok? <==> stride != 0
      ensures r.Ok? ==> r.value * stride <= numItems < (r.value + 1) * stride
      ensures r.Err? ==> r.error == DivisionByZero
    {
      if stride == 0 then Err(DivisionByZero) else Ok(numItems / stride)
    }
  }

  /** The view of one primitive: its vertex buffer, read at `bufferID`
      without a bounds check, is turned into `MXMD` descriptors; the index
      buffer is only located, at `meshFacesID`. */
  function PrimitiveOf(p: PrimitiveRecord, vbs: seq<VertexSource>): Result<PrimitiveView> {
    if p.bufferID >= |vbs| then Err(OutOfBounds)
    else
      var vb := vbs[p.bufferID];
      var descs :- Described(vb, Mxmd);
      Ok(PrimitiveView(p, descs, vb.numItems, vb.stride, p.bufferID, p.meshFacesID))
  }

  /** A primitive has a view exactly when its vertex buffer lies inside the
      stream and holds only handled kinds; the view then carries that
      buffer's descriptors, vertex count and stride, and locates the index
      buffer at `meshFacesID`. */
  lemma PrimitiveMeaning(p: PrimitiveRecord, vbs: seq<VertexSource>)
    ensures PrimitiveOf(p, vbs).Ok? <==> p.bufferID < |vbs| && AllHandled(vbs[p.bufferID].types)
    ensures p.bufferID >= |vbs| ==> PrimitiveOf(p, vbs) == Err(OutOfBounds)
    ensures PrimitiveOf(p, vbs).Ok? ==>
              var v := PrimitiveOf(p, vbs).value;
              && v.main == p && v.vertexBuffer == p.bufferID && v.indexBuffer == p.meshFacesID
              && Ok(v.descs) == Described(vbs[p.bufferID], Mxmd)
              && v.numItems == vbs[p.bufferID].numItems && v.stride == vbs[p.bufferID].stride
  {
    if p.bufferID < |vbs| {
      DescriptorsExist(vbs[p.bufferID], Mxmd);
    }
  }

  /** The view of each primitive, or why it could not be made. */
  function ViewAll(ps: seq<PrimitiveRecord>, vbs: seq<VertexSource>): (rs: seq<Result<PrimitiveView>>)
    ensures |rs| == |ps|
  {
    seq(|ps|, i requires 0 <= i < |ps| => PrimitiveOf(ps[i], vbs))
  }

  /** The primitives of the first `n` meshes, in order. */
  function Flatten(meshes: seq<seq<PrimitiveRecord>>, n: nat): seq<PrimitiveRecord>
    requires n <= |meshes|
  {
    if n == 0 then [] else Flatten(meshes, n - 1) + meshes[n - 1]
  }

  /** The primitive views of the `mxmd.cpp` model adapter: one per
      primitive of every mesh, in mesh order. */
  function ModelViewsOf(meshes: seq<seq<PrimitiveRecord>>, vbs: seq<VertexSource>): Result<seq<PrimitiveView>> {
    Gathered(ViewAll(Flatten(meshes, |meshes|), vbs))
  }

  /** The model adapter makes one view per primitive of every mesh, in
      mesh order, and exists exactly when every primitive has one; when one
      has none, the first such primitive's error is the adapter's. */
  lemma ModelViewsMeaning(meshes: seq<seq<PrimitiveRecord>>, vbs: seq<VertexSource>)
    ensures var ps := Flatten(meshes, |meshes|);
            ModelViewsOf(meshes, vbs).Ok? <==>
              forall i :: 0 <= i < |ps| ==> ps[i].bufferID < |vbs| && AllHandled(vbs[ps[i].bufferID].types)
    ensures var ps := Flatten(meshes, |meshes|);
            ModelViewsOf(meshes, vbs).Ok? ==>
              |ModelViewsOf(meshes, vbs).value| == |ps| &&
              forall i :: 0 <= i < |ps| ==> Ok(ModelViewsOf(meshes, vbs).value[i]) == PrimitiveOf(ps[i], vbs)
    ensures var ps := Flatten(meshes, |meshes|);
            ModelViewsOf(meshes, vbs).Err? ==>
              exists i :: 0 <= i < |ps| && PrimitiveOf(ps[i], vbs) == Err(ModelViewsOf(meshes, vbs).error)
  {
    var ps := Flatten(meshes, |meshes|);
    var rs := ViewAll(ps, vbs);
    assert ModelViewsOf(meshes, vbs) == Gathered(rs);
    var first := GatheredMeaning(rs);
    if Gathered(rs).Ok? {
      forall i | 0 <= i < |ps|
        ensures ps[i].bufferID < |vbs| && AllHandled(vbs[ps[i].bufferID].types)
      {
        assert rs[i] == PrimitiveOf(ps[i], vbs);
        PrimitiveMeaning(ps[i], vbs);
      }
      var vs := Gathered(rs).value;
      forall i | 0 <= i < |ps|
        ensures Ok(vs[i]) == PrimitiveOf(ps[i], vbs)
      {
        assert rs[i].Ok? && vs[i] == rs[i].value;
      }
    } else {
      assert rs[first] == PrimitiveOf(ps[first], vbs);
      NoViewAt(ps, vbs, first);
    }
  }

  /** A primitive without a view keeps the whole list from having one. */
  lemma NoViewAt(ps: seq<PrimitiveRecord>, vbs: seq<VertexSource>, k: nat)
    requires k < |ps| && PrimitiveOf(ps[k], vbs).Err?
    ensures !(forall i :: 0 <= i < |ps| ==> ps[i].bufferID < |vbs| && AllHandled(vbs[ps[i].bufferID].types))
  {
    PrimitiveMeaning(ps[k], vbs);
  }

  /** The primitives of mesh `m` follow those of the meshes before it in
      the flattened list. */
  lemma {:induction false} FlattenAt(meshes: seq<seq<PrimitiveRecord>>, m: nat, n: nat, i: nat)
    requires m < n <= |meshes| && i < |meshes[m]|
    ensures |Flatten(meshes, m)| + i < |Flatten(meshes, n)|
    ensures Flatten(meshes, n)[|Flatten(meshes, m)| + i] == meshes[m][i]
    decreases n
  {
    if n > m + 1 {
      FlattenAt(meshes, m, n - 1, i);
    }
  }

  /** The meshes up to `m` flatten to the meshes before it and its own
      primitives. */
  lemma FlattenNext(meshes: seq<seq<PrimitiveRecord>>, m: nat)
    requires m < |meshes|
    ensures |Flatten(meshes, m + 1)| == |Flatten(meshes, m)| + |meshes[m]| <= |Flatten(meshes, |meshes|)|
  {
    if |meshes[m]| > 0 {
      FlattenAt(meshes, m, |meshes|, |meshes[m]| - 1);
    } else {
      FlattenGrows(meshes, m + 1, |meshes|);
    }
  }

  lemma {:induction false} FlattenGrows(meshes: seq<seq<PrimitiveRecord>>, m: nat, n: nat)
    requires m <= n <= |meshes|
    ensures |Flatten(meshes, m)| <= |Flatten(meshes, n)|
    decreases n
  {
    if m < n {
      FlattenGrows(meshes, m, n - 1);
    }
  }

  /** The views of mesh `m`'s primitives follow those of the meshes
      before it in the list of all views. */
  lemma MeshViewsAt(meshes: seq<seq<PrimitiveRecord>>, vbs: seq<VertexSource>, rs: seq<Result<PrimitiveView>>, m: nat)
    requires m < |meshes| && rs == ViewAll(Flatten(meshes, |meshes|), vbs)
    ensures |Flatten(meshes, m)| + |meshes[m]| == |Flatten(meshes, m + 1)| <= |rs|
    ensures rs[|Flatten(meshes, m)|..|Flatten(meshes, m + 1)|] == ViewAll(meshes[m], vbs)
  {
    FlattenNext(meshes, m);
    var at := |Flatten(meshes, m)|;
    var mine := ViewAll(meshes[m], vbs);
    var part := rs[at..at + |meshes[m]|];
    forall i | 0 <= i < |meshes[m]|
      ensures part[i] == mine[i]
    {
      MeshViewAt(meshes, vbs, rs, m, i);
    }
    assert part == mine;
  }

  /** The view of primitive `i` of mesh `m` in the list of all views. */
  lemma MeshViewAt(meshes: seq<seq<PrimitiveRecord>>, vbs: seq<VertexSource>, rs: seq<Result<PrimitiveView>>, m: nat, i: nat)
    requires m < |meshes| && i < |meshes[m]| && rs == ViewAll(Flatten(meshes, |meshes|), vbs)
    ensures |Flatten(meshes, m)| + i < |rs| && rs[|Flatten(meshes, m)| + i] == PrimitiveOf(meshes[m][i], vbs)
  {
    FlattenAt(meshes, m, |meshes|, i);
  }

  /** The primitive loops of the `mxmd.cpp` `Model(V1::Header &)`
      constructor: for each mesh, for each of its primitives, a view. */
  method BuildModelViews(meshes: seq<seq<PrimitiveRecord>>, vbs: seq<VertexSource>) returns (r: Result<seq<PrimitiveView>>)
    ensures r == ModelViewsOf(meshes, vbs)
  {
    ghost var rs := ViewAll(Flatten(meshes, |meshes|), vbs);
    var storage: seq<PrimitiveView> := [];
    assert rs[..|Flatten(meshes, 0)|] == [];
    for m := 0 to |meshes|
      invariant |Flatten(meshes, m)| <= |rs|
      invariant Gathered(rs[..|Flatten(meshes, m)|]) == Ok(storage)
    {
      var built := BuildMeshAt(meshes, vbs, rs, m, storage);
      if built.Err? {
        return built;
      }
      storage := built.value;
    }
    assert rs[..|rs|] == rs;
    return Ok(storage);
  }

  /** One turn of the outer loop of `BuildModelViews`: the views of mesh
      `m`, after the views `before` of the meshes before it. */
  method BuildMeshAt(meshes: seq<seq<PrimitiveRecord>>, vbs: seq<VertexSource>, ghost rs: seq<Result<PrimitiveView>>,
                     m: nat, before: seq<PrimitiveView>)
    returns (r: Result<seq<PrimitiveView>>)
    requires m < |meshes| && rs == ViewAll(Flatten(meshes, |meshes|), vbs)
    requires |Flatten(meshes, m)| <= |rs| && Gathered(rs[..|Flatten(meshes, m)|]) == Ok(before)
    ensures |Flatten(meshes, m + 1)| <= |rs|
    ensures r.Ok? ==> Gathered(rs[..|Flatten(meshes, m + 1)|]) == r
    ensures r.Err? ==> Gathered(rs) == r
  {
    MeshViewsAt(meshes, vbs, rs, m);
    r := BuildMeshViews(meshes[m], vbs, rs, |Flatten(meshes, m)|, before);
  }

  /** The inner loop of `BuildModelViews`, over the primitives `prims` of
      one mesh, which sit at `at` in the list `rs` of every view to build,
      once the views `before` of the meshes before it are built. */
  method BuildMeshViews(prims: seq<PrimitiveRecord>, vbs: seq<VertexSource>, ghost rs: seq<Result<PrimitiveView>>,
                        ghost at: nat, before: seq<PrimitiveView>)
    returns (r: Result<seq<PrimitiveView>>)
    requires at + |prims| <= |rs| && rs[at..at + |prims|] == ViewAll(prims, vbs)
    requires Gathered(rs[..at]) == Ok(before)
    ensures r.Ok? ==> Gathered(rs[..at + |prims|]) == r
    ensures r.Err? ==> Gathered(rs) == r
  {
    var cur := before;
    for i := 0 to |prims|
      invariant Gathered(rs[..at + i]) == Ok(cur)
    {
      GatheredNext(rs, at + i);
      var v := BuildView(prims[i], vbs);
      assert rs[at + i] == rs[at..at + |prims|][i] == v;
      if v.Err? {
        GatheredStaysFailed(rs, at + i + 1, |rs|);
        return Err(v.error);
      }
      cur := cur + [v.value];
    }
    return Ok(cur);
  }

  /** The body of the inner loop: `Primitive prim(*vtx)` for the vertex
      buffer at `bufferID`, with the index buffer at `meshFacesID`. */
  method BuildView(p: PrimitiveRecord, vbs: seq<VertexSource>) returns (r: Result<PrimitiveView>)
    ensures r == PrimitiveOf(p, vbs)
  {
    if p.bufferID >= |vbs| {
      return Err(OutOfBounds);
    }
    var vb := vbs[p.bufferID];
    var descs :- BuildDescriptors(vb, Mxmd);
    return Ok(PrimitiveView(p, descs, vb.numItems, vb.stride, p.bufferID, p.meshFacesID));
  }

  /** The fields of a version 3 weight palette the sampler table reads:
      where it goes in the table and the two vertex counts its offset is
      the difference of, as `uint32`s. */
  datatype Palette = Palette(mergeTableIndex: nat, indexWithinMergeTable: nat,
                             vertexIndexSubstract: nat, bufferVertexBegin: nat)

  /** A `V3WeightSampler`: its vertex offset, and whether it is bound to a
      vertex buffer. */
  datatype Sampler = Sampler(bufferOffset: nat, bound: bool)

  /** A default-constructed sampler: offset 0, no buffer. */
  const Unbound := Sampler(0, false)

  /** The slots of one table row (`std::array<V3WeightSampler, 16>`). */
  const RowSlots: nat := 16

  /** `V3WeightSampler(pal, buff)`: the `uint32` difference of the two
      counts, bound to the buffer. */
  function SamplerOf(p: Palette): (s: Sampler)
    requires p.vertexIndexSubstract < Word32 && p.bufferVertexBegin < Word32
    ensures s.bound && s.bufferOffset < Word32
    ensures (s.bufferOffset + p.bufferVertexBegin) % Word32 == p.vertexIndexSubstract
    ensures p.bufferVertexBegin <= p.vertexIndexSubstract ==>
              s.bufferOffset == p.vertexIndexSubstract - p.bufferVertexBegin
  {
    Sampler((p.vertexIndexSubstract - p.bufferVertexBegin) % Word32, true)
  }

  /** Every count of the palettes fits a `uint32`. */
  predicate Words32(pals: seq<Palette>) {
    forall i :: 0 <= i < |pals| ==> pals[i].vertexIndexSubstract < Word32 && pals[i].bufferVertexBegin < Word32
  }

  /** `samplers.resize(numLODs)`: rows of unbound samplers. */
  function EmptyTable(numLODs: nat): seq<seq<Sampler>> {
    seq(numLODs, _ => seq(RowSlots, _ => Unbound))
  }

  /** `std::construct_at(&samplers.at(m).at(w), p, buff)`: both `at`s
      throw `std::out_of_range` outside the table. */
  function Placing(t: seq<seq<Sampler>>, p: Palette): (r: Result<seq<seq<Sampler>>>)
    requires p.vertexIndexSubstract < Word32 && p.bufferVertexBegin < Word32
  {
    var m, w := p.mergeTableIndex, p.indexWithinMergeTable;
    if m < |t| && w < |t[m]| then Ok(t[m := t[m][w := SamplerOf(p)]]) else Err(OutOfRange)
  }

  /** The table after placing the first `n` palettes. */
  function Placed(numLODs: nat, pals: seq<Palette>, n: nat): Result<seq<seq<Sampler>>>
    requires n <= |pals| && Words32(pals)
  {
    if n == 0 then Ok(EmptyTable(numLODs))
    else
      var t :- Placed(numLODs, pals, n - 1);
      Placing(t, pals[n - 1])
  }

  /** The last of the first `n` palettes placed at row `m`, slot `w`. */
  function LastAt(pals: seq<Palette>, n: nat, m: nat, w: nat): (r: Option<nat>)
    requires n <= |pals|
    ensures r.Some? ==> r.value < n && pals[r.value].mergeTableIndex == m && pals[r.value].indexWithinMergeTable == w
    ensures r.Some? ==> forall j :: r.value < j < n ==> !(pals[j].mergeTableIndex == m && pals[j].indexWithinMergeTable == w)
    ensures r.None? ==> forall j :: 0 <= j < n ==> !(pals[j].mergeTableIndex == m && pals[j].indexWithinMergeTable == w)
  {
    if n == 0 then None
    else if pals[n - 1].mergeTableIndex == m && pals[n - 1].indexWithinMergeTable == w then Some(n - 1)
    else LastAt(pals, n - 1, m, w)
  }

  /** The table is built exactly when every palette names a row below
      `numLODs` and a slot below 16. It then has `numLODs` rows of 16
      slots, and a slot holds the sampler of the last palette placed
      there, or is unbound when none is. */
  lemma {:induction false} PlacedMeaning(numLODs: nat, pals: seq<Palette>, n: nat)
    requires n <= |pals| && Words32(pals)
    ensures Placed(numLODs, pals, n).Ok? <==>
              forall j :: 0 <= j < n ==> pals[j].mergeTableIndex < numLODs && pals[j].indexWithinMergeTable < RowSlots
    ensures Placed(numLODs, pals, n).Err? ==> Placed(numLODs, pals, n).error == OutOfRange
    ensures Placed(numLODs, pals, n).Ok? ==>
              var t := Placed(numLODs, pals, n).value;
              && |t| == numLODs
              && (forall m :: 0 <= m < numLODs ==> |t[m]| == RowSlots)
              && forall m, w :: 0 <= m < numLODs && 0 <= w < RowSlots ==>
                   t[m][w] == match LastAt(pals, n, m, w) case Some(j) => SamplerOf(pals[j]) case None => Unbound
  {
    if n > 0 {
      PlacedMeaning(numLODs, pals, n - 1);
    }
  }

  lemma {:induction false} PlacedStaysFailed(numLODs: nat, pals: seq<Palette>, m: nat, n: nat)
    requires m <= n <= |pals| && Words32(pals) && Placed(numLODs, pals, m).Err?
    ensures Placed(numLODs, pals, n) == Placed(numLODs, pals, m)
    decreases n - m
  {
    if m < n {
      PlacedStaysFailed(numLODs, pals, m, n - 1);
    }
  }

  /** The palette slot a primitive's skin flags pick: the number of
      trailing zero bits, 0 when no flag is set. */
  function PaletteIndex(skinFlags: nat): nat {
    if skinFlags == 0 then 0 else TrailingZeros(skinFlags)
  }

  /** The palette slot is the lowest set flag. */
  lemma PaletteIndexMeaning(skinFlags: nat)
    requires skinFlags > 0
    ensures Bit(skinFlags, PaletteIndex(skinFlags)) == 1
    ensures forall i: nat :: i < PaletteIndex(skinFlags) ==> Bit(skinFlags, i) == 0
  {
    TrailingZerosMeaning(skinFlags);
  }

  /** `std::max(LODIndex() - 1, 0)`: the table row of a primitive's LOD. */
  function LodRow(lod: nat): (r: nat)
    ensures lod > 0 ==> r + 1 == lod
    ensures lod == 0 ==> r == 0
  {
    if lod > 0 then lod - 1 else 0
  }

  /** The first bound slot of a row at or after `i`. */
  function FirstBound(row: seq<Sampler>, i: nat): (r: Option<nat>)
    requires i <= |row|
    ensures r.Some? ==> i <= r.value < |row| && row[r.value].bound
    ensures r.Some? ==> forall j :: i <= j < r.value ==> !row[j].bound
    ensures r.None? ==> forall j :: i <= j < |row| ==> !row[j].bound
    decreases |row| - i
  {
    if i == |row| then None else if row[i].bound then Some(i) else FirstBound(row, i + 1)
  }

  /** `V3WeightSamplers_t::Get`: the row of the primitive's LOD and the
      slot of its lowest skin flag, both read with `at`; an unbound slot
      falls back to the row's first bound one, and a row with none fails
      the `assert`. */
  function Selected(table: seq<seq<Sampler>>, skinFlags: nat, lod: nat): Result<Sampler> {
    var row := LodRow(lod);
    var pal := PaletteIndex(skinFlags);
    if row >= |table| || pal >= |table[row]| then Err(OutOfRange)
    else if table[row][pal].bound then Ok(table[row][pal])
    else match FirstBound(table[row], 0)
      case Some(k) => Ok(table[row][k])
      case None => Err(Assertion(BoundCheck))
  }

  /** A selection that succeeds yields a bound sampler: the picked slot
      when it is bound, else the first bound slot of the row. It fails with
      `out_of_range` outside the table and fails the `assert` exactly when
      the row has no bound slot. */
  lemma SelectedMeaning(table: seq<seq<Sampler>>, skinFlags: nat, lod: nat)
    ensures Selected(table, skinFlags, lod).Err? && Selected(table, skinFlags, lod).error == OutOfRange <==>
              LodRow(lod) >= |table| || PaletteIndex(skinFlags) >= |table[LodRow(lod)]|
    ensures LodRow(lod) < |table| && PaletteIndex(skinFlags) < |table[LodRow(lod)]| ==>
              (Selected(table, skinFlags, lod).Ok? <==> exists k :: 0 <= k < |table[LodRow(lod)]| && table[LodRow(lod)][k].bound)
    ensures Selected(table, skinFlags, lod).Ok? ==> Selected(table, skinFlags, lod).value.bound
    ensures Selected(table, skinFlags, lod).Ok? && table[LodRow(lod)][PaletteIndex(skinFlags)].bound ==>
              Selected(table, skinFlags, lod).value == table[LodRow(lod)][PaletteIndex(skinFlags)]
  {
  }

  /** `V3WeightSamplers_t`: the sampler table, one row per LOD. */
  class WeightSamplers {
    var samplers: seq<seq<Sampler>>

    /** The table before any palette is placed. */
    constructor (numLODs: nat)
      ensures samplers == EmptyTable(numLODs)
    {
      samplers := EmptyTable(numLODs);
    }

    /** One `std::construct_at` of the constructor's loop. */
    method Place(p: Palette) returns (r: Outcome)
      requires p.vertexIndexSubstract < Word32 && p.bufferVertexBegin < Word32
      modifies this
      ensures Placing(old(samplers), p).Ok? ==> r.Pass? && samplers == Placing(old(samplers), p).value
      ensures Placing(old(samplers), p).Err? ==> r == Fail(OutOfRange) && samplers == old(samplers)
    {
      var m, w := p.mergeTableIndex, p.indexWithinMergeTable;
      if m >= |samplers| || w >= |samplers[m]| {
        return Fail(OutOfRange);
      }
      samplers := samplers[m := samplers[m][w := SamplerOf(p)]];
      return Pass;
    }

    /** `Get(prim)` for a primitive with these skin flags and LOD. */
    method Get(skinFlags: nat, lod: nat) returns (r: Result<Sampler>)
      ensures r == Selected(samplers, skinFlags, lod)
    {
      var flags, palIndex := skinFlags, 0;
      while flags != 0 && flags % 2 == 0
        invariant skinFlags == 0 ==> flags == 0 && palIndex == 0
        invariant skinFlags > 0 ==> flags > 0 && PaletteIndex(skinFlags) == palIndex + TrailingZeros(flags)
        decreases flags
      {
        palIndex := palIndex + 1;
        flags := flags / 2;
      }
      var row := LodRow(lod);
      if row >= |samplers| || palIndex >= |samplers[row]| {
        return Err(OutOfRange);
      }
      var lodSmpl := samplers[row];
      var chosen := lodSmpl[palIndex];
      if !chosen.bound {
        var k := 0;
        while k < |lodSmpl|
          invariant 0 <= k <= |lodSmpl| && FirstBound(lodSmpl, 0) == FirstBound(lodSmpl, k)
        {
          if lodSmpl[k].bound {
            chosen := lodSmpl[k];
            break;
          }
          k := k + 1;
        }
      }
      if !chosen.bound {
        return Err(Assertion(BoundCheck));
      }
      return Ok(chosen);
    }
  }

  /** `V3WeightSamplers_t(man, buff)`: the empty table, then every palette
      placed in order. */
  method NewWeightSamplers(numLODs: nat, pals: seq<Palette>) returns (r: Result<WeightSamplers>)
    requires Words32(pals)
    ensures r.Ok? <==> Placed(numLODs, pals, |pals|).Ok?
    ensures r.Ok? ==> fresh(r.value) && r.value.samplers == Placed(numLODs, pals, |pals|).value
    ensures r.Err? ==> Placed(numLODs, pals, |pals|) == Err(r.error)
  {
    var table := new WeightSamplers(numLODs);
    for i := 0 to |pals|
      invariant Placed(numLODs, pals, i) == Ok(table.samplers)
    {
      var placed := table.Place(pals[i]);
      if placed.Fail? {
        PlacedStaysFailed(numLODs, pals, i + 1, |pals|);
        return Err(placed.error);
      }
    }
    return Ok(table);
  }
}
