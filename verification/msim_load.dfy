/** `MSIM::Wrap::LoadV1`, `LoadV2` and `ModelIndex` (`source/msim.cpp`):
    after the header pass, one model per mesh of the MXMD model, each with
    the stream index `bufferIndices` holds at the mesh's position; then the
    instancing data adds every instance matrix to the skins of the models
    of its cluster and gives the primitives of each model of a cluster the
    model's position in the cluster as their LOD level.

    The values the load reads from the processed buffer (the meshes'
    primitive records, `bufferIndices`, and the instances record's three
    arrays) are given as a `Source`; reading them out of the bytes is not
    part of this model. */
module MsimLoad {
  import opened Outcomes
  import opened Bits

  /** A signed 32-bit integer (`int32`). */
  newtype int32 = x: int | -0x8000_0000 <= x < 0x8000_0000

  /** A primitive of a model: the mesh's primitive record it was copied
      from and its LOD level (`lod`, 0 unless a cluster sets it). */
  datatype Primitive = Primitive(record: nat, lod: int)

  /** A loaded model (`VarModel` holding a `V1Model`): its primitives, the
      stream its buffers are in, and its skins, each the list of instance
      matrices it is drawn with. */
  datatype Model = Model(primitives: seq<Primitive>, streamIndex: nat, skins: seq<seq<nat>>)

  /** `InstanceLOD`: the range of `modelLODs` that makes up one cluster. */
  datatype Cluster = Cluster(modelIndexStart: nat, numModels: nat)

  /** The instances record's three arrays: the clusters, the model index
      of each `InstancedModel`, and the cluster (`lodIndex`) of each
      `InstanceMatrix`. */
  datatype Instances = Instances(clusters: seq<Cluster>, modelIndices: seq<int32>, lodIndices: seq<nat>)

  /** What `LoadV1` reads from the processed header: the primitive records
      of each mesh of the MXMD model (none when `models` is null),
      `bufferIndices`, and the instances record (none when null). */
  datatype Source = Source(meshes: Option<seq<seq<nat>>>, bufferIndices: seq<nat>, instances: Option<Instances>)

  /** The message of the `std::logic_error` `LoadV2` throws. */
  const NotImplementedMessage := "Mothod not implemented"

  /** `if (mdlIndex < 0) mdlIndex ^= 0x80000000;`: the index a model is
      looked up with. The XOR clears the sign bit of the two's-complement
      word (`SignBitCleared`), which adds 2^31 to a negative index. */
  function Normalized(x: int32): (r: nat)
    ensures r < 0x8000_0000
  {
    if x < 0 then x as int + 0x8000_0000 else x as int
  }

  /** A 32-bit word with its top bit set reads as a negative `int32`, and
      its XOR with 0x80000000 is what `Normalized` gives for that `int32`. */
  lemma SignBitCleared(v: bv32)
    requires v >= 0x8000_0000
    ensures -0x8000_0000 <= v as int - 0x1_0000_0000 < 0
    ensures Normalized((v as int - 0x1_0000_0000) as int32) == (v ^ 0x8000_0000) as int
  {
  }

  /** The primitives of a mesh as a new model lists them, at LOD 0. */
  function Listed(records: seq<nat>): (r: seq<Primitive>)
  {
    seq(|records|, i requires 0 <= i < |records| => Primitive(records[i], 0))
  }

  /** The models `ms` followed by one model per mesh from mesh `i` on, each
      with the stream index at the mesh's position in `bufferIndices`,
      which is read without a bounds check. */
  function AddedMeshes(ms: seq<Model>, meshes: seq<seq<nat>>, bufferIndices: seq<nat>, i: nat): (r: Result<seq<Model>>)
    decreases |meshes| - i
  {
    if i >= |meshes| then Ok(ms)
    else if i >= |bufferIndices| then Err(OutOfBounds)
    else AddedMeshes(ms + [Model(Listed(meshes[i]), bufferIndices[i], [])], meshes, bufferIndices, i + 1)
  }

  /** The mesh models are added exactly when `bufferIndices` has an entry
      for every remaining mesh; the models already there stay, and the
      model of mesh `t` lists the mesh's primitives at LOD 0, takes stream
      index `bufferIndices[t]` and has no skin. */
  lemma {:induction false} AddedMeshesMeaning(ms: seq<Model>, meshes: seq<seq<nat>>, bufferIndices: seq<nat>, i: nat)
    requires i <= |meshes|
    ensures AddedMeshes(ms, meshes, bufferIndices, i).Ok? <==> i == |meshes| || |meshes| <= |bufferIndices|
    ensures AddedMeshes(ms, meshes, bufferIndices, i).Err? ==> AddedMeshes(ms, meshes, bufferIndices, i).error == OutOfBounds
    ensures AddedMeshes(ms, meshes, bufferIndices, i).Ok? ==>
              var r := AddedMeshes(ms, meshes, bufferIndices, i).value;
              && |r| == |ms| + |meshes| - i && r[..|ms|] == ms
              && forall t :: i <= t < |meshes| ==> r[|ms| + t - i] == Model(Listed(meshes[t]), bufferIndices[t], [])
    decreases |meshes| - i
  {
    if i < |meshes| && i < |bufferIndices| {
      var m := Model(Listed(meshes[i]), bufferIndices[i], []);
      AddedMeshesMeaning(ms + [m], meshes, bufferIndices, i + 1);
      if AddedMeshes(ms, meshes, bufferIndices, i).Ok? {
        var r := AddedMeshes(ms, meshes, bufferIndices, i).value;
        assert r[..|ms| + 1] == ms + [m];
        assert r[..|ms|] == (ms + [m])[..|ms|];
      }
    }
  }

  /** Matrix `m` added to a model's skins: a model without a skin gets one
      holding `m`, otherwise `m` goes at the end of its first skin. */
  function Added(skins: seq<seq<nat>>, m: nat): (r: seq<seq<nat>>)
  {
    if skins == [] then [[m]] else [skins[0] + [m]] + skins[1..]
  }

  /** Matrix `m` added to the skin of the model that position `g` of
      `modelLODs` instances; the position is read without a bounds check
      and the model is looked up with `at()`. */
  function SkinOne(ms: seq<Model>, inst: Instances, g: nat, m: nat): (r: Result<seq<Model>>)
    ensures r.Ok? ==> |r.value| == |ms|
  {
    if g >= |inst.modelIndices| then Err(OutOfBounds)
    else
      var j := Normalized(inst.modelIndices[g]);
      if j >= |ms| then Err(OutOfRange)
      else Ok(ms[j := ms[j].(skins := Added(ms[j].skins, m))])
  }

  /** Matrix `m` added to the skins of the models at positions `g` to
      `end - 1` of `modelLODs`, in order. */
  function SkinFrom(ms: seq<Model>, inst: Instances, m: nat, g: nat, end: nat): (r: Result<seq<Model>>)
    ensures r.Ok? ==> |r.value| == |ms|
    decreases end - g
  {
    if g >= end then Ok(ms)
    else
      var next :- SkinOne(ms, inst, g, m);
      SkinFrom(next, inst, m, g + 1, end)
  }

  /** Where the loop over a cluster's models stops: the sum of its start
      and its model count, both `uint32`, so it wraps at 2^32. */
  function RangeEnd(c: Cluster): nat {
    (c.numModels + c.modelIndexStart) % Word32
  }

  /** The loop body for matrix `m`: its cluster, read without a bounds
      check, and the models of the cluster's range. */
  function SkinMatrix(ms: seq<Model>, inst: Instances, m: nat): (r: Result<seq<Model>>)
    requires m < |inst.lodIndices|
    ensures r.Ok? ==> |r.value| == |ms|
  {
    var lod := inst.lodIndices[m];
    if lod >= |inst.clusters| then Err(OutOfBounds)
    else SkinFrom(ms, inst, m, inst.clusters[lod].modelIndexStart, RangeEnd(inst.clusters[lod]))
  }

  /** The skins after the instance matrices from `m` on. */
  function Skinned(ms: seq<Model>, inst: Instances, m: nat): (r: Result<seq<Model>>)
    ensures r.Ok? ==> |r.value| == |ms|
    decreases |inst.lodIndices| - m
  {
    if m >= |inst.lodIndices| then Ok(ms)
    else
      var next :- SkinMatrix(ms, inst, m);
      Skinned(next, inst, m + 1)
  }

  /** The primitives with their LOD level set to `l`. */
  function AtLod(ps: seq<Primitive>, l: int): (r: seq<Primitive>)
  {
    seq(|ps|, i requires 0 <= i < |ps| => ps[i].(lod := l))
  }

  /** Every primitive of the model that position `g` of `modelLODs`
      instances gets LOD level `l`; the position is read without a bounds
      check and the model is looked up with `at()`. */
  function LevelOne(ms: seq<Model>, inst: Instances, g: nat, l: nat): (r: Result<seq<Model>>)
    ensures r.Ok? ==> |r.value| == |ms|
  {
    if g >= |inst.modelIndices| then Err(OutOfBounds)
    else
      var j := Normalized(inst.modelIndices[g]);
      if j >= |ms| then Err(OutOfRange)
      else Ok(ms[j := ms[j].(primitives := AtLod(ms[j].primitives, l))])
  }

  /** The models of cluster `c` from its `l`-th on, each given its
      position in the cluster as LOD level. */
  function LevelFrom(ms: seq<Model>, inst: Instances, c: Cluster, l: nat): (r: Result<seq<Model>>)
    ensures r.Ok? ==> |r.value| == |ms|
    decreases c.numModels - l
  {
    if l >= c.numModels then Ok(ms)
    else
      var next :- LevelOne(ms, inst, c.modelIndexStart + l, l);
      LevelFrom(next, inst, c, l + 1)
  }

  /** The LOD levels after the clusters from `k` on. */
  function Leveled(ms: seq<Model>, inst: Instances, k: nat): (r: Result<seq<Model>>)
    ensures r.Ok? ==> |r.value| == |ms|
    decreases |inst.clusters| - k
  {
    if k >= |inst.clusters| then Ok(ms)
    else
      var next :- LevelFrom(ms, inst, inst.clusters[k], 0);
      Leveled(next, inst, k + 1)
  }

  /** The instancing part of `LoadV1`: every matrix, then every cluster. */
  function Instanced(ms: seq<Model>, inst: Instances): (r: Result<seq<Model>>)
    ensures r.Ok? ==> |r.value| == |ms|
  {
    var skinned :- Skinned(ms, inst, 0);
    Leveled(skinned, inst, 0)
  }

  /** `LoadV1` after the header pass, on the models loaded so far: the mesh
      models appended when there is an MXMD model, then the instancing. */
  function Loaded(models: seq<Model>, src: Source): (r: Result<seq<Model>>)
  {
    var ms :- if src.meshes.None? then Ok(models) else AddedMeshes(models, src.meshes.value, src.bufferIndices, 0);
    if src.instances.None? then Ok(ms) else Instanced(ms, src.instances.value)
  }

  // An independent description of what the instancing does to each model.

  /** Position `g` of `modelLODs` exists and instances model `j`. */
  predicate Hits(inst: Instances, g: nat, j: nat) {
    g < |inst.modelIndices| && Normalized(inst.modelIndices[g]) == j
  }

  /** `m` once for each position from `g` to `end - 1` of `modelLODs` that
      instances model `j`. */
  function HitsFrom(inst: Instances, j: nat, m: nat, g: nat, end: nat): seq<nat>
    decreases end - g
  {
    if g >= end then [] else (if Hits(inst, g, j) then [m] else []) + HitsFrom(inst, j, m, g + 1, end)
  }

  /** `m` once for each model of matrix `m`'s cluster that is model `j`. */
  function MatrixHits(inst: Instances, j: nat, m: nat): seq<nat>
    requires m < |inst.lodIndices|
  {
    var lod := inst.lodIndices[m];
    if lod >= |inst.clusters| then []
    else HitsFrom(inst, j, m, inst.clusters[lod].modelIndexStart, RangeEnd(inst.clusters[lod]))
  }

  /** The matrices from `m` on that model `j` is drawn with, in order, one
      entry for each time its cluster lists the model. */
  function SkinOf(inst: Instances, j: nat, m: nat): seq<nat>
    decreases |inst.lodIndices| - m
  {
    if m >= |inst.lodIndices| then [] else MatrixHits(inst, j, m) + SkinOf(inst, j, m + 1)
  }

  /** The skins with the matrices `hits` added one by one. */
  function Appended(skins: seq<seq<nat>>, hits: seq<nat>): seq<seq<nat>> {
    if hits == [] then skins
    else if skins == [] then [hits]
    else [skins[0] + hits] + skins[1..]
  }

  /** Adding `a` and then `b` is adding `a + b`. */
  lemma AppendedTwice(skins: seq<seq<nat>>, a: seq<nat>, b: seq<nat>)
    ensures Appended(Appended(skins, a), b) == Appended(skins, a + b)
  {
    if a != [] && b != [] && skins != [] {
      assert Appended(skins, a)[1..] == skins[1..];
      assert skins[0] + a + b == skins[0] + (a + b);
    } else if a == [] {
      assert a + b == b;
    } else if b == [] {
      assert a + b == a;
    }
  }

  /** Over positions `g` to `end - 1` of `modelLODs`, each model's skins
      gain `m` once for every position that instances it, and nothing
      else changes. */
  lemma {:induction false} SkinFromMeaning(ms: seq<Model>, inst: Instances, m: nat, g: nat, end: nat)
    requires SkinFrom(ms, inst, m, g, end).Ok?
    ensures forall j :: 0 <= j < |ms| ==>
              SkinFrom(ms, inst, m, g, end).value[j] == ms[j].(skins := Appended(ms[j].skins, HitsFrom(inst, j, m, g, end)))
    decreases end - g
  {
    if g < end {
      var next := SkinOne(ms, inst, g, m).value;
      SkinFromMeaning(next, inst, m, g + 1, end);
      var r := SkinFrom(ms, inst, m, g, end).value;
      var idx := Normalized(inst.modelIndices[g]);
      assert next == ms[idx := ms[idx].(skins := Added(ms[idx].skins, m))];
      assert r == SkinFrom(next, inst, m, g + 1, end).value;
      forall j | 0 <= j < |ms|
        ensures r[j] == ms[j].(skins := Appended(ms[j].skins, HitsFrom(inst, j, m, g, end)))
      {
        var rest := HitsFrom(inst, j, m, g + 1, end);
        assert r[j] == next[j].(skins := Appended(next[j].skins, rest));
        if j == idx {
          assert Hits(inst, g, j);
          assert HitsFrom(inst, j, m, g, end) == [m] + rest;
          assert next[j].skins == Added(ms[j].skins, m) == Appended(ms[j].skins, [m]);
          AppendedTwice(ms[j].skins, [m], rest);
        } else {
          assert HitsFrom(inst, j, m, g, end) == [] + rest == rest;
          assert next[j] == ms[j];
        }
      }
    }
  }

  /** After the matrices from `m` on each model's skins gain exactly the
      matrices `SkinOf` lists for it, and nothing else changes. */
  lemma {:induction false} SkinnedMeaning(ms: seq<Model>, inst: Instances, m: nat)
    requires Skinned(ms, inst, m).Ok?
    ensures forall j :: 0 <= j < |ms| ==>
              Skinned(ms, inst, m).value[j] == ms[j].(skins := Appended(ms[j].skins, SkinOf(inst, j, m)))
    decreases |inst.lodIndices| - m
  {
    if m < |inst.lodIndices| {
      var c := inst.clusters[inst.lodIndices[m]];
      var next := SkinMatrix(ms, inst, m).value;
      SkinFromMeaning(ms, inst, m, c.modelIndexStart, RangeEnd(c));
      SkinnedMeaning(next, inst, m + 1);
      var r := Skinned(ms, inst, m).value;
      forall j | 0 <= j < |ms|
        ensures r[j] == ms[j].(skins := Appended(ms[j].skins, SkinOf(inst, j, m)))
      {
        AppendedTwice(ms[j].skins, MatrixHits(inst, j, m), SkinOf(inst, j, m + 1));
      }
    }
  }

  /** The primitives with the level `o` names, or as they are. */
  function WithLevel(ps: seq<Primitive>, o: Option<nat>): seq<Primitive> {
    match o
    case None => ps
    case Some(l) => AtLod(ps, l)
  }

  /** Setting a level and then another leaves the second. */
  lemma AtLodTwice(ps: seq<Primitive>, a: int, b: int)
    ensures AtLod(AtLod(ps, a), b) == AtLod(ps, b)
  {
  }

  /** The last position from `l` on, counted from the start of cluster
      `c`, that is model `j`. */
  function LastFrom(inst: Instances, j: nat, c: Cluster, l: nat): Option<nat>
    decreases c.numModels - l
  {
    if l >= c.numModels then None
    else
      match LastFrom(inst, j, c, l + 1)
      case Some(x) => Some(x)
      case None => if Hits(inst, c.modelIndexStart + l, j) then Some(l) else None
  }

  /** The level the last cluster from `k` on that lists model `j` gives
      it: a later cluster overrides an earlier one. */
  function LastLevel(inst: Instances, j: nat, k: nat): Option<nat>
    decreases |inst.clusters| - k
  {
    if k >= |inst.clusters| then None
    else
      match LastLevel(inst, j, k + 1)
      case Some(x) => Some(x)
      case None => LastFrom(inst, j, inst.clusters[k], 0)
  }

  /** Over the models of a cluster from its `l`-th on, each model's
      primitives end at the level of its last position in the cluster,
      and nothing else changes. */
  lemma {:induction false} LevelFromMeaning(ms: seq<Model>, inst: Instances, c: Cluster, l: nat)
    requires LevelFrom(ms, inst, c, l).Ok?
    ensures forall j :: 0 <= j < |ms| ==>
              LevelFrom(ms, inst, c, l).value[j] == ms[j].(primitives := WithLevel(ms[j].primitives, LastFrom(inst, j, c, l)))
    decreases c.numModels - l
  {
    if l < c.numModels {
      var next := LevelOne(ms, inst, c.modelIndexStart + l, l).value;
      LevelFromMeaning(next, inst, c, l + 1);
      var r := LevelFrom(ms, inst, c, l).value;
      forall j | 0 <= j < |ms|
        ensures r[j] == ms[j].(primitives := WithLevel(ms[j].primitives, LastFrom(inst, j, c, l)))
      {
        if Hits(inst, c.modelIndexStart + l, j) {
          match LastFrom(inst, j, c, l + 1)
          case None =>
          case Some(x) =>
            AtLodTwice(ms[j].primitives, l, x);
        }
      }
    }
  }

  /** After the clusters from `k` on each model's primitives are at the
      level the last cluster listing it gives, and nothing else changes. */
  lemma {:induction false} LeveledMeaning(ms: seq<Model>, inst: Instances, k: nat)
    requires Leveled(ms, inst, k).Ok?
    ensures forall j :: 0 <= j < |ms| ==>
              Leveled(ms, inst, k).value[j] == ms[j].(primitives := WithLevel(ms[j].primitives, LastLevel(inst, j, k)))
    decreases |inst.clusters| - k
  {
    if k < |inst.clusters| {
      var c := inst.clusters[k];
      var next := LevelFrom(ms, inst, c, 0).value;
      LevelFromMeaning(ms, inst, c, 0);
      LeveledMeaning(next, inst, k + 1);
      var r := Leveled(ms, inst, k).value;
      forall j | 0 <= j < |ms|
        ensures r[j] == ms[j].(primitives := WithLevel(ms[j].primitives, LastLevel(inst, j, k)))
      {
        match LastLevel(inst, j, k + 1)
        case None =>
        case Some(x) =>
          match LastFrom(inst, j, c, 0)
          case None =>
          case Some(a) =>
            AtLodTwice(ms[j].primitives, a, x);
      }
    }
  }

  /** The instancing keeps every model's stream index; its skins gain the
      matrices `SkinOf` lists and its primitives take the level of the last
      cluster that lists it. */
  lemma InstancedMeaning(ms: seq<Model>, inst: Instances)
    requires Instanced(ms, inst).Ok?
    ensures forall j :: 0 <= j < |ms| ==>
              Instanced(ms, inst).value[j] ==
              Model(WithLevel(ms[j].primitives, LastLevel(inst, j, 0)), ms[j].streamIndex,
                    Appended(ms[j].skins, SkinOf(inst, j, 0)))
  {
    SkinnedMeaning(ms, inst, 0);
    var skinned := Skinned(ms, inst, 0).value;
    LeveledMeaning(skinned, inst, 0);
  }

  /** On a fresh load every model ends with at most one skin, holding the
      matrices that instance it, and the model of mesh `i` has the stream
      index `bufferIndices` gives the mesh (what `ModelIndex(i)` returns). */
  lemma LoadedMeaning(src: Source, i: nat)
    requires Loaded([], src).Ok? && src.meshes.Some? && i < |src.meshes.value|
    ensures |Loaded([], src).value| == |src.meshes.value| <= |src.bufferIndices|
    ensures Loaded([], src).value[i].streamIndex == src.bufferIndices[i]
    ensures src.instances.None? ==> Loaded([], src).value[i].skins == []
    ensures src.instances.Some? ==>
              var sk := SkinOf(src.instances.value, i, 0);
              Loaded([], src).value[i].skins == (if sk == [] then [] else [sk])
  {
    var meshes := src.meshes.value;
    AddedMeshesMeaning([], meshes, src.bufferIndices, 0);
    var ms := AddedMeshes([], meshes, src.bufferIndices, 0).value;
    assert ms[i] == Model(Listed(meshes[i]), src.bufferIndices[i], []);
    if src.instances.Some? {
      InstancedMeaning(ms, src.instances.value);
    }
  }

  /** The models `LoadV1` leaves are `x`'s, or the step failed with `x`'s
      error. */
  predicate Agrees(r: Outcome, ms: seq<Model>, x: Result<seq<Model>>) {
    if x.Ok? then r.Pass? && ms == x.value else r == Fail(x.error)
  }

  /** `MSIM::Wrap`'s implementation: the models loaded so far. */
  class Loader {
    var models: seq<Model>

    /** A loader with no models. */
    constructor ()
      ensures models == []
    {
      models := [];
    }

    /** `ModelIndex(id)`: the stream index of model `id`, looked up with
        `at()`. */
    function ModelIndex(id: nat): (r: Result<nat>)
      reads this
      ensures r.Ok? <==> id < |models|
      ensures r.Ok? ==> r.value == models[id].streamIndex
      ensures r.Err? ==> r.error == OutOfRange
    {
      if id < |models| then Ok(models[id].streamIndex) else Err(OutOfRange)
    }

    /** `LoadV1` after the header pass. A failure leaves models that are not
        described here. */
    method LoadV1(src: Source) returns (r: Outcome)
      modifies this
      ensures Agrees(r, models, Loaded(old(models), src))
    {
      if src.meshes.Some? {
        r := AddMeshes(src.meshes.value, src.bufferIndices);
        if r.Fail? {
          return;
        }
      }
      if src.instances.None? {
        return Pass;
      }
      r := SkinAll(src.instances.value);
      if r.Fail? {
        return;
      }
      r := LevelAll(src.instances.value);
    }

    /** `LoadV2`: not implemented, it throws. */
    method LoadV2() returns (r: Outcome)
      ensures r == Fail(Logic(NotImplementedMessage))
    {
      return Fail(Logic(NotImplementedMessage));
    }

    /** One model per mesh, appended. */
    method AddMeshes(meshes: seq<seq<nat>>, bufferIndices: seq<nat>) returns (r: Outcome)
      modifies this
      ensures Agrees(r, models, AddedMeshes(old(models), meshes, bufferIndices, 0))
    {
      var index := 0;
      while index < |meshes|
        invariant 0 <= index <= |meshes|
        invariant AddedMeshes(models, meshes, bufferIndices, index) == AddedMeshes(old(models), meshes, bufferIndices, 0)
      {
        var records := meshes[index];
        var primitives: seq<Primitive> := [];
        var p := 0;
        while p < |records|
          invariant 0 <= p <= |records| && |primitives| == p
          invariant forall t :: 0 <= t < p ==> primitives[t] == Primitive(records[t], 0)
        {
          primitives := primitives + [Primitive(records[p], 0)];
          p := p + 1;
        }
        assert primitives == Listed(records);
        if index >= |bufferIndices| {
          return Fail(OutOfBounds);
        }
        models := models + [Model(primitives, bufferIndices[index], [])];
        index := index + 1;
      }
      return Pass;
    }

    /** The loop over the instance matrices. */
    method SkinAll(inst: Instances) returns (r: Outcome)
      modifies this
      ensures Agrees(r, models, Skinned(old(models), inst, 0))
    {
      var m := 0;
      while m < |inst.lodIndices|
        invariant 0 <= m <= |inst.lodIndices|
        invariant Skinned(models, inst, m) == Skinned(old(models), inst, 0)
      {
        var lod := inst.lodIndices[m];
        if lod >= |inst.clusters| {
          return Fail(OutOfBounds);
        }
        var cluster := inst.clusters[lod];
        r := SkinCluster(inst, m, cluster.modelIndexStart, (cluster.numModels + cluster.modelIndexStart) % Word32);
        if r.Fail? {
          return;
        }
        m := m + 1;
      }
      return Pass;
    }

    /** Matrix `m` added to the skins of the models at positions `start` to
        `end - 1` of `modelLODs`. */
    method SkinCluster(inst: Instances, m: nat, start: nat, end: nat) returns (r: Outcome)
      modifies this
      ensures Agrees(r, models, SkinFrom(old(models), inst, m, start, end))
    {
      var g := start;
      while g < end
        invariant SkinFrom(models, inst, m, g, end) == SkinFrom(old(models), inst, m, start, end)
        decreases end - g
      {
        if g >= |inst.modelIndices| {
          return Fail(OutOfBounds);
        }
        var mdlIndex := Normalized(inst.modelIndices[g]);
        if mdlIndex >= |models| {
          return Fail(OutOfRange);
        }
        var skins := models[mdlIndex].skins;
        if skins == [] {
          skins := [[m]];
        } else {
          skins := [skins[0] + [m]] + skins[1..];
        }
        models := models[mdlIndex := models[mdlIndex].(skins := skins)];
        g := g + 1;
      }
      return Pass;
    }

    /** The loop over the clusters. */
    method LevelAll(inst: Instances) returns (r: Outcome)
      modifies this
      ensures Agrees(r, models, Leveled(old(models), inst, 0))
    {
      var k := 0;
      while k < |inst.clusters|
        invariant 0 <= k <= |inst.clusters|
        invariant Leveled(models, inst, k) == Leveled(old(models), inst, 0)
      {
        r := LevelCluster(inst, inst.clusters[k]);
        if r.Fail? {
          return;
        }
        k := k + 1;
      }
      return Pass;
    }

    /** Each model of cluster `c` given its position in the cluster as
        LOD level. */
    method LevelCluster(inst: Instances, c: Cluster) returns (r: Outcome)
      modifies this
      ensures Agrees(r, models, LevelFrom(old(models), inst, c, 0))
    {
      var l := 0;
      while l < c.numModels
        invariant 0 <= l <= c.numModels
        invariant LevelFrom(models, inst, c, l) == LevelFrom(old(models), inst, c, 0)
      {
        var g := c.modelIndexStart + l;
        if g >= |inst.modelIndices| {
          return Fail(OutOfBounds);
        }
        var mdlIndex := Normalized(inst.modelIndices[g]);
        if mdlIndex >= |models| {
          return Fail(OutOfRange);
        }
        var primitives := models[mdlIndex].primitives;
        var p := 0;
        while p < |primitives|
          invariant 0 <= p <= |primitives| && |primitives| == |models[mdlIndex].primitives|
          invariant forall t :: 0 <= t < |primitives| ==>
                      primitives[t] == if t < p then models[mdlIndex].primitives[t].(lod := l)
                                       else models[mdlIndex].primitives[t]
        {
          primitives := primitives[p := primitives[p].(lod := l)];
          p := p + 1;
        }
        assert primitives == AtLod(models[mdlIndex].primitives, l);
        models := models[mdlIndex := models[mdlIndex].(primitives := primitives)];
        l := l + 1;
      }
      return Pass;
    }
  }
}
