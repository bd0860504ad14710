/** MeshInfo, the per-geometry state the importer fills block by block,
  * and the in-place operations of addTrianglesToCurrentMesh,
  * addPolylistToCurrentMesh, the normal padding and createMesh. */
module Mesh {
  import opened Wrappers
  import opened XmlInput
  import opened Bindings
  import opened Consolidation
  import opened Materials
  import opened MeshSpec

  /** The ColladaVertice of the stride at i, filled binding by binding from
    * p[i + offset]; a read outside p fails. */
  method ReadVertexKey(inputs: seq<InputData>, p: seq<int>, i: int) returns (r: Result<VertexKey, FormatError>)
    ensures r.Ok? <==> InRange(inputs, p, i)
    ensures r.Ok? ==> r.value == KeyOf(inputs, p, i)
    ensures r.Err? ==> r.error == IndexOutOfRange
  {
    var key := UNBOUND_KEY;
    var d := 0;
    while d < |inputs|
      invariant 0 <= d <= |inputs|
      invariant InRange(inputs[..d], p, i) && key == KeyOf(inputs[..d], p, i)
    {
      var binding := inputs[d];
      if !(0 <= i + binding.offset < |p|) {
        return Err(IndexOutOfRange);
      }
      assert inputs[..d + 1][..d] == inputs[..d];
      key := key.With(binding.semantic, p[i + binding.offset]);
      d := d + 1;
    }
    assert inputs[..d] == inputs;
    r := Ok(key);
  }

  /** The st floats a raw index owns in a bulk array, read one at a time at
    * raw*st, raw*st+1 and, but for TEXCOORD, raw*st+2; None when they lie
    * outside the array. */
  method ReadBulkValues(source: seq<Float>, semantic: Semantic, raw: int) returns (values: Option<seq<Float>>)
    ensures values == Chunk(source, Stride(semantic), raw)
  {
    var stride := if semantic != Texcoord then 3 else 2;
    var base := raw * stride;
    if !(0 <= base && base + stride <= |source|) {
      return None;
    }
    var read := [source[base], source[base + 1]];
    if semantic != Texcoord {
      read := read + [source[base + 2]];
    }
    assert read == source[base .. base + stride];
    WindowIsSlice(source, base, stride);
    values := Some(read);
  }

  /** The triangle list of one material: m_Index from the span's offset,
    * size entries long. */
  method CopySpan(index: seq<nat>, span: Span) returns (triangles: seq<nat>)
    requires 0 <= span.offset && 0 <= span.size && span.offset + span.size <= |index|
    ensures triangles == SpanIndices(index, span)
  {
    triangles := [];
    var i := span.offset;
    while i < span.offset + span.size
      invariant span.offset <= i <= span.offset + span.size
      invariant triangles == index[span.offset .. i]
    {
      triangles := triangles + [index[i]];
      i := i + 1;
    }
  }

  /** The material loop of createMesh: for each material, its span of
    * m_Index is copied out and paired with the material found for it. */
  method BuildGroups(index: seq<nat>, materials: map<string, Span>, materialLib: MaterialLib, effects: EffectTable) returns (groups: map<string, TriangleGroup>)
    requires SpansInside(index, materials)
    ensures groups == GroupsOf(index, materials, materialLib, effects)
  {
    groups := map[];
    var remaining := materials.Keys;
    while remaining != {}
      invariant remaining <= materials.Keys
      invariant groups.Keys == materials.Keys - remaining
      invariant forall m :: m in groups ==>
                  groups[m] == TriangleGroup(MaterialOf(materialLib, effects, m), SpanIndices(index, materials[m]))
      decreases |remaining|
    {
      var materialId :| materialId in remaining;
      var material := MaterialOf(materialLib, effects, materialId);
      var triangles := CopySpan(index, materials[materialId]);
      groups := groups[materialId := TriangleGroup(material, triangles)];
      remaining := remaining - {materialId};
    }
    assert groups.Keys == GroupsOf(index, materials, materialLib, effects).Keys;
  }

  /** m_pMeshInfo: the mesh a geometry's blocks are consolidated into. */
  class MeshInfo {
    var mapping: map<VertexKey, nat>
    var freeIndex: nat
    var datas: Buffers
    var index: seq<nat>
    var materials: map<string, Span>

    function State(): MeshState
      reads this
    {
      MeshState(mapping, freeIndex, datas, index, materials)
    }

    ghost predicate Valid()
      reads this
    {
      ValidState(State())
    }

    /** A new MeshInfo: no vertex, empty buffers, no index, no material. */
    constructor ()
      ensures State() == EMPTY_MESH && Valid()
    {
      mapping := map[];
      freeIndex := 0;
      datas := EMPTY_BUFFERS;
      index := [];
      materials := map[];
    }

    /** The bulk data of a new vertex: for each binding, the floats at
      * raw*stride, raw*stride+1 and, but for TEXCOORD, raw*stride+2 of its
      * source are appended to the binding's buffer. */
    method AppendBulkData(inputs: seq<InputData>, bulk: BulkData, p: seq<int>, i: int) returns (r: Outcome<FormatError>)
      requires SourcesKnown(inputs, bulk) && InRange(inputs, p, i)
      modifies this
      ensures AppendAttributes(inputs, bulk, p, i, old(datas)).Ok? <==> r.Pass?
      ensures r.Pass? ==> datas == AppendAttributes(inputs, bulk, p, i, old(datas)).value
      ensures r.Fail? ==> r.error == AppendAttributes(inputs, bulk, p, i, old(datas)).error
      ensures mapping == old(mapping) && freeIndex == old(freeIndex) && index == old(index) && materials == old(materials)
    {
      var d := 0;
      assert inputs[0..] == inputs;
      while d < |inputs|
        invariant 0 <= d <= |inputs|
        invariant SourcesKnown(inputs[d..], bulk) && InRange(inputs[d..], p, i)
        invariant AppendAttributes(inputs[d..], bulk, p, i, datas) == AppendAttributes(inputs, bulk, p, i, old(datas))
        invariant mapping == old(mapping) && freeIndex == old(freeIndex) && index == old(index) && materials == old(materials)
      {
        AppendAttributesAt(inputs, bulk, p, i, datas, d);
        var binding := inputs[d];
        var values := ReadBulkValues(bulk[binding.source], binding.semantic, p[i + binding.offset]);
        if values.None? {
          return Fail(IndexOutOfRange);
        }
        datas := datas.Append(binding.semantic, values.value);
        d := d + 1;
      }
      assert inputs[d..] == [];
      r := Pass;
    }

    /** The stride loop shared by both add methods: each stride's key reuses
      * its dense index or is inserted under m_FreeIndex, which is then
      * incremented, and its bulk data appended. */
    method ConsolidateStrides(inputs: seq<InputData>, bulk: BulkData, p: seq<int>, stride: nat) returns (r: Result<seq<nat>, FormatError>)
      requires SourcesKnown(inputs, bulk) && stride >= 1
      modifies this
      ensures var spec := Consolidate(inputs, bulk, p, stride, 0, Acc(old(mapping), old(freeIndex), old(datas), []));
              && (r.Ok? <==> spec.Ok?)
              && (r.Ok? ==> mapping == spec.value.mapping && freeIndex == spec.value.freeIndex
                            && datas == spec.value.datas && r.value == spec.value.dense)
              && (r.Err? ==> r.error == spec.error)
      ensures index == old(index) && materials == old(materials)
    {
      var dense: seq<nat> := [];
      var i: nat := 0;
      while i < |p|
        invariant Consolidate(inputs, bulk, p, stride, i, Acc(mapping, freeIndex, datas, dense))
                  == Consolidate(inputs, bulk, p, stride, 0, Acc(old(mapping), old(freeIndex), old(datas), []))
        invariant index == old(index) && materials == old(materials)
        decreases |p| - i
      {
        var key := ReadVertexKey(inputs, p, i);
        if key.Err? {
          return Err(key.error);
        }
        ghost var before := Acc(mapping, freeIndex, datas, dense);
        if key.value in mapping {
          dense := dense + [mapping[key.value]];
        } else {
          mapping := mapping[key.value := freeIndex];
          freeIndex := freeIndex + 1;
          dense := dense + [mapping[key.value]];
          var appended := AppendBulkData(inputs, bulk, p, i);
          if appended.Fail? {
            return Err(appended.error);
          }
        }
        assert Step(inputs, bulk, p, i, before) == Ok(Acc(mapping, freeIndex, datas, dense));
        i := i + stride;
      }
      r := Ok(dense);
    }

    /** The stride loop of a block, in strides of maxOffset + 1, run on
      * this mesh's mapping, free index and buffers. */
    method ConsolidateBlockInto(inputs: seq<InputData>, bulk: BulkData, p: seq<int>) returns (r: Result<seq<nat>, FormatError>)
      requires SourcesKnown(inputs, bulk)
      modifies this
      ensures var block := ConsolidateBlock(old(State()), inputs, bulk, p);
              && (r.Ok? <==> block.Ok?)
              && (r.Ok? ==> block.value == Acc(mapping, freeIndex, datas, r.value))
              && (r.Err? ==> r.error == block.error)
      ensures index == old(index) && materials == old(materials)
    {
      var maxOffset := MaxOffsetOf(inputs);
      ghost var block := ConsolidateBlock(State(), inputs, bulk, p);
      r := ConsolidateStrides(inputs, bulk, p, maxOffset + 1);
      assert r.Ok? ==> block == Ok(Acc(mapping, freeIndex, datas, r.value));
    }

    /** The zero padding of computeNormalOfCurrentPrimitiveOfCurrentMesh. */
    method PadNormalBuffer()
      modifies this
      ensures datas == PadNormals(old(datas))
      ensures mapping == old(mapping) && freeIndex == old(freeIndex) && index == old(index) && materials == old(materials)
    {
      var normalOffset := |datas.normal|;
      var normalCount := |datas.vertex| - normalOffset;
      var k := 0;
      while k < normalCount
        invariant 0 <= k <= if normalCount > 0 then normalCount else 0
        invariant datas == old(datas).(normal := old(datas).normal + Zeros(k))
        invariant mapping == old(mapping) && freeIndex == old(freeIndex) && index == old(index) && materials == old(materials)
      {
        assert Zeros(k) + [0.0] == Zeros(k + 1);
        datas := datas.(normal := datas.normal + [0.0]);
        k := k + 1;
      }
      if normalCount <= 0 {
        assert datas.normal == old(datas).normal;
      }
    }

    /** The checks that open both add methods: every bound source must be a
      * bulk array, and hasNormals tells whether a binding is NORMAL. */
    static method CheckSources(inputs: seq<InputData>, bulk: BulkData) returns (r: Result<bool, FormatError>)
      ensures r.Ok? <==> SourcesKnown(inputs, bulk)
      ensures r.Ok? ==> (r.value <==> HasNormals(inputs))
      ensures r.Err? ==> r.error == UnknownSource(FirstUnknownSource(inputs, bulk).value)
    {
      var hasNormals := false;
      var d := 0;
      while d < |inputs|
        invariant 0 <= d <= |inputs|
        invariant forall b :: 0 <= b < d ==> inputs[b].source in bulk
        invariant hasNormals <==> exists b :: 0 <= b < d && inputs[b].semantic == Normal
      {
        if inputs[d].source !in bulk {
          var first := FirstUnknownSource(inputs, bulk);
          assert first.Some?;
          ghost var k :| 0 <= k < |inputs| && inputs[k].source == first.value && first.value !in bulk
                         && forall j :: 0 <= j < k ==> inputs[j].source in bulk;
          assert k == d;
          return Err(UnknownSource(inputs[d].source));
        }
        if inputs[d].semantic == Normal {
          hasNormals := true;
        }
        d := d + 1;
      }
      r := Ok(hasNormals);
    }

    /** maxOffset: the largest m_Offset of the bindings, starting from 0. */
    static method MaxOffsetOf(inputs: seq<InputData>) returns (maxOffset: int)
      ensures maxOffset == MaxOffset(inputs)
    {
      maxOffset := 0;
      var d := 0;
      while d < |inputs|
        invariant 0 <= d <= |inputs|
        invariant maxOffset == MaxOffset(inputs[..d])
      {
        assert inputs[..d + 1][..d] == inputs[..d];
        if inputs[d].offset > maxOffset {
          maxOffset := inputs[d].offset;
        }
        d := d + 1;
      }
      assert inputs[..d] == inputs;
    }

    /** The tail both add methods share: the normals are padded when no
      * binding is NORMAL, and the material's span is recorded as the
      * indices appended since indexOffset. */
    method RecordBlock(indexOffset: int, hasNormals: bool, inputs: seq<InputData>, material: string)
      requires hasNormals <==> HasNormals(inputs)
      modifies this
      ensures State() == old(State()).(datas := if HasNormals(inputs) then old(datas) else PadNormals(old(datas)),
                                       materials := old(materials)[material := Span(indexOffset, |old(index)| - indexOffset)])
    {
      if !hasNormals {
        PadNormalBuffer();
      }
      materials := materials[material := Span(indexOffset, |index| - indexOffset)];
    }

    /** addTrianglesToCurrentMesh. An unknown source is reported before the
      * mesh is touched. */
    method AddTriangles(inputs: seq<InputData>, p: seq<int>, material: string, bulk: BulkData) returns (r: Outcome<FormatError>)
      requires Valid()
      modifies this
      ensures var spec := AddTrianglesSpec(old(State()), inputs, p, material, bulk);
              && (r.Pass? <==> spec.Ok?)
              && (r.Pass? ==> State() == spec.value && Valid())
              && (r.Fail? ==> r.error == spec.error)
      ensures FirstUnknownSource(inputs, bulk).Some? ==> State() == old(State())
    {
      var checked := CheckSources(inputs, bulk);
      if checked.Err? {
        return Fail(checked.error);
      }
      r := AddKnownTriangles(inputs, p, material, bulk, checked.value);
    }

    /** addTrianglesToCurrentMesh once every source is known to be a bulk
      * array; hasNormals says whether some binding is NORMAL. */
    method AddKnownTriangles(inputs: seq<InputData>, p: seq<int>, material: string, bulk: BulkData, hasNormals: bool) returns (r: Outcome<FormatError>)
      requires Valid() && SourcesKnown(inputs, bulk) && (hasNormals <==> HasNormals(inputs))
      modifies this
      ensures var spec := AddTrianglesSpec(old(State()), inputs, p, material, bulk);
              && (r.Pass? <==> spec.Ok?)
              && (r.Pass? ==> State() == spec.value && Valid())
              && (r.Fail? ==> r.error == spec.error)
    {
      ghost var st0 := State();
      AddTrianglesOutcome(st0, inputs, p, material, bulk);
      var consolidated := ConsolidateBlockInto(inputs, bulk, p);
      if consolidated.Err? {
        return Fail(consolidated.error);
      }
      ghost var acc := Acc(mapping, freeIndex, datas, consolidated.value);
      var indexOffset := |index|;
      index := index + consolidated.value;
      assert indexOffset == |st0.index| && |index| - indexOffset == |acc.dense| && materials == st0.materials;
      RecordBlock(indexOffset, hasNormals, inputs, material);
      assert State() == Finish(st0, acc, acc.dense, inputs, material);
      AddTrianglesPreservesValid(st0, inputs, p, material, bulk);
      r := Pass;
    }

    /** The polygon loop of addPolylistToCurrentMesh: each polygon takes
      * vcount[k] dense indices from the front of the pending list, and its
      * triangulation is appended to m_Index. */
    method TriangulateInto(pending: seq<nat>, vcount: seq<int>, triangulate: Triangulator) returns (r: Outcome<FormatError>)
      modifies this
      ensures var spec := TriangulatePolygons(pending, vcount, triangulate, old(datas).vertex, []);
              && (r.Pass? <==> spec.Ok?)
              && (r.Pass? ==> index == old(index) + spec.value)
              && (r.Fail? ==> r.error == spec.error)
      ensures mapping == old(mapping) && freeIndex == old(freeIndex) && datas == old(datas) && materials == old(materials)
    {
      var polygonIndex := pending;
      var k := 0;
      assert vcount[0..] == vcount && index[|old(index)|..] == [];
      while k < |vcount|
        invariant 0 <= k <= |vcount|
        invariant |old(index)| <= |index| && index[..|old(index)|] == old(index)
        invariant TriangulatePolygons(polygonIndex, vcount[k..], triangulate, datas.vertex, index[|old(index)|..])
                  == TriangulatePolygons(pending, vcount, triangulate, datas.vertex, [])
        invariant mapping == old(mapping) && freeIndex == old(freeIndex) && datas == old(datas) && materials == old(materials)
      {
        assert vcount[k..][1..] == vcount[k + 1..];
        var polygonSize := vcount[k];
        var onePolygon: seq<nat> := [];
        ghost var start := polygonIndex;
        var t := 0;
        while t < polygonSize
          invariant 0 <= t <= |start| && t <= PolygonSize(polygonSize)
          invariant onePolygon == start[..t] && polygonIndex == start[t..]
        {
          if polygonIndex == [] {
            assert PolygonSize(polygonSize) > |start|;
            return Fail(IndexOutOfRange);
          }
          onePolygon := onePolygon + [polygonIndex[0]];
          polygonIndex := polygonIndex[1..];
          t := t + 1;
        }
        assert t == PolygonSize(polygonSize);
        ghost var outBefore := index[|old(index)|..];
        index := index + triangulate(onePolygon, datas.vertex);
        assert index[|old(index)|..] == outBefore + triangulate(onePolygon, datas.vertex);
        assert index[..|old(index)|] == old(index);
        k := k + 1;
      }
      assert index == old(index) + index[|old(index)|..];
      r := Pass;
    }

    /** addPolylistToCurrentMesh. An unknown source is reported before the
      * mesh is touched; the mesh stays valid when the triangulator only
      * emits corners of its polygon. */
    method AddPolylist(inputs: seq<InputData>, vcount: seq<int>, p: seq<int>, material: string, bulk: BulkData, triangulate: Triangulator) returns (r: Outcome<FormatError>)
      requires Valid()
      modifies this
      ensures var spec := AddPolylistSpec(old(State()), inputs, vcount, p, material, bulk, triangulate);
              && (r.Pass? <==> spec.Ok?)
              && (r.Pass? ==> State() == spec.value)
              && (r.Pass? && DrawsFromPolygon(triangulate) ==> Valid())
              && (r.Fail? ==> r.error == spec.error)
      ensures FirstUnknownSource(inputs, bulk).Some? ==> State() == old(State())
    {
      var checked := CheckSources(inputs, bulk);
      if checked.Err? {
        return Fail(checked.error);
      }
      r := AddKnownPolylist(inputs, vcount, p, material, bulk, triangulate, checked.value);
    }

    /** addPolylistToCurrentMesh once every source is known to be a bulk
      * array; hasNormals says whether some binding is NORMAL. */
    method AddKnownPolylist(inputs: seq<InputData>, vcount: seq<int>, p: seq<int>, material: string, bulk: BulkData, triangulate: Triangulator, hasNormals: bool) returns (r: Outcome<FormatError>)
      requires Valid() && SourcesKnown(inputs, bulk) && (hasNormals <==> HasNormals(inputs))
      modifies this
      ensures var spec := AddPolylistSpec(old(State()), inputs, vcount, p, material, bulk, triangulate);
              && (r.Pass? <==> spec.Ok?)
              && (r.Pass? ==> State() == spec.value)
              && (r.Pass? && DrawsFromPolygon(triangulate) ==> Valid())
              && (r.Fail? ==> r.error == spec.error)
    {
      ghost var st0 := State();
      AddPolylistOutcome(st0, inputs, vcount, p, material, bulk, triangulate);
      var consolidated := ConsolidateBlockInto(inputs, bulk, p);
      if consolidated.Err? {
        return Fail(consolidated.error);
      }
      ghost var acc := Acc(mapping, freeIndex, datas, consolidated.value);
      var indexOffset := |index|;
      var triangulated := TriangulateInto(consolidated.value, vcount, triangulate);
      if triangulated.Fail? {
        return triangulated;
      }
      ghost var indices := TriangulatePolygons(acc.dense, vcount, triangulate, acc.datas.vertex, []).value;
      assert index == st0.index + indices;
      assert indexOffset == |st0.index| && |index| - indexOffset == |indices| && materials == st0.materials;
      RecordBlock(indexOffset, hasNormals, inputs, material);
      assert State() == Finish(st0, acc, indices, inputs, material);
      if DrawsFromPolygon(triangulate) {
        AddPolylistPreservesValid(st0, inputs, vcount, p, material, bulk, triangulate);
      }
      r := Pass;
    }

    /** The part of createMesh that reads a MeshInfo: the buffers are handed
      * over (and then cleared), and for each material its span of m_Index
      * is copied out with the material the two-hop lookup finds. */
    method CreateMesh(materialLib: MaterialLib, effects: EffectTable) returns (mesh: MeshData)
      requires Valid()
      modifies this
      ensures mesh == MeshOf(old(State()), materialLib, effects)
      ensures datas == EMPTY_BUFFERS
      ensures mapping == old(mapping) && freeIndex == old(freeIndex) && index == old(index) && materials == old(materials)
    {
      var groups := BuildGroups(index, materials, materialLib, effects);
      mesh := MeshData(datas.vertex, datas.normal, if datas.texcoord == [] then None else Some(datas.texcoord), groups);
      datas := EMPTY_BUFFERS;
    }
  }
}
