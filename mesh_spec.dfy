/** What a <triangles> or <polylist> block does to the current MeshInfo,
  * and what createMesh then hands to the mesh, stated on values. */
module MeshSpec {
  import opened Wrappers
  import opened XmlInput
  import opened Bindings
  import opened Consolidation
  import opened Materials

  /** MatOffsetSize: the run of m_Index a material owns. */
  datatype Span = Span(offset: int, size: int)

  /** The value of a MeshInfo: m_Mapping, m_FreeIndex, m_Datas, m_Index
    * and m_Materials. */
  datatype MeshState = MeshState(mapping: map<VertexKey, nat>, freeIndex: nat, datas: Buffers, index: seq<nat>, materials: map<string, Span>)

  const EMPTY_MESH := MeshState(map[], 0, EMPTY_BUFFERS, [], map[])

  /** The invariant of a MeshInfo: the mapping is dense below the free
    * index, every index refers to a mapped vertex, and every span lies
    * inside the index list. */
  ghost predicate ValidState(st: MeshState)
  {
    && DenseMapping(st.mapping, st.freeIndex)
    && (forall k :: 0 <= k < |st.index| ==> st.index[k] < st.freeIndex)
    && SpansInside(st.index, st.materials)
  }

  /** Every material's span lies inside the index list. */
  predicate SpansInside(index: seq<nat>, materials: map<string, Span>)
  {
    forall m :: m in materials ==>
      0 <= materials[m].offset && 0 <= materials[m].size && materials[m].offset + materials[m].size <= |index|
  }

  function Zeros(n: nat): (z: seq<Float>)
    ensures |z| == n && forall k :: 0 <= k < n ==> z[k] == 0.0
  {
    seq(n, _ => 0.0)
  }

  /** The zero padding of computeNormalOfCurrentPrimitiveOfCurrentMesh:
    * zeros are appended to the normal buffer until it is as long as the
    * vertex buffer; a longer normal buffer is left alone. */
  function PadNormals(datas: Buffers): (r: Buffers)
    ensures r.vertex == datas.vertex && r.texcoord == datas.texcoord
    ensures |r.normal| == if |datas.normal| < |datas.vertex| then |datas.vertex| else |datas.normal|
    ensures r.normal[..|datas.normal|] == datas.normal
    ensures forall k :: |datas.normal| <= k < |r.normal| ==> r.normal[k] == 0.0
  {
    if |datas.normal| < |datas.vertex| then datas.(normal := datas.normal + Zeros(|datas.vertex| - |datas.normal|))
    else datas
  }

  lemma PadNormalsIdempotent(datas: Buffers)
    ensures PadNormals(PadNormals(datas)) == PadNormals(datas)
  {
    var once := PadNormals(datas);
    assert |once.normal| >= |once.vertex|;
  }

  /** The stride loop of a block over the current mesh, in strides of the
    * largest offset plus one. */
  function ConsolidateBlock(st: MeshState, inputs: seq<InputData>, bulk: BulkData, p: seq<int>): Result<Acc, FormatError>
    requires SourcesKnown(inputs, bulk)
  {
    Consolidate(inputs, bulk, p, MaxOffset(inputs) + 1, 0, Acc(st.mapping, st.freeIndex, st.datas, []))
  }

  /** The end of both add functions: the block's indices are appended, the
    * normals padded when the block binds none, and the material's span
    * (re)recorded as the indices just appended. */
  function Finish(st: MeshState, acc: Acc, indices: seq<nat>, inputs: seq<InputData>, material: string): MeshState
  {
    MeshState(acc.mapping, acc.freeIndex,
              if HasNormals(inputs) then acc.datas else PadNormals(acc.datas),
              st.index + indices,
              st.materials[material := Span(|st.index|, |indices|)])
  }

  /** addTrianglesToCurrentMesh: every source is checked first, then the
    * consolidated indices are appended as they are. */
  function AddTrianglesSpec(st: MeshState, inputs: seq<InputData>, p: seq<int>, material: string, bulk: BulkData): (r: Result<MeshState, FormatError>)
    ensures FirstUnknownSource(inputs, bulk).Some? ==> r == Err(UnknownSource(FirstUnknownSource(inputs, bulk).value))
  {
    match FirstUnknownSource(inputs, bulk)
    case Some(source) => Err(UnknownSource(source))
    case None =>
      var acc :- ConsolidateBlock(st, inputs, bulk, p);
      Ok(Finish(st, acc, acc.dense, inputs, material))
  }

  /** glc::triangulatePolygon: turns one polygon's dense indices into
    * triangle corners, given the vertex buffer. */
  type Triangulator = (seq<nat>, seq<Float>) -> seq<nat>

  /** The triangulator only emits corners of the polygon it is given. */
  ghost predicate DrawsFromPolygon(triangulate: Triangulator)
  {
    forall polygon: seq<nat>, vertices: seq<Float>, j :: 0 <= j < |triangulate(polygon, vertices)| ==>
      triangulate(polygon, vertices)[j] in polygon
  }

  /** A polygon's size as the take loop uses it: a negative count takes nothing. */
  function PolygonSize(count: int): nat
  {
    if count < 0 then 0 else count
  }

  /** Where polygon k begins in the pending list: the sizes of the
    * polygons before it, added up. */
  function PolygonStart(vcount: seq<int>, k: nat): nat
    requires k <= |vcount|
    decreases k
  {
    if k == 0 then 0 else PolygonStart(vcount, k - 1) + PolygonSize(vcount[k - 1])
  }

  /** The sum of the polygon sizes. */
  function TotalSize(vcount: seq<int>): nat
  {
    PolygonStart(vcount, |vcount|)
  }

  /** Later polygons start no earlier. */
  lemma {:induction false} StartsGrow(vcount: seq<int>, j: nat, k: nat)
    requires j <= k <= |vcount|
    ensures PolygonStart(vcount, j) <= PolygonStart(vcount, k)
    decreases k - j
  {
    if j < k {
      StartsGrow(vcount, j, k - 1);
    }
  }

  /** The polygon loop of addPolylistToCurrentMesh: each polygon takes its
    * vcount of the pending dense indices from the front, is triangulated,
    * and the result appended to out; taking from an exhausted list fails.
    * Indices beyond the last polygon are dropped. */
  function TriangulatePolygons(pending: seq<nat>, vcount: seq<int>, triangulate: Triangulator, vertices: seq<Float>, out: seq<nat>): Result<seq<nat>, FormatError>
    decreases |vcount|
  {
    if vcount == [] then Ok(out)
    else
      var size := PolygonSize(vcount[0]);
      if size > |pending| then Err(IndexOutOfRange)
      else TriangulatePolygons(pending[size..], vcount[1..], triangulate, vertices, out + triangulate(pending[..size], vertices))
  }

  /** Polygon k: the vcount[k] pending indices from its start on. */
  function Polygon<T>(pending: seq<T>, vcount: seq<int>, k: nat): (r: seq<T>)
    requires k < |vcount| && TotalSize(vcount) <= |pending|
    ensures |r| == PolygonSize(vcount[k])
  {
    StartsGrow(vcount, k + 1, |vcount|);
    pending[PolygonStart(vcount, k) .. PolygonStart(vcount, k) + PolygonSize(vcount[k])]
  }

  /** The concatenation of a list of lists. */
  function Flatten<T>(parts: seq<seq<T>>): (r: seq<T>)
    ensures parts == [] ==> r == []
    decreases |parts|
  {
    if parts == [] then [] else parts[0] + Flatten(parts[1..])
  }

  /** The polygons of the pending list, in order. */
  function Polygons<T>(pending: seq<T>, vcount: seq<int>): (r: seq<seq<T>>)
    requires TotalSize(vcount) <= |pending|
    ensures |r| == |vcount|
    ensures forall k :: 0 <= k < |vcount| ==> r[k] == Polygon(pending, vcount, k)
  {
    seq(|vcount|, k requires 0 <= k < |vcount| => Polygon(pending, vcount, k))
  }

  /** Each polygon's triangulation, polygon by polygon. */
  function TriangulatedPolygons(pending: seq<nat>, vcount: seq<int>, triangulate: Triangulator, vertices: seq<Float>): (r: seq<seq<nat>>)
    requires TotalSize(vcount) <= |pending|
    ensures |r| == |vcount|
    ensures forall k :: 0 <= k < |vcount| ==> r[k] == triangulate(Polygon(pending, vcount, k), vertices)
  {
    seq(|vcount|, k requires 0 <= k < |vcount| => triangulate(Polygon(pending, vcount, k), vertices))
  }

  /** The polygon loop takes consecutive runs of the pending list: for any
    * triangulator, it fails exactly when the polygons need more indices
    * than there are, and otherwise appends to out the triangulation of
    * polygon 0, then of polygon 1, and so on, where polygon k is the run of
    * vcount[k] indices starting after the runs of the polygons before it. */
  lemma TriangulatePolygonsConsumesInOrder(pending: seq<nat>, vcount: seq<int>, triangulate: Triangulator, vertices: seq<Float>, out: seq<nat>)
    ensures TriangulatePolygons(pending, vcount, triangulate, vertices, out).Ok? <==> TotalSize(vcount) <= |pending|
    ensures TotalSize(vcount) <= |pending| ==>
              TriangulatePolygons(pending, vcount, triangulate, vertices, out)
              == Ok(out + Flatten(TriangulatedPolygons(pending, vcount, triangulate, vertices)))
  {
    assert pending[PolygonStart(vcount, 0)..] == pending && vcount[0..] == vcount;
    TriangulateFrom(pending, vcount, triangulate, vertices, 0, out);
    if TotalSize(vcount) <= |pending| {
      assert TriangulatedPolygons(pending, vcount, triangulate, vertices)[0..] == TriangulatedPolygons(pending, vcount, triangulate, vertices);
    }
  }

  /** The polygon loop from polygon j on, where it has consumed the runs of
    * the polygons before j. */
  lemma {:induction false} TriangulateFrom(pending: seq<nat>, vcount: seq<int>, triangulate: Triangulator, vertices: seq<Float>, j: nat, out: seq<nat>)
    requires j <= |vcount| && PolygonStart(vcount, j) <= |pending|
    ensures TriangulatePolygons(pending[PolygonStart(vcount, j)..], vcount[j..], triangulate, vertices, out).Ok? <==> TotalSize(vcount) <= |pending|
    ensures TotalSize(vcount) <= |pending| ==>
              TriangulatePolygons(pending[PolygonStart(vcount, j)..], vcount[j..], triangulate, vertices, out)
              == Ok(out + Flatten(TriangulatedPolygons(pending, vcount, triangulate, vertices)[j..]))
    decreases |vcount| - j
  {
    var start := PolygonStart(vcount, j);
    if j == |vcount| {
      assert vcount[j..] == [];
      assert out + [] == out;
    } else {
      var size := PolygonSize(vcount[j]);
      assert vcount[j..][0] == vcount[j] && vcount[j..][1..] == vcount[j + 1..];
      StartsGrow(vcount, j + 1, |vcount|);
      if start + size <= |pending| {
        var first := triangulate(pending[start..][..size], vertices);
        assert pending[start..][size..] == pending[start + size..];
        TriangulateFrom(pending, vcount, triangulate, vertices, j + 1, out + first);
        if TotalSize(vcount) <= |pending| {
          var all := TriangulatedPolygons(pending, vcount, triangulate, vertices);
          assert pending[start..][..size] == Polygon(pending, vcount, j);
          assert all[j..] == [first] + all[j + 1..];
          assert Flatten(all[j..]) == first + Flatten(all[j + 1..]);
          assert out + first + Flatten(all[j + 1..]) == out + Flatten(all[j..]);
        }
      }
    }
  }

  /** The runs tile the front of the pending list: one after the other they
    * are its first TotalSize(vcount) indices, with nothing skipped or
    * read twice. */
  lemma PolygonsTilePending<T>(pending: seq<T>, vcount: seq<int>)
    requires TotalSize(vcount) <= |pending|
    ensures Flatten(Polygons(pending, vcount)) == pending[..TotalSize(vcount)]
  {
    TilesFrom(pending, vcount, 0);
    assert Polygons(pending, vcount)[0..] == Polygons(pending, vcount);
  }

  lemma {:induction false} TilesFrom<T>(pending: seq<T>, vcount: seq<int>, j: nat)
    requires j <= |vcount| && TotalSize(vcount) <= |pending|
    ensures PolygonStart(vcount, j) <= TotalSize(vcount)
    ensures Flatten(Polygons(pending, vcount)[j..]) == pending[PolygonStart(vcount, j) .. TotalSize(vcount)]
    decreases |vcount| - j
  {
    StartsGrow(vcount, j, |vcount|);
    if j < |vcount| {
      StartsGrow(vcount, j + 1, |vcount|);
      TilesFrom(pending, vcount, j + 1);
      TileStep(pending, vcount, j);
    } else {
      assert Polygons(pending, vcount)[j..] == [];
    }
  }

  /** One run more: the runs from j on are run j, then the runs after it. */
  lemma TileStep<T>(pending: seq<T>, vcount: seq<int>, j: nat)
    requires j < |vcount| && TotalSize(vcount) <= |pending|
    requires PolygonStart(vcount, j + 1) <= TotalSize(vcount)
    requires Flatten(Polygons(pending, vcount)[j + 1..]) == pending[PolygonStart(vcount, j + 1) .. TotalSize(vcount)]
    ensures Flatten(Polygons(pending, vcount)[j..]) == pending[PolygonStart(vcount, j) .. TotalSize(vcount)]
  {
    var runs := Polygons(pending, vcount);
    var start := PolygonStart(vcount, j);
    var next := PolygonStart(vcount, j + 1);
    assert runs[j..][0] == runs[j] && runs[j..][1..] == runs[j + 1..];
    assert runs[j] == pending[start .. next];
    assert pending[start .. next] + pending[next .. TotalSize(vcount)] == pending[start .. TotalSize(vcount)];
  }

  /** With a triangulator that draws from its polygon, every emitted index
    * is one of the pending ones or was already in out. */
  lemma {:induction false} TriangulatePolygonsBelow(pending: seq<nat>, vcount: seq<int>, triangulate: Triangulator, vertices: seq<Float>, out: seq<nat>, bound: nat)
    requires DrawsFromPolygon(triangulate)
    requires forall j :: 0 <= j < |pending| ==> pending[j] < bound
    requires forall j :: 0 <= j < |out| ==> out[j] < bound
    requires TriangulatePolygons(pending, vcount, triangulate, vertices, out).Ok?
    ensures forall j :: 0 <= j < |TriangulatePolygons(pending, vcount, triangulate, vertices, out).value| ==>
              TriangulatePolygons(pending, vcount, triangulate, vertices, out).value[j] < bound
    decreases |vcount|
  {
    if vcount != [] {
      var size := PolygonSize(vcount[0]);
      var polygon := pending[..size];
      var tri := triangulate(polygon, vertices);
      forall j | 0 <= j < |tri| ensures tri[j] < bound {
        assert tri[j] in polygon;
      }
      TriangulatePolygonsBelow(pending[size..], vcount[1..], triangulate, vertices, out + tri, bound);
    }
  }

  /** With a triangulator that draws from its polygon, every emitted index
    * is one of the pending ones or was already in out. */
  lemma {:induction false} TriangulatePolygonsDrawsFromPending(pending: seq<nat>, vcount: seq<int>, triangulate: Triangulator, vertices: seq<Float>, out: seq<nat>)
    requires DrawsFromPolygon(triangulate)
    requires TriangulatePolygons(pending, vcount, triangulate, vertices, out).Ok?
    ensures forall j :: 0 <= j < |TriangulatePolygons(pending, vcount, triangulate, vertices, out).value| ==>
              TriangulatePolygons(pending, vcount, triangulate, vertices, out).value[j] in out
              || TriangulatePolygons(pending, vcount, triangulate, vertices, out).value[j] in pending
    decreases |vcount|
  {
    if vcount != [] {
      var size := PolygonSize(vcount[0]);
      var polygon := pending[..size];
      var tri := triangulate(polygon, vertices);
      TriangulatePolygonsDrawsFromPending(pending[size..], vcount[1..], triangulate, vertices, out + tri);
      var r := TriangulatePolygons(pending, vcount, triangulate, vertices, out).value;
      forall j | 0 <= j < |r| ensures r[j] in out || r[j] in pending {
        if r[j] !in out && r[j] in out + tri {
          var m :| 0 <= m < |out + tri| && (out + tri)[m] == r[j];
          assert tri[m - |out|] in polygon;
        }
      }
    }
  }

  /** addPolylistToCurrentMesh: every source is checked first; the
    * consolidated indices are then grouped into polygons by vcount and
    * triangulated against the vertex buffer. */
  function AddPolylistSpec(st: MeshState, inputs: seq<InputData>, vcount: seq<int>, p: seq<int>, material: string, bulk: BulkData, triangulate: Triangulator): (r: Result<MeshState, FormatError>)
    ensures FirstUnknownSource(inputs, bulk).Some? ==> r == Err(UnknownSource(FirstUnknownSource(inputs, bulk).value))
  {
    match FirstUnknownSource(inputs, bulk)
    case Some(source) => Err(UnknownSource(source))
    case None =>
      var acc :- ConsolidateBlock(st, inputs, bulk, p);
      var indices :- TriangulatePolygons(acc.dense, vcount, triangulate, acc.datas.vertex, []);
      Ok(Finish(st, acc, indices, inputs, material))
  }

  /** Once every source is known, a triangles block either fails as its
    * stride loop does or finishes the mesh with the loop's indices. */
  lemma AddTrianglesOutcome(st: MeshState, inputs: seq<InputData>, p: seq<int>, material: string, bulk: BulkData)
    requires SourcesKnown(inputs, bulk)
    ensures var acc := ConsolidateBlock(st, inputs, bulk, p);
            && (acc.Err? ==> AddTrianglesSpec(st, inputs, p, material, bulk) == Err(acc.error))
            && (acc.Ok? ==> AddTrianglesSpec(st, inputs, p, material, bulk) == Ok(Finish(st, acc.value, acc.value.dense, inputs, material)))
  {
  }

  /** Once every source is known, a polylist block either fails as its
    * stride loop or its polygon loop does, or finishes the mesh with the
    * triangulated indices. */
  lemma AddPolylistOutcome(st: MeshState, inputs: seq<InputData>, vcount: seq<int>, p: seq<int>, material: string, bulk: BulkData, triangulate: Triangulator)
    requires SourcesKnown(inputs, bulk)
    ensures var acc := ConsolidateBlock(st, inputs, bulk, p);
            && (acc.Err? ==> AddPolylistSpec(st, inputs, vcount, p, material, bulk, triangulate) == Err(acc.error))
            && (acc.Ok? ==>
                  var indices := TriangulatePolygons(acc.value.dense, vcount, triangulate, acc.value.datas.vertex, []);
                  && (indices.Err? ==> AddPolylistSpec(st, inputs, vcount, p, material, bulk, triangulate) == Err(indices.error))
                  && (indices.Ok? ==> AddPolylistSpec(st, inputs, vcount, p, material, bulk, triangulate) == Ok(Finish(st, acc.value, indices.value, inputs, material))))
  {
  }

  /** The positions of a block's strides: 0, maxOffset+1, ... below |p|. */
  function BlockStarts(inputs: seq<InputData>, p: seq<int>): seq<int>
  {
    Starts(|p|, MaxOffset(inputs) + 1, 0)
  }

  /** The facts of the stride loop over a valid mesh, gathered once. */
  lemma BlockFacts(st: MeshState, inputs: seq<InputData>, bulk: BulkData, p: seq<int>) returns (acc: Acc)
    requires ValidState(st) && SourcesKnown(inputs, bulk)
    requires ConsolidateBlock(st, inputs, bulk, p).Ok?
    ensures ConsolidateBlock(st, inputs, bulk, p) == Ok(acc)
    ensures DenseMapping(acc.mapping, acc.freeIndex) && Extends(st.mapping, acc.mapping) && st.freeIndex <= acc.freeIndex
    ensures |acc.dense| == |BlockStarts(inputs, p)|
    ensures forall j :: 0 <= j < |acc.dense| ==> acc.dense[j] < acc.freeIndex
    ensures forall j :: 0 <= j < |acc.dense| ==> StrideMapsTo(inputs, p, BlockStarts(inputs, p)[j], acc.mapping, acc.dense[j])
  {
    var stride := MaxOffset(inputs) + 1;
    var acc0 := Acc(st.mapping, st.freeIndex, st.datas, []);
    acc := ConsolidateBlock(st, inputs, bulk, p).value;
    ConsolidateAssignsKeys(inputs, bulk, p, stride, 0, acc0, acc);
    forall j | 0 <= j < |acc.dense| ensures acc.dense[j] < acc.freeIndex {
      assert StrideMapsTo(inputs, p, Starts(|p|, stride, 0)[j], acc.mapping, acc.dense[j]);
    }
  }

  /** Appending indices below the new free index keeps the mesh valid. */
  lemma FinishValid(st: MeshState, acc: Acc, indices: seq<nat>, inputs: seq<InputData>, material: string)
    requires ValidState(st)
    requires DenseMapping(acc.mapping, acc.freeIndex) && st.freeIndex <= acc.freeIndex
    requires forall j :: 0 <= j < |indices| ==> indices[j] < acc.freeIndex
    ensures ValidState(Finish(st, acc, indices, inputs, material))
  {
    var st' := Finish(st, acc, indices, inputs, material);
    forall k | 0 <= k < |st'.index| ensures st'.index[k] < st'.freeIndex {
      if k >= |st.index| {
        assert st'.index[k] == indices[k - |st.index|];
      }
    }
  }

  lemma AddTrianglesPreservesValid(st: MeshState, inputs: seq<InputData>, p: seq<int>, material: string, bulk: BulkData)
    requires ValidState(st)
    requires AddTrianglesSpec(st, inputs, p, material, bulk).Ok?
    ensures ValidState(AddTrianglesSpec(st, inputs, p, material, bulk).value)
  {
    var acc := BlockFacts(st, inputs, bulk, p);
    FinishValid(st, acc, acc.dense, inputs, material);
  }

  lemma AddPolylistPreservesValid(st: MeshState, inputs: seq<InputData>, vcount: seq<int>, p: seq<int>, material: string, bulk: BulkData, triangulate: Triangulator)
    requires ValidState(st) && DrawsFromPolygon(triangulate)
    requires AddPolylistSpec(st, inputs, vcount, p, material, bulk, triangulate).Ok?
    ensures ValidState(AddPolylistSpec(st, inputs, vcount, p, material, bulk, triangulate).value)
  {
    var acc := BlockFacts(st, inputs, bulk, p);
    TriangulatePolygonsBelow(acc.dense, vcount, triangulate, acc.datas.vertex, [], acc.freeIndex);
    var indices := TriangulatePolygons(acc.dense, vcount, triangulate, acc.datas.vertex, []).value;
    FinishValid(st, acc, indices, inputs, material);
  }

  /** A block's stride loop succeeds only on a whole number of strides of
    * maxOffset+1: a cut-short p fails with IndexOutOfRange. */
  lemma BlockAligned(st: MeshState, inputs: seq<InputData>, bulk: BulkData, p: seq<int>, acc: Acc) returns (c: nat)
    requires SourcesKnown(inputs, bulk) && ConsolidateBlock(st, inputs, bulk, p) == Ok(acc)
    ensures |p| == c * (MaxOffset(inputs) + 1)
  {
    c := ConsolidateAligned(inputs, bulk, p, Acc(st.mapping, st.freeIndex, st.datas, []), acc);
  }

  /** A triangles block that is added holds a whole number of strides. */
  lemma AddTrianglesAligned(st: MeshState, inputs: seq<InputData>, p: seq<int>, material: string, bulk: BulkData) returns (c: nat)
    requires AddTrianglesSpec(st, inputs, p, material, bulk).Ok?
    ensures |p| == c * (MaxOffset(inputs) + 1)
  {
    var acc := TrianglesFacts(st, inputs, p, material, bulk);
    c := BlockAligned(st, inputs, bulk, p, acc);
  }

  /** A polylist block that is added holds a whole number of strides. */
  lemma AddPolylistAligned(st: MeshState, inputs: seq<InputData>, vcount: seq<int>, p: seq<int>, material: string, bulk: BulkData, triangulate: Triangulator) returns (c: nat)
    requires AddPolylistSpec(st, inputs, vcount, p, material, bulk, triangulate).Ok?
    ensures |p| == c * (MaxOffset(inputs) + 1)
  {
    var acc, indices := PolylistFacts(st, inputs, vcount, p, material, bulk, triangulate);
    c := BlockAligned(st, inputs, bulk, p, acc);
  }

  /** The span a block records: it starts at the old end of m_Index and
    * covers exactly the appended indices; spans of other materials are
    * kept, and an earlier span of the same material is replaced. */
  lemma AddTrianglesSpan(st: MeshState, inputs: seq<InputData>, p: seq<int>, material: string, bulk: BulkData)
    requires AddTrianglesSpec(st, inputs, p, material, bulk).Ok?
    ensures var st' := AddTrianglesSpec(st, inputs, p, material, bulk).value;
            && st'.index[..|st.index|] == st.index
            && st'.materials[material] == Span(|st.index|, |st'.index| - |st.index|)
            && (forall m :: m != material ==> (m in st'.materials <==> m in st.materials))
            && (forall m :: m != material && m in st.materials ==> st'.materials[m] == st.materials[m])
  {
    AddTrianglesOutcome(st, inputs, p, material, bulk);
    var acc := ConsolidateBlock(st, inputs, bulk, p).value;
    var st' := Finish(st, acc, acc.dense, inputs, material);
    assert AddTrianglesSpec(st, inputs, p, material, bulk).value == st';
    assert st'.index[..|st.index|] == st.index;
    assert st'.materials == st.materials[material := Span(|st.index|, |acc.dense|)];
  }

  /** Each appended index is the dense index of its stride's key. */
  lemma AddTrianglesIndices(st: MeshState, inputs: seq<InputData>, p: seq<int>, material: string, bulk: BulkData)
    requires ValidState(st)
    requires AddTrianglesSpec(st, inputs, p, material, bulk).Ok?
    ensures var st' := AddTrianglesSpec(st, inputs, p, material, bulk).value;
            && |st.index| <= |st'.index|
            && var block := st'.index[|st.index|..];
               && |block| == |BlockStarts(inputs, p)|
               && forall j :: 0 <= j < |block| ==> StrideMapsTo(inputs, p, BlockStarts(inputs, p)[j], st'.mapping, block[j])
  {
    var acc := BlockFacts(st, inputs, bulk, p);
    var st' := AddTrianglesSpec(st, inputs, p, material, bulk).value;
    assert st'.index == st.index + acc.dense;
  }

  /** A later block under the same material takes the span over: the
    * material no longer refers to the earlier block's indices. */
  lemma LaterBlockReplacesSpan(st: MeshState, inputs1: seq<InputData>, p1: seq<int>, inputs2: seq<InputData>, p2: seq<int>, material: string, bulk: BulkData)
    requires ValidState(st)
    requires AddTrianglesSpec(st, inputs1, p1, material, bulk).Ok?
    requires AddTrianglesSpec(AddTrianglesSpec(st, inputs1, p1, material, bulk).value, inputs2, p2, material, bulk).Ok?
    ensures var st1 := AddTrianglesSpec(st, inputs1, p1, material, bulk).value;
            var st2 := AddTrianglesSpec(st1, inputs2, p2, material, bulk).value;
            st2.materials[material] == Span(|st1.index|, |st2.index| - |st1.index|)
            && |st1.index| == |st.index| + |BlockStarts(inputs1, p1)|
  {
    var st1 := AddTrianglesSpec(st, inputs1, p1, material, bulk).value;
    AddTrianglesPreservesValid(st, inputs1, p1, material, bulk);
    AddTrianglesIndices(st, inputs1, p1, material, bulk);
    AddTrianglesSpan(st1, inputs2, p2, material, bulk);
  }

  /** Adding the same triangles block again creates no vertex and copies no
    * data: the mapping, the free index and the buffers stay as they are,
    * and the same dense indices are appended once more. */
  lemma AddTrianglesIdempotent(st: MeshState, inputs: seq<InputData>, p: seq<int>, material: string, bulk: BulkData)
    requires ValidState(st)
    requires AddTrianglesSpec(st, inputs, p, material, bulk).Ok?
    ensures var st1 := AddTrianglesSpec(st, inputs, p, material, bulk).value;
            AddTrianglesSpec(st1, inputs, p, material, bulk).Ok?
            && var st2 := AddTrianglesSpec(st1, inputs, p, material, bulk).value;
               && st2.mapping == st1.mapping && st2.freeIndex == st1.freeIndex && st2.datas == st1.datas
               && st2.index == st1.index + st1.index[|st.index|..]
  {
    var acc := BlockFacts(st, inputs, bulk, p);
    var stride := MaxOffset(inputs) + 1;
    var st1 := AddTrianglesSpec(st, inputs, p, material, bulk).value;
    ConsolidateIdempotent(inputs, bulk, p, stride, Acc(st.mapping, st.freeIndex, st.datas, []), acc);
    ConsolidateAllKnown(inputs, bulk, p, stride, 0, Acc(st1.mapping, st1.freeIndex, st1.datas, []), acc.dense);
    assert [] + acc.dense == acc.dense;
    assert st1.index[|st.index|..] == acc.dense;
    if !HasNormals(inputs) {
      PadNormalsIdempotent(acc.datas);
    }
  }

  /** The stride loop's side of the copy property: for a semantic bound
    * once, whose buffer held Stride(s) floats per vertex, it still does,
    * and each stride that created a vertex copied its raw index's chunk. */
  lemma BlockCopies(st: MeshState, inputs: seq<InputData>, bulk: BulkData, p: seq<int>, s: Semantic, jb: int) returns (acc: Acc)
    requires ValidState(st) && SourcesKnown(inputs, bulk)
    requires ConsolidateBlock(st, inputs, bulk, p).Ok?
    requires BoundOnceAt(inputs, s, jb)
    requires |st.datas.Get(s)| == Stride(s) * st.freeIndex
    ensures ConsolidateBlock(st, inputs, bulk, p) == Ok(acc)
    ensures |acc.datas.Get(s)| == Stride(s) * acc.freeIndex
    ensures BlockCopied(inputs, p, BlockStarts(inputs, p), acc.dense, st.freeIndex, acc.datas.Get(s), s, jb, bulk[inputs[jb].source])
  {
    acc := ConsolidateBlock(st, inputs, bulk, p).value;
    ConsolidateCopiesStrides(inputs, bulk, p, MaxOffset(inputs) + 1, Acc(st.mapping, st.freeIndex, st.datas, []), acc, s, jb);
  }

  /** The attribute data of a block for a semantic bound once, whose buffer
    * held Stride(s) floats per vertex: it still does, and each vertex the
    * block created owns, at index*stride, the floats its raw index owns in
    * the bound source, at raw*stride. */
  lemma AddTrianglesCopiesAttributes(st: MeshState, inputs: seq<InputData>, p: seq<int>, material: string, bulk: BulkData, s: Semantic, jb: int)
    requires ValidState(st)
    requires AddTrianglesSpec(st, inputs, p, material, bulk).Ok?
    requires BoundOnceAt(inputs, s, jb)
    requires |st.datas.Get(s)| == Stride(s) * st.freeIndex
    ensures var st' := AddTrianglesSpec(st, inputs, p, material, bulk).value;
            && |st'.datas.Get(s)| == Stride(s) * st'.freeIndex
            && |st.index| <= |st'.index|
            && BlockCopied(inputs, p, BlockStarts(inputs, p), st'.index[|st.index|..], st.freeIndex, st'.datas.Get(s), s, jb, bulk[inputs[jb].source])
  {
    var acc := BlockCopies(st, inputs, bulk, p, s, jb);
    AddTrianglesOutcome(st, inputs, p, material, bulk);
    var st' := Finish(st, acc, acc.dense, inputs, material);
    assert AddTrianglesSpec(st, inputs, p, material, bulk).value == st';
    if s == Normal {
      assert HasNormals(inputs);
    }
    assert st'.datas.Get(s) == acc.datas.Get(s);
    assert st'.index[|st.index|..] == acc.dense;
  }



  /** A block without a NORMAL binding leaves the existing normals and
    * pads them with zeros up to the vertex buffer's length. */
  lemma AddTrianglesPadsNormals(st: MeshState, inputs: seq<InputData>, p: seq<int>, material: string, bulk: BulkData)
    requires ValidState(st) && !HasNormals(inputs)
    requires AddTrianglesSpec(st, inputs, p, material, bulk).Ok?
    ensures var st' := AddTrianglesSpec(st, inputs, p, material, bulk).value;
            && |st'.datas.normal| == (if |st.datas.normal| < |st'.datas.vertex| then |st'.datas.vertex| else |st.datas.normal|)
            && st'.datas.normal[..|st.datas.normal|] == st.datas.normal
            && forall k :: |st.datas.normal| <= k < |st'.datas.normal| ==> st'.datas.normal[k] == 0.0
  {
    var acc := TrianglesFacts(st, inputs, p, material, bulk);
    ConsolidateKeepsBuffers(inputs, bulk, p, MaxOffset(inputs) + 1, 0, Acc(st.mapping, st.freeIndex, st.datas, []), acc);
    assert Unbound(inputs, Normal);
    FinishPadsNormals(st, acc, acc.dense, inputs, material);
  }

  /** A triangles block that succeeds, taken apart: its sources are bulk
    * arrays, its stride loop gives acc, and the mesh is finished with acc's
    * dense indices. */
  lemma TrianglesFacts(st: MeshState, inputs: seq<InputData>, p: seq<int>, material: string, bulk: BulkData) returns (acc: Acc)
    requires AddTrianglesSpec(st, inputs, p, material, bulk).Ok?
    ensures SourcesKnown(inputs, bulk)
    ensures ConsolidateBlock(st, inputs, bulk, p) == Ok(acc)
    ensures AddTrianglesSpec(st, inputs, p, material, bulk) == Ok(Finish(st, acc, acc.dense, inputs, material))
  {
    AddTrianglesOutcome(st, inputs, p, material, bulk);
    acc := ConsolidateBlock(st, inputs, bulk, p).value;
  }

  /** Finishing a block without a NORMAL binding on a buffer whose normals
    * the stride loop left alone pads them to the vertex buffer's length. */
  lemma FinishPadsNormals(st: MeshState, acc: Acc, indices: seq<nat>, inputs: seq<InputData>, material: string)
    requires !HasNormals(inputs) && acc.datas.normal == st.datas.normal
    ensures var st' := Finish(st, acc, indices, inputs, material);
            && |st'.datas.normal| == (if |st.datas.normal| < |st'.datas.vertex| then |st'.datas.vertex| else |st.datas.normal|)
            && st'.datas.normal[..|st.datas.normal|] == st.datas.normal
            && forall k :: |st.datas.normal| <= k < |st'.datas.normal| ==> st'.datas.normal[k] == 0.0
  {
  }

  /** A polylist block that succeeds, taken apart: its sources are bulk
    * arrays, its stride loop gives acc, its polygon loop gives indices, and
    * the mesh is finished with them. */
  lemma PolylistFacts(st: MeshState, inputs: seq<InputData>, vcount: seq<int>, p: seq<int>, material: string, bulk: BulkData, triangulate: Triangulator)
      returns (acc: Acc, indices: seq<nat>)
    requires AddPolylistSpec(st, inputs, vcount, p, material, bulk, triangulate).Ok?
    ensures SourcesKnown(inputs, bulk)
    ensures ConsolidateBlock(st, inputs, bulk, p) == Ok(acc)
    ensures TriangulatePolygons(acc.dense, vcount, triangulate, acc.datas.vertex, []) == Ok(indices)
    ensures AddPolylistSpec(st, inputs, vcount, p, material, bulk, triangulate) == Ok(Finish(st, acc, indices, inputs, material))
  {
    AddPolylistOutcome(st, inputs, vcount, p, material, bulk, triangulate);
    acc := ConsolidateBlock(st, inputs, bulk, p).value;
    indices := TriangulatePolygons(acc.dense, vcount, triangulate, acc.datas.vertex, []).value;
  }

  /** The span a polylist block records: m_Index grows by the triangulated
    * indices of the block's polygons, the span starts at the old end of
    * m_Index and covers exactly them; spans of other materials are kept. */
  lemma AddPolylistSpan(st: MeshState, inputs: seq<InputData>, vcount: seq<int>, p: seq<int>, material: string, bulk: BulkData, triangulate: Triangulator)
    requires AddPolylistSpec(st, inputs, vcount, p, material, bulk, triangulate).Ok?
    ensures SourcesKnown(inputs, bulk) && ConsolidateBlock(st, inputs, bulk, p).Ok?
    ensures var acc := ConsolidateBlock(st, inputs, bulk, p).value;
            TriangulatePolygons(acc.dense, vcount, triangulate, acc.datas.vertex, []).Ok?
    ensures var st' := AddPolylistSpec(st, inputs, vcount, p, material, bulk, triangulate).value;
            var acc := ConsolidateBlock(st, inputs, bulk, p).value;
            && st'.index == st.index + TriangulatePolygons(acc.dense, vcount, triangulate, acc.datas.vertex, []).value
            && st'.materials[material] == Span(|st.index|, |st'.index| - |st.index|)
            && (forall m :: m != material ==> (m in st'.materials <==> m in st.materials))
            && (forall m :: m != material && m in st.materials ==> st'.materials[m] == st.materials[m])
  {
    var acc, indices := PolylistFacts(st, inputs, vcount, p, material, bulk, triangulate);
    var st' := Finish(st, acc, indices, inputs, material);
    assert st'.materials == st.materials[material := Span(|st.index|, |indices|)];
  }

  /** A polylist block without a NORMAL binding leaves the existing normals
    * and pads them with zeros up to the vertex buffer's length. */
  lemma AddPolylistPadsNormals(st: MeshState, inputs: seq<InputData>, vcount: seq<int>, p: seq<int>, material: string, bulk: BulkData, triangulate: Triangulator)
    requires ValidState(st) && !HasNormals(inputs)
    requires AddPolylistSpec(st, inputs, vcount, p, material, bulk, triangulate).Ok?
    ensures var st' := AddPolylistSpec(st, inputs, vcount, p, material, bulk, triangulate).value;
            && |st'.datas.normal| == (if |st.datas.normal| < |st'.datas.vertex| then |st'.datas.vertex| else |st.datas.normal|)
            && st'.datas.normal[..|st.datas.normal|] == st.datas.normal
            && forall k :: |st.datas.normal| <= k < |st'.datas.normal| ==> st'.datas.normal[k] == 0.0
  {
    var acc, indices := PolylistFacts(st, inputs, vcount, p, material, bulk, triangulate);
    ConsolidateKeepsBuffers(inputs, bulk, p, MaxOffset(inputs) + 1, 0, Acc(st.mapping, st.freeIndex, st.datas, []), acc);
    assert Unbound(inputs, Normal);
    FinishPadsNormals(st, acc, indices, inputs, material);
  }

  /** The attribute data of a polylist block for a semantic bound once,
    * whose buffer held Stride(s) floats per vertex: it still does, each
    * vertex the stride loop created owns, at index*stride, the floats its
    * raw index owns in the bound source, and with a triangulator that draws
    * from its polygon every appended corner is one of the stride loop's
    * indices. */
  lemma AddPolylistCopiesAttributes(st: MeshState, inputs: seq<InputData>, vcount: seq<int>, p: seq<int>, material: string, bulk: BulkData, triangulate: Triangulator, s: Semantic, jb: int)
    requires ValidState(st)
    requires AddPolylistSpec(st, inputs, vcount, p, material, bulk, triangulate).Ok?
    requires BoundOnceAt(inputs, s, jb)
    requires |st.datas.Get(s)| == Stride(s) * st.freeIndex
    ensures SourcesKnown(inputs, bulk) && ConsolidateBlock(st, inputs, bulk, p).Ok?
    ensures var st' := AddPolylistSpec(st, inputs, vcount, p, material, bulk, triangulate).value;
            var dense := ConsolidateBlock(st, inputs, bulk, p).value.dense;
            && |st'.datas.Get(s)| == Stride(s) * st'.freeIndex
            && BlockCopied(inputs, p, BlockStarts(inputs, p), dense, st.freeIndex, st'.datas.Get(s), s, jb, bulk[inputs[jb].source])
            && |st.index| <= |st'.index|
            && (DrawsFromPolygon(triangulate) ==> forall k :: |st.index| <= k < |st'.index| ==> st'.index[k] in dense)
  {
    var acc, indices := PolylistFacts(st, inputs, vcount, p, material, bulk, triangulate);
    var acc' := BlockCopies(st, inputs, bulk, p, s, jb);
    var st' := Finish(st, acc, indices, inputs, material);
    if s == Normal {
      assert HasNormals(inputs);
    }
    assert st'.datas.Get(s) == acc.datas.Get(s);
    if DrawsFromPolygon(triangulate) {
      TriangulatePolygonsDrawsFromPending(acc.dense, vcount, triangulate, acc.datas.vertex, []);
      AppendedFrom(st.index, indices, acc.dense);
    }
  }

  /** Indices all drawn from a pool stay in it once appended. */
  lemma AppendedFrom(index: seq<nat>, indices: seq<nat>, pool: seq<nat>)
    requires forall i :: 0 <= i < |indices| ==> indices[i] in pool
    ensures forall k :: |index| <= k < |index + indices| ==> (index + indices)[k] in pool
  {
    forall k | |index| <= k < |index + indices| ensures (index + indices)[k] in pool {
      assert (index + indices)[k] == indices[k - |index|];
    }
  }

  /** The triangle list createMesh builds for a span: m_Index[offset, offset+size). */
  function SpanIndices(index: seq<nat>, span: Span): (r: seq<nat>)
    requires 0 <= span.offset && 0 <= span.size && span.offset + span.size <= |index|
    ensures |r| == span.size
    ensures forall k :: 0 <= k < span.size ==> r[k] == index[span.offset + k]
  {
    index[span.offset .. span.offset + span.size]
  }

  /** One addTriangles call of createMesh: a material (None for the null
    * material) and its triangle corner indices. */
  datatype TriangleGroup = TriangleGroup(material: Option<Material>, triangles: seq<nat>)

  /** What createMesh hands to the mesh: the vertex and normal buffers, the
    * texel buffer when it is not empty, and one group per material span. */
  datatype MeshData = MeshData(vertices: seq<Float>, normals: seq<Float>, texels: Option<seq<Float>>, groups: map<string, TriangleGroup>)

  ghost function MeshOf(st: MeshState, materialLib: MaterialLib, effects: EffectTable): MeshData
    requires ValidState(st)
  {
    MeshData(st.datas.vertex, st.datas.normal,
             if st.datas.texcoord == [] then None else Some(st.datas.texcoord),
             GroupsOf(st.index, st.materials, materialLib, effects))
  }

  /** One triangle group per material, holding its span of the index list
    * and the material the two-hop lookup finds. */
  ghost function GroupsOf(index: seq<nat>, materials: map<string, Span>, materialLib: MaterialLib, effects: EffectTable): map<string, TriangleGroup>
    requires SpansInside(index, materials)
  {
    map m | m in materials :: TriangleGroup(MaterialOf(materialLib, effects, m), SpanIndices(index, materials[m]))
  }

  /** Right after a triangles block, createMesh gives its material exactly
    * the indices the block appended, with the material the two-hop lookup
    * finds. */
  lemma CreateMeshAfterTriangles(st: MeshState, inputs: seq<InputData>, p: seq<int>, material: string, bulk: BulkData, materialLib: MaterialLib, effects: EffectTable)
    requires ValidState(st)
    requires AddTrianglesSpec(st, inputs, p, material, bulk).Ok?
    ensures var st' := AddTrianglesSpec(st, inputs, p, material, bulk).value;
            ValidState(st')
            && material in MeshOf(st', materialLib, effects).groups
            && MeshOf(st', materialLib, effects).groups[material]
               == TriangleGroup(MaterialOf(materialLib, effects, material), st'.index[|st.index|..])
  {
    AddTrianglesPreservesValid(st, inputs, p, material, bulk);
    AddTrianglesSpan(st, inputs, p, material, bulk);
  }

  /** Right after a polylist block, createMesh gives its material exactly
    * the triangulated indices the block appended, with the material the
    * two-hop lookup finds. */
  lemma CreateMeshAfterPolylist(st: MeshState, inputs: seq<InputData>, vcount: seq<int>, p: seq<int>, material: string, bulk: BulkData, triangulate: Triangulator, materialLib: MaterialLib, effects: EffectTable)
    requires ValidState(st) && DrawsFromPolygon(triangulate)
    requires AddPolylistSpec(st, inputs, vcount, p, material, bulk, triangulate).Ok?
    ensures var st' := AddPolylistSpec(st, inputs, vcount, p, material, bulk, triangulate).value;
            ValidState(st')
            && material in MeshOf(st', materialLib, effects).groups
            && MeshOf(st', materialLib, effects).groups[material]
               == TriangleGroup(MaterialOf(materialLib, effects, material), st'.index[|st.index|..])
  {
    AddPolylistPreservesValid(st, inputs, vcount, p, material, bulk, triangulate);
    AddPolylistSpan(st, inputs, vcount, p, material, bulk, triangulate);
  }

  /** Over a valid mesh whose vertex buffer holds three floats per vertex,
    * every corner createMesh hands over names a complete vertex. */
  lemma CreateMeshCornersInRange(st: MeshState, materialLib: MaterialLib, effects: EffectTable, m: string, k: int)
    requires ValidState(st) && |st.datas.vertex| == 3 * st.freeIndex
    requires m in st.materials && 0 <= k < st.materials[m].size
    ensures m in MeshOf(st, materialLib, effects).groups
    ensures 3 * MeshOf(st, materialLib, effects).groups[m].triangles[k] + 3 <= |MeshOf(st, materialLib, effects).vertices|
  {
    var span := st.materials[m];
    assert MeshOf(st, materialLib, effects).groups[m].triangles[k] == st.index[span.offset + k];
  }
}
