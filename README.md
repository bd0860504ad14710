# COLLADA geometry and material consolidation, in Dafny

This project models the core of `GLC_ColladaToWorld`, the COLLADA importer in
`io/glc_colladatoworld.cpp`. As the importer streams over a document, it fills
id-keyed tables:

- raw float arrays in `m_BulkDataHash`;
- `<vertices>` aliases in `m_VerticesSourceHash`;
- images, materials and effects;
- surfaces and samplers, which form the texture chain.

For each `<triangles>` or `<polylist>` block, the importer consolidates vertices
into the current `MeshInfo`:

- It walks the raw index list `<p>` in strides of `maxOffset + 1`.
- It builds one composite key (`ColladaVertice`) per stride, with one raw index
  per semantic.
- It deduplicates the key through `m_Mapping`. A new key gets `m_FreeIndex`, and
  its 3 floats (2 for TEXCOORD) are appended to each bound buffer of `m_Datas`.
- It appends the dense indices to `m_Index`. A polylist triangulates its
  polygons first.
- It records the block's `(offset, size)` span under its material in
  `m_Materials`.

`createMesh` then hands over the buffers, and one triangle list per material,
cut out of `m_Index`. The material comes from a two-hop lookup.
`linkTexturesToMaterials` resolves a texture sid through three tables to an
image file.

Modules, in dependency order:

- `wrappers.dfy`: `Option`, `Result` and `Outcome`, plus `QHash::value` with a
  default.
- `xml_input.dfy`: the reader's boundary. A start element is a `Tag`: its
  attributes as a map, plus its trimmed text. This file also holds
  `QString::split`, `QString::remove` and the integer list reader.
- `bindings.dfy`: `<input>` bindings and the scans of `loadTriangles` and
  `loadPolylist`, as functions.
- `consolidation.dfy`: the vertex key, the buffers, and the stride loop stated one
  step at a time (`Step`, `Consolidate`), with its dedup, copy and first-seen
  lemmas.
- `materials.dfy`: `readXmlColor`, the colour channels, the material and texture
  lookups.
- `mesh_spec.dfy`: the value of a MeshInfo (`MeshState`). It states what a block
  does to it (`AddTrianglesSpec`, `AddPolylistSpec`) and what `createMesh` reads
  from it (`MeshOf`).
- `tables.dfy`: the table loaders as functions (`loadVertexBulkData`,
  `loadVertices`, `loadImage`, `loadMaterial`, `loadSurface`, `loadSampler2D`,
  `loadEffect`).
- `mesh_info.dfy`: `class MeshInfo`, whose fields the add methods change in
  place, loop by loop. Each method is proved against the matching function of
  `mesh_spec.dfy`.
- `importer.dfy`: `class ColladaToWorld`, holding the tables and the current
  `MeshInfo`. Each loader is a method proved against its function in
  `tables.dfy` or `bindings.dfy`.

Functions left outside the table are reference definitions: `Step`,
`Consolidate`, `AppendAttributes`, `KeyOf`, `ScanTriangles`, `ScanPolylist`,
`TriangulatePolygons`, `Polygons`, `TriangulatedPolygons`, `MeshOf`, `TextureLinks`, `LoadVertexBulkDataSpec` and
the other `...Spec` functions. The methods are proved equal to them, and the
lemmas state what they mean.

External inputs are parameters:

- The number conversions `QString::toInt` / `toFloat` are a `Numerals` value:
  partial functions, `None` when `ok` is false.
- `glc::triangulatePolygon` is a `Triangulator` function value.
- The document directory, `QDir::separator()` and `QFileInfo::exists` are passed
  to `LinkTexturesToMaterials`.

## Model

| member | source | states |
|---|---|---|
| XmlInput.ReadAttribute | io/glc_colladatoworld.cpp:153-169 | fails exactly when the attribute is mandatory and absent, with the missing-attribute error naming it |
| XmlInput.Split | io/glc_colladatoworld.cpp:648 | split keeps empty parts: one part per separator plus one, and no part contains the separator |
| XmlInput.JoinSplit | io/glc_colladatoworld.cpp:648 | splitting loses nothing: joining the parts gives the text back |
| XmlInput.SplitJoin | io/glc_colladatoworld.cpp:518-519 | separator-free tokens joined with the separator split back into the same tokens |
| XmlInput.RemoveAll | io/glc_colladatoworld.cpp:677 | `remove('#')` leaves no '#' and is shorter by exactly the number of '#' |
| XmlInput.RemoveAllAppend | io/glc_colladatoworld.cpp:718 | removal distributes over concatenation |
| XmlInput.RemoveAllAbsent | io/glc_colladatoworld.cpp:718 | a text without '#' is unchanged |
| XmlInput.ParseInts | io/glc_colladatoworld.cpp:743-750 | Ok iff every token converts; then one value per token, in order; otherwise the error names a token of the list |
| XmlInput.ParseIntsFirstFailure | io/glc_colladatoworld.cpp:746-750 | the error names the first token that does not convert |
| XmlInput.ReadIntList | io/glc_colladatoworld.cpp:732-737 | the token-by-token loop with its early throw computes ParseInts |
| Bindings.SemanticOf | io/glc_colladatoworld.cpp:712-716 | only VERTEX, NORMAL and TEXCOORD are accepted (iff); any other name is the unsupported-semantic error |
| Bindings.ResolveSourceSigil | io/glc_colladatoworld.cpp:718-724 | "#id" resolves like "id" |
| Bindings.ResolveSourceOneHop | io/glc_colladatoworld.cpp:721-724 | an alias resolves to its target once, with no chasing of further aliases |
| Bindings.ParseInput | io/glc_colladatoworld.cpp:706-726 | attributes are read offset, semantic, source, and the first missing or unsupported one is the error; Ok iff all three are present and the semantic is supported; offset via toInt, source resolved |
| Bindings.TrianglesStepFillsIndices | io/glc_colladatoworld.cpp:964-978 | a `<p>` that is read always leaves a non-empty index list and keeps the inputs |
| Bindings.TrianglesIgnoreAfterIndices | io/glc_colladatoworld.cpp:943-964 | once the index list is read, every later element is ignored |
| Bindings.TrianglesSuffixIgnored | io/glc_colladatoworld.cpp:943-964 | elements after the first `<p>` (a later `<input>`, a second `<p>`) do not change the block |
| Bindings.PolylistVcountStep | io/glc_colladatoworld.cpp:727-737 | a `<vcount>` fails with the vcount mismatch iff its token count differs from `count`; otherwise it fails iff a token does not convert, with that token, and else appends exactly `count` values, the tokens' conversions in order |
| Bindings.PolylistIndicesStep | io/glc_colladatoworld.cpp:739-750 | the polylist's `<p>` fails iff a token does not convert, with the malformed-number error naming it; otherwise its conversions, in order, are the index list |
| Bindings.ScanPolylistFailsAt | io/glc_colladatoworld.cpp:701-754 | the first element that fails decides the block: the scan fails with its error whatever follows |
| Bindings.ScanPolylistWholeVcounts | io/glc_colladatoworld.cpp:727-737 | the vcount list is a whole number of `count`-long lists, and empty unless count ≥ 1 |
| Bindings.ScanPolylistOrdered | io/glc_colladatoworld.cpp:706-754 | a vcount list only after some input and under a count ≥ 1; p only after vcount; the inputs frozen once vcount is read; count and material kept; an earlier vcount list kept as a prefix and an earlier index list kept |
| Consolidation.VertexKey.With | io/glc_colladatoworld.cpp:804 | setting one semantic's slot changes that slot only |
| Consolidation.Buffers.Append | io/glc_colladatoworld.cpp:829-836 | appending to one semantic's buffer changes that buffer only |
| Consolidation.FirstUnknownSource | io/glc_colladatoworld.cpp:774-782 | None iff every bound source is a bulk array; otherwise the source of the first binding whose source is not a bulk array |
| Consolidation.MaxOffset | io/glc_colladatoworld.cpp:784-791 | at least 0, at least every offset, and equal to 0 or to some offset |
| Consolidation.KeyOfLastBinding | io/glc_colladatoworld.cpp:802-805 | a key slot holds the raw index of the last binding of that semantic, at i + offset |
| Consolidation.KeyOfUnbound | io/glc_colladatoworld.cpp:801 | an unbound semantic's slot keeps its default 0 |
| Consolidation.KeyOfInjective | io/glc_colladatoworld.cpp:802-807 | for distinct semantics, two strides have the same key iff their raw indices agree binding by binding |
| Consolidation.WidthOfBinding | io/glc_colladatoworld.cpp:827-833 | a semantic bound once receives Stride floats per new vertex (3, or 2 for TEXCOORD), an unbound one none |
| Consolidation.AppendAttributesGrowth | io/glc_colladatoworld.cpp:820-837 | each buffer grows by exactly its width and keeps its old contents as a prefix |
| Consolidation.AppendAttributesCopies | io/glc_colladatoworld.cpp:829-836 | a semantic bound once receives its source's floats at raw*stride .. raw*stride+stride; an unbound one is unchanged |
| Consolidation.StartsCount | io/glc_colladatoworld.cpp:798 | the stride loop visits ⌈(n-i)/stride⌉ positions |
| Consolidation.StartsBounds | io/glc_colladatoworld.cpp:798 | every visited position is in [i, n) |
| Consolidation.DenseInsert | io/glc_colladatoworld.cpp:815 | inserting a new key under the free index, then incrementing it, keeps the mapping a bijection onto [0, free) |
| Consolidation.StepAssigns | io/glc_colladatoworld.cpp:807-818 | a known key reuses its dense index and leaves the mapping, free index and buffers alone; a new key gets the free index, which grows by exactly 1 |
| Consolidation.ConsolidateAssignsKeys | io/glc_colladatoworld.cpp:798-839 | the mapping stays dense and only grows; one index per visited stride, each the dense index of that stride's key |
| Consolidation.ConsolidateKeepsBuffers | io/glc_colladatoworld.cpp:820-837 | buffers only grow at the end, and the buffer of an unbound semantic is unchanged |
| Consolidation.ChunkOfPrefix | io/glc_colladatoworld.cpp:829-836 | appending data leaves the floats of earlier vertices in place |
| Consolidation.NewKeyCopies | io/glc_colladatoworld.cpp:815-836 | a new vertex at the free index owns, at index*stride, the floats its raw index owns in the source |
| Consolidation.StepCopies | io/glc_colladatoworld.cpp:807-838 | one stride keeps the buffer at Stride floats per vertex, each vertex copied from raw*stride of its source |
| Consolidation.ConsolidateCopies | io/glc_colladatoworld.cpp:798-839 | the whole block keeps the buffer at Stride floats per vertex, each vertex copied from raw*stride of its source |
| Consolidation.NextFresh | io/glc_colladatoworld.cpp:815 | the next fresh index is above every index handed out and not below the base |
| Consolidation.StepFirstSeen | io/glc_colladatoworld.cpp:807-818 | one stride keeps the dense indices in first-seen order: each is reused or the next fresh one |
| Consolidation.ConsolidateFirstSeen | io/glc_colladatoworld.cpp:798-839 | dense indices are handed out in first-seen order over the whole block |
| Consolidation.ConsolidateAllKnown | io/glc_colladatoworld.cpp:807-811 | when every key is already mapped, the loop appends exactly their indices and changes nothing else |
| Consolidation.ConsolidateIdempotent | io/glc_colladatoworld.cpp:798-839 | re-running the block over the resulting mapping succeeds with the same mapping, free index, buffers and indices |
| MeshSpec.Zeros | io/glc_colladatoworld.cpp:881-884 | n zeros |
| MeshSpec.PadNormals | io/glc_colladatoworld.cpp:876-884 | the normal buffer is filled with zeros up to the vertex buffer's length; a longer one is untouched; the other buffers are unchanged |
| MeshSpec.PadNormalsIdempotent | io/glc_colladatoworld.cpp:876-884 | padding twice is padding once |
| MeshSpec.AddTrianglesSpec | io/glc_colladatoworld.cpp:998-1007 | an unknown source is reported (the first one) before anything else happens |
| MeshSpec.AddPolylistSpec | io/glc_colladatoworld.cpp:773-782 | an unknown source is reported (the first one) before anything else happens |
| MeshSpec.TriangulatePolygonsConsumesInOrder | io/glc_colladatoworld.cpp:846-858 | for any triangulator: fails iff the polygons need more indices than are pending; otherwise appends the triangulations of polygon 0, 1, … in order, polygon k being the vcount[k] pending indices that follow the runs of the polygons before it |
| MeshSpec.PolygonsTilePending | io/glc_colladatoworld.cpp:846-852 | the polygons' runs, one after the other, are exactly the first ΣPolygonSize pending indices: none skipped, none taken twice |
| MeshSpec.TriangulatePolygonsDrawsFromPending | io/glc_colladatoworld.cpp:846-858 | a triangulator drawing from its polygon emits only pending indices (or ones already in the output) |
| MeshSpec.TriangulatePolygonsBelow | io/glc_colladatoworld.cpp:846-858 | a triangulator drawing from its polygon emits only pending indices |
| MeshSpec.BlockFacts | io/glc_colladatoworld.cpp:1023-1064 | a block's dense indices are one per stride, each below the new free index and the dense index of its stride's key |
| MeshSpec.FinishValid | io/glc_colladatoworld.cpp:1066-1082 | appending indices below the free index and recording their span keeps the MeshInfo valid |
| MeshSpec.AddTrianglesPreservesValid | io/glc_colladatoworld.cpp:988-1084 | a dense mapping, every index below m_FreeIndex and every span inside m_Index are preserved |
| MeshSpec.AddPolylistPreservesValid | io/glc_colladatoworld.cpp:762-871 | the same invariant, for a triangulator that emits only corners of its polygon |
| MeshSpec.AddTrianglesSpan | io/glc_colladatoworld.cpp:1066-1082 | the old index list is a prefix; the span is (old size, number appended); other materials keep their spans and an earlier span of the same material is replaced |
| Consolidation.ConsolidateAligned | io/glc_colladatoworld.cpp:1009-1028 | a block's stride loop succeeds only when \|p\| is a whole number of strides of maxOffset+1; a partial last stride reads past the end and fails |
| Consolidation.ReadsWhole | io/glc_colladatoworld.cpp:798-805 | when every stride reads a binding at the stride's last offset inside p, \|p\| is a whole number of strides |
| Consolidation.ConsolidateReadsAll | io/glc_colladatoworld.cpp:798-805 | a succeeding stride loop read every binding of every stride inside p |
| Consolidation.StartsWhole | io/glc_colladatoworld.cpp:798 | strides that each fit inside n cover it exactly: n = i + (number of strides)·stride |
| MeshSpec.BlockAligned | io/glc_colladatoworld.cpp:1013-1028 | a block consolidated from the mesh's state succeeds only when \|p\| is a whole number of strides of maxOffset+1 |
| MeshSpec.AddTrianglesAligned | io/glc_colladatoworld.cpp:1009-1028 | a triangles block that is added has \|p\| a whole number of strides of maxOffset+1 |
| MeshSpec.AddPolylistAligned | io/glc_colladatoworld.cpp:798-805 | a polylist block that is added has \|p\| a whole number of strides of maxOffset+1 |
| Consolidation.ConsolidateCount | io/glc_colladatoworld.cpp:1023-1042 | a block's stride loop emits one index per stride of maxOffset+1 entries of p, i.e. ⌈\|p\|/(maxOffset+1)⌉ of them |
| MeshSpec.AddTrianglesIndices | io/glc_colladatoworld.cpp:1023-1070 | each appended index is the dense index of its stride's key |
| MeshSpec.LaterBlockReplacesSpan | io/glc_colladatoworld.cpp:1082 | a later block under the same material replaces the earlier span |
| MeshSpec.AddTrianglesIdempotent | io/glc_colladatoworld.cpp:1032-1036 | adding the same block again creates no vertex, copies no data and appends the same indices |
| MeshSpec.AddTrianglesCopiesAttributes | io/glc_colladatoworld.cpp:1044-1062 | for a semantic bound once, each vertex of the block owns the floats its raw index owns in the source |
| MeshSpec.AddTrianglesPadsNormals | io/glc_colladatoworld.cpp:1072-1076 | without a NORMAL binding, the old normals are kept and zero padded to the vertex count (the source then writes cross products into them, which the model leaves out) |
| MeshSpec.AddPolylistSpan | io/glc_colladatoworld.cpp:842-871 | m_Index grows by exactly the triangulated indices of the block's polygons; the span is (old size, their number); other materials keep their spans |
| MeshSpec.AddPolylistPadsNormals | io/glc_colladatoworld.cpp:861-864 | without a NORMAL binding, the old normals are kept and zero padded to the vertex count (cross products left out as for triangles) |
| MeshSpec.AddPolylistCopiesAttributes | io/glc_colladatoworld.cpp:798-858 | for a semantic bound once, each vertex the block created owns the floats its raw index owns in the source, and with a corner-drawing triangulator every appended corner is one of those dense indices |
| MeshSpec.SpanIndices | io/glc_colladatoworld.cpp:1175-1182 | the triangle list of a span is m_Index[offset, offset+size) |
| MeshSpec.CreateMeshAfterTriangles | io/glc_colladatoworld.cpp:1160-1185 | right after a block, createMesh gives its material exactly the appended indices, with the looked-up material |
| MeshSpec.CreateMeshAfterPolylist | io/glc_colladatoworld.cpp:1160-1185 | right after a polylist block (corner-drawing triangulator), createMesh gives its material exactly the triangulated indices it appended, with the looked-up material |
| MeshSpec.CreateMeshCornersInRange | io/glc_colladatoworld.cpp:1175-1182 | every corner handed over names a complete vertex of the vertex buffer |
| Materials.ReadXmlColor | io/glc_colladatoworld.cpp:514-554 | Ok iff the text splits into exactly 4 tokens that all convert; otherwise the malformed-colour error |
| Materials.ReadXmlColorOfTokens | io/glc_colladatoworld.cpp:518-533 | four float tokens joined by spaces read back as that colour, in order r, g, b, a |
| Materials.ReadXmlColorRejectsCount | io/glc_colladatoworld.cpp:519-550 | any other number of tokens is refused |
| Materials.ApplyColor | io/glc_colladatoworld.cpp:494-500 | a colour sets only its own channel; under another channel name it changes nothing |
| Materials.MaterialOf | io/glc_colladatoworld.cpp:1165-1172 | two hops: Some iff the effect id found (empty when unknown) is an effect; otherwise the null material |
| Materials.LoadMaterial | io/glc_colladatoworld.cpp:326-331 | the corrected loadMaterial of the Findings row: an empty url is not stored; otherwise the url with '#' removed is stored under the id (the source stores it verbatim, as LoadMaterialAsWritten does) |
| Materials.LoadMaterialAsWritten | io/glc_colladatoworld.cpp:299-331 | loadMaterial as written, the as-written half of the Findings row: a non-empty url is stored verbatim under the id, '#' included; an empty url leaves the table as it was |
| Materials.MaterialUrlAsWrittenNeverResolves | io/glc_colladatoworld.cpp:307-328 | with the url stored verbatim, "#fx" never reaches effect fx |
| Materials.MaterialUrlResolves | io/glc_colladatoworld.cpp:1165-1170 | with the '#' removed, "#fx" reaches effect fx |
| Materials.LoadMaterialReplaces | io/glc_colladatoworld.cpp:328 | a second material entry for the same id replaces the first |
| Materials.TextureFileOf | io/glc_colladatoworld.cpp:1111-1114 | Some iff all three hops sampler → surface → image → file are present, and then it is the file |
| Tables.FirstNamed | io/glc_colladatoworld.cpp:117-124 | goToElement: the first element of that name, or an error iff there is none |
| Tables.InsertEachKeepsLast | io/glc_colladatoworld.cpp:411-428 | repeated inserts under one sid leave the last text, or nothing when there is no element |
| Tables.LastContentAbsent | io/glc_colladatoworld.cpp:264-268 | with no init_from element the text keeps its starting value (the empty file name) |
| Tables.LastContentIgnoresStart | io/glc_colladatoworld.cpp:264-268 | once some init_from exists the starting value is irrelevant: the last one's text wins |
| Tables.FloatsOf | io/glc_colladatoworld.cpp:652-655 | one value per token, the token's conversion or 0.0 |
| Tables.FloatArrayValues | io/glc_colladatoworld.cpp:646-656 | count is mandatory; Ok iff it equals the token count, else the float_array mismatch; the values are the tokens converted |
| Tables.LoadVertexBulkDataOfTokens | io/glc_colladatoworld.cpp:631-667 | a source with one array of n tokens and count n stores exactly those n values under its id |
| Tables.LoadVertexBulkDataRejectsCount | io/glc_colladatoworld.cpp:650 | a count that disagrees with the token count aborts |
| Tables.LoadVerticesRedirects | io/glc_colladatoworld.cpp:670-680 | after `<vertices id="v">` with source "#pos", a binding to "#v" is redirected to "pos" |
| Tables.LoadImageSpec | io/glc_colladatoworld.cpp:254-281 | id mandatory; the last init_from's file name is stored when non-empty, otherwise nothing changes |
| Tables.LoadMaterialSpecResolves | io/glc_colladatoworld.cpp:299-332 | with the corrected loader of the Findings row, a material whose instance_effect url is "#fx" resolves to effect fx at createMesh (as written, it does not) |
| Tables.EffectElementsKeepName | io/glc_colladatoworld.cpp:486-511 | colours never rename the material; every texture sid either names the effect being loaded or keeps its earlier value; no earlier sid is lost |
| Tables.EffectElementsOtherChannels | io/glc_colladatoworld.cpp:466-477 | elements under a channel other than emission, ambient, diffuse and specular are never entered: no colour is set, no texture recorded, and nothing fails |
| Tables.LoadEffectFoundByMaterial | io/glc_colladatoworld.cpp:350-374 | a loaded effect is found by a material referencing it and carries its id as name |
| Mesh.ReadVertexKey | io/glc_colladatoworld.cpp:802-805 | Ok iff every binding's raw index is inside p; then it is the stride's key |
| Mesh.ReadBulkValues | io/glc_colladatoworld.cpp:827-836 | the reads at raw*stride, +1 and (not TEXCOORD) +2 are the source's chunk for the raw index |
| Mesh.CopySpan | io/glc_colladatoworld.cpp:1175-1182 | the copy loop yields m_Index[offset, offset+size) |
| Mesh.BuildGroups | io/glc_colladatoworld.cpp:1160-1184 | the material loop of createMesh yields exactly GroupsOf: one group per material of m_Materials, holding the material found in two hops (the null material when it is missing) and the span's slice of m_Index |
| Mesh.MeshInfo.constructor | io/glc_colladatoworld.cpp:575 | a new MeshInfo is empty and valid |
| Mesh.MeshInfo.AppendBulkData | io/glc_colladatoworld.cpp:820-837 | the per-binding append loop computes AppendAttributes and changes nothing else |
| Mesh.MeshInfo.ConsolidateStrides | io/glc_colladatoworld.cpp:798-839 | the stride loop leaves mapping, free index and buffers as Consolidate computes them and returns its dense indices |
| Mesh.MeshInfo.PadNormalBuffer | io/glc_colladatoworld.cpp:876-884 | the normal buffer becomes PadNormals of the old buffers |
| Mesh.MeshInfo.RecordBlock | io/glc_colladatoworld.cpp:1072-1082 | the tail of both add functions: the normals are padded exactly when no binding is NORMAL, the material's span becomes (indexOffset, \|m_Index\| - indexOffset), replacing any earlier span, and nothing else changes |
| Mesh.MeshInfo.CheckSources | io/glc_colladatoworld.cpp:774-782 | Ok iff every source is a bulk array; then hasNormals iff some binding is NORMAL; otherwise the first unknown source |
| Mesh.MeshInfo.MaxOffsetOf | io/glc_colladatoworld.cpp:784-791 | the loop computes MaxOffset |
| Mesh.MeshInfo.AddTriangles | io/glc_colladatoworld.cpp:988-1084 | the new state is AddTrianglesSpec's and is valid; errors agree; an unknown source leaves the MeshInfo unchanged |
| Mesh.MeshInfo.TriangulateInto | io/glc_colladatoworld.cpp:841-858 | the takeFirst loops append TriangulatePolygons' output to m_Index, or fail as it does |
| Mesh.MeshInfo.AddPolylist | io/glc_colladatoworld.cpp:762-871 | the new state is AddPolylistSpec's, valid for a triangulator drawing from its polygon; errors agree; an unknown source leaves the MeshInfo unchanged |
| Mesh.MeshInfo.CreateMesh | io/glc_colladatoworld.cpp:1141-1182 | hands over MeshOf of the state, then clears the buffers |
| Importer.LoadTrianglesRefusesUnknown | io/glc_colladatoworld.cpp:998-1007 | any triangles block that reads, with some input naming no bulk array, fails with the first such source before the mesh changes |
| Importer.LoadPolylistRefusesUnknown | io/glc_colladatoworld.cpp:773-782 | the same for any polylist block |
| Importer.LoadTrianglesUnknownSource | io/glc_colladatoworld.cpp:943-1005 | a block of one `<input>` and one `<p>` whose input names no bulk array fails with that source |
| Importer.GoToElement | io/glc_colladatoworld.cpp:117-124 | the scan computes FirstNamed |
| Importer.ReadFloatArray | io/glc_colladatoworld.cpp:646-656 | the count check and conversion loop compute FloatArrayValues |
| Importer.ColladaToWorld.constructor | io/glc_colladatoworld.cpp:32-51 | all tables empty, and the current MeshInfo empty |
| Importer.ColladaToWorld.LoadGeometry | io/glc_colladatoworld.cpp:572-575 | a fresh, empty MeshInfo; tables unchanged |
| Importer.ColladaToWorld.LoadVertexBulkData | io/glc_colladatoworld.cpp:631-667 | bulk data becomes LoadVertexBulkDataSpec's; other tables unchanged; errors agree |
| Importer.ColladaToWorld.LoadVertices | io/glc_colladatoworld.cpp:670-680 | the alias table becomes LoadVerticesSpec's; other tables unchanged; errors agree |
| Importer.ColladaToWorld.ReadTriangles | io/glc_colladatoworld.cpp:925-981 | the element loop computes LoadTrianglesSpec |
| Importer.ColladaToWorld.ReadPolylist | io/glc_colladatoworld.cpp:683-756 | the element loop computes LoadPolylistSpec, with the vcount size check |
| Importer.ColladaToWorld.LoadTriangles | io/glc_colladatoworld.cpp:925-986 | the MeshInfo becomes the block read and added; valid; errors agree |
| Importer.ColladaToWorld.LoadPolylist | io/glc_colladatoworld.cpp:683-759 | the MeshInfo becomes the block read and added; errors agree |
| Importer.ColladaToWorld.LoadImage | io/glc_colladatoworld.cpp:254-281 | the image table becomes LoadImageSpec's |
| Importer.ColladaToWorld.LoadMaterial | io/glc_colladatoworld.cpp:299-332 | the material table becomes LoadMaterialSpec's, the corrected loader of the Findings row (url with '#' removed) |
| Importer.ColladaToWorld.LoadSurface | io/glc_colladatoworld.cpp:411-428 | each init_from inserts its image under the sid |
| Importer.ColladaToWorld.LoadSampler2D | io/glc_colladatoworld.cpp:430-447 | each source inserts its surface under the sid |
| Importer.ColladaToWorld.LoadEffect | io/glc_colladatoworld.cpp:350-511 | effects and texture references become LoadEffectSpec's; errors agree |
| Importer.ColladaToWorld.LinkTexturesToMaterials | io/glc_colladatoworld.cpp:1100-1131 | links exactly the sids whose three hops resolve to an existing file, with that path and the referencing effect |
| Importer.ColladaToWorld.CreateMesh | io/glc_colladatoworld.cpp:1134-1185 | the current MeshInfo's MeshOf, with the importer's material tables; its buffers are cleared and its mapping, free index, index list and spans stay as they were |

## Left out

- The `QXmlStreamReader` cursor (`readNext`, `getContent`, `checkForXmlError`, end-element detection): each loader receives the start elements it visits as `Tag`s with trimmed text.
- Nesting of `loadLibrary*`, `loadProfileCommon`, `loadNewParam`, `loadTechnique`, `loadMaterialTechnique`: they only dispatch elements; `LoadEffect` takes the channel/element pairs they would deliver.
- Importer.ColladaToWorld.constructor: the source holds no MeshInfo (`m_pMeshInfo` is NULL) until the first `<geometry>`, and again after every geometry that has an id, whose MeshInfo goes into `m_GeometryHash` (io/glc_colladatoworld.cpp:600-605); the model starts from an empty one and keeps the last one after a geometry, so a block outside a geometry is not an error here, where the source dereferences NULL.
- Importer.ColladaToWorld.LoadMaterial: the importer runs the corrected loadMaterial of the Findings row, which removes the url's '#'; the source stores the url verbatim, so where its createMesh gives a material the null material, the model's finds the effect. LoadMaterialSpec, CreateMesh and LoadMaterialSpecResolves inherit this.
- Tables.FirstNamed: `goToElement` (io/glc_colladatoworld.cpp:117-124) keeps reading past the end of the current element until it meets the name; the model searches only the element's own tags, so a `<vertices>` without `<input>` fails here, where the source would take the next block's input.
- `clear()` and the memory it frees on an error: after a failure, the state of the importer is not stated.
- `m_GeometryHash` and its iteration in `createMesh`: the model hands over one MeshInfo at a time; geometries without an id, which the source drops, are not tracked.
- `GLC_ExtendedMesh`, `GLC_3DRep`, `GLC_StructInstance`, `GLC_Texture`, `m_pWorld`: scene-graph construction; `CreateMesh` returns the data handed over, `LinkTexturesToMaterials` returns the links.
- The cross-product normals (io/glc_colladatoworld.cpp:886-921): only the zero padding is modelled, and the padded normals stay zero. The loop that follows works on positions, not on vertex indices. It visits i = indexOffset, indexOffset+9, … while i < |m_Index| - indexOffset. At each i it reads the vertex floats at positions i..i+8 and writes the normal floats at the same positions; it never reads an m_Index value. So it is skipped whenever indexOffset >= |m_Index| - indexOffset, which happens for most later blocks. Its reads can fall outside the vertex buffer: a first block of four distinct vertices (12 floats) and 12 corners, with no NORMAL input, reads positions 12..17 at i = 9. That read is undefined behaviour in the source, and the model's add functions return Ok on that input without flagging it.
- AddTrianglesPadsNormals and AddPolylistPadsNormals: "the old normals are kept" holds of the model only; in the source the cross-product loop that follows the padding may overwrite them.
- `glc::triangulatePolygon` (geometry/glc_geomtools is not part of this model): an opaque function parameter.
- `QString::toInt` / `toFloat`, `QFileInfo::exists`, `QFileInfo::absolutePath`, `QDir::separator`: parameters.
- Floats are `real` and only copied; 32-bit `int` overflow of counts and of `raw * stride` is not modelled.
- QHash iteration order: `LinkTexturesToMaterials` and `CreateMesh` process keys in an unspecified order. The model returns maps, so its results do not depend on that order; in the source, the texture a material finally holds does depend on it when several sids reach one material.
- Reads outside a `QList` (`at` with a bad index, `takeFirst` on an empty list) are undefined behaviour in the source. The model fails with `IndexOutOfRange` at the reads it covers: the raw indices read from `<p>` in the stride loop, the bulk reads at raw*stride, and the taking of polygon corners. The unmodelled cross-product loop's reads are not among them.
- ReadVertexKey: the `ColladaVertice` layout (a fixed array of three slots, default 0) is taken from the header, which is not part of this model.
- AddTrianglesCopiesAttributes: the copy and alignment property is stated for a semantic bound exactly once; a semantic bound twice appends two chunks per vertex and is only covered by ConsolidateKeepsBuffers.
- Materials.TextureLinks: which of several textures of one material wins depends on the hash order and is not stated.
- geometry/glc_circle.cpp, src/qml/glc_quickitem.h, src/glc_contextmanager.h: not part of the importer.

## Findings

| source | as written | input that shows it | evidently intended | confidence | as-written member | corrected member |
|---|---|---|---|---|---|---|
| io/glc_colladatoworld.cpp:307-328 | `loadMaterial` stores the `instance_effect` url verbatim, '#' included, while effects are stored under their bare id; `createMesh` looks the url up as an effect id | `<material id="m"><instance_effect url="#fx"/></material>` and `<effect id="fx">`: the lookup of "#fx" fails and the mesh gets the null material | remove the '#' as every other reference (`source` attributes) is | not executed | Materials.MaterialUrlAsWrittenNeverResolves | Materials.MaterialUrlResolves |
