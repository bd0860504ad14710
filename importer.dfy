/** GLC_ColladaToWorld: the element loaders that fill the importer's tables
  * and the current MeshInfo, and the two lookup passes run once the
  * document has been read. */
module Importer {
  import opened Wrappers
  import opened XmlInput
  import opened Bindings
  import opened Consolidation
  import opened Materials
  import opened MeshSpec
  import opened Tables
  import opened Mesh

  /** The importer's id-keyed tables, as one value. */
  datatype ImportTables = ImportTables(
    bulkData: BulkData,
    verticesSource: map<string, string>,
    imageFile: map<string, string>,
    materialLib: MaterialLib,
    effects: EffectTable,
    surfaceImage: map<string, string>,
    sampler2DSurface: map<string, string>,
    textureToMaterial: map<string, string>)

  const EMPTY_TABLES := ImportTables(map[], map[], map[], map[], map[], map[], map[], map[])

  /** A <triangles> block read and added to the mesh. */
  function LoadTrianglesInto(st: MeshState, attributes: Attributes, tags: seq<Tag>, verticesSource: map<string, string>, bulk: BulkData, num: Numerals): Result<MeshState, FormatError>
  {
    var block :- LoadTrianglesSpec(attributes, tags, verticesSource, num);
    AddTrianglesSpec(st, block.inputs, block.indices, block.material, bulk)
  }

  /** A <polylist> block read and added to the mesh. */
  function LoadPolylistInto(st: MeshState, attributes: Attributes, tags: seq<Tag>, verticesSource: map<string, string>, bulk: BulkData, num: Numerals, triangulate: Triangulator): Result<MeshState, FormatError>
  {
    var block :- LoadPolylistSpec(attributes, tags, verticesSource, num);
    AddPolylistSpec(st, block.inputs, block.vcount, block.indices, block.material, bulk, triangulate)
  }

  /** Any triangles block that reads, one of whose inputs names a source
    * that is not a bulk array, is refused with the first such source, before
    * the mesh is touched. */
  lemma LoadTrianglesRefusesUnknown(st: MeshState, attributes: Attributes, tags: seq<Tag>, verticesSource: map<string, string>, bulk: BulkData, num: Numerals, j: int)
    requires LoadTrianglesSpec(attributes, tags, verticesSource, num).Ok?
    requires var inputs := LoadTrianglesSpec(attributes, tags, verticesSource, num).value.inputs;
             0 <= j < |inputs| && inputs[j].source !in bulk
    ensures var inputs := LoadTrianglesSpec(attributes, tags, verticesSource, num).value.inputs;
            && FirstUnknownSource(inputs, bulk).Some?
            && LoadTrianglesInto(st, attributes, tags, verticesSource, bulk, num) == Err(UnknownSource(FirstUnknownSource(inputs, bulk).value))
  {
    var inputs := LoadTrianglesSpec(attributes, tags, verticesSource, num).value.inputs;
    assert !SourcesKnown(inputs, bulk);
  }

  /** The same for a polylist block. */
  lemma LoadPolylistRefusesUnknown(st: MeshState, attributes: Attributes, tags: seq<Tag>, verticesSource: map<string, string>, bulk: BulkData, num: Numerals, triangulate: Triangulator, j: int)
    requires LoadPolylistSpec(attributes, tags, verticesSource, num).Ok?
    requires var inputs := LoadPolylistSpec(attributes, tags, verticesSource, num).value.inputs;
             0 <= j < |inputs| && inputs[j].source !in bulk
    ensures var inputs := LoadPolylistSpec(attributes, tags, verticesSource, num).value.inputs;
            && FirstUnknownSource(inputs, bulk).Some?
            && LoadPolylistInto(st, attributes, tags, verticesSource, bulk, num, triangulate) == Err(UnknownSource(FirstUnknownSource(inputs, bulk).value))
  {
    var inputs := LoadPolylistSpec(attributes, tags, verticesSource, num).value.inputs;
    assert !SourcesKnown(inputs, bulk);
  }

  /** In particular, a block of one <input> and one <p> whose input names a
    * source that is neither a bulk array nor a <vertices> alias of one is
    * refused with that source. */
  lemma LoadTrianglesUnknownSource(st: MeshState, material: string, input: Attributes, p: Tag, verticesSource: map<string, string>, bulk: BulkData, num: Numerals)
    requires ParseInput(input, verticesSource, num).Ok?
    requires ParseInput(input, verticesSource, num).value.source !in bulk
    requires p.name == "p" && ParseInts(Split(p.content, ' '), num).Ok?
    ensures LoadTrianglesInto(st, map["material" := material], [Tag("input", input, ""), p], verticesSource, bulk, num)
            == Err(UnknownSource(ParseInput(input, verticesSource, num).value.source))
  {
    var binding := ParseInput(input, verticesSource, num).value;
    var tags := [Tag("input", input, ""), p];
    var first := TrianglesBlock(material, [binding], []);
    assert ReadAttribute(map["material" := material], "material", false) == Ok(material);
    assert [] + [binding] == [binding];
    assert TrianglesStep(tags[0], TrianglesBlock(material, [], []), verticesSource, num) == Ok(first);
    assert tags[1..] == [p] && [p][1..] == [];
    var second := first.(indices := ParseInts(Split(p.content, ' '), num).value);
    assert TrianglesStep(p, first, verticesSource, num) == Ok(second);
    assert ScanTriangles([p][1..], second, verticesSource, num) == Ok(second);
    assert ScanTriangles(tags[1..], first, verticesSource, num) == Ok(second);
    assert ScanTriangles(tags, TrianglesBlock(material, [], []), verticesSource, num) == Ok(second);
    var block := second;
    assert FirstUnknownSource(block.inputs, bulk) == Some(binding.source);
  }

  /** goToElement: the first start element of that name. */
  method GoToElement(tags: seq<Tag>, name: string) returns (r: Result<Tag, FormatError>)
    ensures r == FirstNamed(tags, name)
  {
    var k := 0;
    while k < |tags| && tags[k].name != name
      invariant 0 <= k <= |tags|
      invariant forall j :: 0 <= j < k ==> tags[j].name != name
    {
      k := k + 1;
    }
    if k == |tags| {
      return Err(ElementNotFound(name));
    }
    var first := FirstNamed(tags, name);
    ghost var f :| 0 <= f < |tags| && tags[f] == first.value && first.value.name == name
                   && forall j :: 0 <= j < f ==> tags[j].name != name;
    assert f == k;
    r := Ok(tags[k]);
  }

  /** The values of one <float_array>, read token by token after the count check. */
  method ReadFloatArray(t: Tag, num: Numerals) returns (r: Result<seq<Float>, FormatError>)
    ensures r == FloatArrayValues(t, num)
  {
    var countText := ReadAttribute(t.attributes, "count", true);
    if countText.Err? {
      return Err(countText.error);
    }
    var count := IntOrZero(num, countText.value);
    var list := Split(t.content, ' ');
    if count != |list| {
      return Err(CountMismatch("float_array"));
    }
    var values: seq<Float> := [];
    var i := 0;
    while i < count
      invariant 0 <= i <= count && |values| == i
      invariant forall k :: 0 <= k < i ==> values[k] == FloatOrZero(num, list[k])
    {
      values := values + [FloatOrZero(num, list[i])];
      i := i + 1;
    }
    assert values == FloatsOf(list, num);
    r := Ok(values);
  }

  class ColladaToWorld {
    var bulkData: BulkData
    var verticesSource: map<string, string>
    var imageFile: map<string, string>
    var materialLib: MaterialLib
    var effects: EffectTable
    var surfaceImage: map<string, string>
    var sampler2DSurface: map<string, string>
    var textureToMaterial: map<string, string>
    /** m_pMeshInfo: the geometry being loaded. */
    var meshInfo: MeshInfo

    function Tables(): ImportTables
      reads this
    {
      ImportTables(bulkData, verticesSource, imageFile, materialLib, effects, surfaceImage, sampler2DSurface, textureToMaterial)
    }

    ghost predicate Valid()
      reads this, meshInfo
    {
      meshInfo.Valid()
    }

    constructor ()
      ensures Tables() == EMPTY_TABLES && fresh(meshInfo) && meshInfo.State() == EMPTY_MESH && Valid()
    {
      bulkData := map[];
      verticesSource := map[];
      imageFile := map[];
      materialLib := map[];
      effects := map[];
      surfaceImage := map[];
      sampler2DSurface := map[];
      textureToMaterial := map[];
      meshInfo := new MeshInfo();
    }

    /** loadGeometry: the blocks that follow go into a new, empty MeshInfo. */
    method LoadGeometry()
      modifies this
      ensures fresh(meshInfo) && meshInfo.State() == EMPTY_MESH && Valid()
      ensures Tables() == old(Tables())
    {
      meshInfo := new MeshInfo();
    }

    /** loadVertexBulkData: the <source> arrays stored under its id. */
    method LoadVertexBulkData(attributes: Attributes, tags: seq<Tag>, num: Numerals) returns (r: Outcome<FormatError>)
      modifies this
      ensures var spec := LoadVertexBulkDataSpec(old(bulkData), attributes, tags, num);
              && (r.Pass? <==> spec.Ok?)
              && (r.Pass? ==> Tables() == old(Tables()).(bulkData := spec.value))
              && (r.Fail? ==> r.error == spec.error)
      ensures meshInfo == old(meshInfo)
    {
      var id := ReadAttribute(attributes, "id", true);
      if id.Err? {
        return Fail(id.error);
      }
      var vertices: seq<Float> := [];
      var k := 0;
      while k < |tags|
        modifies {}
        invariant 0 <= k <= |tags|
        invariant BulkValues(tags[k..], num, vertices) == BulkValues(tags, num, [])
      {
        assert tags[k..][1..] == tags[k + 1..] && tags[k..][0] == tags[k];
        if tags[k].name == "float_array" {
          var values := ReadFloatArray(tags[k], num);
          if values.Err? {
            return Fail(values.error);
          }
          vertices := vertices + values.value;
        }
        k := k + 1;
      }
      assert tags[k..] == [];
      bulkData := bulkData[id.value := vertices];
      r := Pass;
    }

    /** loadVertices: the alias of the first <input>'s source under the id. */
    method LoadVertices(attributes: Attributes, tags: seq<Tag>) returns (r: Outcome<FormatError>)
      modifies this
      ensures var spec := LoadVerticesSpec(old(verticesSource), attributes, tags);
              && (r.Pass? <==> spec.Ok?)
              && (r.Pass? ==> Tables() == old(Tables()).(verticesSource := spec.value))
              && (r.Fail? ==> r.error == spec.error)
      ensures meshInfo == old(meshInfo)
    {
      var id := ReadAttribute(attributes, "id", true);
      if id.Err? {
        return Fail(id.error);
      }
      var input := GoToElement(tags, "input");
      if input.Err? {
        return Fail(input.error);
      }
      var source := ReadAttribute(input.value.attributes, "source", true);
      if source.Err? {
        return Fail(source.error);
      }
      verticesSource := verticesSource[id.value := RemoveAll(source.value, '#')];
      r := Pass;
    }

    /** The reading half of loadTriangles. */
    method ReadTriangles(attributes: Attributes, tags: seq<Tag>, num: Numerals) returns (r: Result<TrianglesBlock, FormatError>)
      ensures r == LoadTrianglesSpec(attributes, tags, verticesSource, num)
    {
      var material := ReadAttribute(attributes, "material", false).value;
      var block := TrianglesBlock(material, [], []);
      var k := 0;
      while k < |tags|
        invariant 0 <= k <= |tags|
        invariant ScanTriangles(tags[k..], block, verticesSource, num) == LoadTrianglesSpec(attributes, tags, verticesSource, num)
      {
        assert tags[k..][1..] == tags[k + 1..];
        var t := tags[k];
        if t.name == "input" && block.indices == [] {
          var input := ParseInput(t.attributes, verticesSource, num);
          if input.Err? {
            return Err(input.error);
          }
          block := block.(inputs := block.inputs + [input.value]);
        } else if t.name == "p" && block.indices == [] {
          var indices := ReadIntList(Split(t.content, ' '), num);
          if indices.Err? {
            return Err(indices.error);
          }
          block := block.(indices := indices.value);
        }
        k := k + 1;
      }
      r := Ok(block);
    }

    /** The reading half of loadPolylist. */
    method ReadPolylist(attributes: Attributes, tags: seq<Tag>, num: Numerals) returns (r: Result<PolylistBlock, FormatError>)
      ensures r == LoadPolylistSpec(attributes, tags, verticesSource, num)
    {
      var countText := ReadAttribute(attributes, "count", true);
      if countText.Err? {
        return Err(countText.error);
      }
      var polygonCount := IntOrZero(num, countText.value);
      var material := ReadAttribute(attributes, "material", false).value;
      var block := PolylistBlock(material, polygonCount, [], [], []);
      var k := 0;
      while k < |tags|
        invariant 0 <= k <= |tags|
        invariant block.count == polygonCount
        invariant ScanPolylist(tags[k..], block, verticesSource, num) == LoadPolylistSpec(attributes, tags, verticesSource, num)
      {
        assert tags[k..][1..] == tags[k + 1..];
        var t := tags[k];
        if t.name == "input" && block.vcount == [] {
          var input := ParseInput(t.attributes, verticesSource, num);
          if input.Err? {
            return Err(input.error);
          }
          block := block.(inputs := block.inputs + [input.value]);
        } else if t.name == "vcount" && |block.inputs| > 0 {
          var list := Split(t.content, ' ');
          if |list| != polygonCount {
            return Err(CountMismatch("vcount"));
          }
          var counts := ReadIntList(list, num);
          if counts.Err? {
            return Err(counts.error);
          }
          block := block.(vcount := block.vcount + counts.value);
        } else if t.name == "p" && block.vcount != [] && block.indices == [] {
          var indices := ReadIntList(Split(t.content, ' '), num);
          if indices.Err? {
            return Err(indices.error);
          }
          block := block.(indices := indices.value);
        }
        k := k + 1;
      }
      r := Ok(block);
    }

    /** loadTriangles: the block is read, then added to the current mesh. */
    method LoadTriangles(attributes: Attributes, tags: seq<Tag>, num: Numerals) returns (r: Outcome<FormatError>)
      requires Valid()
      modifies meshInfo
      ensures var spec := LoadTrianglesInto(old(meshInfo.State()), attributes, tags, verticesSource, bulkData, num);
              && (r.Pass? <==> spec.Ok?)
              && (r.Pass? ==> meshInfo.State() == spec.value && Valid())
              && (r.Fail? ==> r.error == spec.error)
    {
      var block := ReadTriangles(attributes, tags, num);
      if block.Err? {
        return Fail(block.error);
      }
      r := meshInfo.AddTriangles(block.value.inputs, block.value.indices, block.value.material, bulkData);
    }

    /** loadPolylist: the block is read, then added to the current mesh. */
    method LoadPolylist(attributes: Attributes, tags: seq<Tag>, num: Numerals, triangulate: Triangulator) returns (r: Outcome<FormatError>)
      requires Valid()
      modifies meshInfo
      ensures var spec := LoadPolylistInto(old(meshInfo.State()), attributes, tags, verticesSource, bulkData, num, triangulate);
              && (r.Pass? <==> spec.Ok?)
              && (r.Pass? ==> meshInfo.State() == spec.value)
              && (r.Pass? && DrawsFromPolygon(triangulate) ==> Valid())
              && (r.Fail? ==> r.error == spec.error)
    {
      var block := ReadPolylist(attributes, tags, num);
      if block.Err? {
        return Fail(block.error);
      }
      r := meshInfo.AddPolylist(block.value.inputs, block.value.vcount, block.value.indices, block.value.material, bulkData, triangulate);
    }

    /** loadImage: the file name of the last <init_from>, stored when not empty. */
    method LoadImage(attributes: Attributes, tags: seq<Tag>) returns (r: Outcome<FormatError>)
      modifies this
      ensures var spec := LoadImageSpec(old(imageFile), attributes, tags);
              && (r.Pass? <==> spec.Ok?)
              && (r.Pass? ==> Tables() == old(Tables()).(imageFile := spec.value))
              && (r.Fail? ==> r.error == spec.error)
      ensures meshInfo == old(meshInfo)
    {
      var id := ReadAttribute(attributes, "id", true);
      if id.Err? {
        return Fail(id.error);
      }
      var fileName := "";
      var k := 0;
      while k < |tags|
        modifies {}
        invariant 0 <= k <= |tags|
        invariant LastContent(tags[k..], "init_from", fileName) == LastContent(tags, "init_from", "")
      {
        assert tags[k..][1..] == tags[k + 1..];
        if tags[k].name == "init_from" {
          fileName := tags[k].content;
        }
        k := k + 1;
      }
      if fileName != "" {
        imageFile := imageFile[id.value := fileName];
      }
      r := Pass;
    }

    /** loadMaterial: the effect of the first <instance_effect> under the id. */
    method LoadMaterial(attributes: Attributes, tags: seq<Tag>) returns (r: Outcome<FormatError>)
      modifies this
      ensures var spec := LoadMaterialSpec(old(materialLib), attributes, tags);
              && (r.Pass? <==> spec.Ok?)
              && (r.Pass? ==> Tables() == old(Tables()).(materialLib := spec.value))
              && (r.Fail? ==> r.error == spec.error)
      ensures meshInfo == old(meshInfo)
    {
      var id := ReadAttribute(attributes, "id", true);
      if id.Err? {
        return Fail(id.error);
      }
      var instance := GoToElement(tags, "instance_effect");
      if instance.Err? {
        return Fail(instance.error);
      }
      var url := ReadAttribute(instance.value.attributes, "url", true);
      if url.Err? {
        return Fail(url.error);
      }
      if url.value != "" {
        materialLib := materialLib[id.value := RemoveAll(url.value, '#')];
      }
      r := Pass;
    }

    /** loadSurface: every <init_from> names the image of the surface sid. */
    method LoadSurface(sid: string, tags: seq<Tag>)
      modifies this
      ensures Tables() == old(Tables()).(surfaceImage := InsertEach(old(surfaceImage), sid, tags, "init_from"))
      ensures meshInfo == old(meshInfo)
    {
      var k := 0;
      while k < |tags|
        invariant 0 <= k <= |tags|
        invariant InsertEach(surfaceImage, sid, tags[k..], "init_from") == InsertEach(old(surfaceImage), sid, tags, "init_from")
        invariant Tables() == old(Tables()).(surfaceImage := surfaceImage) && meshInfo == old(meshInfo)
      {
        assert tags[k..][1..] == tags[k + 1..];
        if tags[k].name == "init_from" {
          surfaceImage := surfaceImage[sid := tags[k].content];
        }
        k := k + 1;
      }
    }

    /** loadSampler2D: every <source> names the surface of the sampler sid. */
    method LoadSampler2D(sid: string, tags: seq<Tag>)
      modifies this
      ensures Tables() == old(Tables()).(sampler2DSurface := InsertEach(old(sampler2DSurface), sid, tags, "source"))
      ensures meshInfo == old(meshInfo)
    {
      var k := 0;
      while k < |tags|
        invariant 0 <= k <= |tags|
        invariant InsertEach(sampler2DSurface, sid, tags[k..], "source") == InsertEach(old(sampler2DSurface), sid, tags, "source")
        invariant Tables() == old(Tables()).(sampler2DSurface := sampler2DSurface) && meshInfo == old(meshInfo)
      {
        assert tags[k..][1..] == tags[k + 1..];
        if tags[k].name == "source" {
          sampler2DSurface := sampler2DSurface[sid := tags[k].content];
        }
        k := k + 1;
      }
    }

    /** loadEffect with the colour and texture elements of its channels;
      * elements outside the four colour channels are skipped. */
    method LoadEffect(attributes: Attributes, elements: seq<EffectElement>, num: Numerals) returns (r: Outcome<FormatError>)
      modifies this
      ensures var spec := LoadEffectSpec(old(effects), old(textureToMaterial), attributes, elements, num);
              && (r.Pass? <==> spec.Ok?)
              && (r.Pass? ==> Tables() == old(Tables()).(effects := spec.value.0, textureToMaterial := spec.value.1))
              && (r.Fail? ==> r.error == spec.error)
      ensures meshInfo == old(meshInfo)
    {
      var id := ReadAttribute(attributes, "id", true);
      if id.Err? {
        return Fail(id.error);
      }
      var material := Material(id.value, None, None, None, None);
      var k := 0;
      while k < |elements|
        invariant 0 <= k <= |elements|
        invariant EffectElements(material, id.value, textureToMaterial, elements[k..], num)
                  == EffectElements(Material(id.value, None, None, None, None), id.value, old(textureToMaterial), elements, num)
        invariant Tables() == old(Tables()).(textureToMaterial := textureToMaterial) && meshInfo == old(meshInfo)
      {
        assert elements[k..][1..] == elements[k + 1..];
        var e := elements[k];
        if e.channel in CHANNELS && e.tag.name == "color" {
          var colored := ApplyColor(material, e.channel, e.tag.content, num);
          if colored.Err? {
            return Fail(colored.error);
          }
          material := colored.value;
        } else if e.channel in CHANNELS && e.tag.name == "texture" {
          var sid := ReadAttribute(e.tag.attributes, "texture", true);
          if sid.Err? {
            return Fail(sid.error);
          }
          textureToMaterial := textureToMaterial[sid.value := id.value];
        }
        k := k + 1;
      }
      effects := effects[id.value := material];
      r := Pass;
    }

    /** linkTexturesToMaterials: for every texture sid referenced by an
      * effect, the three hops to a file name are followed; the texture is
      * attached when the image file exists next to the document. */
    method LinkTexturesToMaterials(documentDir: string, separator: char, fileExists: string -> bool) returns (links: map<string, TextureLink>)
      ensures links == TextureLinks(textureToMaterial, sampler2DSurface, surfaceImage, imageFile, documentDir, separator, fileExists)
    {
      links := map[];
      var remaining := textureToMaterial.Keys;
      while remaining != {}
        invariant remaining <= textureToMaterial.Keys
        invariant forall sid :: sid in links <==>
                    sid in textureToMaterial && sid !in remaining
                    && TextureFileOf(sampler2DSurface, surfaceImage, imageFile, sid).Some?
                    && fileExists(ImagePath(documentDir, separator, TextureFileOf(sampler2DSurface, surfaceImage, imageFile, sid).value))
        invariant forall sid :: sid in links ==>
                    links[sid] == TextureLink(textureToMaterial[sid], ImagePath(documentDir, separator, TextureFileOf(sampler2DSurface, surfaceImage, imageFile, sid).value))
        decreases |remaining|
      {
        var textureId :| textureId in remaining;
        if textureId in sampler2DSurface && sampler2DSurface[textureId] in surfaceImage
           && surfaceImage[sampler2DSurface[textureId]] in imageFile
        {
          var imageFileName := imageFile[surfaceImage[sampler2DSurface[textureId]]];
          imageFileName := documentDir + [separator] + imageFileName;
          if fileExists(imageFileName) {
            links := links[textureId := TextureLink(textureToMaterial[textureId], imageFileName)];
          }
        }
        remaining := remaining - {textureId};
      }
      ghost var spec := TextureLinks(textureToMaterial, sampler2DSurface, surfaceImage, imageFile, documentDir, separator, fileExists);
      assert links.Keys == spec.Keys;
    }

    /** createMesh for the current MeshInfo, against the material tables. */
    method CreateMesh() returns (mesh: MeshData)
      requires Valid()
      modifies meshInfo
      ensures mesh == MeshOf(old(meshInfo.State()), materialLib, effects)
      ensures meshInfo.datas == EMPTY_BUFFERS
      ensures meshInfo.State() == old(meshInfo.State()).(datas := EMPTY_BUFFERS)
    {
      mesh := meshInfo.CreateMesh(materialLib, effects);
    }
  }
}
