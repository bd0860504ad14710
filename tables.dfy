/** The id-keyed tables the importer fills while it streams over the
  * document: raw float arrays, <vertices> aliases, images, materials,
  * surfaces, samplers and effects, as functions of the elements read. */
module Tables {
  import opened Wrappers
  import opened XmlInput
  import opened Bindings
  import opened Consolidation
  import opened Materials

  /** goToElement(name): the first start element of that name; reaching
    * the end of the input first is an error. */
  function FirstNamed(tags: seq<Tag>, name: string): (r: Result<Tag, FormatError>)
    ensures r.Ok? <==> exists k :: 0 <= k < |tags| && tags[k].name == name
    ensures r.Ok? ==> exists k :: 0 <= k < |tags| && tags[k] == r.value && r.value.name == name
                                  && forall j :: 0 <= j < k ==> tags[j].name != name
    ensures r.Err? ==> r.error == ElementNotFound(name)
    decreases |tags|
  {
    if tags == [] then Err(ElementNotFound(name))
    else if tags[0].name == name then Ok(tags[0])
    else
      var r := FirstNamed(tags[1..], name);
      assert forall k :: 1 <= k < |tags| ==> tags[k] == tags[1..][k - 1];
      r
  }

  /** The text of the last element of that name (each one overwrites the
    * previous), or current when there is none. */
  function LastContent(tags: seq<Tag>, name: string, current: string): string
    decreases |tags|
  {
    if tags == [] then current
    else LastContent(tags[1..], name, if tags[0].name == name then tags[0].content else current)
  }

  /** loadSurface and loadSampler2D: every element of that name inserts its
    * text under the same key. */
  function InsertEach(table: map<string, string>, key: string, tags: seq<Tag>, name: string): map<string, string>
    decreases |tags|
  {
    if tags == [] then table
    else InsertEach(if tags[0].name == name then table[key := tags[0].content] else table, key, tags[1..], name)
  }

  /** Repeated inserts under one key leave the last text: the key is bound
    * to the last element's text when there is one, and nothing else changes. */
  lemma InsertEachKeepsLast(table: map<string, string>, key: string, tags: seq<Tag>, name: string)
    ensures (exists k :: 0 <= k < |tags| && tags[k].name == name) ==>
              InsertEach(table, key, tags, name) == table[key := LastContent(tags, name, "")]
    ensures (forall k :: 0 <= k < |tags| ==> tags[k].name != name) ==> InsertEach(table, key, tags, name) == table
  {
    if exists k :: 0 <= k < |tags| && tags[k].name == name {
      InsertEachSome(table, key, tags, name);
    } else {
      InsertEachNone(table, key, tags, name);
    }
  }

  /** Without an element of that name the table is left as it is. */
  lemma {:induction false} InsertEachNone(table: map<string, string>, key: string, tags: seq<Tag>, name: string)
    requires forall k :: 0 <= k < |tags| ==> tags[k].name != name
    ensures InsertEach(table, key, tags, name) == table
    decreases |tags|
  {
    if tags != [] {
      assert forall k :: 0 <= k < |tags[1..]| ==> tags[1..][k].name != name by {
        forall k | 0 <= k < |tags[1..]| ensures tags[1..][k].name != name {
          assert tags[1..][k] == tags[k + 1];
        }
      }
      InsertEachNone(table, key, tags[1..], name);
    }
  }

  /** With an element of that name the key ends up bound to the last one's text. */
  lemma {:induction false} InsertEachSome(table: map<string, string>, key: string, tags: seq<Tag>, name: string)
    requires exists k :: 0 <= k < |tags| && tags[k].name == name
    ensures InsertEach(table, key, tags, name) == table[key := LastContent(tags, name, "")]
    decreases |tags|
  {
    var tail := tags[1..];
    var start := if tags[0].name == name then tags[0].content else "";
    var next := if tags[0].name == name then table[key := tags[0].content] else table;
    assert InsertEach(table, key, tags, name) == InsertEach(next, key, tail, name);
    assert LastContent(tags, name, "") == LastContent(tail, name, start);
    if exists k :: 0 <= k < |tail| && tail[k].name == name {
      InsertEachSome(next, key, tail, name);
      LastContentIgnoresStart(tail, name, start, "");
    } else {
      assert forall j :: 1 <= j < |tags| ==> tags[j] == tail[j - 1];
      assert tags[0].name == name;
      InsertEachNone(next, key, tail, name);
      LastContentAbsent(tail, name, start);
    }
  }

  /** Without an element of that name, the last text is the starting one. */
  lemma {:induction false} LastContentAbsent(tags: seq<Tag>, name: string, current: string)
    ensures (forall k :: 0 <= k < |tags| ==> tags[k].name != name) ==> LastContent(tags, name, current) == current
    decreases |tags|
  {
    if tags != [] {
      LastContentAbsent(tags[1..], name, if tags[0].name == name then tags[0].content else current);
      if forall k :: 0 <= k < |tags| ==> tags[k].name != name {
        assert forall k :: 0 <= k < |tags[1..]| ==> tags[1..][k].name != name by {
          forall k | 0 <= k < |tags[1..]| ensures tags[1..][k].name != name {
            assert tags[1..][k] == tags[k + 1];
          }
        }
      }
    }
  }

  /** With an element of that name, the last text does not depend on the starting one. */
  lemma {:induction false} LastContentIgnoresStart(tags: seq<Tag>, name: string, c1: string, c2: string)
    requires exists k :: 0 <= k < |tags| && tags[k].name == name
    ensures LastContent(tags, name, c1) == LastContent(tags, name, c2)
    decreases |tags|
  {
    var k :| 0 <= k < |tags| && tags[k].name == name;
    if tags[0].name == name {
      assert LastContent(tags, name, c1) == LastContent(tags[1..], name, tags[0].content);
    } else {
      assert tags[1..][k - 1].name == name;
      LastContentIgnoresStart(tags[1..], name, c1, c2);
    }
  }

  /** Each token as QString::toFloat() converts it, 0.0 when it does not. */
  function FloatsOf(tokens: seq<string>, num: Numerals): (r: seq<Float>)
    ensures |r| == |tokens|
    ensures forall k :: 0 <= k < |tokens| ==> r[k] == FloatOrZero(num, tokens[k])
    decreases |tokens|
  {
    if tokens == [] then [] else [FloatOrZero(num, tokens[0])] + FloatsOf(tokens[1..], num)
  }

  /** One <float_array>: the mandatory count must equal the number of
    * space-separated tokens of its text; the tokens are the values. */
  function FloatArrayValues(t: Tag, num: Numerals): (r: Result<seq<Float>, FormatError>)
    ensures "count" !in t.attributes ==> r == Err(MissingAttribute("count"))
    ensures "count" in t.attributes ==>
              (r.Ok? <==> IntOrZero(num, t.attributes["count"]) == |Split(t.content, ' ')|)
    ensures r.Err? && "count" in t.attributes ==> r.error == CountMismatch("float_array")
    ensures r.Ok? ==> r.value == FloatsOf(Split(t.content, ' '), num)
  {
    var count :- ReadAttribute(t.attributes, "count", true);
    var tokens := Split(t.content, ' ');
    if IntOrZero(num, count) != |tokens| then Err(CountMismatch("float_array"))
    else Ok(FloatsOf(tokens, num))
  }

  /** The floats of every <float_array> of a <source>, in document order. */
  function BulkValues(tags: seq<Tag>, num: Numerals, acc: seq<Float>): Result<seq<Float>, FormatError>
    decreases |tags|
  {
    if tags == [] then Ok(acc)
    else if tags[0].name == "float_array" then
      var values :- FloatArrayValues(tags[0], num);
      BulkValues(tags[1..], num, acc + values)
    else BulkValues(tags[1..], num, acc)
  }

  /** loadVertexBulkData: the mandatory id, then the arrays, stored under the id. */
  function LoadVertexBulkDataSpec(bulk: BulkData, attributes: Attributes, tags: seq<Tag>, num: Numerals): Result<BulkData, FormatError>
  {
    var id :- ReadAttribute(attributes, "id", true);
    var values :- BulkValues(tags, num, []);
    Ok(bulk[id := values])
  }

  /** A <source> with one <float_array> of n space-free tokens and count n
    * stores exactly those n values, converted in order, under its id. */
  lemma LoadVertexBulkDataOfTokens(bulk: BulkData, id: string, count: string, tokens: seq<string>, num: Numerals)
    requires |tokens| >= 1 && forall k :: 0 <= k < |tokens| ==> ' ' !in tokens[k]
    requires IntOrZero(num, count) == |tokens|
    ensures LoadVertexBulkDataSpec(bulk, map["id" := id], [Tag("float_array", map["count" := count], Join(tokens, ' '))], num)
            == Ok(bulk[id := FloatsOf(tokens, num)])
  {
    SplitJoin(tokens, ' ');
    var t := Tag("float_array", map["count" := count], Join(tokens, ' '));
    assert FloatArrayValues(t, num) == Ok(FloatsOf(tokens, num));
    assert [t][1..] == [];
    assert [] + FloatsOf(tokens, num) == FloatsOf(tokens, num);
    assert BulkValues([t], num, []) == BulkValues([], num, FloatsOf(tokens, num));
  }

  /** A count that disagrees with the number of tokens aborts the load. */
  lemma LoadVertexBulkDataRejectsCount(bulk: BulkData, id: string, count: string, text: string, num: Numerals)
    requires IntOrZero(num, count) != |Split(text, ' ')|
    ensures LoadVertexBulkDataSpec(bulk, map["id" := id], [Tag("float_array", map["count" := count], text)], num)
            == Err(CountMismatch("float_array"))
  {
  }

  /** loadVertices: the mandatory id, then the first <input>'s mandatory
    * source with every '#' removed, stored under the id. */
  function LoadVerticesSpec(verticesSource: map<string, string>, attributes: Attributes, tags: seq<Tag>): Result<map<string, string>, FormatError>
  {
    var id :- ReadAttribute(attributes, "id", true);
    var input :- FirstNamed(tags, "input");
    var source :- ReadAttribute(input.attributes, "source", true);
    Ok(verticesSource[id := RemoveAll(source, '#')])
  }

  /** After <vertices id="v"> with <input source="#pos">, a binding to "#v"
    * is redirected to the bulk array "pos". */
  lemma LoadVerticesRedirects(verticesSource: map<string, string>, id: string, target: string, tags: seq<Tag>)
    requires '#' !in id && '#' !in target
    requires FirstNamed(tags, "input").Ok? && FirstNamed(tags, "input").value.attributes == map["source" := "#" + target]
    ensures LoadVerticesSpec(verticesSource, map["id" := id], tags).Ok?
    ensures ResolveSource("#" + id, LoadVerticesSpec(verticesSource, map["id" := id], tags).value) == target
  {
    ResolveSourceSigil(target, map[]);
    RemoveAllAbsent(target, '#');
    var vs := LoadVerticesSpec(verticesSource, map["id" := id], tags).value;
    assert vs == verticesSource[id := target];
    ResolveSourceSigil(id, vs);
    ResolveSourceOneHop(id, vs);
  }

  /** loadImage: the mandatory id and the text of the last <init_from>; an
    * image without a file name is not stored. */
  function LoadImageSpec(imageFile: map<string, string>, attributes: Attributes, tags: seq<Tag>): (r: Result<map<string, string>, FormatError>)
    ensures r.Ok? <==> "id" in attributes
    ensures r.Ok? && LastContent(tags, "init_from", "") != "" ==> r.value == imageFile[attributes["id"] := LastContent(tags, "init_from", "")]
    ensures r.Ok? && LastContent(tags, "init_from", "") == "" ==> r.value == imageFile
  {
    var id :- ReadAttribute(attributes, "id", true);
    var fileName := LastContent(tags, "init_from", "");
    Ok(if fileName != "" then imageFile[id := fileName] else imageFile)
  }

  /** loadMaterial: the mandatory id, the first <instance_effect> and its
    * mandatory url, stored as the effect id it names. */
  function LoadMaterialSpec(materialLib: MaterialLib, attributes: Attributes, tags: seq<Tag>): Result<MaterialLib, FormatError>
  {
    var id :- ReadAttribute(attributes, "id", true);
    var instance :- FirstNamed(tags, "instance_effect");
    var url :- ReadAttribute(instance.attributes, "url", true);
    Ok(LoadMaterial(materialLib, id, url))
  }

  /** A material whose instance_effect names "#fx" resolves to effect fx. */
  lemma LoadMaterialSpecResolves(materialLib: MaterialLib, effects: EffectTable, id: string, effectId: string, tags: seq<Tag>)
    requires '#' !in effectId && effectId in effects
    requires FirstNamed(tags, "instance_effect").Ok?
    requires FirstNamed(tags, "instance_effect").value.attributes == map["url" := "#" + effectId]
    ensures LoadMaterialSpec(materialLib, map["id" := id], tags).Ok?
    ensures MaterialOf(LoadMaterialSpec(materialLib, map["id" := id], tags).value, effects, id) == Some(effects[effectId])
  {
    MaterialUrlResolves(materialLib, effects, id, effectId);
  }

  /** One element inside a channel of an effect's technique: the channel
    * name (emission, ambient, ...) and the <color> or <texture> found in it. */
  datatype EffectElement = EffectElement(channel: string, tag: Tag)

  /** loadCommonColorOrTexture over the elements of an effect: a <color>
    * sets its channel, a <texture> records its mandatory sid as a texture
    * of the effect's material. loadMaterialTechnique enters only the four
    * colour channels, so an element under any other channel is skipped. */
  function EffectElements(m: Material, effectId: string, textureToMaterial: map<string, string>, elements: seq<EffectElement>, num: Numerals): Result<(Material, map<string, string>), FormatError>
    decreases |elements|
  {
    if elements == [] then Ok((m, textureToMaterial))
    else
      var e := elements[0];
      if e.channel !in CHANNELS then EffectElements(m, effectId, textureToMaterial, elements[1..], num)
      else if e.tag.name == "color" then
        var m' :- ApplyColor(m, e.channel, e.tag.content, num);
        EffectElements(m', effectId, textureToMaterial, elements[1..], num)
      else if e.tag.name == "texture" then
        var sid :- ReadAttribute(e.tag.attributes, "texture", true);
        EffectElements(m, effectId, textureToMaterial[sid := effectId], elements[1..], num)
      else EffectElements(m, effectId, textureToMaterial, elements[1..], num)
  }

  /** Elements under channels other than the four colour channels are
    * never entered: they neither set a colour nor record a texture, and
    * cannot fail. */
  lemma {:induction false} EffectElementsOtherChannels(m: Material, effectId: string, textureToMaterial: map<string, string>, elements: seq<EffectElement>, num: Numerals)
    requires forall k :: 0 <= k < |elements| ==> elements[k].channel !in CHANNELS
    ensures EffectElements(m, effectId, textureToMaterial, elements, num) == Ok((m, textureToMaterial))
    decreases |elements|
  {
    if elements != [] {
      assert elements[0].channel !in CHANNELS;
      EffectElementsOtherChannels(m, effectId, textureToMaterial, elements[1..], num);
    }
  }

  /** loadEffect: a material named after the mandatory effect id, with no
    * colour set, is filled from the elements and stored under the id. */
  function LoadEffectSpec(effects: EffectTable, textureToMaterial: map<string, string>, attributes: Attributes, elements: seq<EffectElement>, num: Numerals): Result<(EffectTable, map<string, string>), FormatError>
  {
    var id :- ReadAttribute(attributes, "id", true);
    var filled :- EffectElements(Material(id, None, None, None, None), id, textureToMaterial, elements, num);
    Ok((effects[id := filled.0], filled.1))
  }

  /** The effect elements never rename the material, and every texture
    * they record names the effect being loaded. */
  lemma {:induction false} EffectElementsKeepName(m: Material, effectId: string, textureToMaterial: map<string, string>, elements: seq<EffectElement>, num: Numerals)
    requires EffectElements(m, effectId, textureToMaterial, elements, num).Ok?
    ensures EffectElements(m, effectId, textureToMaterial, elements, num).value.0.name == m.name
    ensures forall sid :: sid in EffectElements(m, effectId, textureToMaterial, elements, num).value.1 ==>
              EffectElements(m, effectId, textureToMaterial, elements, num).value.1[sid] == effectId
              || (sid in textureToMaterial && EffectElements(m, effectId, textureToMaterial, elements, num).value.1[sid] == textureToMaterial[sid])
    ensures forall sid :: sid in textureToMaterial ==> sid in EffectElements(m, effectId, textureToMaterial, elements, num).value.1
    decreases |elements|
  {
    if elements != [] {
      var e := elements[0];
      if e.channel !in CHANNELS {
        EffectElementsKeepName(m, effectId, textureToMaterial, elements[1..], num);
      } else if e.tag.name == "color" {
        var m' := ApplyColor(m, e.channel, e.tag.content, num).value;
        EffectElementsKeepName(m', effectId, textureToMaterial, elements[1..], num);
      } else if e.tag.name == "texture" {
        var sid := e.tag.attributes["texture"];
        EffectElementsKeepName(m, effectId, textureToMaterial[sid := effectId], elements[1..], num);
      } else {
        EffectElementsKeepName(m, effectId, textureToMaterial, elements[1..], num);
      }
    }
  }

  /** A loaded effect is found under its id by a material that references
    * it, and carries that id as its name. */
  lemma LoadEffectFoundByMaterial(effects: EffectTable, textureToMaterial: map<string, string>, id: string, elements: seq<EffectElement>, num: Numerals, materialLib: MaterialLib, materialId: string)
    requires LoadEffectSpec(effects, textureToMaterial, map["id" := id], elements, num).Ok?
    requires materialId in materialLib && materialLib[materialId] == id
    ensures MaterialOf(materialLib, LoadEffectSpec(effects, textureToMaterial, map["id" := id], elements, num).value.0, materialId).Some?
    ensures MaterialOf(materialLib, LoadEffectSpec(effects, textureToMaterial, map["id" := id], elements, num).value.0, materialId).value.name == id
  {
    EffectElementsKeepName(Material(id, None, None, None, None), id, textureToMaterial, elements, num);
  }
}
