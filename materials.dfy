/** Materials and textures: the colour reader, the material and texture
  * tables, and the lookup chains that createMesh and
  * linkTexturesToMaterials resolve through them. */
module Materials {
  import opened Wrappers
  import opened XmlInput

  /** A colour as readXmlColor hands it to QColor::set*F. */
  datatype Color = Color(red: Float, green: Float, blue: Float, alpha: Float)

  /** GLC_Material as the effect loader builds it: named after the effect
    * id, with the colours of its technique's channels. */
  datatype Material = Material(name: string, emission: Option<Color>, ambient: Option<Color>, diffuse: Option<Color>, specular: Option<Color>)

  /** readXmlColor: the content of <color> must split into exactly four
    * tokens, each of which converts to a float. */
  function ReadXmlColor(text: string, num: Numerals): (r: Result<Color, FormatError>)
    ensures r.Ok? <==> |Split(text, ' ')| == 4 && forall k :: 0 <= k < 4 ==> num.toFloat(Split(text, ' ')[k]).Some?
    ensures r.Err? ==> r.error == MalformedColor(text)
  {
    var tokens := Split(text, ' ');
    if |tokens| != 4 then Err(MalformedColor(text))
    else
      var red, green, blue, alpha := num.toFloat(tokens[0]), num.toFloat(tokens[1]), num.toFloat(tokens[2]), num.toFloat(tokens[3]);
      if red.Some? && green.Some? && blue.Some? && alpha.Some? then
        Ok(Color(red.value, green.value, blue.value, alpha.value))
      else
        Err(MalformedColor(text))
  }

  /** Four space-free float tokens written with single spaces between them
    * read back as the colour of those four floats, in order. */
  lemma ReadXmlColorOfTokens(r: string, g: string, b: string, a: string, num: Numerals)
    requires ' ' !in r && ' ' !in g && ' ' !in b && ' ' !in a
    requires num.toFloat(r).Some? && num.toFloat(g).Some? && num.toFloat(b).Some? && num.toFloat(a).Some?
    ensures ReadXmlColor(Join([r, g, b, a], ' '), num)
            == Ok(Color(num.toFloat(r).value, num.toFloat(g).value, num.toFloat(b).value, num.toFloat(a).value))
  {
    SplitJoin([r, g, b, a], ' ');
  }

  /** Any other number of space-free tokens is refused, whatever they hold. */
  lemma ReadXmlColorRejectsCount(tokens: seq<string>, num: Numerals)
    requires |tokens| >= 1 && |tokens| != 4
    requires forall k :: 0 <= k < |tokens| ==> ' ' !in tokens[k]
    ensures ReadXmlColor(Join(tokens, ' '), num) == Err(MalformedColor(Join(tokens, ' ')))
  {
    SplitJoin(tokens, ' ');
  }

  /** The channels loadMaterialTechnique hands to loadCommonColorOrTexture. */
  const CHANNELS: set<string> := {"emission", "ambient", "diffuse", "specular"}

  /** The colour branch of loadCommonColorOrTexture: a <color> under one of
    * the four channels sets that channel; under any other name it is read
    * by no one and changes nothing. */
  function ApplyColor(m: Material, channel: string, text: string, num: Numerals): (r: Result<Material, FormatError>)
    ensures channel !in CHANNELS ==> r == Ok(m)
    ensures channel in CHANNELS ==> (r.Ok? <==> ReadXmlColor(text, num).Ok?)
    ensures r.Ok? && channel == "emission" ==> r.value == m.(emission := Some(ReadXmlColor(text, num).value))
    ensures r.Ok? && channel == "ambient" ==> r.value == m.(ambient := Some(ReadXmlColor(text, num).value))
    ensures r.Ok? && channel == "diffuse" ==> r.value == m.(diffuse := Some(ReadXmlColor(text, num).value))
    ensures r.Ok? && channel == "specular" ==> r.value == m.(specular := Some(ReadXmlColor(text, num).value))
  {
    if channel == "emission" then var c :- ReadXmlColor(text, num); Ok(m.(emission := Some(c)))
    else if channel == "ambient" then var c :- ReadXmlColor(text, num); Ok(m.(ambient := Some(c)))
    else if channel == "diffuse" then var c :- ReadXmlColor(text, num); Ok(m.(diffuse := Some(c)))
    else if channel == "specular" then var c :- ReadXmlColor(text, num); Ok(m.(specular := Some(c)))
    else Ok(m)
  }

  /** m_MaterialLibHash: material id to effect reference. */
  type MaterialLib = map<string, string>

  /** m_MaterialEffectHash: effect id to material. */
  type EffectTable = map<string, Material>

  /** The lookup of createMesh: the material id's effect reference (the
    * empty string when the id is unknown), then the material of that
    * effect; None is the null material. */
  function MaterialOf(materialLib: MaterialLib, effects: EffectTable, materialId: string): (r: Option<Material>)
    ensures r.Some? <==> ValueOr(materialLib, materialId, "") in effects
    ensures r.Some? ==> r.value == effects[ValueOr(materialLib, materialId, "")]
  {
    var effectId := ValueOr(materialLib, materialId, "");
    if effectId in effects then Some(effects[effectId]) else None
  }

  /** loadMaterial as written: the instance_effect url is stored verbatim,
    * '#' sigil included, unless it is empty. */
  function LoadMaterialAsWritten(materialLib: MaterialLib, id: string, url: string): (lib: MaterialLib)
    ensures url == "" ==> lib == materialLib
    ensures url != "" ==> lib == materialLib[id := url] && lib[id] == url
  {
    if url != "" then materialLib[id := url] else materialLib
  }

  /** loadMaterial as intended: the url is stored as the effect id it
    * names, with its '#' removed as every other reference is. */
  function LoadMaterial(materialLib: MaterialLib, id: string, url: string): (lib: MaterialLib)
    ensures url == "" ==> lib == materialLib
    ensures url != "" ==> lib == materialLib[id := RemoveAll(url, '#')]
  {
    if url != "" then materialLib[id := RemoveAll(url, '#')] else materialLib
  }

  /** With the verbatim url, an instance_effect reference "#fx" never
    * reaches the effect "fx": when no effect id carries a '#', the material
    * lookup gives the null material. */
  lemma MaterialUrlAsWrittenNeverResolves(materialLib: MaterialLib, effects: EffectTable, id: string, effectId: string)
    requires forall e :: e in effects ==> '#' !in e
    ensures MaterialOf(LoadMaterialAsWritten(materialLib, id, "#" + effectId), effects, id) == None
  {
    var lib := LoadMaterialAsWritten(materialLib, id, "#" + effectId);
    assert lib[id] == "#" + effectId;
    assert ("#" + effectId)[0] == '#';
  }

  /** With the url reduced to its id, the same reference reaches its effect. */
  lemma MaterialUrlResolves(materialLib: MaterialLib, effects: EffectTable, id: string, effectId: string)
    requires '#' !in effectId && effectId in effects
    ensures MaterialOf(LoadMaterial(materialLib, id, "#" + effectId), effects, id) == Some(effects[effectId])
  {
    RemoveAllAppend("#", effectId, '#');
    RemoveAllAbsent(effectId, '#');
    assert RemoveAll("#", '#') == RemoveAll("", '#');
    assert "" + effectId == effectId;
  }

  /** A second material entry for the same id replaces the first. */
  lemma LoadMaterialReplaces(materialLib: MaterialLib, effects: EffectTable, id: string, first: string, second: string, effectId: string)
    requires second == "#" + effectId && '#' !in effectId && effectId in effects
    ensures MaterialOf(LoadMaterial(LoadMaterial(materialLib, id, first), id, second), effects, id) == Some(effects[effectId])
  {
    MaterialUrlResolves(LoadMaterial(materialLib, id, first), effects, id, effectId);
  }

  /** The three hops of linkTexturesToMaterials: sampler sid to surface,
    * surface to image, image to file name; all three must be present. */
  function TextureFileOf(sampler2DSurface: map<string, string>, surfaceImage: map<string, string>, imageFile: map<string, string>, sid: string): (r: Option<string>)
    ensures r.Some? <==> sid in sampler2DSurface && sampler2DSurface[sid] in surfaceImage
                         && surfaceImage[sampler2DSurface[sid]] in imageFile
    ensures r.Some? ==> r.value == imageFile[surfaceImage[sampler2DSurface[sid]]]
  {
    if sid in sampler2DSurface && sampler2DSurface[sid] in surfaceImage && surfaceImage[sampler2DSurface[sid]] in imageFile then
      Some(imageFile[surfaceImage[sampler2DSurface[sid]]])
    else
      None
  }

  /** A texture the importer attaches: the effect whose material gets it,
    * and the image path it is loaded from. */
  datatype TextureLink = TextureLink(effect: string, path: string)

  /** The image path: the directory of the document, the separator, then
    * the file name the image table holds. */
  function ImagePath(documentDir: string, separator: char, fileName: string): string
  {
    documentDir + [separator] + fileName
  }

  /** What linkTexturesToMaterials attaches: every referenced texture sid
    * whose three hops resolve to a file that exists, with the effect that
    * referenced it. Which of several textures of one material wins depends
    * on the hash order and is not stated. */
  ghost function TextureLinks(textureToMaterial: map<string, string>, sampler2DSurface: map<string, string>, surfaceImage: map<string, string>,
                              imageFile: map<string, string>, documentDir: string, separator: char, fileExists: string -> bool): map<string, TextureLink>
  {
    map sid | sid in textureToMaterial
                && TextureFileOf(sampler2DSurface, surfaceImage, imageFile, sid).Some?
                && fileExists(ImagePath(documentDir, separator, TextureFileOf(sampler2DSurface, surfaceImage, imageFile, sid).value))
      :: TextureLink(textureToMaterial[sid], ImagePath(documentDir, separator, TextureFileOf(sampler2DSurface, surfaceImage, imageFile, sid).value))
  }
}
