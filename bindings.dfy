/** Input bindings of a <polylist> or <triangles> block: the <input>
  * declarations (offset, semantic, source) and the raw index data that
  * follows them, as loadPolylist and loadTriangles collect them. */
module Bindings {
  import opened Wrappers
  import opened XmlInput

  /** The three attribute channels the importer supports. */
  datatype Semantic = Vertex | Normal | Texcoord

  /** Floats per vertex in a semantic's buffer: 2 for TEXCOORD, 3 otherwise. */
  function Stride(s: Semantic): nat
  {
    if s == Texcoord then 2 else 3
  }

  function SemanticName(s: Semantic): string
  {
    match s
    case Vertex => "VERTEX"
    case Normal => "NORMAL"
    case Texcoord => "TEXCOORD"
  }

  /** The semantic attribute: any name but the three supported ones aborts. */
  function SemanticOf(name: string): (r: Result<Semantic, FormatError>)
    ensures r.Ok? <==> name == "VERTEX" || name == "NORMAL" || name == "TEXCOORD"
    ensures r.Ok? ==> SemanticName(r.value) == name
    ensures r.Err? ==> r.error == UnsupportedSemantic(name)
  {
    if name == "VERTEX" then Ok(Vertex)
    else if name == "NORMAL" then Ok(Normal)
    else if name == "TEXCOORD" then Ok(Texcoord)
    else Err(UnsupportedSemantic(name))
  }

  /** InputData: where in a stride the raw index sits, what it indexes, and the bulk array. */
  datatype InputData = InputData(offset: int, semantic: Semantic, source: string)

  /** The bulk-data id an <input> refers to: every '#' removed, then one
    * lookup in the <vertices> alias table, with no further chasing. */
  function ResolveSource(source: string, verticesSource: map<string, string>): string
  {
    var bare := RemoveAll(source, '#');
    if bare in verticesSource then verticesSource[bare] else bare
  }

  /** A reference written with its '#' sigil resolves like the bare id. */
  lemma ResolveSourceSigil(id: string, verticesSource: map<string, string>)
    ensures ResolveSource("#" + id, verticesSource) == ResolveSource(id, verticesSource)
  {
    RemoveAllAppend("#", id, '#');
    assert RemoveAll("#", '#') == RemoveAll("", '#');
  }

  /** Aliases are followed exactly once: an alias whose target is itself
    * an alias resolves to that target, not to the target's target. */
  lemma ResolveSourceOneHop(alias: string, verticesSource: map<string, string>)
    requires '#' !in alias && alias in verticesSource
    ensures ResolveSource(alias, verticesSource) == verticesSource[alias]
  {
    RemoveAllAbsent(alias, '#');
  }

  /** One <input> element of a primitive block. The attributes are read in
    * the order offset, semantic, source; the first problem aborts. */
  function ParseInput(attributes: Attributes, verticesSource: map<string, string>, num: Numerals): (r: Result<InputData, FormatError>)
    ensures "offset" !in attributes ==> r == Err(MissingAttribute("offset"))
    ensures "offset" in attributes && "semantic" !in attributes ==> r == Err(MissingAttribute("semantic"))
    ensures "offset" in attributes && "semantic" in attributes && SemanticOf(attributes["semantic"]).Err? ==>
              r == Err(UnsupportedSemantic(attributes["semantic"]))
    ensures r.Ok? <==> "offset" in attributes && "semantic" in attributes && "source" in attributes
                       && SemanticOf(attributes["semantic"]).Ok?
    ensures r.Err? && "offset" in attributes && "semantic" in attributes && SemanticOf(attributes["semantic"]).Ok? ==>
              r.error == MissingAttribute("source")
    ensures r.Ok? ==> r.value.offset == IntOrZero(num, attributes["offset"])
    ensures r.Ok? ==> SemanticName(r.value.semantic) == attributes["semantic"]
    ensures r.Ok? ==> r.value.source == ResolveSource(attributes["source"], verticesSource)
  {
    var offset :- ReadAttribute(attributes, "offset", true);
    var semanticName :- ReadAttribute(attributes, "semantic", true);
    var semantic :- SemanticOf(semanticName);
    var source :- ReadAttribute(attributes, "source", true);
    Ok(InputData(IntOrZero(num, offset), semantic, ResolveSource(source, verticesSource)))
  }

  /** What loadTriangles has collected so far. */
  datatype TrianglesBlock = TrianglesBlock(material: string, inputs: seq<InputData>, indices: seq<int>)

  /** What loadPolylist has collected so far; count is the declared polygon count. */
  datatype PolylistBlock = PolylistBlock(material: string, count: int, inputs: seq<InputData>, vcount: seq<int>, indices: seq<int>)

  /** One start element inside <triangles>: <input> is read while no index
    * list has been read, and only the first <p> is read. */
  function TrianglesStep(t: Tag, acc: TrianglesBlock, verticesSource: map<string, string>, num: Numerals): Result<TrianglesBlock, FormatError>
  {
    if t.name == "input" && acc.indices == [] then
      var input :- ParseInput(t.attributes, verticesSource, num);
      Ok(acc.(inputs := acc.inputs + [input]))
    else if t.name == "p" && acc.indices == [] then
      var indices :- ParseInts(Split(t.content, ' '), num);
      Ok(acc.(indices := indices))
    else
      Ok(acc)
  }

  function ScanTriangles(tags: seq<Tag>, acc: TrianglesBlock, verticesSource: map<string, string>, num: Numerals): Result<TrianglesBlock, FormatError>
    decreases |tags|
  {
    if tags == [] then Ok(acc)
    else
      var next :- TrianglesStep(tags[0], acc, verticesSource, num);
      ScanTriangles(tags[1..], next, verticesSource, num)
  }

  /** loadTriangles: the optional material attribute, then the scan of the block. */
  function LoadTrianglesSpec(attributes: Attributes, tags: seq<Tag>, verticesSource: map<string, string>, num: Numerals): Result<TrianglesBlock, FormatError>
  {
    var material := ReadAttribute(attributes, "material", false).value;
    ScanTriangles(tags, TrianglesBlock(material, [], []), verticesSource, num)
  }

  /** A <p> that is read leaves a non-empty index list: its text always
    * splits into at least one token. */
  lemma TrianglesStepFillsIndices(t: Tag, acc: TrianglesBlock, verticesSource: map<string, string>, num: Numerals)
    requires t.name == "p" && acc.indices == []
    requires TrianglesStep(t, acc, verticesSource, num).Ok?
    ensures TrianglesStep(t, acc, verticesSource, num).value.indices != []
    ensures TrianglesStep(t, acc, verticesSource, num).value.inputs == acc.inputs
  {
    assert |Split(t.content, ' ')| >= 1;
  }

  /** Once the index list is read, every later element of the block is ignored. */
  lemma {:induction false} TrianglesIgnoreAfterIndices(tags: seq<Tag>, acc: TrianglesBlock, verticesSource: map<string, string>, num: Numerals)
    requires acc.indices != []
    ensures ScanTriangles(tags, acc, verticesSource, num) == Ok(acc)
    decreases |tags|
  {
    if tags != [] {
      TrianglesIgnoreAfterIndices(tags[1..], acc, verticesSource, num);
    }
  }

  /** Whatever follows a block prefix that has produced the index list
    * (a later <input>, a second <p>) does not change the result. */
  lemma {:induction false} TrianglesSuffixIgnored(tags: seq<Tag>, post: seq<Tag>, acc: TrianglesBlock, r: TrianglesBlock, verticesSource: map<string, string>, num: Numerals)
    requires ScanTriangles(tags, acc, verticesSource, num) == Ok(r) && r.indices != []
    ensures ScanTriangles(tags + post, acc, verticesSource, num) == Ok(r)
    decreases |tags|
  {
    if tags == [] {
      assert tags + post == post;
      TrianglesIgnoreAfterIndices(post, acc, verticesSource, num);
    } else {
      assert (tags + post)[0] == tags[0];
      assert (tags + post)[1..] == tags[1..] + post;
      var next := TrianglesStep(tags[0], acc, verticesSource, num).value;
      TrianglesSuffixIgnored(tags[1..], post, next, r, verticesSource, num);
    }
  }

  /** One start element inside <polylist>: <input> is read until a vcount
    * list exists, <vcount> once some input exists (each one must hold
    * exactly count tokens, and is appended), and only the first <p> that
    * follows a vcount list. */
  function PolylistStep(t: Tag, acc: PolylistBlock, verticesSource: map<string, string>, num: Numerals): Result<PolylistBlock, FormatError>
  {
    if t.name == "input" && acc.vcount == [] then
      var input :- ParseInput(t.attributes, verticesSource, num);
      Ok(acc.(inputs := acc.inputs + [input]))
    else if t.name == "vcount" && |acc.inputs| > 0 then
      var tokens := Split(t.content, ' ');
      if |tokens| != acc.count then Err(CountMismatch("vcount"))
      else
        var counts :- ParseInts(tokens, num);
        Ok(acc.(vcount := acc.vcount + counts))
    else if t.name == "p" && acc.vcount != [] && acc.indices == [] then
      var indices :- ParseInts(Split(t.content, ' '), num);
      Ok(acc.(indices := indices))
    else
      Ok(acc)
  }

  function ScanPolylist(tags: seq<Tag>, acc: PolylistBlock, verticesSource: map<string, string>, num: Numerals): Result<PolylistBlock, FormatError>
    decreases |tags|
  {
    if tags == [] then Ok(acc)
    else
      var next :- PolylistStep(tags[0], acc, verticesSource, num);
      ScanPolylist(tags[1..], next, verticesSource, num)
  }

  /** loadPolylist: the mandatory polygon count, the optional material, then the scan. */
  function LoadPolylistSpec(attributes: Attributes, tags: seq<Tag>, verticesSource: map<string, string>, num: Numerals): Result<PolylistBlock, FormatError>
  {
    var count :- ReadAttribute(attributes, "count", true);
    var material := ReadAttribute(attributes, "material", false).value;
    ScanPolylist(tags, PolylistBlock(material, IntOrZero(num, count), [], [], []), verticesSource, num)
  }

  /** The order the scan imposes: a vcount list is read only after some
    * input and under a count of at least 1 (its size must equal count),
    * and an index list only after a vcount list. */
  ghost predicate PolylistOrdered(b: PolylistBlock)
  {
    && (b.vcount != [] ==> b.inputs != [] && b.count >= 1)
    && (b.indices != [] ==> b.vcount != [])
  }

  lemma {:induction false} ScanPolylistOrdered(tags: seq<Tag>, acc: PolylistBlock, r: PolylistBlock, verticesSource: map<string, string>, num: Numerals)
    requires PolylistOrdered(acc)
    requires ScanPolylist(tags, acc, verticesSource, num) == Ok(r)
    ensures PolylistOrdered(r)
    ensures r.count == acc.count && r.material == acc.material
    ensures acc.vcount != [] ==> r.inputs == acc.inputs
    ensures |acc.vcount| <= |r.vcount|
    ensures acc.vcount != [] ==> r.vcount[..|acc.vcount|] == acc.vcount
    ensures acc.indices != [] ==> r.indices == acc.indices
    decreases |tags|
  {
    if tags != [] {
      var t := tags[0];
      var next := PolylistStep(t, acc, verticesSource, num).value;
      if t.name == "vcount" && |acc.inputs| > 0 {
        assert |Split(t.content, ' ')| >= 1;
      }
      if t.name == "p" && acc.vcount != [] && acc.indices == [] {
        assert |Split(t.content, ' ')| >= 1;
      }
      assert PolylistOrdered(next);
      assert acc.vcount != [] ==> next.vcount[..|acc.vcount|] == acc.vcount;
      ScanPolylistOrdered(tags[1..], next, r, verticesSource, num);
      if acc.vcount != [] {
        assert r.vcount[..|acc.vcount|] == r.vcount[..|next.vcount|][..|acc.vcount|];
      }
    }
  }

  /** A <vcount> read once some input exists: it fails with the vcount
    * count mismatch exactly when its token count differs from the count
    * attribute; otherwise it fails exactly when a token does not convert,
    * with that token, and else appends count values, the conversions of
    * the tokens in order. */
  lemma PolylistVcountStep(t: Tag, acc: PolylistBlock, verticesSource: map<string, string>, num: Numerals)
    requires t.name == "vcount" && |acc.inputs| > 0
    ensures var tokens := Split(t.content, ' ');
            var r := PolylistStep(t, acc, verticesSource, num);
            && (r == Err(CountMismatch("vcount")) <==> |tokens| != acc.count)
            && (|tokens| == acc.count ==> (r.Ok? <==> forall i :: 0 <= i < |tokens| ==> num.toInt(tokens[i]).Some?))
            && (|tokens| == acc.count && r.Err? ==> r.error.MalformedNumber? && r.error.token in tokens)
            && (r.Ok? ==> && r.value.inputs == acc.inputs && r.value.indices == acc.indices && r.value.count == acc.count
                          && |r.value.vcount| == |acc.vcount| + acc.count
                          && r.value.vcount[..|acc.vcount|] == acc.vcount
                          && forall i :: 0 <= i < |tokens| ==> num.toInt(tokens[i]) == Some(r.value.vcount[|acc.vcount| + i]))
  {
    var tokens := Split(t.content, ' ');
    var r := PolylistStep(t, acc, verticesSource, num);
    if |tokens| == acc.count && r.Ok? {
      var counts := ParseInts(tokens, num).value;
      assert r.value.vcount == acc.vcount + counts;
    }
  }

  /** The <p> of a polylist, read after a vcount list: it fails exactly when
    * a token does not convert, with that token, and otherwise stores the
    * conversions of all its tokens, in order, as the index list. */
  lemma PolylistIndicesStep(t: Tag, acc: PolylistBlock, verticesSource: map<string, string>, num: Numerals)
    requires t.name == "p" && acc.vcount != [] && acc.indices == []
    ensures PolylistStep(t, acc, verticesSource, num).Ok?
            <==> forall i :: 0 <= i < |Split(t.content, ' ')| ==> num.toInt(Split(t.content, ' ')[i]).Some?
    ensures PolylistStep(t, acc, verticesSource, num).Err? ==>
              && PolylistStep(t, acc, verticesSource, num).error.MalformedNumber?
              && PolylistStep(t, acc, verticesSource, num).error.token in Split(t.content, ' ')
    ensures PolylistStep(t, acc, verticesSource, num).Ok? ==>
              var b := PolylistStep(t, acc, verticesSource, num).value;
              && b.inputs == acc.inputs && b.vcount == acc.vcount && b.count == acc.count
              && |b.indices| == |Split(t.content, ' ')|
              && forall i :: 0 <= i < |b.indices| ==> num.toInt(Split(t.content, ' ')[i]) == Some(b.indices[i])
  {
    var parsed := ParseInts(Split(t.content, ' '), num);
    assert parsed.Err? ==> PolylistStep(t, acc, verticesSource, num) == Err(parsed.error);
    assert parsed.Ok? ==> PolylistStep(t, acc, verticesSource, num) == Ok(acc.(indices := parsed.value));
  }

  /** The scan stops at its first failing element: when the elements before
    * position k are read and the one at k fails, the whole block fails
    * with that element's error, whatever follows. */
  lemma {:induction false} ScanPolylistFailsAt(tags: seq<Tag>, k: nat, acc: PolylistBlock, mid: PolylistBlock, verticesSource: map<string, string>, num: Numerals)
    requires k < |tags|
    requires ScanPolylist(tags[..k], acc, verticesSource, num) == Ok(mid)
    requires PolylistStep(tags[k], mid, verticesSource, num).Err?
    ensures ScanPolylist(tags, acc, verticesSource, num) == Err(PolylistStep(tags[k], mid, verticesSource, num).error)
    decreases k
  {
    if k == 0 {
      assert tags[..0] == [];
    } else {
      assert tags[..k][0] == tags[0];
      var next := PolylistStep(tags[0], acc, verticesSource, num).value;
      assert tags[..k][1..] == tags[1..][..k - 1];
      ScanPolylistFailsAt(tags[1..], k - 1, next, mid, verticesSource, num);
    }
  }

  /** Every <vcount> read holds exactly count values, so a scan that starts
    * with whole polygon lists ends with whole ones: the vcount list is
    * total lists of count values each, and is empty unless count is at
    * least 1. */
  lemma {:induction false} ScanPolylistWholeVcounts(tags: seq<Tag>, acc: PolylistBlock, r: PolylistBlock, lists: nat, verticesSource: map<string, string>, num: Numerals)
      returns (total: nat)
    requires |acc.vcount| == lists * acc.count && (acc.vcount != [] ==> acc.count >= 1)
    requires ScanPolylist(tags, acc, verticesSource, num) == Ok(r)
    ensures r.count == acc.count && lists <= total
    ensures |r.vcount| == total * r.count
    ensures r.vcount != [] ==> r.count >= 1
    decreases |tags|
  {
    total := lists;
    if tags != [] {
      var t := tags[0];
      var next := PolylistStep(t, acc, verticesSource, num).value;
      var nextLists := lists;
      if t.name == "vcount" && |acc.inputs| > 0 {
        PolylistVcountStep(t, acc, verticesSource, num);
        assert |Split(t.content, ' ')| >= 1;
        nextLists := lists + 1;
        assert |next.vcount| == |acc.vcount| + acc.count && next.count == acc.count;
        assert (lists + 1) * acc.count == lists * acc.count + acc.count;
      }
      total := ScanPolylistWholeVcounts(tags[1..], next, r, nextLists, verticesSource, num);
    }
  }
}
