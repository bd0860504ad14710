/** The vertex consolidator shared by addPolylistToCurrentMesh and
  * addTrianglesToCurrentMesh: the raw index stream is walked in strides,
  * each stride's raw indices form a composite key, and the key is
  * deduplicated into a dense index, with the attribute floats of every new
  * key copied from the bulk arrays into per-semantic buffers. */
module Consolidation {
  import opened Wrappers
  import opened XmlInput
  import opened Bindings

  /** ColladaVertice: one raw index per semantic. */
  datatype VertexKey = VertexKey(vertex: int, normal: int, texcoord: int) {
    function Slot(s: Semantic): int
    {
      match s
      case Vertex => vertex
      case Normal => normal
      case Texcoord => texcoord
    }

    function With(s: Semantic, raw: int): (k: VertexKey)
      ensures k.Slot(s) == raw
      ensures forall t :: t != s ==> k.Slot(t) == Slot(t)
    {
      match s
      case Vertex => this.(vertex := raw)
      case Normal => this.(normal := raw)
      case Texcoord => this.(texcoord := raw)
    }
  }

  /** A freshly constructed ColladaVertice; a semantic with no binding keeps 0. */
  const UNBOUND_KEY := VertexKey(0, 0, 0)

  /** m_Datas: one flat float buffer per semantic. */
  datatype Buffers = Buffers(vertex: seq<Float>, normal: seq<Float>, texcoord: seq<Float>) {
    function Get(s: Semantic): seq<Float>
    {
      match s
      case Vertex => vertex
      case Normal => normal
      case Texcoord => texcoord
    }

    function Append(s: Semantic, values: seq<Float>): (b: Buffers)
      ensures b.Get(s) == Get(s) + values
      ensures forall t :: t != s ==> b.Get(t) == Get(t)
    {
      match s
      case Vertex => this.(vertex := vertex + values)
      case Normal => this.(normal := normal + values)
      case Texcoord => this.(texcoord := texcoord + values)
    }
  }

  const EMPTY_BUFFERS := Buffers([], [], [])

  /** m_BulkDataHash: bulk float arrays by source id. */
  type BulkData = map<string, seq<Float>>

  predicate SourcesKnown(inputs: seq<InputData>, bulk: BulkData)
  {
    forall b :: 0 <= b < |inputs| ==> inputs[b].source in bulk
  }

  /** Semantics bound at most once each. */
  ghost predicate DistinctSemantics(inputs: seq<InputData>)
  {
    forall j, k :: 0 <= j < k < |inputs| ==> inputs[j].semantic != inputs[k].semantic
  }

  /** jb is the only binding of semantic s. */
  ghost predicate BoundOnceAt(inputs: seq<InputData>, s: Semantic, jb: int)
  {
    && 0 <= jb < |inputs| && inputs[jb].semantic == s
    && forall j :: 0 <= j < |inputs| && j != jb ==> inputs[j].semantic != s
  }

  ghost predicate Unbound(inputs: seq<InputData>, s: Semantic)
  {
    forall j :: 0 <= j < |inputs| ==> inputs[j].semantic != s
  }

  /** hasNormals: some binding has semantic NORMAL. */
  predicate HasNormals(inputs: seq<InputData>)
  {
    exists b :: 0 <= b < |inputs| && inputs[b].semantic == Normal
  }

  /** The first bound source that is not a bulk array, if any. */
  function FirstUnknownSource(inputs: seq<InputData>, bulk: BulkData): (r: Option<string>)
    ensures r.None? <==> SourcesKnown(inputs, bulk)
    ensures r.Some? ==> exists k :: 0 <= k < |inputs| && inputs[k].source == r.value && r.value !in bulk
                                     && forall j :: 0 <= j < k ==> inputs[j].source in bulk
    decreases |inputs|
  {
    if inputs == [] then None
    else if inputs[0].source !in bulk then Some(inputs[0].source)
    else
      var rest := FirstUnknownSource(inputs[1..], bulk);
      assert forall j :: 1 <= j < |inputs| ==> inputs[j] == inputs[1..][j - 1];
      if rest.Some? then
        ghost var k :| 0 <= k < |inputs[1..]| && inputs[1..][k].source == rest.value && rest.value !in bulk
                       && forall j :: 0 <= j < k ==> inputs[1..][j].source in bulk;
        assert inputs[k + 1].source == rest.value;
        assert forall j :: 0 <= j < k + 1 ==> inputs[j].source in bulk;
        rest
      else
        rest
  }

  /** The largest m_Offset of the first bindings, starting from 0. */
  function MaxOffset(inputs: seq<InputData>): (m: int)
    ensures m >= 0
    ensures forall b :: 0 <= b < |inputs| ==> inputs[b].offset <= m
    ensures m == 0 || exists b :: 0 <= b < |inputs| && inputs[b].offset == m
    decreases |inputs|
  {
    if inputs == [] then 0
    else
      var m := MaxOffset(inputs[..|inputs| - 1]);
      assert forall b :: 0 <= b < |inputs| - 1 ==> inputs[b] == inputs[..|inputs| - 1][b];
      if inputs[|inputs| - 1].offset > m then inputs[|inputs| - 1].offset else m
  }

  /** Every raw index of the stride starting at i lies inside the index list. */
  predicate InRange(inputs: seq<InputData>, p: seq<int>, i: int)
  {
    forall b :: 0 <= b < |inputs| ==> 0 <= i + inputs[b].offset < |p|
  }

  /** The composite key of the stride starting at i; a later binding of the
    * same semantic overwrites an earlier one. */
  function KeyOf(inputs: seq<InputData>, p: seq<int>, i: int): VertexKey
    requires InRange(inputs, p, i)
    decreases |inputs|
  {
    if inputs == [] then UNBOUND_KEY
    else
      var last := inputs[|inputs| - 1];
      KeyOf(inputs[..|inputs| - 1], p, i).With(last.semantic, p[i + last.offset])
  }

  /** A semantic's slot holds the raw index of its last binding. */
  lemma {:induction false} KeyOfLastBinding(inputs: seq<InputData>, p: seq<int>, i: int, s: Semantic, jb: int)
    requires InRange(inputs, p, i)
    requires 0 <= jb < |inputs| && inputs[jb].semantic == s
    requires forall j :: jb < j < |inputs| ==> inputs[j].semantic != s
    ensures KeyOf(inputs, p, i).Slot(s) == p[i + inputs[jb].offset]
    decreases |inputs|
  {
    var n := |inputs|;
    if jb < n - 1 {
      var front := inputs[..n - 1];
      assert front[jb] == inputs[jb];
      KeyOfLastBinding(front, p, i, s, jb);
    }
  }

  /** A semantic without a binding keeps the slot of the fresh key. */
  lemma {:induction false} KeyOfUnbound(inputs: seq<InputData>, p: seq<int>, i: int, s: Semantic)
    requires InRange(inputs, p, i) && Unbound(inputs, s)
    ensures KeyOf(inputs, p, i).Slot(s) == 0
    decreases |inputs|
  {
    if inputs != [] {
      KeyOfUnbound(inputs[..|inputs| - 1], p, i, s);
    }
  }

  /** With distinct semantics two strides share a key exactly when they
    * hold the same raw indices, so deduplication merges only true repeats. */
  lemma KeyOfInjective(inputs: seq<InputData>, p: seq<int>, i: int, p2: seq<int>, i2: int)
    requires DistinctSemantics(inputs) && InRange(inputs, p, i) && InRange(inputs, p2, i2)
    ensures KeyOf(inputs, p, i) == KeyOf(inputs, p2, i2) <==>
              forall b :: 0 <= b < |inputs| ==> p[i + inputs[b].offset] == p2[i2 + inputs[b].offset]
  {
    forall b | 0 <= b < |inputs|
      ensures KeyOf(inputs, p, i).Slot(inputs[b].semantic) == p[i + inputs[b].offset]
      ensures KeyOf(inputs, p2, i2).Slot(inputs[b].semantic) == p2[i2 + inputs[b].offset]
    {
      KeyOfLastBinding(inputs, p, i, inputs[b].semantic, b);
      KeyOfLastBinding(inputs, p2, i2, inputs[b].semantic, b);
    }
    if forall b :: 0 <= b < |inputs| ==> p[i + inputs[b].offset] == p2[i2 + inputs[b].offset] {
      var k1, k2 := KeyOf(inputs, p, i), KeyOf(inputs, p2, i2);
      forall s: Semantic ensures k1.Slot(s) == k2.Slot(s) {
        if Unbound(inputs, s) {
          KeyOfUnbound(inputs, p, i, s);
          KeyOfUnbound(inputs, p2, i2, s);
        }
      }
      assert k1.Slot(Vertex) == k2.Slot(Vertex) && k1.Slot(Normal) == k2.Slot(Normal) && k1.Slot(Texcoord) == k2.Slot(Texcoord);
    }
  }

  /** The st floats that raw index n owns in a buffer read with stride st. */
  function Chunk(buf: seq<Float>, st: nat, n: int): Option<seq<Float>>
  {
    if 0 <= n * st && n * st + st <= |buf| then Some(Window(buf, n * st, st)) else None
  }

  /** The len floats of buf from position lo on, read one at a time. */
  function Window(buf: seq<Float>, lo: int, len: nat): (w: seq<Float>)
    requires 0 <= lo && lo + len <= |buf|
    ensures |w| == len
    decreases len
  {
    if len == 0 then [] else [buf[lo]] + Window(buf, lo + 1, len - 1)
  }

  lemma {:induction false} WindowIsSlice(buf: seq<Float>, lo: int, len: nat)
    requires 0 <= lo && lo + len <= |buf|
    ensures Window(buf, lo, len) == buf[lo .. lo + len]
    decreases len
  {
    if len > 0 {
      WindowIsSlice(buf, lo + 1, len - 1);
      assert buf[lo .. lo + len] == [buf[lo]] + buf[lo + 1 .. lo + len];
    }
  }

  /** The bulk floats of one new key, appended binding by binding: the
    * floats at raw*stride, raw*stride+1 and (but for TEXCOORD) raw*stride+2
    * of the binding's source; a read outside the array fails. */
  function AppendAttributes(inputs: seq<InputData>, bulk: BulkData, p: seq<int>, i: int, datas: Buffers): Result<Buffers, FormatError>
    requires SourcesKnown(inputs, bulk) && InRange(inputs, p, i)
    decreases |inputs|
  {
    if inputs == [] then Ok(datas)
    else
      var b := inputs[0];
      var values := Chunk(bulk[b.source], Stride(b.semantic), p[i + b.offset]);
      if values.None? then Err(IndexOutOfRange)
      else AppendAttributes(inputs[1..], bulk, p, i, datas.Append(b.semantic, values.value))
  }

  /** The bindings from d on still name known sources and read inside p. */
  lemma SuffixInRange(inputs: seq<InputData>, bulk: BulkData, p: seq<int>, i: int, d: int)
    requires SourcesKnown(inputs, bulk) && InRange(inputs, p, i) && 0 <= d <= |inputs|
    ensures SourcesKnown(inputs[d..], bulk) && InRange(inputs[d..], p, i)
  {
    assert forall b :: 0 <= b < |inputs[d..]| ==> inputs[d..][b] == inputs[d + b];
  }

  /** AppendAttributes from binding d on, one binding unfolded. */
  lemma AppendAttributesAt(inputs: seq<InputData>, bulk: BulkData, p: seq<int>, i: int, datas: Buffers, d: int)
    requires SourcesKnown(inputs, bulk) && InRange(inputs, p, i) && 0 <= d < |inputs|
    ensures SourcesKnown(inputs[d..], bulk) && InRange(inputs[d..], p, i)
    ensures SourcesKnown(inputs[d + 1..], bulk) && InRange(inputs[d + 1..], p, i)
    ensures inputs[d].source in bulk && 0 <= i + inputs[d].offset < |p|
    ensures AppendAttributes(inputs[d..], bulk, p, i, datas) ==
              var values := Chunk(bulk[inputs[d].source], Stride(inputs[d].semantic), p[i + inputs[d].offset]);
              if values.None? then Err(IndexOutOfRange)
              else AppendAttributes(inputs[d + 1..], bulk, p, i, datas.Append(inputs[d].semantic, values.value))
  {
    SuffixInRange(inputs, bulk, p, i, d);
    SuffixInRange(inputs, bulk, p, i, d + 1);
    assert inputs[d..][1..] == inputs[d + 1..] && inputs[d..][0] == inputs[d];
  }

  /** A successful AppendAttributes, its first binding unfolded: that
    * binding's chunk exists and the rest appends onto it. */
  lemma AppendAttributesHead(inputs: seq<InputData>, bulk: BulkData, p: seq<int>, i: int, datas: Buffers, r: Buffers)
    requires SourcesKnown(inputs, bulk) && InRange(inputs, p, i) && inputs != []
    requires AppendAttributes(inputs, bulk, p, i, datas) == Ok(r)
    ensures SourcesKnown(inputs[1..], bulk) && InRange(inputs[1..], p, i)
    ensures inputs[0].source in bulk && 0 <= i + inputs[0].offset < |p|
    ensures Chunk(bulk[inputs[0].source], Stride(inputs[0].semantic), p[i + inputs[0].offset]).Some?
    ensures AppendAttributes(inputs[1..], bulk, p, i,
              datas.Append(inputs[0].semantic, Chunk(bulk[inputs[0].source], Stride(inputs[0].semantic), p[i + inputs[0].offset]).value)) == Ok(r)
  {
    SuffixInRange(inputs, bulk, p, i, 1);
  }

  /** A successful AppendAttributes past its first binding: the rest
    * appends onto buffers that differ only in that binding's semantic. */
  lemma AppendAttributesNext(inputs: seq<InputData>, bulk: BulkData, p: seq<int>, i: int, datas: Buffers, r: Buffers) returns (next: Buffers)
    requires SourcesKnown(inputs, bulk) && InRange(inputs, p, i) && inputs != []
    requires AppendAttributes(inputs, bulk, p, i, datas) == Ok(r)
    ensures SourcesKnown(inputs[1..], bulk) && InRange(inputs[1..], p, i)
    ensures AppendAttributes(inputs[1..], bulk, p, i, next) == Ok(r)
    ensures forall t :: t != inputs[0].semantic ==> next.Get(t) == datas.Get(t)
  {
    AppendAttributesHead(inputs, bulk, p, i, datas, r);
    var b := inputs[0];
    next := datas.Append(b.semantic, Chunk(bulk[b.source], Stride(b.semantic), p[i + b.offset]).value);
  }

  /** Floats appended per new key to a semantic's buffer: its stride for each binding. */
  function Width(inputs: seq<InputData>, s: Semantic): nat
    decreases |inputs|
  {
    if inputs == [] then 0
    else (if inputs[0].semantic == s then Stride(s) else 0) + Width(inputs[1..], s)
  }

  lemma {:induction false} WidthOfBinding(inputs: seq<InputData>, s: Semantic, jb: int)
    requires BoundOnceAt(inputs, s, jb) || (jb == -1 && Unbound(inputs, s))
    ensures Width(inputs, s) == if jb == -1 then 0 else Stride(s)
    decreases |inputs|
  {
    if inputs != [] {
      if jb == 0 || jb == -1 {
        WidthOfBinding(inputs[1..], s, -1);
      } else {
        WidthOfBinding(inputs[1..], s, jb - 1);
      }
    }
  }


  /** Each buffer grows by its semantic's width and keeps what it held. */
  lemma {:induction false} AppendAttributesGrowth(inputs: seq<InputData>, bulk: BulkData, p: seq<int>, i: int, datas: Buffers, r: Buffers)
    requires SourcesKnown(inputs, bulk) && InRange(inputs, p, i)
    requires AppendAttributes(inputs, bulk, p, i, datas) == Ok(r)
    ensures forall s :: |r.Get(s)| == |datas.Get(s)| + Width(inputs, s) && r.Get(s)[..|datas.Get(s)|] == datas.Get(s)
    decreases |inputs|
  {
    if inputs != [] {
      var b := inputs[0];
      var values := Chunk(bulk[b.source], Stride(b.semantic), p[i + b.offset]).value;
      var next := datas.Append(b.semantic, values);
      AppendAttributesGrowth(inputs[1..], bulk, p, i, next, r);
      forall s ensures |r.Get(s)| == |datas.Get(s)| + Width(inputs, s) && r.Get(s)[..|datas.Get(s)|] == datas.Get(s) {
        assert r.Get(s)[..|datas.Get(s)|] == r.Get(s)[..|next.Get(s)|][..|datas.Get(s)|];
      }
    }
  }

  /** The buffer of a semantic no binding names is left as it is. */
  lemma {:induction false} AppendAttributesUnbound(inputs: seq<InputData>, bulk: BulkData, p: seq<int>, i: int, datas: Buffers, r: Buffers, s: Semantic)
    requires SourcesKnown(inputs, bulk) && InRange(inputs, p, i)
    requires AppendAttributes(inputs, bulk, p, i, datas) == Ok(r)
    requires Unbound(inputs, s)
    ensures r.Get(s) == datas.Get(s)
    decreases |inputs|
  {
    if inputs != [] {
      AppendAttributesHead(inputs, bulk, p, i, datas, r);
      var b := inputs[0];
      var chunk := Chunk(bulk[b.source], Stride(b.semantic), p[i + b.offset]);
      var next := datas.Append(b.semantic, chunk.value);
      assert b.semantic != s;
      UnboundTail(inputs, s);
      AppendAttributesUnbound(inputs[1..], bulk, p, i, next, r, s);
    }
  }

  lemma UnboundTail(inputs: seq<InputData>, s: Semantic)
    requires inputs != [] && (Unbound(inputs, s) || BoundOnceAt(inputs, s, 0))
    ensures Unbound(inputs[1..], s)
  {
    forall j | 0 <= j < |inputs[1..]| ensures inputs[1..][j].semantic != s {
      assert inputs[1..][j] == inputs[j + 1];
    }
  }

  lemma BoundOnceTail(inputs: seq<InputData>, s: Semantic, jb: int)
    requires BoundOnceAt(inputs, s, jb) && jb > 0
    ensures BoundOnceAt(inputs[1..], s, jb - 1) && inputs[1..][jb - 1] == inputs[jb]
  {
    forall j | 0 <= j < |inputs[1..]| && j != jb - 1 ensures inputs[1..][j].semantic != s {
      assert inputs[1..][j] == inputs[j + 1];
    }
  }

  /** The first binding is the semantic's only one: its buffer receives that
    * binding's chunk and nothing more. */
  lemma AppendAttributesFirst(inputs: seq<InputData>, bulk: BulkData, p: seq<int>, i: int, datas: Buffers, r: Buffers, s: Semantic)
    requires SourcesKnown(inputs, bulk) && InRange(inputs, p, i)
    requires AppendAttributes(inputs, bulk, p, i, datas) == Ok(r)
    requires BoundOnceAt(inputs, s, 0)
    ensures Chunk(bulk[inputs[0].source], Stride(s), p[i + inputs[0].offset]).Some?
    ensures r.Get(s) == datas.Get(s) + Chunk(bulk[inputs[0].source], Stride(s), p[i + inputs[0].offset]).value
  {
    AppendAttributesHead(inputs, bulk, p, i, datas, r);
    var b := inputs[0];
    var chunk := Chunk(bulk[b.source], Stride(b.semantic), p[i + b.offset]);
    var next := datas.Append(b.semantic, chunk.value);
    UnboundTail(inputs, s);
    AppendAttributesUnbound(inputs[1..], bulk, p, i, next, r, s);
  }

  /** The buffer of a semantic bound once receives exactly the chunk of its
    * raw index in its source, and that read lies inside the source. */
  lemma {:induction false} AppendAttributesCopies(inputs: seq<InputData>, bulk: BulkData, p: seq<int>, i: int, datas: Buffers, r: Buffers, s: Semantic, jb: int)
    requires SourcesKnown(inputs, bulk) && InRange(inputs, p, i)
    requires AppendAttributes(inputs, bulk, p, i, datas) == Ok(r)
    requires BoundOnceAt(inputs, s, jb)
    ensures Chunk(bulk[inputs[jb].source], Stride(s), p[i + inputs[jb].offset]).Some?
    ensures r.Get(s) == datas.Get(s) + Chunk(bulk[inputs[jb].source], Stride(s), p[i + inputs[jb].offset]).value
    decreases |inputs|, 1
  {
    if jb == 0 {
      AppendAttributesFirst(inputs, bulk, p, i, datas, r, s);
    } else {
      AppendAttributesLater(inputs, bulk, p, i, datas, r, s, jb);
    }
  }

  /** A later binding is the semantic's only one: the first binding leaves
    * the semantic's buffer alone and the rest appends the chunk. */
  lemma {:induction false} AppendAttributesLater(inputs: seq<InputData>, bulk: BulkData, p: seq<int>, i: int, datas: Buffers, r: Buffers, s: Semantic, jb: int)
    requires SourcesKnown(inputs, bulk) && InRange(inputs, p, i)
    requires AppendAttributes(inputs, bulk, p, i, datas) == Ok(r)
    requires BoundOnceAt(inputs, s, jb) && jb > 0
    ensures Chunk(bulk[inputs[jb].source], Stride(s), p[i + inputs[jb].offset]).Some?
    ensures r.Get(s) == datas.Get(s) + Chunk(bulk[inputs[jb].source], Stride(s), p[i + inputs[jb].offset]).value
    decreases |inputs|, 0
  {
    var next := AppendAttributesNext(inputs, bulk, p, i, datas, r);
    BoundOnceTail(inputs, s, jb);
    AppendAttributesPast(inputs[1..], bulk, p, i, datas, next, r, s, jb - 1, inputs[jb]);
  }

  /** Copying past a binding of another semantic: its append leaves the
    * semantic's buffer as it was. */
  lemma {:induction false} AppendAttributesPast(rest: seq<InputData>, bulk: BulkData, p: seq<int>, i: int, datas: Buffers, next: Buffers, r: Buffers, s: Semantic, jb: int, d: InputData)
    requires SourcesKnown(rest, bulk) && InRange(rest, p, i)
    requires AppendAttributes(rest, bulk, p, i, next) == Ok(r) && next.Get(s) == datas.Get(s)
    requires BoundOnceAt(rest, s, jb) && rest[jb] == d
    ensures d.source in bulk && 0 <= i + d.offset < |p|
    ensures Chunk(bulk[d.source], Stride(s), p[i + d.offset]).Some?
    ensures r.Get(s) == datas.Get(s) + Chunk(bulk[d.source], Stride(s), p[i + d.offset]).value
    decreases |rest|, 2
  {
    AppendAttributesCopies(rest, bulk, p, i, next, r, s, jb);
  }

  /** The consolidator's running state: the block's dense index list grows
    * beside the mesh's mapping, free index and buffers. */
  datatype Acc = Acc(mapping: map<VertexKey, nat>, freeIndex: nat, datas: Buffers, dense: seq<nat>)

  /** One stride at position i: a known key reuses its dense index; a new
    * key takes freeIndex, which then grows by one, and its attribute floats
    * are appended. */
  function Step(inputs: seq<InputData>, bulk: BulkData, p: seq<int>, i: int, acc: Acc): Result<Acc, FormatError>
    requires SourcesKnown(inputs, bulk)
  {
    if !InRange(inputs, p, i) then Err(IndexOutOfRange)
    else
      var key := KeyOf(inputs, p, i);
      if key in acc.mapping then
        Ok(acc.(dense := acc.dense + [acc.mapping[key]]))
      else
        var datas :- AppendAttributes(inputs, bulk, p, i, acc.datas);
        Ok(Acc(acc.mapping[key := acc.freeIndex], acc.freeIndex + 1, datas, acc.dense + [acc.freeIndex]))
  }

  /** The stride loop from position i, in strides of the given width. */
  function Consolidate(inputs: seq<InputData>, bulk: BulkData, p: seq<int>, stride: nat, i: nat, acc: Acc): Result<Acc, FormatError>
    requires stride >= 1 && SourcesKnown(inputs, bulk)
    decreases |p| - i
  {
    if i >= |p| then Ok(acc)
    else
      var next :- Step(inputs, bulk, p, i, acc);
      Consolidate(inputs, bulk, p, stride, i + stride, next)
  }

  /** A stride loop that succeeds read every binding of the stride at i,
    * and goes on from the position after it. */
  lemma ConsolidateReads(inputs: seq<InputData>, bulk: BulkData, p: seq<int>, stride: nat, i: nat, acc: Acc, r: Acc) returns (next: Acc, after: nat)
    requires stride >= 1 && SourcesKnown(inputs, bulk) && i < |p|
    requires Consolidate(inputs, bulk, p, stride, i, acc) == Ok(r)
    ensures InRange(inputs, p, i) && after == i + stride
    ensures Step(inputs, bulk, p, i, acc) == Ok(next)
    ensures Consolidate(inputs, bulk, p, stride, after, next) == Ok(r)
  {
    next := Step(inputs, bulk, p, i, acc).value;
    after := i + stride;
  }

  /** The positions the stride loop visits: i, i+stride, ... below n. */
  function Starts(n: int, stride: nat, i: int): seq<int>
    requires stride >= 1
    decreases n - i
  {
    if i >= n then [] else [i] + Starts(n, stride, i + stride)
  }

  /** The stride loop emits one dense index per stride. */
  lemma {:induction false} ConsolidateLength(inputs: seq<InputData>, bulk: BulkData, p: seq<int>, stride: nat, i: nat, acc: Acc, r: Acc)
    requires stride >= 1 && SourcesKnown(inputs, bulk)
    requires Consolidate(inputs, bulk, p, stride, i, acc) == Ok(r)
    ensures |r.dense| == |acc.dense| + |Starts(|p|, stride, i)|
    decreases |p| - i
  {
    if i < |p| {
      var next, after := ConsolidateReads(inputs, bulk, p, stride, i, acc, r);
      assert |next.dense| == |acc.dense| + 1;
      ConsolidateLength(inputs, bulk, p, stride, after, next, r);
    }
  }

  /** A whole stride loop from an empty index list emits
    * ceil(|p|/stride) indices. */
  lemma ConsolidateCount(inputs: seq<InputData>, bulk: BulkData, p: seq<int>, stride: nat, acc: Acc, r: Acc)
    requires stride >= 1 && SourcesKnown(inputs, bulk) && acc.dense == []
    requires Consolidate(inputs, bulk, p, stride, 0, acc) == Ok(r)
    ensures |p| <= |r.dense| * stride
    ensures |r.dense| == 0 || (|r.dense| - 1) * stride < |p|
  {
    ConsolidateLength(inputs, bulk, p, stride, 0, acc, r);
    StartsCount(|p|, stride, 0);
  }

  /** A stride loop that succeeds read every binding of every stride it
    * started. */
  lemma {:induction false} ConsolidateReadsAll(inputs: seq<InputData>, bulk: BulkData, p: seq<int>, stride: nat, i: nat, acc: Acc, r: Acc)
    requires stride >= 1 && SourcesKnown(inputs, bulk)
    requires Consolidate(inputs, bulk, p, stride, i, acc) == Ok(r)
    ensures forall j :: j in Starts(|p|, stride, i) ==> InRange(inputs, p, j)
    decreases |p| - i
  {
    if i < |p| {
      var next, after := ConsolidateReads(inputs, bulk, p, stride, i, acc, r);
      ConsolidateReadsAll(inputs, bulk, p, stride, after, next, r);
      assert Starts(|p|, stride, i) == [i] + Starts(|p|, stride, after);
    }
  }

  /** Strides that each read a binding at the stride's last offset inside
    * p cover p exactly: |p| is a whole number of strides. */
  lemma ReadsWhole(inputs: seq<InputData>, p: seq<int>, stride: nat, b: int) returns (c: nat)
    requires stride >= 1
    requires 0 <= b < |inputs| && inputs[b].offset == stride - 1
    requires forall j :: j in Starts(|p|, stride, 0) ==> InRange(inputs, p, j)
    ensures |p| == c * stride
  {
    forall j | j in Starts(|p|, stride, 0) ensures j + stride <= |p| {
      assert InRange(inputs, p, j);
      assert j + inputs[b].offset < |p|;
    }
    StartsWhole(|p|, stride, 0);
    c := |Starts(|p|, stride, 0)|;
  }

  /** A block's stride loop, in strides of maxOffset+1, succeeds only on
    * whole strides: |p| is a multiple of maxOffset+1. A p cut short fails
    * at its last, partial stride, whose widest binding reads past the end. */
  lemma ConsolidateAligned(inputs: seq<InputData>, bulk: BulkData, p: seq<int>, acc: Acc, r: Acc) returns (c: nat)
    requires SourcesKnown(inputs, bulk)
    requires Consolidate(inputs, bulk, p, MaxOffset(inputs) + 1, 0, acc) == Ok(r)
    ensures |p| == c * (MaxOffset(inputs) + 1)
  {
    ConsolidateReadsAll(inputs, bulk, p, MaxOffset(inputs) + 1, 0, acc, r);
    var m := MaxOffset(inputs);
    if m == 0 {
      c := |p|;
      assert c * (m + 1) == c;
    } else {
      var b :| 0 <= b < |inputs| && inputs[b].offset == m;
      c := ReadsWhole(inputs, p, m + 1, b);
    }
  }

  /** Strides that all fit inside n cover it exactly: n is i plus a whole
    * number of strides. */
  lemma {:induction false} StartsWhole(n: int, stride: nat, i: int)
    requires stride >= 1 && i <= n
    requires forall j :: j in Starts(n, stride, i) ==> j + stride <= n
    ensures n == i + |Starts(n, stride, i)| * stride
    decreases n - i
  {
    if i < n {
      assert i in Starts(n, stride, i);
      var next := i + stride;
      assert Starts(n, stride, i) == [i] + Starts(n, stride, next);
      forall j | j in Starts(n, stride, next) ensures j + stride <= n {
        assert j in Starts(n, stride, i);
      }
      StartsWhole(n, stride, next);
    }
  }

  /** One stride per started position: the count c is the ceiling of
    * (n-i)/stride, the least c with n-i <= c*stride. */
  lemma {:induction false} StartsCount(n: int, stride: nat, i: int)
    requires stride >= 1 && i <= n
    ensures n - i <= |Starts(n, stride, i)| * stride
    ensures |Starts(n, stride, i)| == 0 || (|Starts(n, stride, i)| - 1) * stride < n - i
    decreases n - i
  {
    if i < n {
      var c := |Starts(n, stride, i)|;
      if i + stride >= n {
        assert Starts(n, stride, i + stride) == [];
        assert c == 1;
      } else {
        StartsCount(n, stride, i + stride);
        var c' := |Starts(n, stride, i + stride)|;
        assert c == c' + 1;
        assert c * stride == c' * stride + stride;
      }
    }
  }

  lemma {:induction false} StartsBounds(n: int, stride: nat, i: int)
    requires stride >= 1
    ensures forall j :: 0 <= j < |Starts(n, stride, i)| ==> i <= Starts(n, stride, i)[j] < n
    decreases n - i
  {
    if i < n {
      StartsBounds(n, stride, i + stride);
      assert forall j :: 1 <= j < |Starts(n, stride, i)| ==> Starts(n, stride, i)[j] == Starts(n, stride, i + stride)[j - 1];
    }
  }

  /** m_Mapping hands out the dense indices below m_FreeIndex, one key each. */
  ghost predicate DenseMapping(m: map<VertexKey, nat>, free: nat)
  {
    && (forall k :: k in m ==> m[k] < free)
    && (forall k1, k2 :: k1 in m && k2 in m && m[k1] == m[k2] ==> k1 == k2)
    && (forall d :: 0 <= d < free ==> d in m.Values)
  }

  lemma DenseInsert(m: map<VertexKey, nat>, free: nat, key: VertexKey)
    requires DenseMapping(m, free) && key !in m
    ensures DenseMapping(m[key := free], free + 1)
  {
    var m' := m[key := free];
    forall d | 0 <= d < free + 1 ensures d in m'.Values {
      if d < free {
        assert d in m.Values;
        var k :| k in m && m[k] == d;
        assert m'[k] == d;
      } else {
        assert m'[key] == d;
      }
    }
  }

  ghost predicate Extends(m1: map<VertexKey, nat>, m2: map<VertexKey, nat>)
  {
    forall k :: k in m1 ==> k in m2 && m2[k] == m1[k]
  }

  /** The stride at q has a key, and m maps that key to d. */
  ghost predicate StrideMapsTo(inputs: seq<InputData>, p: seq<int>, q: int, m: map<VertexKey, nat>, d: nat)
  {
    InRange(inputs, p, q) && KeyOf(inputs, p, q) in m && m[KeyOf(inputs, p, q)] == d
  }

  lemma ExtendsTransitive(m1: map<VertexKey, nat>, m2: map<VertexKey, nat>, m3: map<VertexKey, nat>)
    requires Extends(m1, m2) && Extends(m2, m3)
    ensures Extends(m1, m3)
  {
  }

  /** A grown mapping keeps what the stride's key was mapped to. */
  lemma StrideMapsToExtends(inputs: seq<InputData>, p: seq<int>, q: int, m1: map<VertexKey, nat>, m2: map<VertexKey, nat>, d: nat)
    requires StrideMapsTo(inputs, p, q, m1, d) && Extends(m1, m2)
    ensures StrideMapsTo(inputs, p, q, m2, d)
  {
  }

  /** One stride: the stride's key ends up mapped, to a known index or to
    * the old free index, and its index is what gets emitted. */
  lemma StepAssigns(inputs: seq<InputData>, bulk: BulkData, p: seq<int>, i: int, acc: Acc, next: Acc)
    requires SourcesKnown(inputs, bulk) && DenseMapping(acc.mapping, acc.freeIndex)
    requires Step(inputs, bulk, p, i, acc) == Ok(next)
    ensures InRange(inputs, p, i)
    ensures DenseMapping(next.mapping, next.freeIndex) && Extends(acc.mapping, next.mapping)
    ensures StrideMapsTo(inputs, p, i, next.mapping, next.dense[|acc.dense|])
    ensures next.dense == acc.dense + [next.dense[|acc.dense|]]
    ensures KeyOf(inputs, p, i) in acc.mapping ==> next.freeIndex == acc.freeIndex && next.datas == acc.datas && next.mapping == acc.mapping
    ensures KeyOf(inputs, p, i) !in acc.mapping ==>
              && next.freeIndex == acc.freeIndex + 1
              && next.mapping == acc.mapping[KeyOf(inputs, p, i) := acc.freeIndex]
              && AppendAttributes(inputs, bulk, p, i, acc.datas) == Ok(next.datas)
  {
    if KeyOf(inputs, p, i) !in acc.mapping {
      DenseInsert(acc.mapping, acc.freeIndex, KeyOf(inputs, p, i));
    }
  }

  lemma StepKeepsDense(inputs: seq<InputData>, bulk: BulkData, p: seq<int>, i: int, acc: Acc, next: Acc)
    requires SourcesKnown(inputs, bulk) && DenseMapping(acc.mapping, acc.freeIndex)
    requires Step(inputs, bulk, p, i, acc) == Ok(next)
    ensures DenseMapping(next.mapping, next.freeIndex)
  {
    StepAssigns(inputs, bulk, p, i, acc, next);
  }

  /** The stride loop emits one dense index per stride, namely the index
    * the final mapping gives that stride's key; the mapping stays dense,
    * only grows, and never rebinds a key. */
  lemma {:induction false} ConsolidateAssignsKeys(inputs: seq<InputData>, bulk: BulkData, p: seq<int>, stride: nat, i: nat, acc: Acc, r: Acc)
    requires stride >= 1 && SourcesKnown(inputs, bulk)
    requires DenseMapping(acc.mapping, acc.freeIndex)
    requires Consolidate(inputs, bulk, p, stride, i, acc) == Ok(r)
    ensures DenseMapping(r.mapping, r.freeIndex)
    ensures Extends(acc.mapping, r.mapping) && acc.freeIndex <= r.freeIndex
    ensures |r.dense| == |acc.dense| + |Starts(|p|, stride, i)|
    ensures r.dense[..|acc.dense|] == acc.dense
    ensures forall j :: 0 <= j < |Starts(|p|, stride, i)| ==>
              StrideMapsTo(inputs, p, Starts(|p|, stride, i)[j], r.mapping, r.dense[|acc.dense| + j])
    decreases |p| - i
  {
    if i < |p| {
      var next, after := ConsolidateReads(inputs, bulk, p, stride, i, acc, r);
      StepAssigns(inputs, bulk, p, i, acc, next);
      ConsolidateAssignsKeys(inputs, bulk, p, stride, after, next, r);
      var starts := Starts(|p|, stride, i);
      var later := Starts(|p|, stride, after);
      assert starts == [i] + later;
      assert |next.dense| == |acc.dense| + 1 && |starts| == |later| + 1;
      ExtendsTransitive(acc.mapping, next.mapping, r.mapping);
      PrefixThrough(acc.dense, next.dense[|acc.dense|], r.dense);
      StrideMapsToExtends(inputs, p, i, next.mapping, r.mapping, next.dense[|acc.dense|]);
      StridesMapCons(inputs, p, i, later, r.mapping, r.dense, |acc.dense|, |next.dense|);
    }
  }

  /** A list that starts with a + [x] starts with a, and holds x next. */
  lemma PrefixThrough(a: seq<nat>, x: nat, r: seq<nat>)
    requires |a| + 1 <= |r| && r[..|a| + 1] == a + [x]
    ensures r[..|a|] == a && r[|a|] == x
  {
    assert r[..|a|] == r[..|a| + 1][..|a|];
    assert r[|a|] == r[..|a| + 1][|a|];
  }

  /** The stride at i, then the later strides, each mapped to its index. */
  lemma StridesMapCons(inputs: seq<InputData>, p: seq<int>, i: int, later: seq<int>, m: map<VertexKey, nat>, dense: seq<nat>, base: nat, rest: nat)
    requires rest == base + 1 && rest + |later| <= |dense|
    requires StrideMapsTo(inputs, p, i, m, dense[base])
    requires forall j :: 0 <= j < |later| ==> StrideMapsTo(inputs, p, later[j], m, dense[rest + j])
    ensures forall j :: 0 <= j < |[i] + later| ==> StrideMapsTo(inputs, p, ([i] + later)[j], m, dense[base + j])
  {
    forall j | 0 <= j < |[i] + later|
      ensures StrideMapsTo(inputs, p, ([i] + later)[j], m, dense[base + j])
    {
      if j > 0 {
        assert ([i] + later)[j] == later[j - 1];
        assert base + j == rest + (j - 1);
      }
    }
  }

  /** The buffers only grow, and the buffer of an unbound semantic is left
    * as it is. */
  lemma {:induction false} ConsolidateKeepsBuffers(inputs: seq<InputData>, bulk: BulkData, p: seq<int>, stride: nat, i: nat, acc: Acc, r: Acc)
    requires stride >= 1 && SourcesKnown(inputs, bulk)
    requires DenseMapping(acc.mapping, acc.freeIndex)
    requires Consolidate(inputs, bulk, p, stride, i, acc) == Ok(r)
    ensures forall s :: |acc.datas.Get(s)| <= |r.datas.Get(s)| && r.datas.Get(s)[..|acc.datas.Get(s)|] == acc.datas.Get(s)
    ensures forall s :: Unbound(inputs, s) ==> r.datas.Get(s) == acc.datas.Get(s)
    decreases |p| - i
  {
    if i < |p| {
      var next, after := ConsolidateReads(inputs, bulk, p, stride, i, acc, r);
      StepAssigns(inputs, bulk, p, i, acc, next);
      ConsolidateKeepsBuffers(inputs, bulk, p, stride, after, next, r);
      if KeyOf(inputs, p, i) !in acc.mapping {
        AppendAttributesGrowth(inputs, bulk, p, i, acc.datas, next.datas);
        forall s
          ensures |acc.datas.Get(s)| <= |r.datas.Get(s)| && r.datas.Get(s)[..|acc.datas.Get(s)|] == acc.datas.Get(s)
          ensures Unbound(inputs, s) ==> r.datas.Get(s) == acc.datas.Get(s)
        {
          assert r.datas.Get(s)[..|acc.datas.Get(s)|] == r.datas.Get(s)[..|next.datas.Get(s)|][..|acc.datas.Get(s)|];
          if Unbound(inputs, s) {
            AppendAttributesUnbound(inputs, bulk, p, i, acc.datas, next.datas, s);
          }
        }
      }
    }
  }

  /** Every key of dense index base or later owns, in buffer buf read with
    * the stride of s, the chunk its raw index owns in the source array. */
  ghost predicate CopiedFrom(m: map<VertexKey, nat>, base: nat, buf: seq<Float>, s: Semantic, source: seq<Float>)
  {
    forall k :: k in m && base <= m[k] ==>
      Chunk(source, Stride(s), k.Slot(s)).Some? && Chunk(buf, Stride(s), m[k]) == Chunk(source, Stride(s), k.Slot(s))
  }

  /** A stride mapped to a copied vertex: the vertex's chunk is the one its
    * raw index, read through the semantic's only binding, owns in the source. */
  lemma StrideCopied(inputs: seq<InputData>, p: seq<int>, q: int, m: map<VertexKey, nat>, d: nat, base: nat, buf: seq<Float>, s: Semantic, jb: int, source: seq<Float>)
    requires StrideMapsTo(inputs, p, q, m, d) && base <= d
    requires CopiedFrom(m, base, buf, s, source) && BoundOnceAt(inputs, s, jb)
    ensures InRange(inputs, p, q)
    ensures Chunk(source, Stride(s), p[q + inputs[jb].offset]).Some?
    ensures Chunk(buf, Stride(s), d) == Chunk(source, Stride(s), p[q + inputs[jb].offset])
  {
    KeyOfLastBinding(inputs, p, q, s, jb);
  }

  /** No key is mapped at or above the free index, so nothing is copied yet. */
  lemma NothingCopiedYet(m: map<VertexKey, nat>, free: nat, buf: seq<Float>, s: Semantic, source: seq<Float>)
    requires DenseMapping(m, free)
    ensures CopiedFrom(m, free, buf, s, source)
  {
  }

  /** Each stride of a block (at positions starts) that emitted a dense
    * index of base or later is in range, and that vertex owns, in buf read
    * with the stride of s, the chunk the stride's raw index owns in source
    * through the semantic's only binding jb. */
  ghost predicate BlockCopied(inputs: seq<InputData>, p: seq<int>, starts: seq<int>, dense: seq<nat>, base: nat, buf: seq<Float>, s: Semantic, jb: int, source: seq<Float>)
  {
    && BoundOnceAt(inputs, s, jb)
    && |dense| == |starts|
    && forall j :: 0 <= j < |dense| && dense[j] >= base ==>
         && InRange(inputs, p, starts[j])
         && Chunk(source, Stride(s), p[starts[j] + inputs[jb].offset]).Some?
         && Chunk(buf, Stride(s), dense[j]) == Chunk(source, Stride(s), p[starts[j] + inputs[jb].offset])
  }

  /** StrideCopied for every stride of a block at once. */
  lemma StridesCopied(inputs: seq<InputData>, p: seq<int>, starts: seq<int>, dense: seq<nat>, m: map<VertexKey, nat>, base: nat, buf: seq<Float>, s: Semantic, jb: int, source: seq<Float>)
    requires |dense| == |starts|
    requires forall j :: 0 <= j < |dense| ==> StrideMapsTo(inputs, p, starts[j], m, dense[j])
    requires CopiedFrom(m, base, buf, s, source) && BoundOnceAt(inputs, s, jb)
    ensures BlockCopied(inputs, p, starts, dense, base, buf, s, jb, source)
  {
    forall j | 0 <= j < |dense| && dense[j] >= base
      ensures InRange(inputs, p, starts[j])
      ensures Chunk(source, Stride(s), p[starts[j] + inputs[jb].offset]).Some?
      ensures Chunk(buf, Stride(s), dense[j]) == Chunk(source, Stride(s), p[starts[j] + inputs[jb].offset])
    {
      StrideCopied(inputs, p, starts[j], m, dense[j], base, buf, s, jb, source);
    }
  }

  /** A whole stride loop started on an empty index list, for a semantic
    * bound once whose buffer holds Stride(s) floats per vertex: it still
    * does, and each stride that created a vertex copied its raw index's
    * chunk from the bound source. */
  lemma ConsolidateCopiesStrides(inputs: seq<InputData>, bulk: BulkData, p: seq<int>, stride: nat, acc: Acc, r: Acc, s: Semantic, jb: int)
    requires stride >= 1 && SourcesKnown(inputs, bulk)
    requires Consolidate(inputs, bulk, p, stride, 0, acc) == Ok(r)
    requires BoundOnceAt(inputs, s, jb) && acc.dense == []
    requires DenseMapping(acc.mapping, acc.freeIndex)
    requires |acc.datas.Get(s)| == Stride(s) * acc.freeIndex
    ensures |r.datas.Get(s)| == Stride(s) * r.freeIndex
    ensures BlockCopied(inputs, p, Starts(|p|, stride, 0), r.dense, acc.freeIndex, r.datas.Get(s), s, jb, bulk[inputs[jb].source])
  {
    ConsolidateAssignsKeys(inputs, bulk, p, stride, 0, acc, r);
    NothingCopiedYet(acc.mapping, acc.freeIndex, acc.datas.Get(s), s, bulk[inputs[jb].source]);
    ConsolidateCopies(inputs, bulk, p, stride, 0, acc, r, s, jb, acc.freeIndex);
    StridesCopied(inputs, p, Starts(|p|, stride, 0), r.dense, r.mapping, acc.freeIndex, r.datas.Get(s), s, jb, bulk[inputs[jb].source]);
  }

  lemma ChunkOfPrefix(buf: seq<Float>, extra: seq<Float>, st: nat, n: int)
    requires Chunk(buf, st, n).Some?
    ensures Chunk(buf + extra, st, n) == Chunk(buf, st, n)
  {
    WindowIsSlice(buf, n * st, st);
    WindowIsSlice(buf + extra, n * st, st);
    assert (buf + extra)[n * st .. n * st + st] == buf[n * st .. n * st + st];
  }

  /** Binding a new key to the free index while appending the chunk of its
    * raw index keeps an aligned buffer aligned and its chunks copied. */
  lemma NewKeyCopies(m: map<VertexKey, nat>, free: nat, key: VertexKey, base: nat, buf: seq<Float>, chunk: seq<Float>, s: Semantic, source: seq<Float>)
    requires forall k :: k in m ==> m[k] < free
    requires key !in m && |buf| == Stride(s) * free
    requires CopiedFrom(m, base, buf, s, source)
    requires Chunk(source, Stride(s), key.Slot(s)) == Some(chunk)
    ensures |buf + chunk| == Stride(s) * (free + 1)
    ensures CopiedFrom(m[key := free], base, buf + chunk, s, source)
  {
    var st := Stride(s);
    var m' := m[key := free];
    assert |chunk| == st;
    WindowIsSlice(buf + chunk, free * st, st);
    assert (buf + chunk)[free * st .. free * st + st] == chunk;
    forall k | k in m' && base <= m'[k]
      ensures Chunk(source, st, k.Slot(s)).Some? && Chunk(buf + chunk, st, m'[k]) == Chunk(source, st, k.Slot(s))
    {
      if k != key {
        ChunkOfPrefix(buf, chunk, st, m[k]);
      }
    }
  }

  /** One stride keeps a bound-once semantic's buffer aligned with the free
    * index and copies the new key's chunk from its raw index's chunk. */
  lemma StepCopies(inputs: seq<InputData>, bulk: BulkData, p: seq<int>, i: int, acc: Acc, next: Acc, s: Semantic, jb: int, base: nat)
    requires SourcesKnown(inputs, bulk) && DenseMapping(acc.mapping, acc.freeIndex)
    requires Step(inputs, bulk, p, i, acc) == Ok(next)
    requires BoundOnceAt(inputs, s, jb)
    requires |acc.datas.Get(s)| == Stride(s) * acc.freeIndex
    requires CopiedFrom(acc.mapping, base, acc.datas.Get(s), s, bulk[inputs[jb].source])
    ensures DenseMapping(next.mapping, next.freeIndex)
    ensures |next.datas.Get(s)| == Stride(s) * next.freeIndex
    ensures CopiedFrom(next.mapping, base, next.datas.Get(s), s, bulk[inputs[jb].source])
  {
    StepAssigns(inputs, bulk, p, i, acc, next);
    var key := KeyOf(inputs, p, i);
    if key !in acc.mapping {
      AppendAttributesCopies(inputs, bulk, p, i, acc.datas, next.datas, s, jb);
      KeyOfLastBinding(inputs, p, i, s, jb);
      var chunk := Chunk(bulk[inputs[jb].source], Stride(s), p[i + inputs[jb].offset]).value;
      NewKeyCopies(acc.mapping, acc.freeIndex, key, base, acc.datas.Get(s), chunk, s, bulk[inputs[jb].source]);
    }
  }

  /** For a semantic bound once and a buffer aligned with the free index,
    * the stride loop copies each new key's chunk from its raw index in the
    * semantic's source, and keeps the buffer aligned. */
  lemma {:induction false} ConsolidateCopies(inputs: seq<InputData>, bulk: BulkData, p: seq<int>, stride: nat, i: nat, acc: Acc, r: Acc, s: Semantic, jb: int, base: nat)
    requires stride >= 1 && SourcesKnown(inputs, bulk)
    requires Consolidate(inputs, bulk, p, stride, i, acc) == Ok(r)
    requires BoundOnceAt(inputs, s, jb)
    requires DenseMapping(acc.mapping, acc.freeIndex)
    requires |acc.datas.Get(s)| == Stride(s) * acc.freeIndex
    requires CopiedFrom(acc.mapping, base, acc.datas.Get(s), s, bulk[inputs[jb].source])
    ensures |r.datas.Get(s)| == Stride(s) * r.freeIndex
    ensures CopiedFrom(r.mapping, base, r.datas.Get(s), s, bulk[inputs[jb].source])
  {
    ConsolidateKeepsCopies(inputs, bulk, p, stride, i, acc, r, s, jb, base);
  }

  /** What ConsolidateCopies carries from stride to stride, as one fact. */
  ghost predicate CopyInvariant(inputs: seq<InputData>, bulk: BulkData, acc: Acc, s: Semantic, jb: int, base: nat)
  {
    && SourcesKnown(inputs, bulk) && BoundOnceAt(inputs, s, jb)
    && DenseMapping(acc.mapping, acc.freeIndex)
    && |acc.datas.Get(s)| == Stride(s) * acc.freeIndex
    && CopiedFrom(acc.mapping, base, acc.datas.Get(s), s, bulk[inputs[jb].source])
  }

  lemma StepKeepsCopies(inputs: seq<InputData>, bulk: BulkData, p: seq<int>, i: int, acc: Acc, next: Acc, s: Semantic, jb: int, base: nat)
    requires SourcesKnown(inputs, bulk) && Step(inputs, bulk, p, i, acc) == Ok(next)
    requires CopyInvariant(inputs, bulk, acc, s, jb, base)
    ensures CopyInvariant(inputs, bulk, next, s, jb, base)
  {
    StepCopies(inputs, bulk, p, i, acc, next, s, jb, base);
  }

  lemma {:induction false} ConsolidateKeepsCopies(inputs: seq<InputData>, bulk: BulkData, p: seq<int>, stride: nat, i: nat, acc: Acc, r: Acc, s: Semantic, jb: int, base: nat)
    requires stride >= 1 && SourcesKnown(inputs, bulk)
    requires Consolidate(inputs, bulk, p, stride, i, acc) == Ok(r)
    requires CopyInvariant(inputs, bulk, acc, s, jb, base)
    ensures CopyInvariant(inputs, bulk, r, s, jb, base)
    decreases |p| - i
  {
    if i < |p| {
      var next, after := ConsolidateReads(inputs, bulk, p, stride, i, acc, r);
      StepKeepsCopies(inputs, bulk, p, i, acc, next, s, jb, base);
      ConsolidateKeepsCopies(inputs, bulk, p, stride, after, next, r, s, jb, base);
    }
  }

  /** The next index a new key would get after the dense list: one more
    * than the largest index in it, and at least base. */
  function NextFresh(dense: seq<nat>, base: nat): (n: nat)
    ensures n >= base
    ensures forall j :: 0 <= j < |dense| ==> dense[j] < n
    decreases |dense|
  {
    if dense == [] then base
    else
      var n := NextFresh(dense[..|dense| - 1], base);
      assert forall j :: 0 <= j < |dense| - 1 ==> dense[j] == dense[..|dense| - 1][j];
      if dense[|dense| - 1] + 1 > n then dense[|dense| - 1] + 1 else n
  }

  /** First-seen order: every dense index reuses an index seen before it or
    * is the next fresh one, and the free index is the next fresh index. */
  ghost predicate FirstSeen(dense: seq<nat>, base: nat, free: nat)
  {
    && NextFresh(dense, base) == free
    && forall j :: 0 <= j < |dense| ==> dense[j] <= NextFresh(dense[..j], base)
  }

  lemma StepFirstSeen(inputs: seq<InputData>, bulk: BulkData, p: seq<int>, i: int, acc: Acc, next: Acc, base: nat)
    requires SourcesKnown(inputs, bulk) && DenseMapping(acc.mapping, acc.freeIndex)
    requires Step(inputs, bulk, p, i, acc) == Ok(next)
    requires FirstSeen(acc.dense, base, acc.freeIndex)
    ensures FirstSeen(next.dense, base, next.freeIndex)
  {
    StepAssigns(inputs, bulk, p, i, acc, next);
    var n := |acc.dense|;
    assert next.dense[..n] == acc.dense;
    forall j | 0 <= j < n ensures next.dense[..j] == acc.dense[..j] {
      assert next.dense[..j] == next.dense[..n][..j];
    }
  }

  lemma {:induction false} ConsolidateFirstSeen(inputs: seq<InputData>, bulk: BulkData, p: seq<int>, stride: nat, i: nat, acc: Acc, r: Acc, base: nat)
    requires stride >= 1 && SourcesKnown(inputs, bulk)
    requires Consolidate(inputs, bulk, p, stride, i, acc) == Ok(r)
    requires DenseMapping(acc.mapping, acc.freeIndex)
    requires FirstSeen(acc.dense, base, acc.freeIndex)
    ensures FirstSeen(r.dense, base, r.freeIndex)
    decreases |p| - i
  {
    if i < |p| {
      var next, after := ConsolidateReads(inputs, bulk, p, stride, i, acc, r);
      StepAssigns(inputs, bulk, p, i, acc, next);
      StepFirstSeen(inputs, bulk, p, i, acc, next, base);
      ConsolidateFirstSeen(inputs, bulk, p, stride, after, next, r, base);
    }
  }

  /** A run in which every stride's key is already mapped adds no key and no
    * data and emits the mapped indices. */
  lemma {:induction false} ConsolidateAllKnown(inputs: seq<InputData>, bulk: BulkData, p: seq<int>, stride: nat, i: nat, acc: Acc, ds: seq<nat>)
    requires stride >= 1 && SourcesKnown(inputs, bulk)
    requires |ds| == |Starts(|p|, stride, i)|
    requires forall j :: 0 <= j < |ds| ==> StrideMapsTo(inputs, p, Starts(|p|, stride, i)[j], acc.mapping, ds[j])
    ensures Consolidate(inputs, bulk, p, stride, i, acc) == Ok(acc.(dense := acc.dense + ds))
    decreases |p| - i
  {
    var starts := Starts(|p|, stride, i);
    if i < |p| {
      assert starts[0] == i;
      var after := i + stride;
      var next := acc.(dense := acc.dense + [ds[0]]);
      assert Step(inputs, bulk, p, i, acc) == Ok(next);
      forall j | 0 <= j < |ds| - 1
        ensures StrideMapsTo(inputs, p, Starts(|p|, stride, after)[j], next.mapping, ds[1..][j])
      {
        assert Starts(|p|, stride, after)[j] == starts[j + 1];
      }
      ConsolidateAllKnown(inputs, bulk, p, stride, after, next, ds[1..]);
      assert acc.dense + ds == next.dense + ds[1..];
    } else {
      assert ds == [];
      assert acc.dense + ds == acc.dense;
    }
  }

  /** Deduplication is idempotent: consolidating a block again against the
    * mapping it produced changes nothing and yields the same dense indices. */
  lemma ConsolidateIdempotent(inputs: seq<InputData>, bulk: BulkData, p: seq<int>, stride: nat, acc: Acc, r: Acc)
    requires stride >= 1 && SourcesKnown(inputs, bulk)
    requires DenseMapping(acc.mapping, acc.freeIndex) && acc.dense == []
    requires Consolidate(inputs, bulk, p, stride, 0, acc) == Ok(r)
    ensures Consolidate(inputs, bulk, p, stride, 0, r.(dense := [])) == Ok(r)
  {
    ConsolidateAssignsKeys(inputs, bulk, p, stride, 0, acc, r);
    ConsolidateAllKnown(inputs, bulk, p, stride, 0, r.(dense := []), r.dense);
    assert [] + r.dense == r.dense;
  }
}
