/** The importer's boundary to the XML stream reader and to QString.
  * The reader's cursor is not modelled: every start element the importer
  * visits arrives as a Tag holding its attributes and the trimmed text
  * content that the reader would collect for it. Number conversion
  * (QString::toInt, QString::toFloat) is an opaque partial function. */
module XmlInput {
  import opened Wrappers

  /** The float32 values of the document; they are only copied, never computed. */
  type Float = real

  /** The kinds of GLC_FileFormatException the core raises. */
  datatype FormatError =
    | MissingAttribute(name: string)
    | CountMismatch(element: string)
    | UnsupportedSemantic(semantic: string)
    | UnknownSource(id: string)
    | MalformedNumber(token: string)
    | MalformedColor(text: string)
    | ElementNotFound(element: string)
      /** A read that the source performs with QList::at outside the list. */
    | IndexOutOfRange

  type Attributes = map<string, string>

  datatype Tag = Tag(name: string, attributes: Attributes, content: string)

  /** QString::toInt(&ok) and QString::toFloat(&ok): None when ok is false. */
  datatype Numerals = Numerals(toInt: string -> Option<int>, toFloat: string -> Option<Float>)

  /** QString::toInt() without an ok flag: 0 when the text does not convert. */
  function IntOrZero(num: Numerals, s: string): int
  {
    match num.toInt(s)
    case Some(v) => v
    case None => 0
  }

  /** QString::toFloat() without an ok flag: 0.0 when the text does not convert. */
  function FloatOrZero(num: Numerals, s: string): Float
  {
    match num.toFloat(s)
    case Some(v) => v
    case None => 0.0
  }

  /** readAttribute(name, mandatory): a missing mandatory attribute aborts,
    * a missing optional one reads as the empty string. */
  function ReadAttribute(attributes: Attributes, name: string, mandatory: bool): (r: Result<string, FormatError>)
    ensures r.Err? <==> mandatory && name !in attributes
    ensures r.Err? ==> r.error == MissingAttribute(name)
  {
    if name in attributes then Ok(attributes[name])
    else if mandatory then Err(MissingAttribute(name))
    else Ok("")
  }

  /** Number of occurrences of c in s. */
  function Occurrences(s: string, c: char): nat
    decreases |s|
  {
    if s == [] then 0 else (if s[0] == c then 1 else 0) + Occurrences(s[1..], c)
  }

  /** QString::split(sep) keeping empty parts: one part more than there are
    * separators, so even the empty string yields one (empty) part. */
  function Split(s: string, sep: char): (parts: seq<string>)
    ensures |parts| == Occurrences(s, sep) + 1
    ensures forall i :: 0 <= i < |parts| ==> sep !in parts[i]
    decreases |s|
  {
    if s == [] then [""]
    else
      var rest := Split(s[1..], sep);
      if s[0] == sep then [""] + rest
      else
        assert sep !in [s[0]] + rest[0];
        [[s[0]] + rest[0]] + rest[1..]
  }

  /** The parts put back together with sep between consecutive parts. */
  function Join(parts: seq<string>, sep: char): string
    decreases |parts|
  {
    if |parts| == 0 then ""
    else if |parts| == 1 then parts[0]
    else parts[0] + [sep] + Join(parts[1..], sep)
  }

  /** Splitting loses nothing: joining the parts gives the text back. */
  lemma {:induction false} JoinSplit(s: string, sep: char)
    ensures Join(Split(s, sep), sep) == s
    decreases |s|
  {
    if s != [] {
      JoinSplit(s[1..], sep);
      var rest := Split(s[1..], sep);
      if s[0] == sep {
        assert Split(s, sep) == [""] + rest;
        assert Join([""] + rest, sep) == "" + [sep] + Join(rest, sep);
        assert [sep] + s[1..] == s;
      } else {
        var parts := [[s[0]] + rest[0]] + rest[1..];
        assert Split(s, sep) == parts;
        if |rest| == 1 {
          assert Join(parts, sep) == [s[0]] + rest[0];
          assert Join(rest, sep) == rest[0];
        } else {
          assert parts[1..] == rest[1..];
          assert Join(parts, sep) == [s[0]] + rest[0] + [sep] + Join(rest[1..], sep);
          assert Join(rest, sep) == rest[0] + [sep] + Join(rest[1..], sep);
        }
        assert [s[0]] + s[1..] == s;
      }
    }
  }

  /** A separator-free prefix is glued onto the first part of what follows. */
  lemma {:induction false} SplitPlainPrefix(a: string, t: string, sep: char)
    requires sep !in a
    ensures Split(a + t, sep) == [a + Split(t, sep)[0]] + Split(t, sep)[1..]
    decreases |a|
  {
    if a != [] {
      SplitPlainPrefix(a[1..], t, sep);
      assert (a + t)[1..] == a[1..] + t;
      assert (a + t)[0] == a[0];
      var rest := Split(a[1..] + t, sep);
      assert Split(a + t, sep) == [[a[0]] + rest[0]] + rest[1..];
      assert [a[0]] + (a[1..] + Split(t, sep)[0]) == a + Split(t, sep)[0];
    } else {
      assert a + t == t;
      var parts := Split(t, sep);
      assert parts == [parts[0]] + parts[1..];
      assert a + parts[0] == parts[0];
    }
  }

  /** Joining separator-free parts and splitting again gives the parts back. */
  lemma {:induction false} SplitJoin(parts: seq<string>, sep: char)
    requires |parts| >= 1
    requires forall i :: 0 <= i < |parts| ==> sep !in parts[i]
    ensures Split(Join(parts, sep), sep) == parts
    decreases |parts|
  {
    if |parts| == 1 {
      SplitPlainPrefix(parts[0], "", sep);
      assert parts[0] + "" == parts[0];
    } else {
      var tail := Join(parts[1..], sep);
      SplitJoin(parts[1..], sep);
      assert Join(parts, sep) == parts[0] + ([sep] + tail);
      SplitPlainPrefix(parts[0], [sep] + tail, sep);
      assert ([sep] + tail)[1..] == tail;
      assert Split([sep] + tail, sep) == [""] + parts[1..];
      assert parts[0] + "" == parts[0];
    }
  }

  /** QString::remove(c): every occurrence of c is deleted, the rest is kept in order. */
  function RemoveAll(s: string, c: char): (r: string)
    ensures c !in r
    ensures |r| == |s| - Occurrences(s, c)
    decreases |s|
  {
    if s == [] then ""
    else if s[0] == c then RemoveAll(s[1..], c)
    else [s[0]] + RemoveAll(s[1..], c)
  }

  /** Removal distributes over concatenation, so it acts character by character. */
  lemma {:induction false} RemoveAllAppend(a: string, b: string, c: char)
    ensures RemoveAll(a + b, c) == RemoveAll(a, c) + RemoveAll(b, c)
    decreases |a|
  {
    if a != [] {
      assert (a + b)[0] == a[0];
      assert (a + b)[1..] == a[1..] + b;
      RemoveAllAppend(a[1..], b, c);
    } else {
      assert a + b == b;
    }
  }

  /** An id that carries no sigil is left as it is. */
  lemma {:induction false} RemoveAllAbsent(s: string, c: char)
    requires c !in s
    ensures RemoveAll(s, c) == s
    decreases |s|
  {
    if s != [] {
      RemoveAllAbsent(s[1..], c);
    }
  }

  /** The element-wise conversion of a token list by QString::toInt(&ok):
    * it fails on the first token that does not convert. */
  function ParseInts(tokens: seq<string>, num: Numerals): (r: Result<seq<int>, FormatError>)
    ensures r.Ok? <==> forall i :: 0 <= i < |tokens| ==> num.toInt(tokens[i]).Some?
    ensures r.Ok? ==> |r.value| == |tokens|
    ensures r.Ok? ==> forall i :: 0 <= i < |tokens| ==> num.toInt(tokens[i]) == Some(r.value[i])
    ensures r.Err? ==> r.error.MalformedNumber? && r.error.token in tokens
    decreases |tokens|
  {
    if tokens == [] then Ok([])
    else
      match num.toInt(tokens[0])
      case None => Err(MalformedNumber(tokens[0]))
      case Some(v) =>
        var rest := ParseInts(tokens[1..], num);
        if rest.Err? then
          assert rest.error.token in tokens[1..];
          Err(rest.error)
        else
          assert forall i :: 1 <= i < |tokens| ==> tokens[i] == tokens[1..][i - 1];
          Ok([v] + rest.value)
  }

  /** The first token that does not convert is the one the error names. */
  lemma {:induction false} ParseIntsFirstFailure(tokens: seq<string>, num: Numerals, k: nat)
    requires k < |tokens| && num.toInt(tokens[k]).None?
    requires forall i :: 0 <= i < k ==> num.toInt(tokens[i]).Some?
    ensures ParseInts(tokens, num) == Err(MalformedNumber(tokens[k]))
    decreases k
  {
    if k > 0 {
      ParseIntsFirstFailure(tokens[1..], num, k - 1);
    }
  }

  /** The conversion loop of loadPolylist and loadTriangles: each token is
    * converted and appended, and the first one that fails aborts. */
  method ReadIntList(tokens: seq<string>, num: Numerals) returns (r: Result<seq<int>, FormatError>)
    ensures r == ParseInts(tokens, num)
  {
    var list: seq<int> := [];
    var i := 0;
    while i < |tokens|
      invariant 0 <= i <= |tokens| && |list| == i
      invariant forall j :: 0 <= j < i ==> num.toInt(tokens[j]) == Some(list[j])
    {
      var converted := num.toInt(tokens[i]);
      if converted.None? {
        ParseIntsFirstFailure(tokens, num, i);
        return Err(MalformedNumber(tokens[i]));
      }
      list := list + [converted.value];
      i := i + 1;
    }
    r := Ok(list);
    var spec := ParseInts(tokens, num);
    assert spec.Ok?;
    assert spec.value == list;
  }
}
