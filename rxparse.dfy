/**
 * The test GUI's reply parser: spaces, line feeds and carriage returns in a
 * received reply become commas, the ends are stripped, the text is split on
 * commas, and the fields that parse as numbers are kept in their order.
 */
module RxParse {

  datatype Option<T> = None | Some(value: T)

  /**
   * The language's number parser, given by the caller: `None` where it
   * raises ValueError, the parsed value otherwise.
   */
  type Parser = string -> Option<real>

  /** The GUI's `is_float`: true exactly when parsing does not raise. */
  function IsFloat(parse: Parser, s: string): (accepted: bool)
    ensures accepted <==> parse(s) != None
  {
    parse(s).Some?
  }

  /** Every occurrence of the character `from` replaced by `to`. */
  function Replace(s: string, from: char, to: char): (r: string)
    ensures |r| == |s|
    ensures forall i :: 0 <= i < |s| ==> r[i] == (if s[i] == from then to else s[i])
  {
    if s == [] then []
    else [if s[0] == from then to else s[0]] + Replace(s[1..], from, to)
  }

  /** The characters the GUI turns into field separators. */
  predicate IsSeparator(c: char)
  {
    c == ' ' || c == '\n' || c == '\r'
  }

  /** The three replacements in a row: every separator becomes a comma. */
  function Normalize(s: string): (r: string)
    ensures |r| == |s|
    ensures forall i :: 0 <= i < |s| ==> r[i] == (if IsSeparator(s[i]) then ',' else s[i])
    ensures forall i :: 0 <= i < |r| ==> !IsSeparator(r[i])
  {
    Replace(Replace(Replace(s, ' ', ','), '\n', ','), '\r', ',')
  }

  /** The characters stripped from both ends. */
  predicate InStripSet(c: char)
  {
    c == ',' || c == ' ' || c == '\n'
  }

  function StripLeft(s: string): (r: string)
    ensures |r| <= |s| && r == s[|s| - |r|..]
    ensures r != [] ==> !InStripSet(r[0])
    ensures forall i :: 0 <= i < |s| - |r| ==> InStripSet(s[i])
  {
    if s != [] && InStripSet(s[0]) then StripLeft(s[1..]) else s
  }

  function StripRight(s: string): (r: string)
    ensures |r| <= |s| && r == s[..|r|]
    ensures r != [] ==> !InStripSet(r[|r| - 1])
    ensures forall i :: |r| <= i < |s| ==> InStripSet(s[i])
  {
    if s != [] && InStripSet(s[|s| - 1]) then StripRight(s[..|s| - 1]) else s
  }

  /** Both ends stripped of commas, spaces and line feeds. */
  function Strip(s: string): (r: string)
    ensures |r| <= |s|
    ensures r != [] ==> !InStripSet(r[0]) && !InStripSet(r[|r| - 1])
    ensures forall i :: 0 <= i < |r| ==> r[i] in s
    ensures exists k :: StrippedAt(s, r, k)
  {
    var left := StripLeft(s);
    var r := StripRight(left);
    StripSlice(s, left, r);
    r
  }

  /**
   * Cutting a stripped prefix off `s` and then a stripped suffix off the rest
   * leaves the slice of `s` between them.
   */
  lemma StripSlice(s: string, left: string, r: string)
    requires |left| <= |s| && left == s[|s| - |left|..]
    requires forall i :: 0 <= i < |s| - |left| ==> InStripSet(s[i])
    requires |r| <= |left| && r == left[..|r|]
    requires forall i :: |r| <= i < |left| ==> InStripSet(left[i])
    ensures StrippedAt(s, r, |s| - |left|)
    ensures forall i :: 0 <= i < |r| ==> r[i] in s
  {
    var k := |s| - |left|;
    forall i | 0 <= i < |r|
      ensures r[i] == s[k + i]
    {
      assert r[i] == left[i];
    }
    forall i | k + |r| <= i < |s|
      ensures InStripSet(s[i])
    {
      assert s[i] == left[i - k];
    }
    SliceChars(s, r, k);
  }

  /** Every character of the slice at `k` occurs in the text it was cut from. */
  lemma SliceChars(s: string, r: string, k: int)
    requires 0 <= k && k + |r| <= |s| && forall i :: 0 <= i < |r| ==> r[i] == s[k + i]
    ensures forall i :: 0 <= i < |r| ==> r[i] in s
  {
    forall i | 0 <= i < |r|
      ensures r[i] in s
    {
      assert r[i] == s[k + i];
    }
  }

  /** `r` is the slice of `s` at offset `k`, and everything around it is in the strip set. */
  predicate StrippedAt(s: string, r: string, k: int)
  {
    && 0 <= k && k + |r| <= |s|
    && (forall i :: 0 <= i < |r| ==> r[i] == s[k + i])
    && (forall i :: 0 <= i < k ==> InStripSet(s[i]))
    && (forall i :: k + |r| <= i < |s| ==> InStripSet(s[i]))
  }

  function Count(s: string, c: char): nat
  {
    if s == [] then 0 else (if s[0] == c then 1 else 0) + Count(s[1..], c)
  }

  /** The text cut at every comma; an empty text is one empty field. */
  function Split(s: string): (fields: seq<string>)
    ensures |fields| == Count(s, ',') + 1
    ensures forall k :: 0 <= k < |fields| ==> ',' !in fields[k]
    ensures forall k, j :: 0 <= k < |fields| && 0 <= j < |fields[k]| ==> fields[k][j] in s
  {
    if s == [] then [""]
    else
      var rest := Split(s[1..]);
      if s[0] == ',' then [""] + rest
      else [[s[0]] + rest[0]] + rest[1..]
  }

  /** The fields put back together with a comma between neighbours. */
  function Join(fields: seq<string>): string
    requires |fields| >= 1
  {
    if |fields| == 1 then fields[0] else fields[0] + "," + Join(fields[1..])
  }

  /** Splitting loses nothing: joining the fields gives the text back. */
  lemma {:induction false} JoinSplit(s: string)
    ensures Join(Split(s)) == s
  {
    if s != [] {
      var rest := Split(s[1..]);
      JoinSplit(s[1..]);
      if s[0] != ',' {
        var fields := Split(s);
        assert fields[1..] == rest[1..];
        if |rest| == 1 {
          assert Join(fields) == [s[0]] + rest[0];
        } else {
          assert Join(fields) == [s[0]] + rest[0] + "," + Join(rest[1..]);
        }
      }
    }
  }

  lemma {:induction false} SplitWord(w: string)
    requires ',' !in w
    ensures Split(w) == [w]
  {
    if w != [] {
      assert w[0] in w;
      SplitWord(w[1..]);
      assert [w[0]] + w[1..] == w;
    }
  }

  lemma {:induction false} SplitWordComma(w: string, t: string)
    requires ',' !in w
    ensures Split(w + "," + t) == [w] + Split(t)
  {
    if w == [] {
      assert w + "," + t == [','] + t;
      assert (w + "," + t)[1..] == t;
    } else {
      var s := w + "," + t;
      assert s[0] == w[0] && w[0] in w;
      assert s[1..] == w[1..] + "," + t;
      SplitWordComma(w[1..], t);
      assert [w[0]] + w[1..] == w;
    }
  }

  /** Splitting is the inverse of joining fields that hold no comma. */
  lemma {:induction false} SplitJoin(fields: seq<string>)
    requires |fields| >= 1
    requires forall k :: 0 <= k < |fields| ==> ',' !in fields[k]
    ensures Split(Join(fields)) == fields
  {
    if |fields| == 1 {
      SplitWord(fields[0]);
    } else {
      SplitJoin(fields[1..]);
      SplitWordComma(fields[0], Join(fields[1..]));
    }
  }

  /** The fields the GUI looks at for a received text. */
  function Fields(rxText: string): seq<string>
  {
    Split(Strip(Normalize(rxText)))
  }

  /** No field holds a comma, a space, a line feed or a carriage return. */
  lemma FieldsAreClean(rxText: string)
    ensures forall k, j :: 0 <= k < |Fields(rxText)| && 0 <= j < |Fields(rxText)[k]| ==>
              Fields(rxText)[k][j] != ',' && !IsSeparator(Fields(rxText)[k][j])
  {
    var n := Normalize(rxText);
    forall k, j | 0 <= k < |Fields(rxText)| && 0 <= j < |Fields(rxText)[k]|
      ensures Fields(rxText)[k][j] != ',' && !IsSeparator(Fields(rxText)[k][j])
    {
      var c := Fields(rxText)[k][j];
      assert c in Strip(n);
      assert c in n;
    }
  }

  /** The parsed values of the fields `is_float` accepts, in field order. */
  function Floats(fields: seq<string>, parse: Parser): (data: seq<real>)
    ensures |data| <= |fields|
    ensures (forall k :: 0 <= k < |fields| ==> IsFloat(parse, fields[k])) ==> |data| == |fields|
    ensures (forall k :: 0 <= k < |fields| ==> !IsFloat(parse, fields[k])) ==> data == []
  {
    if fields == [] then []
    else
      var n := |fields| - 1;
      Floats(fields[..n], parse) + (if IsFloat(parse, fields[n]) then [parse(fields[n]).value] else [])
  }

  /** Filtering distributes over concatenation, so the order of the fields is kept. */
  lemma {:induction false} FloatsAppend(a: seq<string>, b: seq<string>, parse: Parser)
    ensures Floats(a + b, parse) == Floats(a, parse) + Floats(b, parse)
    decreases |b|
  {
    if b != [] {
      var n := |b| - 1;
      assert (a + b)[..|a + b| - 1] == a + b[..n];
      assert (a + b)[|a + b| - 1] == b[n];
      var tail := if IsFloat(parse, b[n]) then [parse(b[n]).value] else [];
      assert Floats(a + b, parse) == Floats(a + b[..n], parse) + tail;
      FloatsAppend(a, b[..n], parse);
      assert Floats(b, parse) == Floats(b[..n], parse) + tail;
    } else {
      assert a + b == a;
    }
  }

  /** Every value comes from a field `is_float` accepts. */
  lemma {:induction false} FloatsFromAcceptedFields(fields: seq<string>, parse: Parser, i: int)
    requires 0 <= i < |Floats(fields, parse)|
    ensures exists k :: 0 <= k < |fields| && IsFloat(parse, fields[k])
                        && parse(fields[k]).value == Floats(fields, parse)[i]
  {
    var n := |fields| - 1;
    var front := Floats(fields[..n], parse);
    if i < |front| {
      FloatsFromAcceptedFields(fields[..n], parse, i);
      var k :| 0 <= k < n && IsFloat(parse, fields[..n][k])
               && parse(fields[..n][k]).value == front[i];
      assert fields[k] == fields[..n][k];
    } else {
      assert IsFloat(parse, fields[n]) && parse(fields[n]).value == Floats(fields, parse)[i];
    }
  }

  /** One more field of the list: its value, if it has one, goes at the end. */
  lemma FloatsStep(fields: seq<string>, i: int, parse: Parser)
    requires 0 <= i < |fields|
    ensures Floats(fields[..i + 1], parse)
         == Floats(fields[..i], parse) + (if IsFloat(parse, fields[i]) then [parse(fields[i]).value] else [])
  {
    assert fields[..i + 1][..i] == fields[..i];
  }

  /** The GUI's `rxTextToData`. */
  method RxTextToData(rxText: string, parse: Parser) returns (data: seq<real>)
    ensures data == Floats(Fields(rxText), parse)
    ensures |data| <= Count(Strip(Normalize(rxText)), ',') + 1
  {
    var text := Replace(rxText, ' ', ',');
    text := Replace(text, '\n', ',');
    text := Replace(text, '\r', ',');
    assert text == Normalize(rxText);
    text := Strip(text);
    var asList := Split(text);
    assert asList == Fields(rxText);
    data := [];
    for i := 0 to |asList|
      invariant data == Floats(asList[..i], parse)
    {
      FloatsStep(asList, i, parse);
      if IsFloat(parse, asList[i]) {
        data := data + [parse(asList[i]).value];
      }
    }
    assert asList[..|asList|] == asList;
  }
}
