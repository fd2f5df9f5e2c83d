/** What a path extracts, told from the contents of the value: array elements, fields, and everything that gives nil. */
module JsonAnswers {
  import opened Options
  import opened Strconv
  import opened JsonPath

  /** The path of one index is one segment. */
  lemma IndexSegment(text: string)
    requires ']' !in text
    ensures Segments("[" + text + "]") == ["[" + text + "]"]
  {
    ParseIndex(text, "", "");
    assert "[" + text + "]" + "" == "[" + text + "]";
    assert [] + ["[" + text + "]"] + [] == ["[" + text + "]"];
  }

  lemma FieldSegment(name: string)
    requires name != "" && '.' !in name && '[' !in name
    ensures Segments(name) == [name]
  {
    ParseField(name, "", "");
    assert name + "" == name && "" + name == name;
  }

  /** An index path on an array: the element with that number, counted from the front, or nil beyond the end. */
  lemma ExtractIndex(items: seq<Json>, n: nat)
    ensures Walk(Arr(items), Segments("[" + Decimal(n) + "]")) ==
              if n < |items| && n <= MAX_INT64 then items[n] else Null
  {
    NoDigit(n, ']');
    IndexSegment(Decimal(n));
    ParseDecimal(n);
    var segment := "[" + Decimal(n) + "]";
    assert segment[1..|segment| - 1] == Decimal(n);
    OneSegment(Arr(items), segment);
  }

  lemma OneSegment(v: Json, segment: string)
    requires segment != ""
    ensures Walk(v, [segment]) == if Access(v, segment).Some? then Access(v, segment).value else Null
  {
    assert [segment][1..] == [];
  }

  /** An index that is no number, is negative or does not fit 64 bits gives nil on any value. */
  lemma ExtractBadIndex(v: Json, text: string)
    requires ']' !in text && (ParseInt(text).None? || ParseInt(text).value < 0)
    ensures Walk(v, Segments("[" + text + "]")) == Null
  {
    IndexSegment(text);
    var segment := "[" + text + "]";
    assert segment[1..|segment| - 1] == text;
    OneSegment(v, segment);
  }

  /** Signed numbers: a minus sign counts down from zero, a plus sign changes nothing. */
  lemma SignedNumbers(n: nat)
    ensures ParseInt(Decimal(n)) == if n <= MAX_INT64 then Some(n) else None
    ensures ParseInt("+" + Decimal(n)) == ParseInt(Decimal(n))
    ensures ParseInt("-" + Decimal(n)).Some? <==> n <= MAX_INT64 + 1
    ensures ParseInt("-" + Decimal(n)).Some? ==> ParseInt("-" + Decimal(n)).value + n == 0
  {
    ParseDecimal(n);
    DigitsOfDecimal(n);
    SignedDigits(Decimal(n));
    hide ParseInt, Decimal, Digits;
  }

  lemma SignedDigits(d: string)
    requires d != "" && forall c <- d :: IsDigit(c)
    ensures ParseInt("+" + d) == if Digits(d) <= MAX_INT64 then Some(Digits(d)) else None
    ensures ParseInt("-" + d).Some? <==> Digits(d) <= MAX_INT64 + 1
    ensures ParseInt("-" + d).Some? ==> ParseInt("-" + d).value + Digits(d) == 0
  {
    hide Digits;
    assert ("-" + d)[1..] == d && ("+" + d)[1..] == d;
  }

  /** Texts that are no numbers: without digits, or with anything but digits behind an optional sign. */
  lemma NotNumbers(text: string)
    ensures ParseInt("") == ParseInt("-") == ParseInt("+") == None
    ensures (exists i :: 1 <= i < |text| && !IsDigit(text[i])) ==> ParseInt(text) == None
    ensures text != "" && !IsDigit(text[0]) && text[0] != '-' && text[0] != '+' ==> ParseInt(text) == None
  {
    if i :| 1 <= i < |text| && !IsDigit(text[i]) {
      assert text[1..][i - 1] == text[i];
      assert text[i] in text[1..] && text[i] in text;
    }
    if text != "" && !IsDigit(text[0]) { assert text[0] in text; }
  }

  /** An index path on anything but an array gives nil. */
  lemma ExtractIndexElsewhere(v: Json, text: string)
    requires ']' !in text && !v.Arr?
    ensures Walk(v, Segments("[" + text + "]")) == Null
  {
    IndexSegment(text);
    OneSegment(v, "[" + text + "]");
  }

  /** A field path: the field of an object, nil if it has none, and nil on anything else. */
  lemma ExtractField(v: Json, name: string)
    requires name != "" && '.' !in name && '[' !in name
    ensures Walk(v, Segments(name)) == if v.Obj? && name in v.fields then v.fields[name] else Null
  {
    FieldSegment(name);
    OneSegment(v, name);
  }

  /** The empty path, and stray dots, extract the value itself. */
  lemma {:induction false} ExtractNothing(v: Json, path: string)
    requires forall c <- path :: c == '.'
    ensures Walk(v, Segments(path)) == v
    decreases |path|
  {
    if path != "" {
      assert path[0] in path;
      assert forall c <- path[1..] :: c in path;
      ExtractNothing(v, path[1..]);
      assert Flush("") + Parse(path[1..], "") == Parse(path[1..], "");
    }
  }

  /** A bracket that is never closed is dropped, and what stands behind it is read on as a field of its own. */
  lemma {:induction false} DropsOpenBracket(p: string, r: string, current: string)
    requires !HasUnclosed(p) && ']' !in r
    ensures Parse(p + "[" + r, current) == Parse(p, current) + Parse(r, "")
    decreases |p|
  {
    var whole := p + "[" + r;
    if p == "" {
      assert whole == "[" + r && whole[1..] == r;
      assert forall k :: 1 <= k < |whole| ==> whole[k] == r[k - 1] && r[k - 1] in r;
      assert CloseAt(whole, 1) == |whole|;
    } else if p[0] == '[' {
      var j := CloseAt(p, 1);
      if j == |p| { assert Unclosed(p, 0); }
      assert whole == p + ("[" + r);
      CloseAtPrefix(p, "[" + r, 1);
      assert whole[..j + 1] == p[..j + 1] && whole[j + 1..] == p[j + 1..] + "[" + r;
      UnclosedSuffix(p, j + 1);
      DropsOpenBracket(p[j + 1..], r, "");
      assert Parse(whole, current) == Flush(current) + ([p[..j + 1]] + (Parse(p[j + 1..], "") + Parse(r, "")));
      assert Parse(p, current) == Flush(current) + ([p[..j + 1]] + Parse(p[j + 1..], ""));
    } else {
      assert whole[1..] == p[1..] + "[" + r;
      UnclosedSuffix(p, 1);
      DropsOpenBracket(p[1..], r, if p[0] == '.' then "" else current + [p[0]]);
    }
  }
}
