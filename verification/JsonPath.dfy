/** Dot-notation paths into JSON values: splitting a path into segments, and walking the segments. */
module JsonPath {
  import opened Options
  import Strconv

  // ---------------------------------------------------------------- splitting

  /** The segment being built, once it is complete. */
  function Flush(current: string): seq<string> { if current == "" then [] else [current] }

  /** The first ']' of `s` at or after `from`, or the length of `s`. */
  function CloseAt(s: string, from: nat): (j: nat)
    requires from <= |s|
    ensures from <= j <= |s| && (j < |s| ==> s[j] == ']') && forall k :: from <= k < j ==> s[k] != ']'
    decreases |s| - from
  {
    if from == |s| || s[from] == ']' then from else CloseAt(s, from + 1)
  }

  /** The segments of `rest`, with `current` already read of the first one. */
  function Parse(rest: string, current: string): seq<string>
    decreases |rest|
  {
    if rest == "" then Flush(current)
    else if rest[0] == '.' then Flush(current) + Parse(rest[1..], "")
    else if rest[0] == '[' then
      var j := CloseAt(rest, 1);
      Flush(current) + (if j < |rest| then [rest[..j + 1]] + Parse(rest[j + 1..], "") else Parse(rest[1..], ""))
    else Parse(rest[1..], current + [rest[0]])
  }

  function Segments(path: string): seq<string> { Parse(path, "") }

  lemma {:induction false} CloseAtSuffix(s: string, n: nat, from: nat)
    requires n <= from <= |s|
    ensures CloseAt(s[n..], from - n) == CloseAt(s, from) - n
    decreases |s| - from
  {
    if from < |s| && s[from] != ']' { CloseAtSuffix(s, n, from + 1); }
  }

  /** What the scanner does next, by position in the whole path. */
  lemma ParsePlain(path: string, i: nat, current: string)
    requires i < |path| && path[i] != '['
    ensures Parse(path[i..], current) ==
      if path[i] == '.' then Flush(current) + Parse(path[i + 1..], "") else Parse(path[i + 1..], current + [path[i]])
  {
    assert path[i..][1..] == path[i + 1..];
  }

  lemma BracketFirst(rest: string, current: string)
    requires rest != "" && rest[0] == '['
    ensures var j := CloseAt(rest, 1);
      Parse(rest, current) ==
        Flush(current) + (if j < |rest| then [rest[..j + 1]] + Parse(rest[j + 1..], "") else Parse(rest[1..], ""))
  {}

  lemma ParseBracket(path: string, i: nat, current: string)
    requires i < |path| && path[i] == '['
    ensures var j := CloseAt(path, i + 1);
      Parse(path[i..], current) ==
        Flush(current) + (if j < |path| then [path[i..j + 1]] + Parse(path[j + 1..], "") else Parse(path[i + 1..], ""))
  {
    hide Parse, CloseAt, Flush;
    var rest := path[i..];
    var j := CloseAt(path, i + 1);
    BracketFirst(rest, current);
    CloseAtSuffix(path, i, i + 1);
    assert rest[1..] == path[i + 1..];
    if j < |path| {
      assert rest[..j + 1 - i] == path[i..j + 1];
      assert rest[j + 1 - i..] == path[j + 1..];
    }
  }

  /** The scan for the matching bracket. */
  method FindClose(path: string, start: nat) returns (j: nat)
    requires start <= |path|
    ensures j == CloseAt(path, start)
  {
    j := start;
    while j < |path| && path[j] != ']'
      invariant start <= j <= |path|
      invariant CloseAt(path, j) == CloseAt(path, start)
    {
      j := j + 1;
    }
  }

  lemma Regroup(a: seq<string>, b: seq<string>, c: seq<string>, d: seq<string>)
    ensures a + (b + (c + d)) == (a + b + c) + d
    ensures a + (b + d) == (a + b) + d
  {}

  /** The scanner's moves, with the segments it has so far in front. */
  lemma DotMove(before: seq<string>, path: string, i: nat, current: string)
    requires i < |path| && path[i] == '.'
    ensures before + Parse(path[i..], current) == before + Flush(current) + Parse(path[i + 1..], "")
  {
    ParsePlain(path, i, current);
    Regroup(before, Flush(current), [], Parse(path[i + 1..], ""));
  }

  lemma BracketMove(before: seq<string>, path: string, i: nat, current: string)
    requires i < |path| && path[i] == '['
    ensures var j := CloseAt(path, i + 1);
      before + Parse(path[i..], current) ==
        if j < |path| then before + Flush(current) + [path[i..j + 1]] + Parse(path[j + 1..], "")
        else before + Flush(current) + Parse(path[i + 1..], "")
  {
    ParseBracket(path, i, current);
    var j := CloseAt(path, i + 1);
    if j < |path| {
      Regroup(before, Flush(current), [path[i..j + 1]], Parse(path[j + 1..], ""));
    } else {
      Regroup(before, Flush(current), [], Parse(path[i + 1..], ""));
    }
  }

  method ParsePathSegments(path: string) returns (segments: seq<string>)
    ensures segments == Segments(path)
  {
    segments := [];
    var current := "";
    var i := 0;
    assert path[0..] == path;
    while i < |path|
      invariant 0 <= i <= |path|
      invariant segments + Parse(path[i..], current) == Segments(path)
    {
      hide Parse, Segments, CloseAt;
      ghost var before := segments;
      ghost var flushed := Flush(current);
      if path[i] == '.' {
        DotMove(segments, path, i, current);
        if |current| > 0 {
          segments := segments + [current];
          current := "";
        }
        assert segments == before + flushed;
      } else if path[i] == '[' {
        BracketMove(segments, path, i, current);
        if |current| > 0 {
          segments := segments + [current];
          current := "";
        }
        assert segments == before + flushed;
        var j := FindClose(path, i + 1);
        if j < |path| {
          segments := segments + [path[i..j + 1]];
          i := j;
        }
      } else {
        ParsePlain(path, i, current);
        current := current + [path[i]];
      }
      i := i + 1;
    }
    assert path[|path|..] == "";
    if |current| > 0 {
      segments := segments + [current];
    }
  }

  // ---------------------------------------------------------------- joining two paths with a dot

  /** Some '[' of `p` has no ']' after it. */
  ghost predicate HasUnclosed(p: string) { exists i :: 0 <= i < |p| && Unclosed(p, i) }

  predicate Unclosed(p: string, i: nat)
    requires i < |p|
  {
    p[i] == '[' && forall k :: i < k < |p| ==> p[k] != ']'
  }

  lemma UnclosedSuffix(p: string, n: nat)
    requires n <= |p|
    ensures HasUnclosed(p[n..]) ==> HasUnclosed(p)
    ensures forall i :: n <= i < |p| && Unclosed(p, i) ==> HasUnclosed(p[n..])
  {
    forall i | 0 <= i < |p[n..]| && Unclosed(p[n..], i) ensures HasUnclosed(p) {
      assert forall k :: n + i < k < |p| ==> p[k] == p[n..][k - n];
      assert Unclosed(p, n + i);
    }
    forall i | n <= i < |p| && Unclosed(p, i) ensures HasUnclosed(p[n..]) {
      assert Unclosed(p[n..], i - n);
    }
  }

  lemma {:induction false} CloseAtPrefix(p: string, more: string, from: nat)
    requires from <= |p| && CloseAt(p, from) < |p|
    ensures CloseAt(p + more, from) == CloseAt(p, from)
    decreases |p| - from
  {
    if p[from] != ']' { CloseAtPrefix(p, more, from + 1); }
  }

  lemma {:induction false} ParseJoin(p: string, q: string, current: string)
    requires !HasUnclosed(p)
    ensures Parse(p + "." + q, current) == Parse(p, current) + Parse(q, "")
    decreases |p|
  {
    var whole := p + "." + q;
    if p == "" {
      assert whole[1..] == q;
    } else if p[0] == '[' {
      var j := CloseAt(p, 1);
      if j == |p| { assert Unclosed(p, 0); }
      assert whole == p + ("." + q);
      CloseAtPrefix(p, "." + q, 1);
      assert whole[..j + 1] == p[..j + 1] && whole[j + 1..] == p[j + 1..] + "." + q;
      UnclosedSuffix(p, j + 1);
      ParseJoin(p[j + 1..], q, "");
      assert Parse(whole, current) == Flush(current) + ([p[..j + 1]] + (Parse(p[j + 1..], "") + Parse(q, "")));
      assert Parse(p, current) == Flush(current) + ([p[..j + 1]] + Parse(p[j + 1..], ""));
    } else {
      assert whole[1..] == p[1..] + "." + q;
      UnclosedSuffix(p, 1);
      ParseJoin(p[1..], q, if p[0] == '.' then "" else current + [p[0]]);
    }
  }

  /** With an unclosed '[' in `p`, a ']' behind it swallows the dot: the last segment starts with '['. */
  lemma {:induction false} ParseSwallows(p: string, current: string)
    requires HasUnclosed(p)
    ensures var s := Parse(p + "." + "]", current); s != [] && |s[|s| - 1]| > 1
    decreases |p|
  {
    var whole := p + "." + "]";
    var i :| 0 <= i < |p| && Unclosed(p, i);
    if p[0] == '[' {
      var j := CloseAt(p, 1);
      if j < |p| {
        assert whole == p + ("." + "]");
        CloseAtPrefix(p, "." + "]", 1);
        assert whole[j + 1..] == p[j + 1..] + "." + "]";
        UnclosedSuffix(p, j + 1);
        ParseSwallows(p[j + 1..], "");
        hide HasUnclosed, Unclosed;
      } else {
        CloseAtEnd(p, 1);
        assert whole[..|whole|] == whole && whole[|whole|..] == "";
        hide HasUnclosed, Unclosed;
      }
    } else {
      assert whole[1..] == p[1..] + "." + "]";
      UnclosedSuffix(p, 1);
      ParseSwallows(p[1..], if p[0] == '.' then "" else current + [p[0]]);
      hide HasUnclosed, Unclosed;
    }
  }

  lemma {:induction false} CloseAtEnd(p: string, from: nat)
    requires from <= |p| && CloseAt(p, from) == |p|
    ensures CloseAt(p + "." + "]", from) == |p| + 1
    decreases |p| - from
  {
    var whole := p + "." + "]";
    if from < |p| {
      CloseAtEnd(p, from + 1);
    } else {
      assert whole[|p|] == '.' && whole[|p| + 1] == ']';
      assert CloseAt(whole, |p| + 1) == |p| + 1;
    }
  }

  /** The dot joins segments, for every continuation, exactly when the first path has no unclosed '['. */
  lemma DotJoinsIff(p: string)
    ensures (forall q :: Segments(p + "." + q) == Segments(p) + Segments(q)) <==> !HasUnclosed(p)
  {
    if !HasUnclosed(p) {
      forall q ensures Segments(p + "." + q) == Segments(p) + Segments(q) { ParseJoin(p, q, ""); }
    } else {
      ParseSwallows(p, "");
      var close := "]";
      assert close[1..] == "" && "" + [close[0]] == "]";
      assert Parse(close, "") == Parse("", "]");
      assert Segments(close) == ["]"];
      assert Segments(p + "." + close) != Segments(p) + Segments(close);
    }
  }

  // ---------------------------------------------------------------- printing

  datatype Segment = Field(name: string) | Index(text: string)

  predicate ValidSegment(s: Segment) {
    match s
    case Field(name) => name != "" && '.' !in name && '[' !in name
    case Index(text) => ']' !in text
  }

  function Text(s: Segment): string {
    match s
    case Field(name) => name
    case Index(text) => "[" + text + "]"
  }

  function Texts(s: seq<Segment>): seq<string> { if s == [] then [] else [Text(s[0])] + Texts(s[1..]) }

  /** The path of a list of segments: a dot in front of every field but a leading one. */
  function Print(s: seq<Segment>, leading: bool): string {
    if s == [] then ""
    else (if s[0].Field? && !leading then "." else "") + Text(s[0]) + Print(s[1..], false)
  }

  lemma {:induction false} ParseField(name: string, rest: string, current: string)
    requires '.' !in name && '[' !in name
    ensures Parse(name + rest, current) == Parse(rest, current + name)
    decreases |name|
  {
    if name == "" {
      assert name + rest == rest && current + name == current;
    } else {
      assert name[0] in name;
      assert (name + rest)[1..] == name[1..] + rest;
      assert current + name == current + [name[0]] + name[1..];
      ParseField(name[1..], rest, current + [name[0]]);
    }
  }

  lemma ParseIndex(text: string, rest: string, current: string)
    requires ']' !in text
    ensures Parse("[" + text + "]" + rest, current) == Flush(current) + ["[" + text + "]"] + Parse(rest, "")
  {
    var whole := "[" + text + "]" + rest;
    var close := |text| + 1;
    assert whole[close] == ']';
    assert CloseAt(whole, 1) == close by {
      assert forall k :: 1 <= k < close ==> whole[k] == text[k - 1] && text[k - 1] in text;
    }
    assert whole[..close + 1] == "[" + text + "]" && whole[close + 1..] == rest;
  }

  lemma {:induction false} ParsePrinted(s: seq<Segment>, current: string)
    requires forall x <- s :: ValidSegment(x)
    ensures Parse(Print(s, false), current) == Flush(current) + Texts(s)
    decreases |s|
  {
    hide Parse, Print, ValidSegment, Flush, Texts;
    if s == [] {
      ParseNothing(s, current);
    } else {
      assert ValidSegment(s[0]);
      ParseOne(s, current);
      ParsePrinted(s[1..], if s[0].Field? then s[0].name else "");
      OneText(s, current);
    }
  }

  lemma ParseNothing(s: seq<Segment>, current: string)
    requires s == []
    ensures Parse(Print(s, false), current) == Flush(current) + Texts(s)
  {}

  lemma OneText(s: seq<Segment>, current: string)
    requires s != [] && ValidSegment(s[0])
    ensures s[0].Field? ==> Flush(current) + Texts(s) == Flush(current) + (Flush(s[0].name) + Texts(s[1..]))
    ensures s[0].Index? ==> Flush(current) + Texts(s) == Flush(current) + [Text(s[0])] + (Flush("") + Texts(s[1..]))
  {
    hide Parse, Print;
    assert Flush("") + Texts(s[1..]) == Texts(s[1..]);
  }

  /** The first printed segment is read off the front. */
  lemma ParseOne(s: seq<Segment>, current: string)
    requires s != [] && ValidSegment(s[0])
    ensures s[0].Field? ==> Parse(Print(s, false), current) == Flush(current) + Parse(Print(s[1..], false), s[0].name)
    ensures s[0].Index? ==>
      Parse(Print(s, false), current) == Flush(current) + [Text(s[0])] + Parse(Print(s[1..], false), "")
  {
    var rest := Print(s[1..], false);
    if s[0].Field? {
      assert Print(s, false) == "." + (s[0].name + rest);
      assert Print(s, false)[1..] == s[0].name + rest;
      ParseField(s[0].name, rest, "");
      assert "" + s[0].name == s[0].name;
    } else {
      assert Print(s, false) == "[" + s[0].text + "]" + rest;
      ParseIndex(s[0].text, rest, current);
    }
  }

  /** Printing any list of valid segments and parsing the path gives the list back. */
  lemma PrintParse(s: seq<Segment>)
    requires forall x <- s :: ValidSegment(x)
    ensures Segments(Print(s, true)) == Texts(s)
  {
    if s != [] && s[0].Field? {
      LeadingField(s);
      ParsePrinted(s[1..], s[0].name);
    } else {
      ParsePrinted(s, "");
      assert Print(s, true) == Print(s, false);
    }
    hide Parse, Print, ValidSegment;
  }

  lemma LeadingField(s: seq<Segment>)
    requires s != [] && s[0].Field? && ValidSegment(s[0])
    ensures Segments(Print(s, true)) == Parse(Print(s[1..], false), s[0].name)
  {
    var rest := Print(s[1..], false);
    assert Print(s, true) == s[0].name + rest;
    ParseField(s[0].name, rest, "");
    assert "" + s[0].name == s[0].name;
  }

  // ---------------------------------------------------------------- walking

  /** A decoded JSON value; scalars carry whatever they are. */
  datatype Json = Null | Scalar(text: string) | Arr(items: seq<Json>) | Obj(fields: map<string, Json>)

  predicate IsIndex(segment: string) { |segment| >= 2 && segment[0] == '[' && segment[|segment| - 1] == ']' }

  /** What one segment selects; None where the code gives up and returns nil. */
  function Access(v: Json, segment: string): Option<Json> {
    if IsIndex(segment) then
      var index := Strconv.ParseInt(segment[1..|segment| - 1]);
      if index.Some? && v.Arr? && 0 <= index.value < |v.items| then Some(v.items[index.value]) else None
    else if v.Obj? then Some(if segment in v.fields then v.fields[segment] else Null)
    else None
  }

  function Walk(v: Json, segments: seq<string>): Json
    decreases |segments|
  {
    if segments == [] then v
    else if segments[0] == "" then Walk(v, segments[1..])
    else
      var next := Access(v, segments[0]);
      if next.None? then Null else Walk(next.value, segments[1..])
  }

  method ExtractPath(data: Json, path: string) returns (r: Json)
    ensures r == Walk(data, Segments(path))
  {
    var current := data;
    var segments := ParsePathSegments(path);
    for n := 0 to |segments|
      invariant Walk(current, segments[n..]) == Walk(data, segments)
    {
      var segment := segments[n];
      assert segments[n..][1..] == segments[n + 1..];
      if segment == "" {
        continue;
      }
      if segment[0] == '[' && segment[|segment| - 1] == ']' {
        assert |segment| >= 2;
        var index := Strconv.ParseInt(segment[1..|segment| - 1]);
        if index.None? {
          return Null;
        }
        if !current.Arr? {
          return Null;
        }
        if index.value < 0 || index.value >= |current.items| {
          return Null;
        }
        current := current.items[index.value];
      } else {
        match current
        case Obj(fields) => current := if segment in fields then fields[segment] else Null;
        case _ => return Null;
      }
    }
    return current;
  }

  lemma {:induction false} WalkNull(segments: seq<string>)
    ensures Walk(Null, segments) == Null
    decreases |segments|
  {
    if segments != [] && segments[0] == "" { WalkNull(segments[1..]); }
  }

  lemma {:induction false} WalkJoin(v: Json, a: seq<string>, b: seq<string>)
    ensures Walk(v, a + b) == Walk(Walk(v, a), b)
    decreases |a|
  {
    if a == [] {
      assert a + b == b;
    } else {
      assert (a + b)[1..] == a[1..] + b;
      if a[0] == "" {
        WalkJoin(v, a[1..], b);
      } else if Access(v, a[0]).Some? {
        WalkJoin(Access(v, a[0]).value, a[1..], b);
      } else {
        WalkNull(b);
      }
    }
  }

  /** Extracting p.q is extracting q from what p extracts, whatever the value, for every p without an unclosed '['. */
  lemma ExtractJoin(v: Json, p: string, q: string)
    requires !HasUnclosed(p)
    ensures Walk(v, Segments(p + "." + q)) == Walk(Walk(v, Segments(p)), Segments(q))
  {
    DotJoinsIff(p);
    WalkJoin(v, Segments(p), Segments(q));
  }
}
