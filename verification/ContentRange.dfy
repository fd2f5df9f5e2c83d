/** The Content-Range header of a chunk (section 14.4 of RFC 9110), read by two independent parsers. */
module ContentRange {
  import opened Options
  import opened Strconv

  /** 64-bit addition of one. */
  function Increment(n: int): int { if n == MAX_INT64 then MIN_INT64 else n + 1 }

  /** strings.Split with a one-character separator. */
  function Split(s: string, sep: char): (parts: seq<string>)
    ensures parts != []
  {
    if s == "" then [""]
    else
      var rest := Split(s[1..], sep);
      if s[0] == sep then [""] + rest else [[s[0]] + rest[0]] + rest[1..]
  }

  function TrimBytes(s: string): string { if |s| >= 6 && s[..6] == "bytes " then s[6..] else s }

  datatype ChunkInfo = ChunkInfo(start: int, end: int, total: int)

  const NO_INFO := ChunkInfo(0, 0, 0)

  predicate IsChunk(header: string) { header != "" }

  /** None is a number that does not parse; a header of the wrong shape gives three zeros and no error. */
  function GetChunkInfo(header: string): Option<ChunkInfo> {
    if !IsChunk(header) then Some(NO_INFO)
    else
      var parts := Split(TrimBytes(header), '/');
      if |parts| != 2 then Some(NO_INFO)
      else
        var total := ParseInt(parts[1]);
        if total.None? then None
        else
          var rangeParts := Split(parts[0], '-');
          if |rangeParts| != 2 then Some(NO_INFO)
          else
            var start := ParseInt(rangeParts[0]);
            if start.None? then None
            else
              var end := ParseInt(rangeParts[1]);
              if end.None? then None else Some(ChunkInfo(start.value, end.value, total.value))
  }

  function Complete(header: string): bool {
    if !IsChunk(header) then true
    else
      var parts := Split(TrimBytes(header), '/');
      if |parts| != 2 then false
      else
        var total := ParseInt(parts[1]);
        if total.None? then false
        else
          var rangeParts := Split(parts[0], '-');
          if |rangeParts| != 2 then false
          else
            var end := ParseInt(rangeParts[1]);
            end.Some? && Increment(end.value) == total.value
  }

  /** The header a client prints for the bytes `s` to `e` of `t`. */
  function Header(s: nat, e: nat, t: nat): string { "bytes " + Decimal(s) + "-" + Decimal(e) + "/" + Decimal(t) }

  lemma {:induction false} SplitNone(s: string, sep: char)
    requires sep !in s
    ensures Split(s, sep) == [s]
    decreases |s|
  {
    if s != "" {
      assert s[0] in s;
      SplitNone(s[1..], sep);
      assert [s[0]] + s[1..] == s;
    }
  }

  lemma {:induction false} SplitTwo(a: string, b: string, sep: char)
    requires sep !in a && sep !in b
    ensures Split(a + [sep] + b, sep) == [a, b]
    decreases |a|
  {
    var s := a + [sep] + b;
    if a == "" {
      assert s[1..] == b;
      SplitNone(b, sep);
    } else {
      assert a[0] in a;
      assert s[1..] == a[1..] + [sep] + b;
      SplitTwo(a[1..], b, sep);
      assert [a[0]] + a[1..] == a;
    }
  }

  lemma TrimPrefix(rest: string)
    ensures TrimBytes("bytes " + rest) == rest
  {
    var h := "bytes " + rest;
    assert h[..6] == "bytes " && h[6..] == rest;
  }

  lemma SplitHeader(s: nat, e: nat, t: nat)
    ensures Split(TrimBytes(Header(s, e, t)), '/') == [Decimal(s) + "-" + Decimal(e), Decimal(t)]
    ensures Split(Decimal(s) + "-" + Decimal(e), '-') == [Decimal(s), Decimal(e)]
  {
    var a, b, c := Decimal(s), Decimal(e), Decimal(t);
    NoDigit(s, '/');
    NoDigit(e, '/');
    NoDigit(t, '/');
    NoDigit(s, '-');
    NoDigit(e, '-');
    hide Decimal, Split, TrimBytes;
    assert Header(s, e, t) == "bytes " + ((a + "-" + b) + "/" + c);
    TrimPrefix((a + "-" + b) + "/" + c);
    SplitTwo(a + "-" + b, c, '/');
    SplitTwo(a, b, '-');
  }

  /**
   * A printed header is read back exactly, and says complete on the last byte only, exactly while the total fits 64
   * bits.
   */
  lemma HeaderRoundTrip(s: nat, e: nat, t: nat)
    requires s <= e < t
    ensures GetChunkInfo(Header(s, e, t)) == Some(ChunkInfo(s, e, t)) <==> t <= MAX_INT64
    ensures t <= MAX_INT64 ==> (Complete(Header(s, e, t)) <==> e + 1 == t)
    ensures t > MAX_INT64 ==> GetChunkInfo(Header(s, e, t)).None? && !Complete(Header(s, e, t))
  {
    SplitHeader(s, e, t);
    ParseDecimal(s);
    ParseDecimal(e);
    ParseDecimal(t);
  }

  /** The two parsers agree on every string that GetChunkInfo accepts, well-formed or not. */
  lemma ParsersAgree(header: string)
    requires IsChunk(header) && GetChunkInfo(header).Some?
    ensures var info := GetChunkInfo(header).value; Complete(header) <==> Increment(info.end) == info.total
  {
    assert Increment(0) != 0;
  }

  /** Without a sign in the way, positions are never negative, so the first chunk's size is at least one. */
  lemma {:induction false} SplitParts(s: string, sep: char)
    ensures forall part <- Split(s, sep) :: sep !in part
    decreases |s|
  {
    if s != "" {
      SplitParts(s[1..], sep);
      var rest := Split(s[1..], sep);
      assert rest[0] in rest;
    }
  }

  lemma PositionsNotNegative(header: string)
    requires GetChunkInfo(header).Some?
    ensures var info := GetChunkInfo(header).value; info.start >= 0 && 0 <= info.end <= MAX_INT64
  {
    var parts := Split(TrimBytes(header), '/');
    if IsChunk(header) && |parts| == 2 {
      var rangeParts := Split(parts[0], '-');
      SplitParts(parts[0], '-');
      if |rangeParts| == 2 {
        assert rangeParts[0] in rangeParts && rangeParts[1] in rangeParts;
        assert forall p <- rangeParts :: p != "" ==> p[0] in p;
      }
    }
  }

  // ---------------------------------------------------------------- headers of any shape

  function Occurs(s: string, c: char): nat { if s == "" then 0 else Occurs(s[1..], c) + if s[0] == c then 1 else 0 }

  lemma {:induction false} SplitCounts(s: string, sep: char)
    ensures |Split(s, sep)| == Occurs(s, sep) + 1
    decreases |s|
  {
    if s != "" { SplitCounts(s[1..], sep); }
  }

  /** A header, with the unit in front or without. */
  predicate Reads(header: string, rest: string) {
    header != "" && (header == "bytes " + rest || (header == rest && !("bytes " <= rest)))
  }

  lemma ReadsTrims(header: string, rest: string)
    requires Reads(header, rest)
    ensures TrimBytes(header) == rest
  {
    TrimPrefix(rest);
  }

  /** Without exactly one slash a header is no error: it reads as three zeros, and is never complete. */
  lemma SlashesMatter(header: string, rest: string)
    requires Reads(header, rest) && Occurs(rest, '/') != 1
    ensures GetChunkInfo(header) == Some(ChunkInfo(0, 0, 0)) && !Complete(header)
  {
    ReadsTrims(header, rest);
    SplitCounts(rest, '/');
  }

  /** With one slash, a total that does not parse is an error; otherwise the same goes for the dashes in front of it. */
  lemma DashesMatter(header: string, range: string, total: string)
    requires Reads(header, range + "/" + total) && '/' !in range && '/' !in total
    ensures ParseInt(total).None? ==> GetChunkInfo(header) == None && !Complete(header)
    ensures ParseInt(total).Some? && Occurs(range, '-') != 1 ==>
      GetChunkInfo(header) == Some(ChunkInfo(0, 0, 0)) && !Complete(header)
  {
    ReadsTrims(header, range + "/" + total);
    SplitTwo(range, total, '/');
    SplitCounts(range, '-');
    hide Split, ParseInt, Occurs;
  }

  /** With one of each, the three numbers are what stands there, and any that does not parse is an error. */
  lemma NumbersMatter(header: string, start: string, end: string, total: string)
    requires Reads(header, start + "-" + end + "/" + total) && '/' !in start && '/' !in end && '/' !in total
    requires '-' !in start && '-' !in end
    ensures var s, e, t := ParseInt(start), ParseInt(end), ParseInt(total);
      && GetChunkInfo(header) ==
           (if s.Some? && e.Some? && t.Some? then Some(ChunkInfo(s.value, e.value, t.value)) else None)
      && (Complete(header) <==>
        e.Some? && t.Some? && t.value == if e.value == MAX_INT64 then MIN_INT64 else e.value + 1)
  {
    ReadsTrims(header, start + "-" + end + "/" + total);
    SplitTwo(start + "-" + end, total, '/');
    SplitTwo(start, end, '-');
    hide Split, ParseInt;
  }
}
