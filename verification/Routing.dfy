/** Which events a handler prefix and a listener pattern stand for. */
module Routing {

  predicate HasPrefix(s: string, prefix: string) { prefix <= s }

  predicate HasSuffix(s: string, suffix: string) { |suffix| <= |s| && s[|s| - |suffix|..] == suffix }

  function TrimSuffix(s: string, suffix: string): string {
    if HasSuffix(s, suffix) then s[..|s| - |suffix|] else s
  }

  predicate MatchPattern(pattern: string, eventType: string) {
    if pattern == "*" then true
    else if HasSuffix(pattern, ".*") then HasPrefix(eventType, TrimSuffix(pattern, "*"))
    else pattern == eventType
  }

  /** strings.IndexByte for a dot. */
  function IndexDot(s: string): (i: int)
    ensures i == -1 ==> '.' !in s
    ensures i != -1 ==> 0 <= i < |s| && s[i] == '.' && '.' !in s[..i]
  {
    if s == "" then -1
    else if s[0] == '.' then 0
    else
      var rest := IndexDot(s[1..]);
      if rest == -1 then -1 else assert s[..rest + 1] == [s[0]] + s[1..][..rest]; rest + 1
  }

  function PrefixOf(typ: string): string {
    var i := IndexDot(typ);
    if i >= 0 then typ[..i] else typ
  }

  lemma StarPattern(p: string, t: string)
    ensures MatchPattern(p + ".*", t) <==> p + "." <= t
  {
    var pattern := p + ".*";
    assert pattern[|pattern| - 2..] == ".*" && pattern[|pattern| - 1..] == "*";
    assert pattern[..|pattern| - 1] == p + ".";
  }

  lemma {:induction false} FirstDotAt(t: string, i: nat)
    requires i < |t| && t[i] == '.' && '.' !in t[..i]
    ensures IndexDot(t) == i
    decreases i
  {
    if i > 0 {
      assert t[0] == t[..i][0] && t[1..][..i - 1] == t[..i][1..];
      FirstDotAt(t[1..], i - 1);
    }
  }

  /** What a pattern matches: everything, one event type, or every type that starts with its prefix and a dot. */
  lemma PatternMeans(pattern: string, t: string)
    ensures MatchPattern(pattern, t) <==>
              pattern == "*" || pattern == t || exists p :: pattern == p + ".*" && p + "." <= t
  {
    if HasSuffix(pattern, ".*") {
      var p := pattern[..|pattern| - 2];
      assert pattern == p + ".*";
      StarPattern(p, t);
      if pattern == t { assert t[..|pattern| - 1] == p + "."; }
    }
    if p :| pattern == p + ".*" && p + "." <= t { StarPattern(p, t); }
  }

  /** The handler that an event type of the form p.x is routed to, for a prefix without dots. */
  lemma RoutedTo(p: string, t: string)
    requires '.' !in p
    ensures p + "." <= t <==> '.' in t && PrefixOf(t) == p
  {
    if p + "." <= t {
      assert t[|p|] == '.' && t[..|p|] == p;
      FirstDotAt(t, |p|);
    }
    if '.' in t && PrefixOf(t) == p {
      assert t == p + "." + t[|p| + 1..];
    }
  }

  /**
   * The listener pattern p.* sees exactly the dotted event types that are routed to handler prefix p, if and only if
   * p itself has no dot: a handler registered under a dotted prefix can never be reached.
   */
  lemma RoutingAgreesIff(p: string)
    ensures (forall t :: MatchPattern(p + ".*", t) <==> '.' in t && PrefixOf(t) == p) <==> '.' !in p
  {
    if '.' !in p {
      forall t ensures MatchPattern(p + ".*", t) <==> '.' in t && PrefixOf(t) == p {
        StarPattern(p, t);
        RoutedTo(p, t);
      }
    } else {
      var t := p + ".";
      StarPattern(p, t);
      assert PrefixOf(t) != p;
    }
  }

  /** Every handler prefix is dot-free: no event type is routed to a prefix with a dot in it. */
  lemma PrefixHasNoDot(t: string)
    ensures '.' !in PrefixOf(t)
    ensures PrefixOf(PrefixOf(t)) == PrefixOf(t)
  {}
}
