/** Which records the forest that Tree returns contains, and how often. */
module ForestTheorems {
  import opened Options
  import opened Sequences
  import opened ArrayTree

  /** The key at an index path: an index into the top level, then an index into each children list on the way down. */
  function At(f: Forest, path: seq<nat>): Option<string> {
    if path == [] then None
    else if |path| == 1 then (if path[0] < |f.roots| then Some(f.roots[path[0]]) else None)
    else
      var above := At(f, path[..|path| - 1]);
      var last := path[|path| - 1];
      if above.Some? && above.value in f.kids && last < |f.kids[above.value]| then
        Some(f.kids[above.value][last])
      else None
  }

  /** The key `n` parents up from `k`, as long as the chain goes. */
  function Ancestor(table: map<string, Record>, empty: string, k: string, n: nat): (a: Option<string>)
    requires k in table
    ensures a.Some? ==> a.value in table
  {
    if n == 0 then Some(k)
    else
      var below := Ancestor(table, empty, k, n - 1);
      if below.None? then None else ParentOf(table, empty, below.value)
  }

  /** The parent chain of `k` ends at a root. */
  ghost predicate Rooted(table: map<string, Record>, empty: string, k: string)
    requires k in table
  {
    exists n: nat :: EndsAt(table, empty, k, n)
  }

  predicate EndsAt(table: map<string, Record>, empty: string, k: string, n: nat)
    requires k in table
  {
    Ancestor(table, empty, k, n).Some? && IsRoot(table, empty, Ancestor(table, empty, k, n).value)
  }

  /** The parent chain of `k` comes back to a key it has been at. */
  ghost predicate EntersCycle(table: map<string, Record>, empty: string, k: string)
    requires k in table
  {
    exists i: nat, j: nat :: i < j && Meets(table, empty, k, i, j)
  }

  predicate Meets(table: map<string, Record>, empty: string, k: string, i: nat, j: nat)
    requires k in table
  {
    Ancestor(table, empty, k, i).Some? && Ancestor(table, empty, k, i) == Ancestor(table, empty, k, j)
  }

  ghost predicate DistinctKeys(records: seq<Record>) {
    forall i, j :: 0 <= i < j < |records| && records[i].key.Some? ==> records[i].key != records[j].key
  }

  // ---------------------------------------------------------------- top level

  lemma {:induction false} RootKeysExact(table: map<string, Record>, empty: string, records: seq<Record>)
    ensures forall k :: k in RootKeys(table, empty, records) <==>
              k in table && IsRoot(table, empty, k) && exists i :: 0 <= i < |records| && records[i].key == Some(k)
    decreases |records|
  {
    if records != [] {
      var last := |records| - 1;
      RootKeysExact(table, empty, records[..last]);
      forall k ensures k in RootKeys(table, empty, records) <==>
        k in table && IsRoot(table, empty, k) && exists i :: 0 <= i < |records| && records[i].key == Some(k)
      {
        var before := RootKeys(table, empty, records[..last]);
        if k in before {
          var i :| 0 <= i < last && records[..last][i].key == Some(k);
          assert records[i].key == Some(k);
        }
        if k in table && IsRoot(table, empty, k) {
          if i :| 0 <= i < |records| && records[i].key == Some(k) {
            if i < last { assert records[..last][i].key == Some(k); }
          }
        }
      }
    }
  }

  lemma {:induction false} RootKeysOnce(table: map<string, Record>, empty: string, records: seq<Record>)
    requires DistinctKeys(records)
    ensures NoRepeats(RootKeys(table, empty, records))
    decreases |records|
  {
    if records != [] {
      var last := |records| - 1;
      RootKeysOnce(table, empty, records[..last]);
      RootKeysExact(table, empty, records[..last]);
    }
  }

  lemma {:induction false} TableKeys(records: seq<Record>)
    ensures forall k :: k in Table(records) <==> exists i :: 0 <= i < |records| && records[i].key == Some(k)
    decreases |records|
  {
    if records != [] {
      var last := |records| - 1;
      TableKeys(records[..last]);
      forall k ensures k in Table(records) <==> exists i :: 0 <= i < |records| && records[i].key == Some(k) {
        if k in Table(records[..last]) {
          var i :| 0 <= i < last && records[..last][i].key == Some(k);
          assert records[i].key == Some(k);
        }
        if i :| 0 <= i < |records| && records[i].key == Some(k) {
          if i < last { assert records[..last][i].key == Some(k); }
        }
      }
    }
  }

  /** The top level of the result: exactly the root keys. */
  lemma TopLevel(f: Forest, records: seq<Record>, empty: string, k: string)
    requires Links(f, records, empty) && k in Table(records)
    ensures k in f.roots <==> IsRoot(Table(records), empty, k)
  {
    RootKeysExact(Table(records), empty, records);
    TableKeys(records);
  }

  // ---------------------------------------------------------------- where a record can be

  /** What stands above the last step of a path to `k`. */
  lemma Above(f: Forest, records: seq<Record>, empty: string, path: seq<nat>, k: string)
    requires Links(f, records, empty) && At(f, path) == Some(k)
    ensures k in Table(records)
    ensures |path| == 1 ==> IsRoot(Table(records), empty, k) && path[0] < |f.roots| && f.roots[path[0]] == k
    ensures |path| > 1 ==> var p := ParentOf(Table(records), empty, k);
      p.Some? && At(f, path[..|path| - 1]) == p && p.value in f.kids && path[|path| - 1] < |f.kids[p.value]|
        && f.kids[p.value][path[|path| - 1]] == k
  {
    if |path| == 1 {
      assert k in f.roots;
      RootKeysExact(Table(records), empty, records);
    } else {
      var up := At(f, path[..|path| - 1]).value;
      assert k in f.kids[up];
    }
  }

  /** A record occurs at most once: two index paths to the same key are equal. */
  lemma {:induction false} OccursOnce(f: Forest, records: seq<Record>, empty: string, k: string, p: seq<nat>,
    q: seq<nat>)
    requires Links(f, records, empty) && DistinctKeys(records)
    requires At(f, p) == Some(k) && At(f, q) == Some(k)
    ensures p == q
    decreases |p|
  {
    hide Links, At, Table, DistinctKeys;
    Above(f, records, empty, p, k);
    Above(f, records, empty, q, k);
    NotEmpty(f, p);
    NotEmpty(f, q);
    ListsOnce(f, records, empty, k);
    if |p| > 1 {
      OccursOnce(f, records, empty, ParentOf(Table(records), empty, k).value, p[..|p| - 1], q[..|q| - 1]);
      assert p == p[..|p| - 1] + [p[|p| - 1]] && q == q[..|q| - 1] + [q[|q| - 1]];
    }
  }

  /** The two lists a key could repeat in. */
  lemma ListsOnce(f: Forest, records: seq<Record>, empty: string, k: string)
    requires Links(f, records, empty) && DistinctKeys(records) && k in Table(records)
    ensures NoRepeats(f.roots)
    ensures var p := ParentOf(Table(records), empty, k); p.Some? ==> p.value in f.kids && NoRepeats(f.kids[p.value])
    ensures IsRoot(Table(records), empty, k) ==> ParentOf(Table(records), empty, k).None?
  {
    RootKeysOnce(Table(records), empty, records);
  }

  lemma {:induction false} AncestorShift(table: map<string, Record>, empty: string, k: string, n: nat)
    requires k in table
    ensures Ancestor(table, empty, k, n + 1) ==
      var p := ParentOf(table, empty, k); if p.None? then None else Ancestor(table, empty, p.value, n)
  {
    if n > 0 { AncestorShift(table, empty, k, n - 1); }
  }

  lemma NotEmpty(f: Forest, path: seq<nat>)
    requires At(f, path).Some?
    ensures path != []
  {}

  /** Where a path leads, the parent chain leads back up to a root. */
  lemma {:induction false} OccurrenceIsRooted(f: Forest, records: seq<Record>, empty: string, k: string, path: seq<nat>)
    requires Links(f, records, empty) && At(f, path) == Some(k)
    ensures k in Table(records) && EndsAt(Table(records), empty, k, |path| - 1)
    decreases |path|
  {
    hide Links, At, Table;
    assert path != [] by { NotEmpty(f, path); }
    Above(f, records, empty, path, k);
    if |path| > 1 {
      var up := ParentOf(Table(records), empty, k).value;
      OccurrenceIsRooted(f, records, empty, up, path[..|path| - 1]);
      AncestorShift(Table(records), empty, k, |path| - 2);
    }
  }

  /** A chain that ends at a root can be walked down again. */
  lemma {:induction false} RootedOccurs(f: Forest, records: seq<Record>, empty: string, k: string, n: nat)
    returns (path: seq<nat>)
    requires Links(f, records, empty) && k in Table(records) && EndsAt(Table(records), empty, k, n)
    ensures At(f, path) == Some(k)
    decreases n
  {
    hide Links, Table;
    if IsRoot(Table(records), empty, k) {
      TopLevel(f, records, empty, k);
      var i :| 0 <= i < |f.roots| && f.roots[i] == k;
      path := [i];
    } else {
      AncestorShift(Table(records), empty, k, n - 1);
      var up := ParentOf(Table(records), empty, k).value;
      var above := RootedOccurs(f, records, empty, up, n - 1);
      NotEmpty(f, above);
      var i := Listed(f, records, empty, k);
      path := above + [i];
      assert path[..|path| - 1] == above;
    }
  }

  lemma Listed(f: Forest, records: seq<Record>, empty: string, k: string) returns (i: nat)
    requires Links(f, records, empty) && k in Table(records) && ParentOf(Table(records), empty, k).Some?
    ensures var up := ParentOf(Table(records), empty, k).value; up in f.kids && i < |f.kids[up]| && f.kids[up][i] == k
  {
    var up := ParentOf(Table(records), empty, k).value;
    assert k in f.kids[up];
    i :| 0 <= i < |f.kids[up]| && f.kids[up][i] == k;
  }

  // ---------------------------------------------------------------- roots or cycles

  ghost predicate HaveParentField(table: map<string, Record>) { forall k <- table.Keys :: table[k].parent.Some? }

  /** A chain that never gets to a root never stops. */
  lemma {:induction false} ChainGoesOn(table: map<string, Record>, empty: string, k: string, n: nat)
    requires k in table && HaveParentField(table) && !Rooted(table, empty, k)
    ensures Ancestor(table, empty, k, n).Some?
  {
    if n > 0 {
      ChainGoesOn(table, empty, k, n - 1);
      assert !EndsAt(table, empty, k, n - 1);
    }
  }

  lemma {:induction false} Pigeonhole<T>(s: seq<T>, pool: set<T>) returns (i: nat, j: nat)
    requires |s| > |pool| && forall x <- s :: x in pool
    ensures i < j < |s| && s[i] == s[j]
    decreases |s|
  {
    var last := s[|s| - 1];
    var rest := s[..|s| - 1];
    if n :| 0 <= n < |rest| && rest[n] == last {
      i, j := n, |s| - 1;
    } else {
      assert |pool - {last}| == |pool| - 1;
      i, j := Pigeonhole(rest, pool - {last});
    }
  }

  /** A chain that meets itself never stops. */
  lemma {:induction false} CycleGoesOn(table: map<string, Record>, empty: string, k: string, i: nat, j: nat, n: nat)
    requires k in table && i < j && Meets(table, empty, k, i, j)
    ensures Ancestor(table, empty, k, n).Some?
    decreases n
  {
    if n <= j {
      ChainPrefix(table, empty, k, n, j);
    } else {
      CycleGoesOn(table, empty, k, i, j, n - (j - i));
      SamePace(table, empty, k, i, j, n - j);
    }
  }

  lemma {:induction false} ChainPrefix(table: map<string, Record>, empty: string, k: string, n: nat, m: nat)
    requires k in table && n <= m && Ancestor(table, empty, k, m).Some?
    ensures Ancestor(table, empty, k, n).Some?
    decreases m
  {
    if n < m { ChainPrefix(table, empty, k, n, m - 1); }
  }

  lemma {:induction false} SamePace(table: map<string, Record>, empty: string, k: string, i: nat, j: nat, d: nat)
    requires k in table && Ancestor(table, empty, k, i) == Ancestor(table, empty, k, j)
    ensures Ancestor(table, empty, k, i + d) == Ancestor(table, empty, k, j + d)
    decreases d
  {
    if d > 0 { SamePace(table, empty, k, i, j, d - 1); }
  }

  /** When every record has a parent field, a chain ends at a root or enters a cycle, and never both. */
  lemma RootOrCycle(table: map<string, Record>, empty: string, k: string)
    requires k in table && HaveParentField(table)
    ensures Rooted(table, empty, k) <==> !EntersCycle(table, empty, k)
  {
    if !Rooted(table, empty, k) {
      var n := |table.Keys| + 1;
      forall m | 0 <= m < n ensures Ancestor(table, empty, k, m).Some? { ChainGoesOn(table, empty, k, m); }
      var chain := seq(n, m requires 0 <= m < n => Ancestor(table, empty, k, m).value);
      var i, j := Pigeonhole(chain, table.Keys);
      assert Meets(table, empty, k, i, j);
    }
    if EntersCycle(table, empty, k) {
      var i: nat, j: nat :| i < j && Meets(table, empty, k, i, j);
      forall n: nat ensures !EndsAt(table, empty, k, n) {
        CycleGoesOn(table, empty, k, i, j, n + 1);
      }
    }
  }

  /**
   * Completeness of Tree, for every forest it may return and so for every map order. With distinct keys, each record
   * that has a key occurs at exactly one place of the result if its parent chain ends at a root, and nowhere otherwise;
   * when every record has a parent field, nowhere means exactly that its chain enters a cycle.
   */
  lemma ForestIsComplete(f: Forest, records: seq<Record>, empty: string, k: string)
    requires Links(f, records, empty) && DistinctKeys(records) && k in Table(records)
    ensures (exists path :: At(f, path) == Some(k)) <==> Rooted(Table(records), empty, k)
    ensures forall p, q :: At(f, p) == Some(k) && At(f, q) == Some(k) ==> p == q
    ensures HaveParentField(Table(records)) ==>
              ((forall path :: At(f, path) != Some(k)) <==> EntersCycle(Table(records), empty, k))
  {
    var table := Table(records);
    forall path | At(f, path) == Some(k) ensures Rooted(table, empty, k) {
      OccurrenceIsRooted(f, records, empty, k, path);
    }
    if Rooted(table, empty, k) {
      var n: nat :| EndsAt(table, empty, k, n);
      var path := RootedOccurs(f, records, empty, k, n);
    }
    forall p, q | At(f, p) == Some(k) && At(f, q) == Some(k) ensures p == q {
      OccursOnce(f, records, empty, k, p, q);
    }
    if HaveParentField(table) { RootOrCycle(table, empty, k); }
  }

  /** Nothing but records: whatever an index path leads to is the key of some record. */
  lemma ForestIsSound(f: Forest, records: seq<Record>, empty: string, path: seq<nat>)
    requires Links(f, records, empty) && At(f, path).Some?
    ensures exists i :: 0 <= i < |records| && records[i].key == At(f, path)
  {
    Above(f, records, empty, path, At(f, path).value);
    TableKeys(records);
  }
}
