/**
 * Flat records to a forest: every record names its parent by key, and Tree links fresh copies of the records into
 * the children lists of their parents. Keys and parents are the strings the code formats them to.
 */
module ArrayTree {
  import opened Options
  import opened Sequences

  /** A record: its primary key and its parent, where the fields are present. */
  datatype Record = Record(key: Option<string>, parent: Option<string>)

  /** How the code formats the parent of a record that has no parent field. */
  const NIL := "<nil>"

  // ---------------------------------------------------------------- which record sits where

  /** The table of records by key: the last record of a key wins, records without a key are skipped. */
  function Table(records: seq<Record>): map<string, Record> {
    if records == [] then map[] else
      var r := records[|records| - 1];
      var before := Table(records[..|records| - 1]);
      if r.key.Some? then before[r.key.value := r] else before
  }

  function LinkName(r: Record): string { if r.parent.Some? then r.parent.value else NIL }

  /** The key under which `k` is linked as a child, if it is. */
  function ParentOf(table: map<string, Record>, empty: string, k: string): Option<string>
    requires k in table
  {
    var p := LinkName(table[k]);
    if p == empty || p !in table then None else Some(p)
  }

  /** `k` is listed at the top: it has a parent field, which is empty or unknown. */
  predicate IsRoot(table: map<string, Record>, empty: string, k: string)
    requires k in table
  {
    table[k].parent.Some? && (table[k].parent.value == empty || table[k].parent.value !in table)
  }

  /** The keys of the top-level entries, one for each root record in input order. */
  function RootKeys(table: map<string, Record>, empty: string, records: seq<Record>): seq<string> {
    if records == [] then [] else
      var r := records[|records| - 1];
      RootKeys(table, empty, records[..|records| - 1])
      + (if r.key.Some? && r.key.value in table && IsRoot(table, empty, r.key.value) then [r.key.value] else [])
  }

  /** The result of Tree, as keys: the top-level list and every children list. */
  datatype Forest = Forest(roots: seq<string>, kids: map<string, seq<string>>)

  /** Each children list holds, in some order and once each, the keys linked under it. */
  ghost predicate Links(f: Forest, records: seq<Record>, empty: string) {
    var table := Table(records);
    && f.roots == RootKeys(table, empty, records)
    && f.kids.Keys == table.Keys
    && forall k <- table.Keys :: NoRepeats(f.kids[k]) && forall c ::
      c in f.kids[k] <==> c in table && ParentOf(table, empty, c) == Some(k)
  }

  // ---------------------------------------------------------------- the code

  class Node {
    const key: string
    const record: Record
    var children: seq<Node>

    constructor (key: string, record: Record)
      ensures this.key == key && this.record == record && children == []
    {
      this.key := key;
      this.record := record;
      children := [];
    }
  }

  function KeysOf(nodes: seq<Node>): (keys: seq<string>)
    ensures |keys| == |nodes| && forall i :: 0 <= i < |nodes| ==> keys[i] == nodes[i].key
  {
    seq(|nodes|, i requires 0 <= i < |nodes| => nodes[i].key)
  }

  /** Every node of the table carries its own key and record. */
  ghost predicate Filed(mapping: map<string, Node>, table: map<string, Record>) {
    && mapping.Keys == table.Keys
    && forall k <- mapping.Keys :: mapping[k].key == k && mapping[k].record == table[k]
  }

  /** The children of `n` are table nodes. */
  ghost predicate FromTable(mapping: map<string, Node>, nodes: seq<Node>) {
    forall i :: 0 <= i < |nodes| ==> nodes[i].key in mapping && mapping[nodes[i].key] == nodes[i]
  }

  /** The children lists of the table, as keys. */
  ghost function KidsOf(mapping: map<string, Node>): map<string, seq<string>>
    reads mapping.Values
  {
    map k <- mapping.Keys :: KeysOf(mapping[k].children)
  }

  ghost function Shape(roots: seq<Node>, mapping: map<string, Node>): Forest
    reads mapping.Values
  {
    Forest(KeysOf(roots), KidsOf(mapping))
  }

  /**
   * Where the linking loop stands: every key outside `todo` is in the list of its parent, and nothing else is anywhere.
   */
  ghost predicate LinkedSoFar(kids: map<string, seq<string>>, table: map<string, Record>, empty: string,
    todo: set<string>) {
    && kids.Keys == table.Keys
    && forall k <- table.Keys ::
         NoRepeats(kids[k]) && forall c ::
           c in kids[k] <==> c in table && c !in todo && ParentOf(table, empty, c) == Some(k)
  }

  lemma LinkOne(kids: map<string, seq<string>>, table: map<string, Record>, empty: string, todo: set<string>,
    key: string)
    requires LinkedSoFar(kids, table, empty, todo) && key in todo && key in table
    ensures ParentOf(table, empty, key) == None ==> LinkedSoFar(kids, table, empty, todo - {key})
    ensures forall p :: ParentOf(table, empty, key) == Some(p) ==>
              p in kids && LinkedSoFar(kids[p := kids[p] + [key]], table, empty, todo - {key})
  {
    forall p | ParentOf(table, empty, key) == Some(p)
      ensures p in kids && LinkedSoFar(kids[p := kids[p] + [key]], table, empty, todo - {key})
    {
      var longer := kids[p := kids[p] + [key]];
      assert key !in kids[p];
      forall k <- table.Keys, c
        ensures c in longer[k] <==> c in table && c !in todo - {key} && ParentOf(table, empty, c) == Some(k)
      {
        assert c in longer[k] <==> c in kids[k] || (k == p && c == key);
      }
    }
  }

  /** The last record of the prefix decides one more key. */
  lemma TableStep(records: seq<Record>, i: nat)
    requires i < |records|
    ensures Table(records[..i + 1]) ==
      if records[i].key.Some? then Table(records[..i])[records[i].key.value := records[i]] else Table(records[..i])
  {
    assert records[..i + 1][..i] == records[..i];
  }

  lemma RootKeysStep(table: map<string, Record>, empty: string, records: seq<Record>, i: nat)
    requires i < |records|
    ensures RootKeys(table, empty, records[..i + 1]) == RootKeys(table, empty, records[..i])
      + (if records[i].key.Some? && records[i].key.value in table && IsRoot(table, empty, records[i].key.value)
         then [records[i].key.value] else [])
  {
    assert records[..i + 1][..i] == records[..i];
  }

  lemma {:induction false} TableHasKey(records: seq<Record>, i: nat)
    requires i < |records| && records[i].key.Some?
    ensures records[i].key.value in Table(records)
  {
    if i < |records| - 1 { TableHasKey(records[..|records| - 1], i); }
  }

  /** First loop: one fresh node per record with a key. */
  method File(records: seq<Record>) returns (mapping: map<string, Node>)
    ensures Filed(mapping, Table(records))
    ensures forall k <- mapping.Keys :: fresh(mapping[k]) && mapping[k].children == []
  {
    mapping := map[];
    assert records[..0] == [];
    for i := 0 to |records|
      invariant Filed(mapping, Table(records[..i]))
      invariant forall k <- mapping.Keys :: fresh(mapping[k]) && mapping[k].children == []
    {
      TableStep(records, i);
      if records[i].key.Some? {
        var node := new Node(records[i].key.value, records[i]);
        mapping := mapping[records[i].key.value := node];
      }
    }
    assert records[..|records|] == records;
  }

  /**
   * Second loop: the entries of the table in whatever order the map yields them, each appended to its parent's list.
   */
  method Link(mapping: map<string, Node>, ghost table: map<string, Record>, empty: string)
    requires Filed(mapping, table)
    requires forall k <- mapping.Keys :: mapping[k].children == []
    modifies mapping.Values
    ensures LinkedSoFar(KidsOf(mapping), table, empty, {})
    ensures forall k <- mapping.Keys :: FromTable(mapping, mapping[k].children)
  {
    var todo := mapping.Keys;
    while todo != {}
      invariant todo <= mapping.Keys
      invariant LinkedSoFar(KidsOf(mapping), table, empty, todo)
      invariant forall k <- mapping.Keys :: FromTable(mapping, mapping[k].children)
      decreases todo
    {
      var key :| key in todo;
      var parent := LinkName(mapping[key].record);
      ghost var kids := KidsOf(mapping);
      LinkOne(kids, table, empty, todo, key);
      todo := todo - {key};
      if parent != empty && parent in mapping {
        assert ParentOf(table, empty, key) == Some(parent);
        AppendChild(mapping, table, parent, mapping[key]);
      }
    }
  }

  /** The append in the second loop changes one children list only: no two keys share a node. */
  method AppendChild(mapping: map<string, Node>, ghost table: map<string, Record>, parent: string, child: Node)
    requires Filed(mapping, table) && parent in mapping
    requires child.key in mapping && mapping[child.key] == child
    requires forall k <- mapping.Keys :: FromTable(mapping, mapping[k].children)
    modifies mapping[parent]
    ensures KidsOf(mapping) == old(KidsOf(mapping))[parent := old(KidsOf(mapping))[parent] + [child.key]]
    ensures forall k <- mapping.Keys :: FromTable(mapping, mapping[k].children)
  {
    mapping[parent].children := mapping[parent].children + [child];
    forall k <- mapping.Keys
      ensures mapping[k].children == if k == parent then old(mapping[k].children) + [child]
        else old(mapping[k].children)
    {
      assert mapping[k] == mapping[parent] ==> mapping[k].key == mapping[parent].key;
    }
    assert KeysOf(mapping[parent].children) == KeysOf(old(mapping[parent].children)) + [child.key];
  }

  /** Third loop: the top-level entries in input order. */
  method Collect(records: seq<Record>, mapping: map<string, Node>, empty: string) returns (roots: seq<Node>)
    requires Filed(mapping, Table(records))
    ensures FromTable(mapping, roots)
    ensures KeysOf(roots) == RootKeys(Table(records), empty, records)
  {
    roots := [];
    for i := 0 to |records|
      invariant FromTable(mapping, roots)
      invariant KeysOf(roots) == RootKeys(Table(records), empty, records[..i])
    {
      RootKeysStep(Table(records), empty, records, i);
      if records[i].key.Some? {
        TableHasKey(records, i);
        var node := mapping[records[i].key.value];
        if node.record.parent.Some? {
          if node.record.parent.value == empty {
            roots := roots + [node];
          } else if node.record.parent.value !in mapping {
            roots := roots + [node];
          }
        }
      }
    }
    assert records[..|records|] == records;
  }

  /**
   * The flat list as a forest of fresh nodes. `mapping` is the table the code drops on return; the shape of what it
   * links does not depend on the order in which the table is traversed, beyond the order inside children lists.
   */
  method Tree(records: seq<Record>, empty: string) returns (roots: seq<Node>, ghost mapping: map<string, Node>)
    ensures Filed(mapping, Table(records)) && forall k <- mapping.Keys :: fresh(mapping[k])
    ensures FromTable(mapping, roots) && forall k <- mapping.Keys :: FromTable(mapping, mapping[k].children)
    ensures Links(Shape(roots, mapping), records, empty)
  {
    var table := File(records);
    Link(table, Table(records), empty);
    roots := Collect(records, table, empty);
    mapping := table;
  }
}
