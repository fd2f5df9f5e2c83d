/**
 * The forest that Tree returns, read off the records themselves: whose child each record is, and what stands on top.
 */
module ForestRecords {
  import opened Options
  import opened Sequences
  import opened ArrayTree
  import opened ForestTheorems

  /** Of several records with one key the last is kept. */
  lemma {:induction false} LastRecordWins(records: seq<Record>, i: nat, k: string)
    requires i < |records| && records[i].key == Some(k)
    requires forall j :: i < j < |records| ==> records[j].key != Some(k)
    ensures k in Table(records) && Table(records)[k] == records[i]
    decreases |records|
  {
    var last := |records| - 1;
    if i < last { LastRecordWins(records[..last], i, k); }
  }

  /**
   * Children by records: with distinct keys, record `i` is listed once among the children of record `j` exactly if its
   * parent, as the code formats it, is the key of `j` and this key is not the empty value.
   */
  lemma ChildrenByRecords(f: Forest, records: seq<Record>, empty: string, i: nat, j: nat, c: string, k: string)
    requires Links(f, records, empty) && DistinctKeys(records) && i < |records| && j < |records|
    requires records[i].key == Some(c) && records[j].key == Some(k)
    ensures k in f.kids && NoRepeats(f.kids[k])
    ensures c in f.kids[k] <==>
              k != empty && k == if records[i].parent.Some? then records[i].parent.value else "<nil>"
    ensures forall d <- f.kids[k] :: exists n :: 0 <= n < |records| && records[n].key == Some(d)
  {
    LastRecordWins(records, i, c);
    LastRecordWins(records, j, k);
    TableKeys(records);
  }

  /** The top level by records: those whose parent field is there and is the empty value or the key of no record. */
  lemma RootsByRecords(f: Forest, records: seq<Record>, empty: string, i: nat, c: string)
    requires Links(f, records, empty) && DistinctKeys(records) && i < |records| && records[i].key == Some(c)
    ensures NoRepeats(f.roots)
    ensures c in f.roots <==>
              records[i].parent.Some?
              && (records[i].parent.value == empty
                  || forall j :: 0 <= j < |records| ==> records[j].key != records[i].parent)
  {
    LastRecordWins(records, i, c);
    RootKeysOnce(Table(records), empty, records);
    RootKeysExact(Table(records), empty, records);
    TableKeys(records);
    assert records[i].parent.Some? ==>
      (records[i].parent.value in Table(records) <==>
        exists j :: 0 <= j < |records| && records[j].key == records[i].parent);
  }

  /** The top level keeps the order of the records. */
  lemma RootsInInputOrder(f: Forest, records: seq<Record>, empty: string, a: nat, b: nat) returns (i: nat, j: nat)
    requires Links(f, records, empty) && a < b < |f.roots|
    ensures i < j < |records| && records[i].key == Some(f.roots[a]) && records[j].key == Some(f.roots[b])
  {
    i, j := PlacesOf(Table(records), empty, records, a, b);
  }

  lemma {:induction false} PlacesOf(table: map<string, Record>, empty: string, records: seq<Record>, a: nat, b: nat)
    returns (i: nat, j: nat)
    requires a < b < |RootKeys(table, empty, records)|
    ensures i < j < |records|
    ensures records[i].key == Some(RootKeys(table, empty, records)[a])
    ensures records[j].key == Some(RootKeys(table, empty, records)[b])
    decreases |records|
  {
    var last := |records| - 1;
    var before := RootKeys(table, empty, records[..last]);
    if b < |before| {
      i, j := PlacesOf(table, empty, records[..last], a, b);
    } else {
      j := last;
      RootKeysExact(table, empty, records[..last]);
      assert before[a] in before;
      i :| 0 <= i < last && records[..last][i].key == Some(before[a]);
    }
  }
}
