/** String-keyed lookup tables: the object literals the pages index as `table[key]`. */
module Tables {
  import opened Wrappers

  /** `table[key]`: the value of the first entry with that key, absent when none has it. */
  function Lookup<V>(table: seq<(string, V)>, key: string): (r: Option<V>)
    ensures r.Some? <==> exists i :: 0 <= i < |table| && table[i].0 == key
    ensures r.Some? ==> exists i :: 0 <= i < |table| && table[i] == (key, r.value)
    decreases |table|
  {
    if |table| == 0 then None
    else if table[0].0 == key then Some(table[0].1)
    else
      assert forall i :: 1 <= i < |table| ==> table[1..][i - 1] == table[i];
      Lookup(table[1..], key)
  }

  predicate DistinctKeys<V>(table: seq<(string, V)>) {
    forall a, b :: 0 <= a < b < |table| ==> table[a].0 != table[b].0
  }

  /** With distinct keys, looking up entry k's key finds entry k's value. */
  lemma {:induction false} LookupAt<V>(table: seq<(string, V)>, k: nat)
    requires k < |table| && DistinctKeys(table)
    ensures Lookup(table, table[k].0) == Some(table[k].1)
    decreases k
  {
    if k > 0 {
      assert table[0].0 != table[k].0;
      var tail := table[1..];
      assert tail[k - 1] == table[k];
      assert DistinctKeys(tail) by {
        forall a, b | 0 <= a < b < |tail| ensures tail[a].0 != tail[b].0 {
          assert tail[a] == table[a + 1] && tail[b] == table[b + 1];
        }
      }
      LookupAt(tail, k - 1);
    }
  }

  /** Values are pairwise distinct. */
  predicate DistinctValues<V(==)>(table: seq<(string, V)>) {
    forall a, b :: 0 <= a < b < |table| ==> table[a].1 != table[b].1
  }

  /** A table with distinct keys and distinct values tells its keys apart. */
  lemma {:induction false} LookupInjective<V>(table: seq<(string, V)>, a: nat, b: nat)
    requires a < |table| && b < |table| && a != b
    requires DistinctKeys(table) && DistinctValues(table)
    ensures Lookup(table, table[a].0) != Lookup(table, table[b].0)
  {
    LookupAt(table, a);
    LookupAt(table, b);
    if a < b {
      assert table[a].1 != table[b].1;
    } else {
      assert table[b].1 != table[a].1;
    }
  }
}
