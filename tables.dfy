/**
 * The translator's lookup tables are JavaScript object literals indexed by
 * a string the user picked. A table is modelled as its entries in source
 * order; `table[key]` is the value of the entry with that key, or
 * `undefined` when there is none.
 */
module Tables {
  import opened Wrappers

  /** An object literal with string values, as its (key, value) entries. */
  type Table = seq<(string, string)>

  /** `table[key]`: the value under `key`, absent (`undefined`) when no entry
      has that key. */
  function Lookup(table: Table, key: string): Option<string> {
    if table == [] then None
    else if table[0].0 == key then Some(table[0].1)
    else Lookup(table[1..], key)
  }

  /** Every value of the table satisfies `c !in value`. */
  predicate ValuesAvoid(table: Table, c: char) {
    forall i :: 0 <= i < |table| ==> c !in table[i].1
  }

  /** Every value of the table is a non-empty string. */
  predicate ValuesNonEmpty(table: Table) {
    forall i :: 0 <= i < |table| ==> table[i].1 != ""
  }

  /** A lookup finds a value exactly when some entry has the key, and what
      it finds is the value of such an entry. */
  lemma {:induction false} LookupFinds(table: Table, key: string)
    ensures Lookup(table, key).Some? <==> exists i :: 0 <= i < |table| && table[i].0 == key
    ensures Lookup(table, key).Some? ==>
              exists i :: 0 <= i < |table| && table[i] == (key, Lookup(table, key).value)
    decreases |table|
  {
    if table != [] && table[0].0 != key {
      LookupFinds(table[1..], key);
      if exists i :: 0 <= i < |table| && table[i].0 == key {
        var i :| 0 <= i < |table| && table[i].0 == key;
        assert table[1..][i - 1].0 == key;
      }
      if Lookup(table, key).Some? {
        var i :| 0 <= i < |table[1..]| && table[1..][i] == (key, Lookup(table, key).value);
        assert table[i + 1] == table[1..][i];
      }
    }
  }

  /** A value found in a table whose values avoid `c` avoids `c`. */
  lemma LookupAvoids(table: Table, key: string, c: char)
    requires ValuesAvoid(table, c)
    ensures Lookup(table, key).Some? ==> c !in Lookup(table, key).value
  {
    LookupFinds(table, key);
  }

  /** A value found in a table of non-empty values is non-empty. */
  lemma LookupNonEmpty(table: Table, key: string)
    requires ValuesNonEmpty(table)
    ensures Lookup(table, key).Some? ==> Lookup(table, key).value != ""
  {
    LookupFinds(table, key);
  }
}
