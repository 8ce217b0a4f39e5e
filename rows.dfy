/**
  A result row as the database driver hands it to the server and the
  server hands it to the client: a JavaScript object whose own properties
  are listed in `Object.keys` order, one field per column.
*/
module Rows {
  import opened Wrappers

  /** A scalar column value. */
  datatype Value = Null | Number(n: real) | Str(s: string)

  datatype Field = Field(key: string, value: Value)

  type Row = seq<Field>

  /** An object never has two own properties with the same name. */
  predicate DistinctKeys(row: Row) {
    forall i, j :: 0 <= i < j < |row| ==> row[i].key != row[j].key
  }

  /** The row's property names, in enumeration order. */
  function Keys(row: Row): (ks: seq<string>)
    ensures |ks| == |row|
    ensures forall i :: 0 <= i < |row| ==> ks[i] == row[i].key
  {
    seq(|row|, i requires 0 <= i < |row| => row[i].key)
  }

  /** Whether the row has an own property named `k`: some field carries
      that key. */
  predicate HasKey(row: Row, k: string)
    ensures HasKey(row, k) <==> exists i :: 0 <= i < |row| && row[i].key == k
  {
    k in Keys(row)
  }

  /** The value of the property named `k`, or `None` (undefined) when the
      row has no such property. */
  function Lookup(row: Row, k: string): (v: Option<Value>)
    ensures v.Some? <==> HasKey(row, k)
  {
    if row == [] then None
    else
      assert Keys(row) == [row[0].key] + Keys(row[1..]);
      if row[0].key == k then Some(row[0].value) else Lookup(row[1..], k)
  }

  /** In a row with distinct keys, looking up the i-th key gives the i-th value. */
  lemma {:induction false} LookupAt(row: Row, i: nat)
    requires DistinctKeys(row)
    requires i < |row|
    ensures Lookup(row, row[i].key) == Some(row[i].value)
  {
    if i > 0 {
      assert row[0].key != row[i].key;
      LookupAt(row[1..], i - 1);
    }
  }

  /** Fields placed in front of a row do not change the lookup of any key
      those fields do not carry. */
  lemma {:induction false} LookupDropFront(extra: Row, post: Row, k: string)
    requires !HasKey(extra, k)
    ensures Lookup(extra + post, k) == Lookup(post, k)
  {
    if extra == [] {
      assert extra + post == post;
    } else {
      assert (extra + post)[1..] == extra[1..] + post;
      assert Keys(extra) == [extra[0].key] + Keys(extra[1..]);
      LookupDropFront(extra[1..], post, k);
    }
  }

  /** Fields inserted anywhere in a row do not change the lookup of any key
      the inserted fields do not carry. */
  lemma {:induction false} LookupInserted(pre: Row, extra: Row, post: Row, k: string)
    requires !HasKey(extra, k)
    ensures Lookup(pre + extra + post, k) == Lookup(pre + post, k)
  {
    if pre == [] {
      assert pre + extra + post == extra + post;
      assert pre + post == post;
      LookupDropFront(extra, post, k);
    } else {
      assert (pre + extra + post)[1..] == pre[1..] + extra + post;
      assert (pre + post)[1..] == pre[1..] + post;
      LookupInserted(pre[1..], extra, post, k);
    }
  }
}
