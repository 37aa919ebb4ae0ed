/**
 * groupby([key, 'Genre_Category']).size().unstack(fill_value=0): a count
 * per (key, category) pair, one row per key and one column per category
 * that occurs, columns in label order. Used for the decade table
 * (analysis.py:137) and the top-country table (analysis.py:312-314).
 */
module Crosstab {
  import opened Text
  import opened Genre
  import opened Counting

  /** One row of the table: the key and a count per column. */
  datatype Row<K> = Row(key: K, counts: seq<nat>)

  datatype Table<K> = Table(columns: seq<Category>, rows: seq<Row<K>>)

  function RowKeys<K>(rows: seq<Row<K>>): (ks: seq<K>)
    ensures |ks| == |rows| && forall i :: 0 <= i < |rows| ==> ks[i] == rows[i].key
  {
    seq(|rows|, i requires 0 <= i < |rows| => rows[i].key)
  }

  /** The categories of the entries with key k, in order. */
  function CategoriesAt<K(==,!new)>(entries: seq<(K, Category)>, k: K): (cs: seq<Category>)
    ensures forall c :: multiset(cs)[c] == multiset(entries)[(k, c)]
    ensures forall c :: c in cs ==> c in Seconds(entries)
  {
    if entries == [] then []
    else
      var init := entries[..|entries| - 1];
      var last := entries[|entries| - 1];
      assert entries == init + [last];
      assert Seconds(entries) == Seconds(init) + [last.1];
      CategoriesAt(init, k) + (if last.0 == k then [last.1] else [])
  }

  /** One row per key; a cell counts the entries with that key and category. */
  function RowsFor<K(==,!new)>(entries: seq<(K, Category)>, keys: seq<K>, columns: seq<Category>): (rows: seq<Row<K>>)
    ensures |rows| == |keys|
    ensures forall i :: 0 <= i < |keys| ==>
      rows[i].key == keys[i] && |rows[i].counts| == |columns|
      && forall j :: 0 <= j < |columns| ==> rows[i].counts[j] == multiset(entries)[(keys[i], columns[j])]
  {
    seq(|keys|, i requires 0 <= i < |keys| => Row(keys[i], CountsFor(columns, CategoriesAt(entries, keys[i]))))
  }

  /** The columns: every category that occurs, in label order. */
  function Columns<K>(entries: seq<(K, Category)>): (cs: seq<Category>)
    ensures forall c :: c in cs <==> c in Seconds(entries)
    ensures forall i, j :: 0 <= i < j < |cs| ==> StrLt(Label(cs[i]), Label(cs[j]))
    ensures Distinct(cs)
  {
    var cs := LabelOrdered(Seconds(entries));
    forall i, j | 0 <= i < j < |cs| ensures cs[i] != cs[j] {
      LabelOrderedDistinct(Seconds(entries), i, j);
    }
    DistinctFromPairwise(cs);
    cs
  }

  /** The table for the given row keys. */
  function CountTable<K(==,!new)>(entries: seq<(K, Category)>, keys: seq<K>): Table<K>
  {
    var columns := Columns(entries);
    Table(columns, RowsFor(entries, keys, columns))
  }

  /**
   * Every entry with a row's key is counted in exactly one cell of that
   * row: the row sums to the number of entries with that key.
   */
  lemma RowSum<K(!new)>(entries: seq<(K, Category)>, keys: seq<K>, i: int)
    requires 0 <= i < |keys|
    ensures Sum(CountTable(entries, keys).rows[i].counts) == |CategoriesAt(entries, keys[i])|
    ensures |CategoriesAt(entries, keys[i])| == multiset(Keys(entries))[keys[i]]
  {
    var columns := Columns(entries);
    var own := CategoriesAt(entries, keys[i]);
    assert CountTable(entries, keys).rows[i].counts == CountsFor(columns, own);
    SumOfCounts(columns, own);
    CategoriesAtCount(entries, keys[i]);
  }

  lemma {:induction false} CategoriesAtCount<K(!new)>(entries: seq<(K, Category)>, k: K)
    ensures |CategoriesAt(entries, k)| == multiset(Keys(entries))[k]
  {
    if entries != [] {
      var init := entries[..|entries| - 1];
      CategoriesAtCount(init, k);
      assert entries == init + [entries[|entries| - 1]];
      assert Keys(entries) == Keys(init) + [entries[|entries| - 1].0];
    }
  }
}
