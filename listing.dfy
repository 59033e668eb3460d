/** Listings built from a whole-table scan: `SELECT ... WHERE <condition>
    ORDER BY <key>` becomes a filter of the scanned rows followed by a sort,
    and `COUNT`/`SUM` become a length and a sum over such a listing. */
module Listing {
  import opened Store
  import opened Sorting

  /** `rows` lists exactly the entries of `table` whose value satisfies
      `keep`, each of them once. */
  ghost predicate RowsWhere<K, V>(rows: seq<Row<K, V>>, table: map<K, V>, keep: V -> bool) {
    && (forall i | 0 <= i < |rows| :: rows[i].id in table && table[rows[i].id] == rows[i].value && keep(rows[i].value))
    && ListsEvery(rows, table, keep)
    && DistinctIds(rows)
  }

  /** Every entry of `table` satisfying `keep` has a row in `rows`. */
  ghost predicate ListsEvery<K, V>(rows: seq<Row<K, V>>, table: map<K, V>, keep: V -> bool) {
    forall k | k in table && keep(table[k]) :: exists i | 0 <= i < |rows| :: rows[i].id == k
  }

  ghost predicate DistinctIds<K, V>(rows: seq<Row<K, V>>) {
    forall i, j | 0 <= i < j < |rows| :: rows[i].id != rows[j].id
  }

  /** The keys of the entries satisfying `keep`. */
  ghost function KeysWhere<K, V>(table: map<K, V>, keep: V -> bool): set<K> {
    set k | k in table && keep(table[k])
  }

  /** The rows whose value satisfies `keep`, in their original order. */
  function Where<K, V>(rows: seq<Row<K, V>>, keep: V -> bool): (r: seq<Row<K, V>>)
    ensures |r| <= |rows|
  {
    if rows == [] then []
    else
      var last := rows[|rows| - 1];
      var front := rows[..|rows| - 1];
      Where(front, keep) + (if keep(last.value) then [last] else [])
  }

  /** The filter keeps exactly the rows that match. */
  lemma {:induction false} WhereMembers<K, V>(rows: seq<Row<K, V>>, keep: V -> bool)
    ensures forall x | x in Where(rows, keep) :: x in rows && keep(x.value)
    ensures forall x | x in rows && keep(x.value) :: x in Where(rows, keep)
  {
    if rows != [] {
      var n := |rows| - 1;
      WhereMembers(rows[..n], keep);
      assert rows == rows[..n] + [rows[n]];
    }
  }

  /** Sum of `f` over the rows' values (`reduce((sum, x) => sum + f(x), 0)`). */
  function TotalOf<K, V>(rows: seq<Row<K, V>>, f: V -> int): int {
    if rows == [] then 0 else TotalOf(rows[..|rows| - 1], f) + f(rows[|rows| - 1].value)
  }

  lemma {:induction false} WhereKeepsDistinct<K, V>(rows: seq<Row<K, V>>, keep: V -> bool)
    requires DistinctIds(rows)
    ensures DistinctIds(Where(rows, keep))
  {
    if rows != [] {
      var n := |rows| - 1;
      var front := Where(rows[..n], keep);
      WhereKeepsDistinct(rows[..n], keep);
      WhereMembers(rows[..n], keep);
      forall i | 0 <= i < |front|
        ensures front[i].id != rows[n].id
      {
        assert front[i] in rows[..n];
      }
    }
  }

  /** Filtering a full scan lists exactly the matching entries of the table. */
  lemma WhereLists<K, V>(rows: seq<Row<K, V>>, table: map<K, V>, keep: V -> bool)
    requires RowsOf(rows, table)
    ensures RowsWhere(Where(rows, keep), table, keep)
  {
    WhereKeepsDistinct(rows, keep);
    WhereRowsIn(rows, table, keep);
    WhereRowsCover(rows, table, keep);
  }

  /** Proof helper: a filter of a full scan lists only matching entries. */
  lemma WhereRowsIn<K, V>(rows: seq<Row<K, V>>, table: map<K, V>, keep: V -> bool)
    requires forall i | 0 <= i < |rows| :: rows[i].id in table && table[rows[i].id] == rows[i].value
    ensures var r := Where(rows, keep);
      forall i | 0 <= i < |r| :: r[i].id in table && table[r[i].id] == r[i].value && keep(r[i].value)
  {
    var r := Where(rows, keep);
    WhereMembers(rows, keep);
    forall i | 0 <= i < |r|
      ensures r[i].id in table && table[r[i].id] == r[i].value && keep(r[i].value)
    {
      assert r[i] in r;
      var j :| 0 <= j < |rows| && rows[j] == r[i];
    }
  }

  /** Proof helper: a matching row survives the filter. */
  lemma {:induction false} WhereKeepsMatch<K, V>(rows: seq<Row<K, V>>, keep: V -> bool, j: int)
    requires 0 <= j < |rows| && keep(rows[j].value)
    ensures rows[j] in Where(rows, keep)
  {
    var n := |rows| - 1;
    if j < n {
      WhereKeepsMatch(rows[..n], keep, j);
    }
  }

  /** Proof helper: a filter of a full scan lists every matching entry. */
  lemma WhereRowsCover<K, V>(rows: seq<Row<K, V>>, table: map<K, V>, keep: V -> bool)
    requires forall i | 0 <= i < |rows| :: rows[i].id in table && table[rows[i].id] == rows[i].value
    requires forall k | k in table :: exists i | 0 <= i < |rows| :: rows[i].id == k
    ensures ListsEvery(Where(rows, keep), table, keep)
  {
    forall k | k in table && keep(table[k])
      ensures exists i | 0 <= i < |Where(rows, keep)| :: Where(rows, keep)[i].id == k
    {
      var j :| 0 <= j < |rows| && rows[j].id == k;
      WhereListsRow(rows, keep, j);
    }
  }

  /** Proof helper: a matching row's id is listed by the filter. */
  lemma WhereListsRow<K, V>(rows: seq<Row<K, V>>, keep: V -> bool, j: int)
    requires 0 <= j < |rows| && keep(rows[j].value)
    ensures exists i | 0 <= i < |Where(rows, keep)| :: Where(rows, keep)[i].id == rows[j].id
  {
    var r := Where(rows, keep);
    WhereKeepsMatch(rows, keep, j);
    var i :| 0 <= i < |r| && r[i] == rows[j];
  }

  /** Sorting a listing keeps it a listing of the same entries. */
  lemma SortKeepsListing<K(!new), V(!new)>(rows: seq<Row<K, V>>, table: map<K, V>, keep: V -> bool,
                               le: (Row<K, V>, Row<K, V>) -> bool)
    requires RowsWhere(rows, table, keep) && TotalPreorder(le)
    ensures RowsWhere(Sort(rows, le), table, keep)
  {
    DistinctIdsNoDuplicates(rows);
    var s := Sort(rows, le);
    ReorderedRowsIn(rows, s, table, keep);
    ReorderedRowsCover(rows, s, table, keep);
    ReorderedIdsDistinct(rows, s);
  }

  /** Proof helper: rows with distinct ids are distinct rows. */
  lemma DistinctIdsNoDuplicates<K, V>(rows: seq<Row<K, V>>)
    requires DistinctIds(rows)
    ensures NoDuplicates(rows)
  {
    forall i, j | 0 <= i < j < |rows| ensures rows[i] != rows[j] {
      assert rows[i].id != rows[j].id;
    }
  }

  /** Proof helper: a reordering lists only matching entries of the table. */
  lemma ReorderedRowsIn<K, V>(rows: seq<Row<K, V>>, s: seq<Row<K, V>>, table: map<K, V>, keep: V -> bool)
    requires multiset(s) == multiset(rows)
    requires forall i | 0 <= i < |rows| :: rows[i].id in table && table[rows[i].id] == rows[i].value && keep(rows[i].value)
    ensures forall i | 0 <= i < |s| :: s[i].id in table && table[s[i].id] == s[i].value && keep(s[i].value)
  {
    forall i | 0 <= i < |s|
      ensures s[i].id in table && table[s[i].id] == s[i].value && keep(s[i].value)
    {
      assert s[i] in multiset(rows);
      var j :| 0 <= j < |rows| && rows[j] == s[i];
    }
  }

  /** Proof helper: a reordering still lists every matching entry. */
  lemma ReorderedRowsCover<K, V>(rows: seq<Row<K, V>>, s: seq<Row<K, V>>, table: map<K, V>, keep: V -> bool)
    requires multiset(s) == multiset(rows)
    requires ListsEvery(rows, table, keep)
    ensures ListsEvery(s, table, keep)
  {
    forall k | k in table && keep(table[k])
      ensures exists i | 0 <= i < |s| :: s[i].id == k
    {
      var j :| 0 <= j < |rows| && rows[j].id == k;
      assert rows[j] in multiset(s);
      var i :| 0 <= i < |s| && s[i] == rows[j];
    }
  }

  /** Proof helper: a reordering without repeated rows keeps the ids distinct. */
  lemma ReorderedIdsDistinct<K, V>(rows: seq<Row<K, V>>, s: seq<Row<K, V>>)
    requires multiset(s) == multiset(rows) && NoDuplicates(s) && DistinctIds(rows)
    ensures DistinctIds(s)
  {
    forall i, j | 0 <= i < j < |s|
      ensures s[i].id != s[j].id
    {
      assert s[i] in multiset(rows) && s[j] in multiset(rows);
      var a :| 0 <= a < |rows| && rows[a] == s[i];
      var b :| 0 <= b < |rows| && rows[b] == s[j];
      assert a != b;
    }
  }

  /** A listing has one row per matching key: its length is the number of
      matching entries of the table, whatever order the rows come in. */
  lemma {:induction false} ListingCount<K, V>(rows: seq<Row<K, V>>, table: map<K, V>, keep: V -> bool)
    requires RowsWhere(rows, table, keep)
    ensures |rows| == |KeysWhere(table, keep)|
  {
    if rows == [] {
      assert KeysWhere(table, keep) == {};
    } else {
      var n := |rows| - 1;
      var last := rows[n];
      var rest := table - {last.id};
      forall k | k in rest && keep(rest[k])
        ensures exists i | 0 <= i < n :: rows[..n][i].id == k
      {
        var i :| 0 <= i < |rows| && rows[i].id == k;
        assert rows[..n][i].id == k;
      }
      ListingCount(rows[..n], rest, keep);
      assert KeysWhere(rest, keep) == KeysWhere(table, keep) - {last.id};
    }
  }

  /** A full scan has one row per entry of the table. */
  lemma ScanCount<K, V>(rows: seq<Row<K, V>>, table: map<K, V>)
    requires RowsOf(rows, table)
    ensures |rows| == |table|
  {
    FullScanListsAll(rows, table);
    ListingCount(rows, table, AnyValue);
    assert KeysWhere(table, AnyValue) == table.Keys;
  }

  /** Sorting a full scan keeps it a full scan. */
  lemma SortKeepsRows<K(!new), V(!new)>(rows: seq<Row<K, V>>, table: map<K, V>, le: (Row<K, V>, Row<K, V>) -> bool)
    requires RowsOf(rows, table) && TotalPreorder(le)
    ensures RowsOf(Sort(rows, le), table)
  {
    FullScanListsAll(rows, table);
    SortKeepsListing(rows, table, AnyValue, le);
    ListingOfAllIsScan(Sort(rows, le), table);
  }

  /** The condition every row meets. */
  predicate AnyValue<V>(v: V) {
    true
  }

  /** Proof helper: a full scan is a listing under the condition that always holds. */
  lemma FullScanListsAll<K, V>(rows: seq<Row<K, V>>, table: map<K, V>)
    requires RowsOf(rows, table)
    ensures RowsWhere(rows, table, AnyValue)
  {
  }

  /** Proof helper: a listing under the condition that always holds is a full scan. */
  lemma ListingOfAllIsScan<K, V>(rows: seq<Row<K, V>>, table: map<K, V>)
    requires RowsWhere(rows, table, AnyValue)
    ensures RowsOf(rows, table)
  {
  }

  /** A stricter condition never lists more rows. */
  lemma {:induction false} WhereMonotone<K, V>(rows: seq<Row<K, V>>, narrow: V -> bool, wide: V -> bool)
    requires forall i | 0 <= i < |rows| :: narrow(rows[i].value) ==> wide(rows[i].value)
    ensures |Where(rows, narrow)| <= |Where(rows, wide)|
  {
    if rows != [] {
      WhereMonotone(rows[..|rows| - 1], narrow, wide);
    }
  }

  /** Conditions that never hold together list disjoint sets of rows. */
  lemma WhereDisjoint<K, V>(rows: seq<Row<K, V>>, a: V -> bool, b: V -> bool)
    requires forall i | 0 <= i < |rows| :: !(a(rows[i].value) && b(rows[i].value))
    ensures forall x, y | x in Where(rows, a) && y in Where(rows, b) :: x != y
  {
    WhereMembers(rows, a);
    WhereMembers(rows, b);
    forall x, y | x in Where(rows, a) && y in Where(rows, b)
      ensures x != y
    {
      var i :| 0 <= i < |rows| && rows[i] == x;
    }
  }
}
