/** Ordering of query results (`ORDER BY ...`): an insertion sort by a
    caller-supplied total preorder, proved to return a sorted permutation. */
module Sorting {

  ghost predicate Total<T(!new)>(le: (T, T) -> bool) {
    forall a, b :: le(a, b) || le(b, a)
  }

  ghost predicate Transitive<T(!new)>(le: (T, T) -> bool) {
    forall a, b, c :: le(a, b) && le(b, c) ==> le(a, c)
  }

  ghost predicate TotalPreorder<T(!new)>(le: (T, T) -> bool) {
    Total(le) && Transitive(le)
  }

  predicate SortedBy<T>(s: seq<T>, le: (T, T) -> bool) {
    forall i, j | 0 <= i < j < |s| :: le(s[i], s[j])
  }

  predicate NoDuplicates<T(==)>(s: seq<T>) {
    forall i, j | 0 <= i < j < |s| :: s[i] != s[j]
  }

  /** Inserts `x` into `s` in front of the first element that is not below it. */
  function Insert<T>(x: T, s: seq<T>, le: (T, T) -> bool): (r: seq<T>)
    ensures |r| == |s| + 1
    ensures multiset(r) == multiset(s) + multiset{x}
  {
    if s == [] then [x]
    else if !le(s[0], x) then [x] + s
    else
      assert s == [s[0]] + s[1..];
      [s[0]] + Insert(x, s[1..], le)
  }

  lemma {:induction false} InsertSorted<T(!new)>(x: T, s: seq<T>, le: (T, T) -> bool)
    requires TotalPreorder(le) && SortedBy(s, le)
    ensures SortedBy(Insert(x, s, le), le)
  {
    if s == [] {
    } else if !le(s[0], x) {
      assert le(x, s[0]);
      forall j | 0 < j < |s|
        ensures le(x, s[j])
      {
        assert le(s[0], s[j]);
      }
    } else {
      var rest := Insert(x, s[1..], le);
      InsertSorted(x, s[1..], le);
      HeadBelowInsert(x, s, le);
      var r := [s[0]] + rest;
      forall i, j | 0 <= i < j < |r|
        ensures le(r[i], r[j])
      {
        if i > 0 {
          assert r[i] == rest[i - 1] && r[j] == rest[j - 1];
        }
      }
    }
  }

  /** Proof helper: the head of a sorted sequence that stays in front is
      below everything inserted after it. */
  lemma HeadBelowInsert<T>(x: T, s: seq<T>, le: (T, T) -> bool)
    requires s != [] && le(s[0], x) && SortedBy(s, le)
    ensures forall k | 0 <= k < |Insert(x, s[1..], le)| :: le(s[0], Insert(x, s[1..], le)[k])
  {
    var rest := Insert(x, s[1..], le);
    forall k | 0 <= k < |rest|
      ensures le(s[0], rest[k])
    {
      assert rest[k] in multiset(rest);
      assert rest[k] in multiset(s[1..]) + multiset{x};
      if rest[k] != x {
        var m :| 0 <= m < |s[1..]| && s[1..][m] == rest[k];
        assert s[m + 1] == rest[k];
      }
    }
  }

  lemma {:induction false} InsertNoDuplicates<T>(x: T, s: seq<T>, le: (T, T) -> bool)
    ensures NoDuplicates(s) && x !in s ==> NoDuplicates(Insert(x, s, le))
  {
    if NoDuplicates(s) && x !in s && s != [] && le(s[0], x) {
      var rest := Insert(x, s[1..], le);
      InsertNoDuplicates(x, s[1..], le);
      var r := [s[0]] + rest;
      HeadNotInInsert(x, s, le);
      forall i, j | 0 <= i < j < |r|
        ensures r[i] != r[j]
      {
        if i > 0 {
          assert r[i] == rest[i - 1] && r[j] == rest[j - 1];
        }
      }
    }
  }

  /** Proof helper: the head of a sequence without duplicates does not
      reappear among the elements inserted after it. */
  lemma HeadNotInInsert<T>(x: T, s: seq<T>, le: (T, T) -> bool)
    requires s != [] && NoDuplicates(s) && x != s[0]
    ensures forall k | 0 <= k < |Insert(x, s[1..], le)| :: Insert(x, s[1..], le)[k] != s[0]
  {
    var rest := Insert(x, s[1..], le);
    forall k | 0 <= k < |rest|
      ensures rest[k] != s[0]
    {
      assert rest[k] in multiset(rest);
      assert rest[k] in multiset(s[1..]) + multiset{x};
      if rest[k] != x {
        var m :| 0 <= m < |s[1..]| && s[1..][m] == rest[k];
        assert s[m + 1] == rest[k];
      }
    }
  }

  /** `s` ordered by `le`: a sorted permutation of `s`. */
  function Sort<T(!new)>(s: seq<T>, le: (T, T) -> bool): (r: seq<T>)
    requires TotalPreorder(le)
    ensures |r| == |s|
    ensures multiset(r) == multiset(s)
    ensures SortedBy(r, le)
    ensures NoDuplicates(s) ==> NoDuplicates(r)
  {
    if s == [] then []
    else
      assert s == [s[0]] + s[1..];
      var rest := Sort(s[1..], le);
      InsertSorted(s[0], rest, le);
      InsertNoDuplicates(s[0], rest, le);
      TailNoDuplicates(s);
      Insert(s[0], rest, le)
  }

  /** Proof helper: without duplicates, the head is not in the tail and the
      tail has no duplicates either. */
  lemma TailNoDuplicates<T>(s: seq<T>)
    requires s != []
    ensures NoDuplicates(s) ==> NoDuplicates(s[1..]) && s[0] !in multiset(s[1..])
  {
    if NoDuplicates(s) {
      forall i, j | 0 <= i < j < |s[1..]|
        ensures s[1..][i] != s[1..][j]
      {
        assert s[1..][i] == s[i + 1] && s[1..][j] == s[j + 1];
      }
      forall k | 0 <= k < |s[1..]|
        ensures s[1..][k] != s[0]
      {
        assert s[1..][k] == s[k + 1];
      }
    }
  }
}
