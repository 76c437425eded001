/** Vocabulary shared by every component: optional values, results, and tables kept as lists. */
module Basics {
  datatype Option<+T> = None | Some(value: T) {
    function GetOr(default: T): T {
      if Some? then value else default
    }
  }

  datatype Result<+T, +E> = Ok(value: T) | Err(error: E)

  type Time = int

  /** Position of the first element that satisfies `p`, or `|xs|` when there is none. */
  function FirstIndex<T>(xs: seq<T>, p: T -> bool): (i: nat)
    ensures i <= |xs|
    ensures i < |xs| ==> p(xs[i])
    ensures forall j :: 0 <= j < i ==> !p(xs[j])
  {
    if xs == [] then 0
    else if p(xs[0]) then 0
    else 1 + FirstIndex(xs[1..], p)
  }

  /** One past the position of the last element that satisfies `p`, or 0 when there is none. */
  function LastIndexEnd<T>(xs: seq<T>, p: T -> bool): (i: nat)
    ensures i <= |xs|
    ensures i > 0 ==> p(xs[i - 1])
    ensures forall j :: i <= j < |xs| ==> !p(xs[j])
  {
    if xs == [] then 0
    else if p(xs[|xs| - 1]) then |xs|
    else LastIndexEnd(xs[..|xs| - 1], p)
  }

  function Filter<T(!new)>(xs: seq<T>, p: T -> bool): (r: seq<T>)
    ensures |r| <= |xs|
    ensures forall x :: x in r <==> x in xs && p(x)
  {
    if xs == [] then []
    else (if p(xs[0]) then [xs[0]] else []) + Filter(xs[1..], p)
  }

  lemma {:induction false} SubsetSize<T>(a: set<T>, b: set<T>)
    requires a <= b
    ensures |a| <= |b|
  {
    if a == {} {
    } else {
      var x :| x in a;
      SubsetSize(a - {x}, b - {x});
    }
  }
}

/** Lists of records that the ledgers use as maps: at most one record per key. */
module Tables {
  import opened Basics

  ghost predicate KeysUnique<R, K>(rows: seq<R>, key: R -> K) {
    forall i, j :: 0 <= i < j < |rows| ==> key(rows[i]) != key(rows[j])
  }

  /** The record stored under key `k`. */
  ghost function Find<R, K>(rows: seq<R>, key: R -> K, k: K): Option<R> {
    if exists i :: 0 <= i < |rows| && key(rows[i]) == k then
      var i :| 0 <= i < |rows| && key(rows[i]) == k;
      Some(rows[i])
    else None
  }

  lemma FindIs<R, K>(rows: seq<R>, key: R -> K, i: nat)
    requires KeysUnique(rows, key)
    requires i < |rows|
    ensures Find(rows, key, key(rows[i])) == Some(rows[i])
  {
  }

  /** Pushing a record with a new key adds exactly that entry. */
  lemma Push<R, K>(rows: seq<R>, key: R -> K, row: R, k: K)
    requires KeysUnique(rows, key)
    requires Find(rows, key, key(row)) == None
    ensures KeysUnique(rows + [row], key)
    ensures Find(rows + [row], key, k) == if k == key(row) then Some(row) else Find(rows, key, k)
  {
    var after := rows + [row];
    FindIs(after, key, |rows|);
    if k == key(row) {
    } else if Find(rows, key, k).Some? {
      var i :| 0 <= i < |rows| && rows[i] == Find(rows, key, k).value;
      assert after[i] == rows[i];
      FindIs(after, key, i);
    } else {
      assert forall i :: 0 <= i < |after| ==> key(after[i]) != k;
    }
  }

  /** Overwriting a record in place, key unchanged, changes exactly that entry. */
  lemma Replace<R, K>(rows: seq<R>, key: R -> K, i: nat, row: R, k: K)
    requires KeysUnique(rows, key)
    requires i < |rows| && key(rows[i]) == key(row)
    ensures KeysUnique(rows[i := row], key)
    ensures Find(rows[i := row], key, k) == if k == key(row) then Some(row) else Find(rows, key, k)
  {
    var after := rows[i := row];
    assert forall j :: 0 <= j < |rows| ==> key(after[j]) == key(rows[j]);
    FindIs(after, key, i);
    if k == key(row) {
    } else if Find(rows, key, k).Some? {
      var j :| 0 <= j < |rows| && rows[j] == Find(rows, key, k).value;
      assert after[j] == rows[j];
      FindIs(after, key, j);
    } else {
      assert forall j :: 0 <= j < |after| ==> key(after[j]) != k;
    }
  }

  /** Removing a record by position removes exactly that entry. */
  lemma Delete<R, K>(rows: seq<R>, key: R -> K, i: nat, k: K)
    requires KeysUnique(rows, key)
    requires i < |rows|
    ensures KeysUnique(rows[..i] + rows[i + 1..], key)
    ensures Find(rows[..i] + rows[i + 1..], key, k) == if k == key(rows[i]) then None else Find(rows, key, k)
  {
    var after := rows[..i] + rows[i + 1..];
    assert forall j :: 0 <= j < |after| ==> after[j] == if j < i then rows[j] else rows[j + 1];
    if k == key(rows[i]) || Find(rows, key, k).None? {
      assert forall j :: 0 <= j < |after| ==> key(after[j]) != k;
    } else {
      var j :| 0 <= j < |rows| && rows[j] == Find(rows, key, k).value;
      FindIs(after, key, if j < i then j else j - 1);
    }
  }

  /** A sublist of a table is a table. */
  lemma {:induction false} FilterKeepsUnique<R(!new), K>(rows: seq<R>, key: R -> K, p: R -> bool)
    requires KeysUnique(rows, key)
    ensures KeysUnique(Filter(rows, p), key)
  {
    if rows == [] {
    } else {
      FilterKeepsUnique(rows[1..], key, p);
      var rest := Filter(rows[1..], p);
      forall i | 0 <= i < |rest|
        ensures key(rest[i]) != key(rows[0])
      {
        assert rest[i] in rest;
        var j :| 0 <= j < |rows[1..]| && rows[1..][j] == rest[i];
        assert key(rows[j + 1]) != key(rows[0]);
      }
    }
  }
}
