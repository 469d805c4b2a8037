/** A relational table as the route handlers see it: rows in primary-key
    order, keys handed out by an AUTO_INCREMENT counter starting at 1. */
module Tables {
  import opened Wrappers

  datatype Row<R> = Row(id: int, data: R)

  /** Keys are positive, strictly increasing, and below the counter. */
  predicate WellFormed<R>(rows: seq<Row<R>>, nextId: int) {
    && 1 <= nextId
    && (forall i, j :: 0 <= i < j < |rows| ==> rows[i].id < rows[j].id)
    && (forall i :: 0 <= i < |rows| ==> 1 <= rows[i].id < nextId)
  }

  predicate HasId<R>(rows: seq<Row<R>>, id: int) {
    exists i :: 0 <= i < |rows| && rows[i].id == id
  }

  /** `SELECT ... WHERE id = ?`: the position of the first row with that key. */
  function Find<R>(rows: seq<Row<R>>, id: int): (k: Option<nat>)
    ensures k.Some? ==> k.value < |rows| && rows[k.value].id == id
    ensures k.Some? ==> forall i :: 0 <= i < k.value ==> rows[i].id != id
    ensures k.None? <==> !HasId(rows, id)
  {
    if rows == [] then None
    else if rows[0].id == id then Some(0)
    else match Find(rows[1..], id)
      case None => None
      case Some(j) => Some(j + 1)
  }

  /** In a well-formed table the row a key names is unique. */
  lemma FindUnique<R>(rows: seq<Row<R>>, nextId: int, id: int, i: int)
    requires WellFormed(rows, nextId)
    requires 0 <= i < |rows| && rows[i].id == id
    ensures Find(rows, id) == Some(i)
  {
  }

  /** `INSERT` with an AUTO_INCREMENT key. */
  function Insert<R>(rows: seq<Row<R>>, nextId: int, data: R): (r: seq<Row<R>>)
    requires WellFormed(rows, nextId)
    ensures WellFormed(r, nextId + 1)
    ensures r == rows + [Row(nextId, data)]
  {
    rows + [Row(nextId, data)]
  }

  /** One `INSERT` per element of ds, in order, each taking the next key. */
  function InsertAll<R>(rows: seq<Row<R>>, nextId: int, ds: seq<R>): (r: seq<Row<R>>)
    ensures |r| == |rows| + |ds|
  {
    rows + seq(|ds|, k requires 0 <= k < |ds| => Row(nextId + k, ds[k]))
  }

  /** The inserted rows follow the old ones, numbered from the counter on,
      and keep the table well formed. */
  lemma InsertAllWellFormed<R>(rows: seq<Row<R>>, nextId: int, ds: seq<R>)
    requires WellFormed(rows, nextId)
    ensures var r := InsertAll(rows, nextId, ds);
            && WellFormed(r, nextId + |ds|)
            && r[..|rows|] == rows
            && forall k :: 0 <= k < |ds| ==> r[|rows| + k] == Row(nextId + k, ds[k])
  {
  }

  /** Inserting one more element adds one row at the end. */
  lemma InsertAllSnoc<R>(rows: seq<Row<R>>, nextId: int, ds: seq<R>, d: R)
    ensures InsertAll(rows, nextId, ds + [d]) == InsertAll(rows, nextId, ds) + [Row(nextId + |ds|, d)]
  {
  }

  /** `DELETE ... WHERE id = ?`: every row with that key goes, the others
      stay in order. */
  function RemoveId<R>(rows: seq<Row<R>>, id: int): (r: seq<Row<R>>)
    ensures |r| <= |rows|
    ensures forall k :: 0 <= k < |r| ==> r[k] in rows && r[k].id != id
    ensures forall k :: 0 <= k < |rows| && rows[k].id != id ==> rows[k] in r
    ensures !HasId(rows, id) ==> r == rows
  {
    if rows == [] then []
    else (if rows[0].id == id then [] else [rows[0]]) + RemoveId(rows[1..], id)
  }

  lemma {:induction false} RemoveIdWellFormed<R>(rows: seq<Row<R>>, nextId: int, id: int)
    requires WellFormed(rows, nextId)
    ensures WellFormed(RemoveId(rows, id), nextId)
  {
    if rows != [] {
      var rest := rows[1..];
      assert WellFormed(rest, nextId) by {
        forall i, j | 0 <= i < j < |rest| ensures rest[i].id < rest[j].id {
          assert rest[i] == rows[i + 1] && rest[j] == rows[j + 1];
        }
      }
      RemoveIdWellFormed(rest, nextId, id);
    }
  }

  /** Well-formedness depends on the keys alone. */
  lemma SameKeysWellFormed<R>(rows: seq<Row<R>>, rows': seq<Row<R>>, nextId: int)
    requires WellFormed(rows, nextId)
    requires |rows'| == |rows| && forall i :: 0 <= i < |rows| ==> rows'[i].id == rows[i].id
    ensures WellFormed(rows', nextId)
  {
  }

  /** Replacing the data of the row at position k keeps the keys. */
  lemma UpdateWellFormed<R>(rows: seq<Row<R>>, nextId: int, k: nat, data: R)
    requires WellFormed(rows, nextId) && k < |rows|
    ensures WellFormed(rows[k := Row(rows[k].id, data)], nextId)
  {
  }
}

/** `ORDER BY <column> DESC`. */
module Ordering {

  predicate SortedDesc<R>(s: seq<R>, key: R -> int) {
    forall i, j :: 0 <= i < j < |s| ==> key(s[i]) >= key(s[j])
  }

  function InsertDesc<R(==)>(x: R, sorted: seq<R>, key: R -> int): (r: seq<R>)
    requires SortedDesc(sorted, key)
    ensures SortedDesc(r, key)
    ensures multiset(r) == multiset(sorted) + multiset{x}
    ensures |r| == |sorted| + 1
    ensures forall y :: y in r ==> y == x || y in sorted
  {
    if sorted == [] || key(x) >= key(sorted[0]) then [x] + sorted
    else
      var rest := InsertDesc(x, sorted[1..], key);
      assert sorted == [sorted[0]] + sorted[1..];
      assert forall k :: 0 <= k < |rest| ==> key(sorted[0]) >= key(rest[k]) by {
        forall k | 0 <= k < |rest| ensures key(sorted[0]) >= key(rest[k]) {
          assert rest[k] in rest;
        }
      }
      [sorted[0]] + rest
  }

  /** The rows in descending order of their key; rows with equal keys come
      in some order, as they do from the database. */
  function SortDesc<R(==)>(rows: seq<R>, key: R -> int): (r: seq<R>)
    ensures SortedDesc(r, key)
    ensures multiset(r) == multiset(rows)
  {
    if rows == [] then []
    else
      assert rows == [rows[0]] + rows[1..];
      InsertDesc(rows[0], SortDesc(rows[1..], key), key)
  }
}
