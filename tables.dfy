/**
 * One SQLite table whose key is `id INTEGER PRIMARY KEY AUTOINCREMENT` and whose
 * other columns are text plus `created_at`. The table is a sequence of rows in
 * insertion order; with AUTOINCREMENT that is ascending id order. `last` is the
 * table's entry in `sqlite_sequence`: the largest id ever issued, which deletes
 * never lower, so an id is never issued twice.
 *
 * F is the record of text columns (ProductFields or BranchFields).
 */
module Tables {
  import opened Lists

  /** A stored row: id, text columns, and `created_at`, which is set once on insert. */
  datatype Row<F> = Row(id: int, fields: F, createdAt: string)

  /** A row as `SELECT id, <text columns>` returns it: `created_at` is not selected. */
  datatype Record<F> = Record(id: int, fields: F)

  function View<F>(row: Row<F>): Record<F> {
    Record(row.id, row.fields)
  }

  ghost function IdSet<F>(t: seq<Row<F>>): set<int> {
    set row | row in t :: row.id
  }

  predicate Ascending<F>(t: seq<Row<F>>) {
    forall i, j :: 0 <= i < j < |t| ==> t[i].id < t[j].id
  }

  /** The table invariant: ids ascend and lie between 1 and the sequence value. */
  predicate WellFormed<F>(t: seq<Row<F>>, last: nat) {
    Ascending(t) && forall i :: 0 <= i < |t| ==> 1 <= t[i].id <= last
  }

  // ---------------------------------------------------------------------------
  // INSERT INTO t (...) VALUES (...)
  // ---------------------------------------------------------------------------

  /** AUTOINCREMENT: the new row's id is one more than any id ever issued. */
  function Insert<F>(t: seq<Row<F>>, last: nat, f: F, now: string): (r: seq<Row<F>>)
    requires WellFormed(t, last)
    ensures WellFormed(r, last + 1)
    ensures last + 1 !in IdSet(t) && IdSet(r) == IdSet(t) + {last + 1}
    ensures |r| == |t| + 1 && r[..|t|] == t && r[|t|] == Row(last + 1, f, now)
  {
    var r := t + [Row(last + 1, f, now)];
    assert forall row | row in r :: row in t || row == r[|t|];
    r
  }

  // ---------------------------------------------------------------------------
  // UPDATE t SET <all text columns> WHERE id = ?
  // ---------------------------------------------------------------------------

  /** Every row with the given id gets the new fields; ids, `created_at` and other rows stay. */
  function Update<F>(t: seq<Row<F>>, id: int, f: F): (r: seq<Row<F>>)
    ensures |r| == |t|
    ensures forall i :: 0 <= i < |t| ==> r[i].id == t[i].id && r[i].createdAt == t[i].createdAt
    ensures forall i :: 0 <= i < |t| ==> r[i].fields == if t[i].id == id then f else t[i].fields
  {
    if t == [] then []
    else [if t[0].id == id then t[0].(fields := f) else t[0]] + Update(t[1..], id, f)
  }

  /** The rows `WHERE id = ?` selects; their number is what SQLite reports as `changes`. */
  function Matching<F(==,!new)>(t: seq<Row<F>>, id: int): seq<Row<F>> {
    Filter(t, (row: Row<F>) => row.id == id)
  }

  /** In a well-formed table an id selects one row if present and none otherwise. */
  lemma {:induction false} MatchingCount<F(!new)>(t: seq<Row<F>>, id: int)
    requires Ascending(t)
    ensures |Matching(t, id)| == if id in IdSet(t) then 1 else 0
  {
    if t != [] {
      var rest := t[1..];
      assert Ascending(rest);
      assert t == [t[0]] + rest;
      assert IdSet(t) == {t[0].id} + IdSet(rest);
      MatchingCount(rest, id);
      if t[0].id == id {
        assert id !in IdSet(rest) by {
          forall row | row in rest ensures row.id != id {
            var k :| 0 <= k < |rest| && rest[k] == row;
            assert t[k + 1] == row;
          }
        }
      }
    }
  }

  lemma UpdateKeepsWellFormed<F>(t: seq<Row<F>>, last: nat, id: int, f: F)
    requires WellFormed(t, last)
    ensures WellFormed(Update(t, id, f), last) && IdSet(Update(t, id, f)) == IdSet(t)
  {
    var r := Update(t, id, f);
    forall x | x in IdSet(r) ensures x in IdSet(t) {
      var k :| 0 <= k < |r| && r[k].id == x;
      assert t[k] in t;
    }
    forall x | x in IdSet(t) ensures x in IdSet(r) {
      var k :| 0 <= k < |t| && t[k].id == x;
      assert r[k] in r;
    }
  }

  /** An UPDATE whose id is absent changes nothing. */
  lemma UpdateAbsent<F>(t: seq<Row<F>>, id: int, f: F)
    requires id !in IdSet(t)
    ensures Update(t, id, f) == t
  {
    var r := Update(t, id, f);
    forall i | 0 <= i < |t| ensures r[i] == t[i] {
      assert t[i] in t;
    }
  }

  /** Repeating an UPDATE with the same values yields the same table. */
  lemma UpdateIdempotent<F>(t: seq<Row<F>>, id: int, f: F)
    ensures Update(Update(t, id, f), id, f) == Update(t, id, f)
  {
  }

  // ---------------------------------------------------------------------------
  // DELETE FROM t WHERE id = ?
  // ---------------------------------------------------------------------------

  function Delete<F(==,!new)>(t: seq<Row<F>>, id: int): seq<Row<F>> {
    Filter(t, (row: Row<F>) => row.id != id)
  }

  /** In an ascending table every later row, and so every row a filter keeps of them, has a larger id. */
  lemma FirstIsSmallest<F(!new)>(t: seq<Row<F>>, p: Row<F> -> bool)
    requires t != [] && Ascending(t)
    ensures forall row | row in Filter(t[1..], p) :: t[0].id < row.id
  {
    forall row | row in Filter(t[1..], p) ensures t[0].id < row.id {
      var k :| 0 <= k < |t[1..]| && t[1..][k] == row;
      assert t[k + 1] == row;
    }
  }

  /** A row placed before an ascending table whose ids all exceed its own gives an ascending table. */
  lemma ConsAscending<F>(x: Row<F>, fr: seq<Row<F>>)
    requires Ascending(fr) && forall row | row in fr :: x.id < row.id
    ensures Ascending([x] + fr)
  {
    var r := [x] + fr;
    forall i, j | 0 <= i < j < |r| ensures r[i].id < r[j].id {
      assert r[j] == fr[j - 1] && fr[j - 1] in fr;
      if i > 0 {
        assert r[i] == fr[i - 1];
      }
    }
  }

  /** Any selection of rows from an ascending table, kept in order, is ascending. */
  lemma {:induction false} FilterKeepsAscending<F(!new)>(t: seq<Row<F>>, p: Row<F> -> bool)
    requires Ascending(t)
    ensures Ascending(Filter(t, p))
  {
    if t != [] {
      var rest := t[1..];
      assert Ascending(rest);
      FilterKeepsAscending(rest, p);
      var fr := Filter(rest, p);
      if p(t[0]) {
        FirstIsSmallest(t, p);
        ConsAscending(t[0], fr);
        assert Filter(t, p) == [t[0]] + fr;
      } else {
        assert Filter(t, p) == fr;
      }
    }
  }

  lemma DeleteIdSet<F(!new)>(t: seq<Row<F>>, id: int)
    ensures IdSet(Delete(t, id)) == IdSet(t) - {id}
  {
    var r := Delete(t, id);
    forall x | x in IdSet(r) ensures x in IdSet(t) - {id} {
      var row :| row in r && row.id == x;
    }
    forall x | x in IdSet(t) - {id} ensures x in IdSet(r) {
      var row :| row in t && row.id == x;
      assert row in r;
    }
  }

  lemma DeleteKeepsWellFormed<F(!new)>(t: seq<Row<F>>, last: nat, id: int)
    requires WellFormed(t, last)
    ensures WellFormed(Delete(t, id), last)
  {
    var r := Delete(t, id);
    FilterKeepsAscending(t, (row: Row<F>) => row.id != id);
    forall i | 0 <= i < |r| ensures 1 <= r[i].id <= last {
      assert r[i] in t;
    }
  }

  /**
   * DELETE removes exactly the row with that id (`changes` is 1) when it is present,
   * removes nothing (`changes` is 0) when it is absent, and keeps the table well formed.
   */
  lemma DeleteRemovesExactlyOne<F(!new)>(t: seq<Row<F>>, last: nat, id: int)
    requires WellFormed(t, last)
    ensures WellFormed(Delete(t, id), last)
    ensures IdSet(Delete(t, id)) == IdSet(t) - {id}
    ensures |t| - |Delete(t, id)| == if id in IdSet(t) then 1 else 0
    ensures id !in IdSet(t) ==> Delete(t, id) == t
  {
    DeleteKeepsWellFormed(t, last, id);
    DeleteIdSet(t, id);
    FilterPartition(t, (row: Row<F>) => row.id == id, (row: Row<F>) => row.id != id);
    MatchingCount(t, id);
    if id !in IdSet(t) {
      forall i | 0 <= i < |t| ensures t[i].id != id {
        assert t[i] in t;
      }
      FilterAll(t, (row: Row<F>) => row.id != id);
    }
  }

  /** A second DELETE of the same id finds no row (`changes` is 0) and changes nothing. */
  lemma DeleteTwice<F(!new)>(t: seq<Row<F>>, last: nat, id: int)
    requires WellFormed(t, last)
    ensures id !in IdSet(Delete(t, id))
    ensures Delete(Delete(t, id), id) == Delete(t, id)
  {
    DeleteRemovesExactlyOne(t, last, id);
    DeleteRemovesExactlyOne(Delete(t, id), last, id);
  }

  /** DELETE keeps every other row, in order. */
  lemma DeleteKeepsOthers<F(!new)>(t: seq<Row<F>>, id: int)
    ensures forall row | row in t && row.id != id :: row in Delete(t, id)
    ensures IsSubsequence(Delete(t, id), t)
  {
  }

  // ---------------------------------------------------------------------------
  // SELECT id, <text columns> FROM t ORDER BY id DESC
  // ---------------------------------------------------------------------------

  /** Every row, newest first, as a Record (without `created_at`). */
  function ListDescending<F>(t: seq<Row<F>>): (r: seq<Record<F>>)
    ensures |r| == |t|
    ensures forall i :: 0 <= i < |t| ==> r[i] == View(t[|t| - 1 - i])
    ensures Ascending(t) ==> forall i, j :: 0 <= i < j < |r| ==> r[i].id > r[j].id
  {
    if t == [] then [] else [View(t[|t| - 1])] + ListDescending(t[..|t| - 1])
  }

  /** The listing holds exactly one Record per row: the stored id and text columns. */
  lemma ListDescendingHoldsEveryRow<F>(t: seq<Row<F>>)
    ensures forall row | row in t :: View(row) in ListDescending(t)
    ensures forall rec | rec in ListDescending(t) :: exists row | row in t :: rec == View(row)
  {
    var r := ListDescending(t);
    forall row | row in t ensures View(row) in r {
      var k :| 0 <= k < |t| && t[k] == row;
      assert r[|t| - 1 - k] == View(row);
    }
    forall rec | rec in r ensures exists row | row in t :: rec == View(row) {
      var k :| 0 <= k < |r| && r[k] == rec;
      assert t[|t| - 1 - k] in t;
    }
  }

  /** After an INSERT the listing is the new record followed by the previous listing. */
  lemma ListAfterInsert<F>(t: seq<Row<F>>, last: nat, f: F, now: string)
    requires WellFormed(t, last)
    ensures ListDescending(Insert(t, last, f, now)) == [Record(last + 1, f)] + ListDescending(t)
  {
    var r := Insert(t, last, f, now);
    assert r[..|r| - 1] == t;
  }
}
