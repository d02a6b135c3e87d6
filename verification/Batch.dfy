/** Picking the oldest of the rows that are due, as ORDER BY with LIMIT does. */
module Batch {
  import opened Common

  /** A row that is due: its number, and the time it is ordered by. */
  datatype Row = Row(id: nat, time: int)

  /** Oldest first, rows of one time in table order. */
  predicate Before(a: Row, b: Row) { a.time < b.time || (a.time == b.time && a.id < b.id) }

  predicate Ordered(rows: seq<Row>) { forall i, j | 0 <= i < j < |rows| :: Before(rows[i], rows[j]) }

  /** The first of an order, at most limit: what is left out comes after
      everything taken, and nothing is left out while there is room. */
  ghost predicate OldestOf(batch: seq<Row>, rows: seq<Row>, limit: nat) {
    && |batch| <= limit && Ordered(batch)
    && (forall r | r in batch :: r in rows)
    && (forall r | r in rows && r !in batch :: |batch| == limit && forall b | b in batch :: Before(b, r))
  }

  /** Where a row belongs in an ordered batch. */
  method Place(batch: seq<Row>, row: Row) returns (p: nat)
    requires Ordered(batch) && forall b | b in batch :: b.id != row.id
    ensures p <= |batch|
    ensures forall i | 0 <= i < p :: Before(batch[i], row)
    ensures forall i | p <= i < |batch| :: Before(row, batch[i])
  {
    p := 0;
    while p < |batch| && Before(batch[p], row)
      invariant p <= |batch|
      invariant forall i | 0 <= i < p :: Before(batch[i], row)
    {
      p := p + 1;
    }
  }

  /** Put in its place, a row joins an order. */
  lemma Joins(batch: seq<Row>, row: Row, p: nat)
    requires Ordered(batch) && p <= |batch|
    requires forall i | 0 <= i < p :: Before(batch[i], row)
    requires forall i | p <= i < |batch| :: Before(row, batch[i])
    ensures var all := batch[..p] + [row] + batch[p..];
      Ordered(all) && forall r :: r in all <==> r in batch || r == row
  {
    var all := batch[..p] + [row] + batch[p..];
    forall r ensures r in all <==> r in batch || r == row {
      assert batch == batch[..p] + batch[p..];
    }
  }

  /** Without its last row an order holds the same rows, and that one came after
      all of them. */
  lemma LastIsYoungest(all: seq<Row>)
    requires Ordered(all) && all != []
    ensures var (front, last) := (all[..|all| - 1], all[|all| - 1]);
      && Ordered(front)
      && (forall r :: r in all <==> r in front || r == last)
      && (forall r | r in front :: Before(r, last))
  {
    var n := |all| - 1;
    assert all == all[..n] + [all[n]];
  }

  /** One more row: put in its place, and the youngest dropped when there are
      too many. */
  method Add(batch: seq<Row>, row: Row, ghost rows: seq<Row>, limit: nat) returns (next: seq<Row>)
    requires OldestOf(batch, rows, limit) && forall r | r in rows :: r.id != row.id
    ensures OldestOf(next, rows + [row], limit)
  {
    hide Ordered;
    var p := Place(batch, row);
    next := batch[..p] + [row] + batch[p..];
    Joins(batch, row, p);
    if |next| > limit {
      ghost var all := next;
      var n := |next| - 1;
      LastIsYoungest(next);
      next := next[..n];
      forall r | r in rows + [row] && r !in next ensures |next| == limit && forall b | b in next :: Before(b, r) {
        if r in all {
          assert r == all[n];
        } else {
          assert all[n] in batch || all[n] == row;
        }
      }
    }
  }

  // ---- tables ----

  /** The rows of a table that are due, in table order: the time each one is
      ordered by, nothing for the others. */
  function RowsDue(due: seq<Option<int>>): (rows: seq<Row>)
    ensures forall r | r in rows :: r.id < |due| && due[r.id] == Some(r.time)
    ensures forall b | 0 <= b < |due| && due[b].Some? :: Row(b, due[b].value) in rows
  {
    if due == [] then []
    else
      var n := |due| - 1;
      RowsDue(due[..n]) + (if due[n].Some? then [Row(n, due[n].value)] else [])
  }

  /** The rows taken: due, oldest first, at most limit; a due row is left behind
      only for older ones. */
  ghost predicate Taken(ids: seq<nat>, due: seq<Option<int>>, limit: nat) {
    && |ids| <= limit
    && (forall i | 0 <= i < |ids| :: ids[i] < |due| && due[ids[i]].Some?)
    && (forall i, j | 0 <= i < j < |ids| :: Before(Row(ids[i], due[ids[i]].value), Row(ids[j], due[ids[j]].value)))
    && (forall b: nat | b < |due| && due[b].Some? && b !in ids ::
          |ids| == limit && forall i | 0 <= i < |ids| :: Before(Row(ids[i], due[ids[i]].value), Row(b, due[b].value)))
  }

  method TakeOldest(due: seq<Option<int>>, limit: nat) returns (ids: seq<nat>)
    ensures Taken(ids, due, limit)
  {
    var batch := [];
    for i := 0 to |due|
      invariant OldestOf(batch, RowsDue(due[..i]), limit)
    {
      assert due[..i + 1][..i] == due[..i];
      if due[i].Some? {
        batch := Add(batch, Row(i, due[i].value), RowsDue(due[..i]), limit);
      }
    }
    assert due[..|due|] == due;
    assert forall i | 0 <= i < |batch| :: batch[i] in RowsDue(due);
    ids := seq(|batch|, i requires 0 <= i < |batch| => batch[i].id);
    forall r | r in batch ensures r.id in ids {
      var i :| 0 <= i < |batch| && batch[i] == r;
      assert ids[i] == r.id;
    }
    forall i | 0 <= i < |ids| ensures batch[i] == Row(ids[i], due[ids[i]].value) {
      assert batch[i] in batch;
    }
  }
}
