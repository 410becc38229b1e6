/** The durable half of ownership: task rows, the conditional-UPDATE lease and the sweep queries. */
module Tasks {
  import opened Domain

  datatype Row = Row(status: TaskStatus, lockedBy: Option<string>, leaseExpires: Option<int>)

  const FRESH := Row(Queued, None, None)

  /** `lease_expires_at < now`; a NULL lease makes the SQL comparison fail. */
  predicate LeaseExpired(row: Row, now: int) {
    row.leaseExpires.Some? && row.leaseExpires.value < now
  }

  predicate CanClaim(row: Row, now: int) {
    !Terminal(row.status) && (row.lockedBy.None? || LeaseExpired(row, now))
  }

  function Claimed(row: Row, worker: string, ttl: int, now: int): Row {
    if CanClaim(row, now) then Row(row.status, Some(worker), Some(now + ttl)) else row
  }

  function ReleasedBy(row: Row, worker: string): Row {
    if row.lockedBy == Some(worker) then Row(row.status, None, None) else row
  }

  /** Unconditional: even a terminal status is overwritten. Only a terminal one drops the lease. */
  function WithStatus(row: Row, status: TaskStatus): Row {
    if Terminal(status) then Row(status, None, None) else row.(status := status)
  }

  predicate Unclaimed(row: Row) {
    row.status == Queued && row.lockedBy.None?
  }

  /** Parked tasks wait for a person; the sweep must not touch them. */
  predicate Parked(row: Row) {
    Terminal(row.status) || row.status == ReadyForReview
  }

  predicate Recoverable(row: Row, now: int) {
    !Parked(row) && row.lockedBy.Some? && LeaseExpired(row, now)
  }

  /** Without a lease, such a row is either reported by a sweep query or not supposed to be. */
  predicate SafeToFree(row: Row) {
    row.status == Queued || Parked(row)
  }

  /** The first `limit` ids of `order` that satisfy `keep`. */
  function Select(order: seq<string>, keep: string -> bool, limit: nat): seq<string> {
    if order == [] || limit == 0 then []
    else if keep(order[0]) then [order[0]] + Select(order[1..], keep, limit - 1)
    else Select(order[1..], keep, limit)
  }

  /** Nothing selectable is missed unless the limit was used up, and nothing else is selected. */
  lemma {:induction false} SelectExact(order: seq<string>, keep: string -> bool, limit: nat)
    ensures var r := Select(order, keep, limit);
      && |r| <= limit
      && (forall id :: id in r ==> id in order && keep(id))
      && (|r| < limit ==> forall id :: id in order && keep(id) ==> id in r)
  {
    if order != [] && limit > 0 {
      SelectExact(order[1..], keep, if keep(order[0]) then limit - 1 else limit);
      var r := Select(order, keep, limit);
      forall id | id in order && keep(id) && |r| < limit ensures id in r {
        if id != order[0] { assert id in order[1..]; }
      }
    }
  }

  ghost function Kept(order: seq<string>, keep: string -> bool): set<string> {
    set id | id in order && keep(id)
  }

  ghost predicate Complete(order: seq<string>, keep: string -> bool, limit: nat) {
    forall id :: id in Kept(order, keep) ==> id in Select(order, keep, limit)
  }

  /** A limited query misses nothing if and only if no more rows match than the limit allows. */
  lemma {:induction false} SelectCompleteIff(order: seq<string>, keep: string -> bool, limit: nat)
    requires Distinct(order)
    ensures Complete(order, keep, limit) <==> |Kept(order, keep)| <= limit
  {
    if order == [] || limit == 0 {
      assert Complete(order, keep, limit) <==> Kept(order, keep) == {};
    } else {
      var tail := order[1..];
      SelectCompleteIff(tail, keep, if keep(order[0]) then limit - 1 else limit);
      SelectHead(order, keep, limit);
      if keep(order[0]) {
        assert Kept(order, keep) == {order[0]} + Kept(tail, keep);
      } else {
        assert Kept(order, keep) == Kept(tail, keep);
      }
    }
  }

  /** What is selected stands in the order of the query, and whatever matches before it is selected, too. */
  lemma {:induction false} SelectInOrder(order: seq<string>, keep: string -> bool, limit: nat, i: nat)
      returns (p: nat)
    requires i < |Select(order, keep, limit)|
    ensures i <= p < |order| && order[p] == Select(order, keep, limit)[i]
    ensures forall q :: 0 <= q < p && keep(order[q]) ==> order[q] in Select(order, keep, limit)[..i]
    ensures forall j :: 0 <= j < i ==> Select(order, keep, limit)[j] in order[..p]
  {
    var r := Select(order, keep, limit);
    if keep(order[0]) {
      var rest := Select(order[1..], keep, limit - 1);
      assert r == [order[0]] + rest;
      if i == 0 {
        p := 0;
      } else {
        var p0 := SelectInOrder(order[1..], keep, limit - 1, i - 1);
        p := p0 + 1;
        assert order[..p] == [order[0]] + order[1..][..p0];
        assert r[..i] == [order[0]] + rest[..i - 1];
        assert forall q :: 1 <= q < p ==> order[q] == order[1..][q - 1];
        assert forall j :: 1 <= j < i ==> r[j] == rest[j - 1];
      }
    } else {
      var p0 := SelectInOrder(order[1..], keep, limit, i);
      p := p0 + 1;
      assert order[..p] == [order[0]] + order[1..][..p0];
      assert forall q :: 1 <= q < p ==> order[q] == order[1..][q - 1];
    }
  }

  lemma SelectHead(order: seq<string>, keep: string -> bool, limit: nat)
    requires Distinct(order) && order != [] && limit > 0
    ensures order[0] !in order[1..]
    ensures Complete(order, keep, limit) <==>
      Complete(order[1..], keep, if keep(order[0]) then limit - 1 else limit)
  {
    var tail, rest := order[1..], if keep(order[0]) then limit - 1 else limit;
    assert forall id :: id in order <==> id == order[0] || id in tail;
    assert forall id :: id in Select(order, keep, limit) <==>
      (keep(order[0]) && id == order[0]) || id in Select(tail, keep, rest);
  }

  lemma {:induction false} SelectAppend(order: seq<string>, id: string, keep: string -> bool, limit: nat)
    ensures Select(order + [id], keep, limit) ==
            Select(order, keep, limit) +
            if keep(id) && |Select(order, keep, limit)| < limit then [id] else []
  {
    if order == [] {
      assert [id][1..] == [];
      assert Select([], keep, limit - if keep(id) && limit > 0 then 1 else 0) == [];
    } else if limit > 0 {
      assert (order + [id])[1..] == order[1..] + [id];
      SelectAppend(order[1..], id, keep, if keep(order[0]) then limit - 1 else limit);
    }
  }

  ghost function UnclaimedIn(rows: map<string, Row>): string -> bool {
    id => id in rows && Unclaimed(rows[id])
  }

  ghost function RecoverableIn(rows: map<string, Row>, now: int): string -> bool {
    id => id in rows && Recoverable(rows[id], now)
  }

  /** `order` lists every row once. */
  ghost predicate Arranges(order: seq<string>, rows: map<string, Row>) {
    Distinct(order) && forall id :: id in order <==> id in rows
  }

  class TaskRepository {
    var rows: map<string, Row>
    /** Ids in creation order. */
    var order: seq<string>

    ghost predicate Valid()
      reads this
    {
      Arranges(order, rows)
    }

    constructor ()
      ensures Valid() && rows == map[] && order == []
    {
      rows := map[];
      order := [];
    }

    method Create(id: string)
      requires Valid() && id !in rows
      modifies this
      ensures Valid() && rows == old(rows)[id := FRESH] && order == old(order) + [id]
    {
      rows := rows[id := FRESH];
      order := order + [id];
    }

    method SetStatus(id: string, status: TaskStatus)
      requires Valid()
      modifies this`rows
      ensures Valid()
      ensures rows == if id in old(rows) then old(rows)[id := WithStatus(old(rows)[id], status)] else old(rows)
      ensures id in rows ==> rows[id].status == status
      ensures id in rows && !Terminal(status) ==> rows[id] == old(rows)[id].(status := status)
    {
      if id in rows {
        var row := rows[id].(status := status);
        if Terminal(status) {
          row := row.(lockedBy := None, leaseExpires := None);
        }
        rows := rows[id := row];
      }
    }

    /** One conditional UPDATE: succeeds exactly when the row is open and free or expired. */
    method Claim(id: string, worker: string, ttl: int, now: int) returns (ok: bool)
      requires Valid()
      modifies this`rows
      ensures Valid()
      ensures ok <==> id in old(rows) && CanClaim(old(rows)[id], now)
      ensures rows == if id in old(rows) then old(rows)[id := Claimed(old(rows)[id], worker, ttl, now)] else old(rows)
    {
      if id !in rows {
        return false;
      }
      var row := rows[id];
      ok := !Terminal(row.status)
        && (row.lockedBy == None || (row.leaseExpires.Some? && row.leaseExpires.value < now));
      if ok {
        rows := rows[id := row.(lockedBy := Some(worker), leaseExpires := Some(now + ttl))];
      }
    }

    method Release(id: string, worker: string)
      requires Valid()
      modifies this`rows
      ensures Valid()
      ensures rows == if id in old(rows) then old(rows)[id := ReleasedBy(old(rows)[id], worker)] else old(rows)
    {
      if id in rows && rows[id].lockedBy == Some(worker) {
        rows := rows[id := rows[id].(lockedBy := None, leaseExpires := None)];
      }
    }

    method FindUnclaimed(limit: nat) returns (found: seq<string>)
      requires Valid()
      ensures found == Select(order, UnclaimedIn(rows), limit)
    {
      found := [];
      ghost var keep := UnclaimedIn(rows);
      for i := 0 to |order|
        invariant found == Select(order[..i], keep, limit)
      {
        SelectAppend(order[..i], order[i], keep, limit);
        assert order[..i + 1] == order[..i] + [order[i]];
        if Unclaimed(rows[order[i]]) && |found| < limit {
          found := found + [order[i]];
        }
      }
      assert order[..|order|] == order;
    }

    /** The query names no order: `scan` is the one in which the database happens to meet the rows. */
    method FindRecoverable(now: int, limit: nat, scan: seq<string>) returns (found: seq<string>)
      requires Valid() && Arranges(scan, rows)
      ensures found == Select(scan, RecoverableIn(rows, now), limit)
    {
      found := [];
      ghost var keep := RecoverableIn(rows, now);
      for i := 0 to |scan|
        invariant found == Select(scan[..i], keep, limit)
      {
        SelectAppend(scan[..i], scan[i], keep, limit);
        assert scan[..i + 1] == scan[..i] + [scan[i]];
        if Recoverable(rows[scan[i]], now) && |found| < limit {
          found := found + [scan[i]];
        }
      }
      assert scan[..|scan|] == scan;
    }
  }

  const SWEEP_LIMIT := 20

  /** What one sweep adds to the queue; the second query sees the rows in the order of `scan`. */
  ghost function SweepBatch(order: seq<string>, scan: seq<string>, rows: map<string, Row>, now: int): seq<string> {
    Select(order, UnclaimedIn(rows), SWEEP_LIMIT) + Select(scan, RecoverableIn(rows, now), SWEEP_LIMIT)
  }

  /** A sweep re-publishes due tasks only. */
  lemma SweepBatchSound(order: seq<string>, scan: seq<string>, rows: map<string, Row>, now: int, id: string)
    requires id in SweepBatch(order, scan, rows, now)
    ensures id in rows && (Unclaimed(rows[id]) || Recoverable(rows[id], now))
  {
    SelectExact(order, UnclaimedIn(rows), SWEEP_LIMIT);
    SelectExact(scan, RecoverableIn(rows, now), SWEEP_LIMIT);
  }

  /** It re-publishes all of them if and only if neither query matches more than its limit of rows. */
  lemma SweepBatchExact(order: seq<string>, scan: seq<string>, rows: map<string, Row>, now: int)
    requires Arranges(order, rows) && Arranges(scan, rows)
    ensures (forall id :: id in rows && (Unclaimed(rows[id]) || Recoverable(rows[id], now)) ==>
                id in SweepBatch(order, scan, rows, now)) <==>
      && |set id | id in rows && Unclaimed(rows[id])| <= 20
      && |set id | id in rows && Recoverable(rows[id], now)| <= 20
  {
    assert Kept(order, UnclaimedIn(rows)) == set id | id in rows && Unclaimed(rows[id]);
    assert Kept(scan, RecoverableIn(rows, now)) == set id | id in rows && Recoverable(rows[id], now);
    SelectCompleteIff(order, UnclaimedIn(rows), SWEEP_LIMIT);
    SelectCompleteIff(scan, RecoverableIn(rows, now), SWEEP_LIMIT);
    BatchSplits(order, scan, rows, now);
    hide Kept, Select, Distinct;
  }

  /** No task is due for both reasons, so each query has to be complete for itself. */
  lemma BatchSplits(order: seq<string>, scan: seq<string>, rows: map<string, Row>, now: int)
    requires Arranges(order, rows) && Arranges(scan, rows)
    ensures (forall id :: id in rows && (Unclaimed(rows[id]) || Recoverable(rows[id], now)) ==>
                id in SweepBatch(order, scan, rows, now)) <==>
      Complete(order, UnclaimedIn(rows), SWEEP_LIMIT) && Complete(scan, RecoverableIn(rows, now), SWEEP_LIMIT)
  {
    SelectExact(order, UnclaimedIn(rows), SWEEP_LIMIT);
    SelectExact(scan, RecoverableIn(rows, now), SWEEP_LIMIT);
    hide Select, Distinct;
  }

  /** One reconciliation pass of the consumer: everything reported is re-published, in order. */
  method Sweep(repository: TaskRepository, queue: seq<string>, now: int, scan: seq<string>)
      returns (published: nat, queue': seq<string>)
    requires repository.Valid() && Arranges(scan, repository.rows)
    ensures queue' == queue + SweepBatch(repository.order, scan, repository.rows, now)
    ensures published == |queue'| - |queue|
  {
    var unclaimed := repository.FindUnclaimed(SWEEP_LIMIT);
    var stale := repository.FindRecoverable(now, SWEEP_LIMIT, scan);
    published, queue' := 0, queue;
    for i := 0 to |unclaimed|
      invariant queue' == queue + unclaimed[..i] && published == i
    {
      queue' := queue' + [unclaimed[i]];
      published := published + 1;
    }
    for i := 0 to |stale|
      invariant queue' == queue + unclaimed + stale[..i] && published == |unclaimed| + i
    {
      queue' := queue' + [stale[i]];
      published := published + 1;
    }
    assert queue' == queue + (unclaimed + stale);
  }
}
