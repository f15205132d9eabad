/** Delivery rows: one row per flushed batch and the statements that move it through its life. */
module Deliveries {

  datatype Option<+T> = None | Some(value: T)

  datatype Status = Pending | Sent | Failed

  /** The columns the gate reads back; a row's id is its position. */
  datatype Row = Row(userId: int, eventId: string, service: string, typ: string, batchSize: nat, threadId: int,
                     status: Status, attempts: int, tgMsgId: Option<int>, nextRetry: Option<int>, lastErr: Option<string>)

  function NewRow(userId: int, eventId: string, service: string, typ: string, batchSize: nat, threadId: int): Row {
    Row(userId, eventId, service, typ, batchSize, threadId, Pending, 0, None, None, None)
  }

  function AsSent(r: Row, msgId: int): Row {
    r.(status := Sent, tgMsgId := Some(msgId), attempts := r.attempts + 1, nextRetry := None, lastErr := None)
  }

  function AsFailed(r: Row, attempts: int, nextRetry: Option<int>, err: string): Row {
    r.(status := Failed, attempts := attempts, nextRetry := nextRetry, lastErr := Some(err))
  }

  function AsFlooded(r: Row): Row {
    r.(lastErr := Some("flood limit"))
  }

  function AsReset(r: Row): Row {
    r.(status := Pending, attempts := 0, nextRetry := None)
  }

  /** UPDATE ... WHERE id = ?: no row, no effect. */
  function UpdateRow(rows: seq<Row>, id: nat, r: Row): seq<Row> {
    if id < |rows| then rows[id := r] else rows
  }

  /** How many of the first `n` rows have failed. */
  function FailedBefore(rows: seq<Row>, n: nat): nat
    requires n <= |rows|
  {
    if n == 0 then 0 else FailedBefore(rows, n - 1) + if rows[n - 1].status == Failed then 1 else 0
  }

  /** Is row `i` among the first `max` failed rows? A negative limit is no limit. */
  predicate Chosen(rows: seq<Row>, max: int, i: nat)
    requires i < |rows|
  {
    rows[i].status == Failed && (max < 0 || FailedBefore(rows, i) < max)
  }

  /** RetryAllFailed on the table. */
  function ResetRows(rows: seq<Row>, max: int): seq<Row> {
    seq(|rows|, i requires 0 <= i < |rows| => if Chosen(rows, max, i) then AsReset(rows[i]) else rows[i])
  }

  function FailedRows(rows: seq<Row>, n: nat): set<nat>
    requires n <= |rows|
  {
    set i: nat | i < n && rows[i].status == Failed
  }

  function ChosenRows(rows: seq<Row>, max: int, n: nat): set<nat>
    requires n <= |rows|
  {
    set i: nat | i < n && Chosen(rows, max, i)
  }

  lemma {:induction false} ChosenCount(rows: seq<Row>, max: int, n: nat)
    requires n <= |rows|
    ensures |FailedRows(rows, n)| == FailedBefore(rows, n)
    ensures |ChosenRows(rows, max, n)| == if max < 0 || FailedBefore(rows, n) <= max then FailedBefore(rows, n) else max
  {
    if n == 0 {
      assert FailedRows(rows, 0) == {} && ChosenRows(rows, max, 0) == {};
    } else {
      ChosenCount(rows, max, n - 1);
      RowsUpTo(rows, max, n - 1);
      hide FailedRows;
      hide ChosenRows;
    }
  }

  lemma RowsUpTo(rows: seq<Row>, max: int, n: nat)
    requires n < |rows|
    ensures |FailedRows(rows, n + 1)| == |FailedRows(rows, n)| + if rows[n].status == Failed then 1 else 0
    ensures |ChosenRows(rows, max, n + 1)| == |ChosenRows(rows, max, n)| + if Chosen(rows, max, n) then 1 else 0
  {
    hide Chosen;
    hide FailedBefore;
    UpTo(FailedRows(rows, n), FailedRows(rows, n + 1), n, rows[n].status == Failed);
    UpTo(ChosenRows(rows, max, n), ChosenRows(rows, max, n + 1), n, Chosen(rows, max, n));
  }

  lemma UpTo(a: set<nat>, b: set<nat>, n: nat, more: bool)
    requires n !in a && (n in b <==> more) && forall i :: i != n ==> (i in a <==> i in b)
    ensures |b| == |a| + if more then 1 else 0
  {
    if more { assert b == a + {n}; } else { assert b == a; }
  }

  lemma {:induction false} FailedGrows(rows: seq<Row>, i: nat, j: nat)
    requires i <= j <= |rows|
    ensures FailedBefore(rows, i) <= FailedBefore(rows, j)
  {
    if i < j { FailedGrows(rows, i, j - 1); }
  }

  /** Which rows a reset with limit `max` picks: failed ones only, the earliest first, all of them or
      exactly `max`; a negative limit is none. What it writes to them, and that it writes to no other. */
  lemma ResetPicksFirst(rows: seq<Row>, max: int)
    ensures var picked, failed := ChosenRows(rows, max, |rows|), FailedRows(rows, |rows|);
            && picked <= failed
            && |picked| == (if max < 0 || |failed| <= max then |failed| else max)
            && (forall i, j :: i in failed && j in picked && i < j ==> i in picked)
    ensures |ResetRows(rows, max)| == |rows|
    ensures forall i :: 0 <= i < |rows| ==>
              ResetRows(rows, max)[i] == if i in ChosenRows(rows, max, |rows|)
                                         then rows[i].(status := Pending, attempts := 0, nextRetry := None) else rows[i]
  {
    ChosenCount(rows, max, |rows|);
    forall i, j | i in FailedRows(rows, |rows|) && j in ChosenRows(rows, max, |rows|) && i < j
      ensures i in ChosenRows(rows, max, |rows|)
    {
      FailedGrows(rows, i, j);
    }
  }

  /** Calls of the bookkeeping interface, in order. */
  datatype StoreCall = SentCall(id: nat) | FailedCall(id: nat, attempts: int) | PermanentCall(id: nat, attempts: int) | FloodCall(id: nat)

  class DeliveryTable {
    var rows: seq<Row>
    ghost var calls: seq<StoreCall>

    constructor ()
      ensures rows == [] && calls == []
    {
      rows, calls := [], [];
    }

    method CreateDelivery(userId: int, eventId: string, service: string, typ: string, batchSize: nat, threadId: int)
        returns (id: nat)
      modifies `rows
      ensures id == |old(rows)|
      ensures rows == old(rows) + [NewRow(userId, eventId, service, typ, batchSize, threadId)]
    {
      id := |rows|;
      rows := rows + [Row(userId, eventId, service, typ, batchSize, threadId, Pending, 0, None, None, None)];
    }

    method MarkDeliverySent(id: nat, msgId: int)
      modifies this
      ensures id < |old(rows)| ==> rows == old(rows)[id := AsSent(old(rows)[id], msgId)]
      ensures id >= |old(rows)| ==> rows == old(rows)
      ensures calls == old(calls) + [SentCall(id)]
    {
      if id < |rows| {
        var r := rows[id];
        rows := rows[id := r.(status := Sent, tgMsgId := Some(msgId), attempts := r.attempts + 1, nextRetry := None, lastErr := None)];
      }
      calls := calls + [SentCall(id)];
    }

    method MarkDeliveryFailed(id: nat, attempts: int, nextRetry: Option<int>, err: string)
      modifies this
      ensures id < |old(rows)| ==> rows == old(rows)[id := AsFailed(old(rows)[id], attempts, nextRetry, err)]
      ensures id >= |old(rows)| ==> rows == old(rows)
      ensures calls == old(calls) + [FailedCall(id, attempts)]
    {
      if id < |rows| {
        rows := rows[id := rows[id].(status := Failed, attempts := attempts, nextRetry := nextRetry, lastErr := Some(err))];
      }
      calls := calls + [FailedCall(id, attempts)];
    }

    method FailDeliveryPermanently(id: nat, attempts: int, err: string)
      modifies this
      ensures id < |old(rows)| ==> rows == old(rows)[id := AsFailed(old(rows)[id], attempts, None, err)]
      ensures id >= |old(rows)| ==> rows == old(rows)
      ensures calls == old(calls) + [PermanentCall(id, attempts)]
    {
      if id < |rows| {
        rows := rows[id := rows[id].(status := Failed, attempts := attempts, nextRetry := None, lastErr := Some(err))];
      }
      calls := calls + [PermanentCall(id, attempts)];
    }

    method DeliveryRetry429(id: nat)
      modifies this
      ensures id < |old(rows)| ==> rows == old(rows)[id := AsFlooded(old(rows)[id])]
      ensures id >= |old(rows)| ==> rows == old(rows)
      ensures calls == old(calls) + [FloodCall(id)]
    {
      if id < |rows| {
        rows := rows[id := rows[id].(lastErr := Some("flood limit"))];
      }
      calls := calls + [FloodCall(id)];
    }

    /** Reset the failed rows in id order until `max` of them have been reset. */
    method RetryAllFailed(max: int) returns (n: nat)
      modifies `rows
      ensures rows == ResetRows(old(rows), max)
      ensures n == if max < 0 || FailedBefore(old(rows), |old(rows)|) <= max then FailedBefore(old(rows), |old(rows)|) else max
    {
      n := 0;
      ghost var was := rows;
      var i := 0;
      while i < |rows|
        invariant i <= |rows| == |was|
        invariant forall j :: 0 <= j < i ==> rows[j] == ResetRows(was, max)[j]
        invariant forall j :: i <= j < |was| ==> rows[j] == was[j]
        invariant n == if max < 0 || FailedBefore(was, i) <= max then FailedBefore(was, i) else max
      {
        if rows[i].status == Failed && (max < 0 || n < max) {
          rows := rows[i := rows[i].(status := Pending, attempts := 0, nextRetry := None)];
          n := n + 1;
        }
        i := i + 1;
      }
    }
  }
}
