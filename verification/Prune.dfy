/** Dropping old telemetry in batches, so that no purge holds one long lock. */
module Prune {
  /** A snapshot: its own row, with the time the machine gave it. */
  datatype Row = Row(id: nat, ts: int)

  const BATCH: nat := 10000

  datatype Outcome = Finished | Cancelled | Failed

  /** The rows with a timestamp before the cutoff. */
  function Old(rows: set<Row>, cutoff: int): set<Row> {
    set r | r in rows && r.ts < cutoff
  }

  /** What one delete of everything old would leave. */
  function Kept(rows: set<Row>, cutoff: int): set<Row> {
    set r | r in rows && r.ts >= cutoff
  }

  /** What one batch meets: its cutoff, whether it fails, whether the context has
      ended after it, and the snapshots recorded between it and the next, with
      timestamps the machines chose. */
  datatype Turn = Turn(cutoff: int, fails: bool, cancelled: bool, arrivals: set<Row>)

  /** A purge meets these turns and, after them, no more disturbance. */
  datatype Course = Course(turns: seq<Turn>, calm: int) {
    function At(k: nat): Turn {
      if k < |turns| then turns[k] else Turn(calm, false, false, {})
    }

    /** The clock never goes back. */
    predicate NeverBack() {
      forall i, j | 0 <= i <= j < |turns| :: turns[i].cutoff <= turns[j].cutoff <= calm
    }

    /** A recorded snapshot is a row of its own. */
    predicate NewKeys(rows: set<Row>) {
      && (forall i | 0 <= i < |turns| :: turns[i].arrivals !! rows)
      && (forall i, j | 0 <= i < j < |turns| :: turns[i].arrivals !! turns[j].arrivals)
    }
  }

  /** One `DELETE … LIMIT`: some old rows, as many as the limit allows. */
  method DeleteBatch(rows: set<Row>, cutoff: int)
    returns (left: set<Row>, affected: nat, ghost part: set<Row>)
    ensures left == rows - part && part <= Old(rows, cutoff)
    ensures affected == |part| && affected + |left| == |rows|
    ensures affected <= 10000 && (affected < 10000 ==> part == Old(rows, cutoff))
  {
    var todo := Old(rows, cutoff);
    left, affected, part := rows, 0, {};
    while todo != {} && affected < BATCH
      invariant todo + part == Old(rows, cutoff) && todo !! part
      invariant left == rows - part
      invariant affected == |part| <= BATCH && affected + |left| == |rows|
      decreases todo
    {
      var r :| r in todo;
      left := left - {r};
      todo, part := todo - {r}, part + {r};
      affected := affected + 1;
    }
  }

  /** Batch `k`: what is gone stays within what is old, and is all of it after a
      batch that was not full. */
  method RunBatch(rows: set<Row>, c: Course, k: nat, ghost first: set<Row>, ghost gone: set<Row>)
    returns (left: set<Row>, affected: nat, ghost gone': set<Row>)
    requires c.NeverBack() && rows == first - gone && gone <= Spent(first, c, k)
    ensures left == first - gone' && gone' <= Spent(first, c, k + 1)
    ensures affected <= BATCH && affected + |left| == |rows| && |gone'| == |gone| + affected
    ensures affected < BATCH ==> gone' == Spent(first, c, k + 1)
  {
    ghost var part;
    left, affected, part := DeleteBatch(rows, c.At(k).cutoff);
    MoreGone(first, gone, part, c, k);
    gone' := gone + part;
  }

  class Telemetry {
    var rows: set<Row>

    constructor (rows: set<Row>)
      ensures this.rows == rows
    {
      this.rows := rows;
    }

    /** The loop. `batches` counts the deletes that ran, `first` is the rows that
        were there and those that came in between, and `gone` the rows removed. */
    method PruneTelemetry(c: Course)
      returns (total: nat, outcome: Outcome, batches: nat, ghost first: set<Row>, ghost gone: set<Row>)
      requires c.NeverBack() && c.NewKeys(rows)
      modifies this
      ensures outcome != Failed ==> batches > 0
      ensures first == Ever(old(rows), c, if outcome == Failed then batches else batches - 1)
      ensures rows == first - gone && gone <= Spent(first, c, batches) && total == |gone|
      ensures outcome == Finished ==> rows == Kept(first, c.At(batches - 1).cutoff)
      ensures outcome == Cancelled ==> c.At(batches - 1).cancelled && total == batches * BATCH
      ensures outcome == Failed ==> c.At(batches).fails && total == batches * BATCH
    {
      total, batches, first, gone := 0, 0, rows, {};
      ghost var was := rows;
      while true
        invariant first == Ever(was, c, batches)
        invariant rows == first - gone && gone <= Spent(first, c, batches)
        invariant total == |gone| == batches * BATCH
        decreases if batches < |c.turns| then |c.turns| - batches else 0, |rows|
      {
        if c.At(batches).fails {
          return total, Failed, batches, first, gone;
        }
        var left, affected;
        left, affected, gone := RunBatch(rows, c, batches, first, gone);
        rows := left;
        total, batches := total + affected, batches + 1;
        if affected < BATCH {
          OnlyRecentLeft(first, c.At(batches - 1).cutoff);
          return total, Finished, batches, first, gone;
        }
        if c.At(batches - 1).cancelled {
          return total, Cancelled, batches, first, gone;
        }
        MoreRows(was, first, gone, c, batches);
        first := first + c.At(batches - 1).arrivals;
        rows := rows + c.At(batches - 1).arrivals;
      }
    }
  }

  /** What `k` batches may remove: what is old by the cutoff of the last one. */
  function Spent(first: set<Row>, c: Course, k: nat): set<Row> {
    if k == 0 then {} else Old(first, c.At(k - 1).cutoff)
  }

  /** The rows that were there and what came in the first `n` turns. */
  function Ever(was: set<Row>, c: Course, n: nat): set<Row> {
    if n == 0 then was else Ever(was, c, n - 1) + c.At(n - 1).arrivals
  }

  lemma {:induction false} NewOne(was: set<Row>, c: Course, k: nat, n: nat)
    requires k <= n && c.NewKeys(was)
    ensures c.At(n).arrivals !! Ever(was, c, k)
  {
    if k > 0 {
      NewOne(was, c, k - 1, n);
    }
  }

  /** Batch `k` removes more of what is old, and a row removed under an earlier
      cutoff is old under a later one too. */
  lemma MoreGone(first: set<Row>, gone: set<Row>, part: set<Row>, c: Course, k: nat)
    requires c.NeverBack() && gone <= Spent(first, c, k) && part <= Old(first - gone, c.At(k).cutoff)
    ensures first - gone - part == first - (gone + part) && |gone + part| == |gone| + |part|
    ensures gone + part <= Spent(first, c, k + 1)
    ensures part == Old(first - gone, c.At(k).cutoff) ==> gone + part == Spent(first, c, k + 1)
  {
    assert k > 0 ==> c.At(k - 1).cutoff <= c.At(k).cutoff;
  }

  /** What comes in after batch `k` changes nothing about what is gone. */
  lemma MoreRows(was: set<Row>, first: set<Row>, gone: set<Row>, c: Course, k: nat)
    requires c.NewKeys(was) && k > 0 && first == Ever(was, c, k - 1) && gone <= Spent(first, c, k)
    ensures var more := c.At(k - 1).arrivals;
            && first + more == Ever(was, c, k)
            && first - gone + more == first + more - gone
            && gone <= Spent(first + more, c, k)
    ensures k - 1 >= |c.turns| ==> |first - gone + c.At(k - 1).arrivals| == |first - gone|
  {
    NewOne(was, c, k - 1, k - 1);
  }

  /** What is left when everything old is gone. */
  lemma OnlyRecentLeft(first: set<Row>, cutoff: int)
    ensures first - Old(first, cutoff) == Kept(first, cutoff)
  {
  }
}
