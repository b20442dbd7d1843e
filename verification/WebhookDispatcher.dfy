/** The webhook table as dispatchers change it, one transaction per method. */
module WebhookDispatcher {
  import opened Common
  import opened Sums
  import opened Webhooks

  function StuckAt(w: World): Attempt -> int {
    (row: Attempt) => if Stuck(w, row) then 1 else 0
  }

  predicate IsDue(rows: seq<Attempt>, now: real, i: nat) {
    i < |rows| && rows[i].status == Pending && rows[i].nextRunAt <= now
  }

  /** Due rows, none of which runs later than a due row left behind. */
  ghost predicate EarliestDue(rows: seq<Attempt>, now: real, ids: set<nat>) {
    && (forall i :: i in ids ==> IsDue(rows, now, i))
    && (forall i, j: nat :: i in ids && IsDue(rows, now, j) && j !in ids ==> rows[i].nextRunAt <= rows[j].nextRunAt)
  }

  class Dispatcher {
    var clock: real
    var rows: seq<Attempt>
    ghost var logs: seq<Log>
    var batches: map<nat, Batch>

    constructor ()
      ensures State() == Fresh()
    {
      clock, rows, logs, batches := 0.0, [], [], map[];
    }

    ghost function State(): World
      reads this
    {
      World(clock, rows, logs, batches)
    }

    /** The due row with the earliest run time that is not taken yet. */
    method NextDue(taken: set<nat>) returns (best: Option<nat>)
      ensures match best
              case None => forall i: nat :: IsDue(rows, clock, i) ==> i in taken
              case Some(b) =>
                && IsDue(rows, clock, b) && b !in taken
                && forall i: nat :: IsDue(rows, clock, i) && i !in taken ==> rows[b].nextRunAt <= rows[i].nextRunAt
    {
      best := None;
      for n := 0 to |rows|
        invariant best.None? ==> forall i: nat :: i < n && IsDue(rows, clock, i) ==> i in taken
        invariant best.Some? ==>
          && best.value < n && IsDue(rows, clock, best.value) && best.value !in taken
          && forall i: nat :: i < n && IsDue(rows, clock, i) && i !in taken ==>
               rows[best.value].nextRunAt <= rows[i].nextRunAt
      {
        if n !in taken && rows[n].status == Pending && rows[n].nextRunAt <= clock
           && (best.None? || rows[n].nextRunAt < rows[best.value].nextRunAt) {
          best := Some(n);
        }
      }
    }

    /** The claim query: due rows, earliest first, at most `batchSize` of them. */
    method PickDue(batchSize: nat) returns (ids: set<nat>)
      ensures EarliestDue(rows, clock, ids)
      ensures |ids| <= batchSize && (|ids| < batchSize ==> forall i: nat :: IsDue(rows, clock, i) ==> i in ids)
    {
      ids := {};
      var n := 0;
      while n < batchSize
        invariant n == |ids| <= batchSize && EarliestDue(rows, clock, ids)
      {
        var best := NextDue(ids);
        if best.None? {
          return;
        }
        ids := ids + {best.value};
        n := n + 1;
      }
    }

    /** Lease the next due rows under one token. */
    method ClaimAttempts(d: nat, batchSize: nat, token: real) returns (ids: set<nat>)
      modifies this`rows, this`batches
      ensures State() == Claim(old(State()), d, ids, token)
      ensures EarliestDue(old(rows), clock, ids) && |ids| <= batchSize
      ensures |ids| < batchSize ==> forall i: nat :: IsDue(old(rows), clock, i) ==> i in ids
    {
      ids := PickDue(batchSize);
      LeaseRows(d, ids, token);
    }

    method LeaseRows(d: nat, ids: set<nat>, token: real)
      modifies this`rows, this`batches
      ensures State() == Claim(old(State()), d, ids, token)
    {
      ghost var w := State();
      var allDue := forall i | i in ids :: i < |rows| && rows[i].status == Pending && rows[i].nextRunAt <= clock;
      assert allDue <==> !exists i | i in ids :: !Due(w, i);
      if d in batches || ids == {} || !(clock <= token < clock + 1.0) || !allDue {
        return;
      }
      var n := 0;
      while n < |rows|
        invariant n <= |rows| == |w.rows| && batches == w.batches
        invariant forall i :: 0 <= i < n ==>
          rows[i] == if i in ids then w.rows[i].(status := Dispatching, claimedAt := Some(token)) else w.rows[i]
        invariant forall i :: n <= i < |rows| ==> rows[i] == w.rows[i]
      {
        if n in ids {
          rows := rows[n := rows[n].(status := Dispatching, claimedAt := Some(token))];
        }
        n := n + 1;
      }
      batches := batches[d := Claimed(token, clock)];
    }

    /** Return rows whose dispatcher has been silent for too long. */
    method ResetStuckDispatching() returns (count: nat)
      modifies this`rows
      ensures State() == ResetStuck(old(State()))
      ensures count == SumBy(old(rows), StuckAt(old(State())))
    {
      ghost var w := State();
      count := 0;
      for n := 0 to |rows|
        invariant |rows| == |w.rows| && count == SumBy(w.rows[..n], StuckAt(w))
        invariant forall i :: 0 <= i < n ==>
          rows[i] == if Stuck(w, w.rows[i]) then w.rows[i].(status := Pending, claimedAt := None) else w.rows[i]
        invariant forall i :: n <= i < |rows| ==> rows[i] == w.rows[i]
      {
        var row := rows[n];
        assert w.rows[..n + 1] == w.rows[..n] + [row];
        SumAppend(w.rows[..n], row, StuckAt(w));
        if row.status == Dispatching && row.claimedAt.Some? && row.claimedAt.value <= clock - STUCK_TIMEOUT {
          rows := rows[n := row.(status := Pending, claimedAt := None)];
          count := count + 1;
        }
      }
      assert w.rows[..|rows|] == w.rows;
    }

    /** Apply the outcomes of a loaded batch one after the other, then commit. */
    method ApplyOutcomes(d: nat, outcomes: seq<Outcome>) returns (delivered: nat)
      requires |logs| == |rows|
      requires d in batches && batches[d].Loaded? && OutcomesOk(batches[d].held, outcomes)
      requires forall h :: h in batches[d].held ==> h.id < |rows|
      modifies this`rows, this`logs, this`batches
      ensures State() == Finish(old(State()), d, outcomes)
      ensures delivered == DeliveredCount(outcomes)
    {
      delivered := 0;
      ghost var w := State();
      var held, now := batches[d].held, batches[d].now;
      var n := 0;
      while n < |held|
        invariant n <= |held| && batches == w.batches && |rows| == |logs| == |w.rows|
        invariant State() == ApplyAll(w, held[..n], outcomes[..n], now)
        invariant delivered == DeliveredCount(outcomes[..n])
      {
        assert held[..n + 1][..n] == held[..n] && outcomes[..n + 1][..n] == outcomes[..n];
        assert held[n] in held;
        var row := held[n].row;
        match outcomes[n] {
          case Fatal =>
            row := row.(status := Dead, claimedAt := None);
          case Success =>
            row := row.(attempt := row.attempt + 1, status := Delivered, claimedAt := None);
            delivered := delivered + 1;
          case Failure(jitter) =>
            row := row.(attempt := row.attempt + 1, claimedAt := None);
            if row.attempt >= row.maxAttempts {
              row := row.(status := Dead);
            } else {
              row := row.(status := Pending, nextRunAt := ScheduleNext(row.attempt, now, jitter));
            }
        }
        logs := logs[held[n].id := Record(logs[held[n].id], held[n].row, outcomes[n], now)];
        rows := rows[held[n].id := row];
        n := n + 1;
      }
      assert held[..n] == held && outcomes[..n] == outcomes;
      batches := batches - {d};
    }
  }
}
