/**
 Webhook delivery: dispatchers lease due rows, post them, and write the outcomes back.

 Times are real seconds. `logs` is a history of what was applied to each row; nothing reads it.
 A dispatcher keeps copies of the rows it loaded and writes those copies back, as an ORM does.
 */
module Webhooks {
  import opened Common

  const RETRY_DELAYS: seq<real> := [0.0, 30.0, 120.0, 600.0, 3600.0, 21600.0, 86400.0]
  const STUCK_TIMEOUT := 300.0
  const MAX_ATTEMPTS := 7

  datatype Status = Pending | Dispatching | Delivered | Dead

  datatype Attempt = Attempt(
    status: Status, attempt: nat, maxAttempts: nat, nextRunAt: real, claimedAt: Option<real>)

  /** When a row was enqueued, the outcomes applied to it, how many were not fatal, the waits they
      scheduled, and the time of the batch that applied the last one. */
  datatype Log = Log(born: real, outcomes: seq<Outcome>, applied: nat, waits: seq<real>, last: real)

  datatype Held = Held(id: nat, row: Attempt)

  datatype Batch =
    | Claimed(token: real, now: real)
    | Loaded(token: real, now: real, held: seq<Held>)

  datatype Outcome = Fatal | Success | Failure(jitter: real)

  datatype World = World(clock: real, rows: seq<Attempt>, logs: seq<Log>, batches: map<nat, Batch>)

  // ----- retry schedule

  function Wait(attempt: nat, jitter: real): real {
    var base := RETRY_DELAYS[if attempt < |RETRY_DELAYS| then attempt else |RETRY_DELAYS| - 1];
    var wait := base + (if base > 0.0 then jitter * base else 0.0);
    if wait < 0.0 then 0.0 else wait
  }

  function ScheduleNext(attempt: nat, now: real, jitter: real): real {
    now + Wait(attempt, jitter)
  }

  predicate JitterOk(jitter: real) {
    -0.25 <= jitter <= 0.25
  }

  // ----- transactions

  function NewAttempt(now: real): Attempt {
    Attempt(Pending, 0, MAX_ATTEMPTS, now, None)
  }

  function Enqueue(w: World): World {
    w.(rows := w.rows + [NewAttempt(w.clock)], logs := w.logs + [Log(w.clock, [], 0, [], w.clock)])
  }

  predicate Due(w: World, i: nat) {
    i < |w.rows| && w.rows[i].status == Pending && w.rows[i].nextRunAt <= w.clock
  }

  /** The atomic update that leases `ids` under a token drawn within a second of the clock. */
  function Claim(w: World, d: nat, ids: set<nat>, token: real): World {
    if d in w.batches || ids == {} || !(w.clock <= token < w.clock + 1.0) || exists i | i in ids :: !Due(w, i) then w
    else
      w.(rows := seq(|w.rows|, i requires 0 <= i < |w.rows| =>
                   if i in ids then w.rows[i].(status := Dispatching, claimedAt := Some(token)) else w.rows[i]),
         batches := w.batches[d := Claimed(token, w.clock)])
  }

  function HeldFrom(rows: seq<Attempt>, token: real): seq<Held> {
    if rows == [] then []
    else
      var n := |rows| - 1;
      HeldFrom(rows[..n], token)
      + (if rows[n].status == Dispatching && rows[n].claimedAt == Some(token) then [Held(n, rows[n])] else [])
  }

  /** Read the leased rows back by token. */
  function Load(w: World, d: nat): World {
    if d in w.batches && w.batches[d].Claimed? then
      var b := w.batches[d];
      w.(batches := w.batches[d := Loaded(b.token, b.now, HeldFrom(w.rows, b.token))])
    else w
  }

  function Settle(row: Attempt, o: Outcome, now: real): Attempt {
    match o
    case Fatal => row.(status := Dead, claimedAt := None)
    case Success => row.(attempt := row.attempt + 1, status := Delivered, claimedAt := None)
    case Failure(jitter) =>
      var a := row.attempt + 1;
      if a >= row.maxAttempts then row.(attempt := a, status := Dead, claimedAt := None)
      else row.(attempt := a, status := Pending, nextRunAt := ScheduleNext(a, now, jitter), claimedAt := None)
  }

  function Record(l: Log, row: Attempt, o: Outcome, now: real): Log {
    var seen := l.(outcomes := l.outcomes + [o], last := now);
    match o
    case Fatal => seen
    case Success => seen.(applied := l.applied + 1)
    case Failure(jitter) =>
      seen.(applied := l.applied + 1,
            waits := if row.attempt + 1 >= row.maxAttempts then l.waits else l.waits + [Wait(row.attempt + 1, jitter)])
  }

  /** Write one outcome, computed from the copy, over the row. */
  function ApplyOne(w: World, h: Held, o: Outcome, now: real): World {
    if h.id < |w.rows| && |w.logs| == |w.rows| then
      w.(rows := w.rows[h.id := Settle(h.row, o, now)], logs := w.logs[h.id := Record(w.logs[h.id], h.row, o, now)])
    else w
  }

  function ApplyAll(w: World, held: seq<Held>, outcomes: seq<Outcome>, now: real): World
    requires |held| == |outcomes|
  {
    if held == [] then w
    else
      var n := |held| - 1;
      ApplyOne(ApplyAll(w, held[..n], outcomes[..n], now), held[n], outcomes[n], now)
  }

  function DeliveredCount(outcomes: seq<Outcome>): nat {
    if outcomes == [] then 0
    else DeliveredCount(outcomes[..|outcomes| - 1]) + if outcomes[|outcomes| - 1].Success? then 1 else 0
  }

  predicate OutcomesOk(held: seq<Held>, outcomes: seq<Outcome>) {
    |held| == |outcomes| && forall o | o in outcomes :: o.Failure? ==> JitterOk(o.jitter)
  }

  function Finish(w: World, d: nat, outcomes: seq<Outcome>): World {
    if d in w.batches && w.batches[d].Loaded? && OutcomesOk(w.batches[d].held, outcomes) then
      var b := w.batches[d];
      ApplyAll(w, b.held, outcomes, b.now).(batches := w.batches - {d})
    else w
  }

  function Crash(w: World, d: nat): World {
    w.(batches := w.batches - {d})
  }

  predicate Stuck(w: World, row: Attempt) {
    row.status == Dispatching && row.claimedAt.Some? && row.claimedAt.value <= w.clock - STUCK_TIMEOUT
  }

  function ResetStuck(w: World): World {
    w.(rows := seq(|w.rows|, i requires 0 <= i < |w.rows| =>
                 if Stuck(w, w.rows[i]) then w.rows[i].(status := Pending, claimedAt := None) else w.rows[i]))
  }

  function Tick(w: World, dt: real): World {
    if dt < 0.0 then w else w.(clock := w.clock + dt)
  }

  datatype Event =
    | EEnqueue
    | EClaim(d: nat, ids: set<nat>, token: real)
    | ELoad(d: nat)
    | EFinish(d: nat, outcomes: seq<Outcome>)
    | ECrash(d: nat)
    | EReset
    | ETick(dt: real)

  function Step(w: World, e: Event): World {
    match e
    case EEnqueue => Enqueue(w)
    case EClaim(d, ids, token) => Claim(w, d, ids, token)
    case ELoad(d) => Load(w, d)
    case EFinish(d, outcomes) => Finish(w, d, outcomes)
    case ECrash(d) => Crash(w, d)
    case EReset => ResetStuck(w)
    case ETick(dt) => Tick(w, dt)
  }

  function Run(w: World, es: seq<Event>): World {
    if es == [] then w else Step(Run(w, es[..|es| - 1]), es[|es| - 1])
  }

  function Fresh(): World {
    World(0.0, [], [], map[])
  }
}
