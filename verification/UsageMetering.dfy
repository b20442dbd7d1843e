/**
 Usage metering: requests are counted in a buffer, snapshots of it are flushed to the database,
 and a snapshot whose flush failed is merged back. Only requests that carry an API key on a /v1/
 path reach `Record`.
 */
module UsageMetering {
  import opened Sums

  datatype Key = Key(day: string, user: string, apiKey: string, endpoint: string)

  datatype Tally = Tally(count: nat, errors: nat)

  type Table = map<Key, Tally>

  datatype Request = Request(key: Key, status: int)

  /** `flights` are the snapshots ever taken; one is emptied when its flush ends. `seen` is history. */
  datatype Meter = Meter(buffer: Table, flights: seq<Table>, stored: Table, seen: seq<Request>)

  function Get(t: Table, k: Key): Tally {
    if k in t then t[k] else Tally(0, 0)
  }

  function Add(a: Tally, b: Tally): Tally {
    Tally(a.count + b.count, a.errors + b.errors)
  }

  function Merge(a: Table, b: Table): Table {
    map k | k in a.Keys + b.Keys :: Add(Get(a, k), Get(b, k))
  }

  predicate IsError(status: int) {
    status >= 400
  }

  function Bump(t: Table, r: Request): Table {
    t[r.key := Add(Get(t, r.key), Tally(1, if IsError(r.status) then 1 else 0))]
  }

  function Record(m: Meter, r: Request): Meter {
    m.(buffer := Bump(m.buffer, r), seen := m.seen + [r])
  }

  function BeginFlush(m: Meter): Meter {
    if m.buffer == map[] then m else m.(buffer := map[], flights := m.flights + [m.buffer])
  }

  function CommitFlush(m: Meter, f: nat): Meter {
    if f < |m.flights| then m.(stored := Merge(m.stored, m.flights[f]), flights := m.flights[f := map[]]) else m
  }

  function FailFlush(m: Meter, f: nat): Meter {
    if f < |m.flights| then m.(buffer := Merge(m.buffer, m.flights[f]), flights := m.flights[f := map[]]) else m
  }

  datatype Event = ERecord(request: Request) | EBegin | ECommit(flight: nat) | EFail(flight: nat)

  function Step(m: Meter, e: Event): Meter {
    match e
    case ERecord(r) => Record(m, r)
    case EBegin => BeginFlush(m)
    case ECommit(f) => CommitFlush(m, f)
    case EFail(f) => FailFlush(m, f)
  }

  function Run(m: Meter, es: seq<Event>): Meter {
    if es == [] then m else Step(Run(m, es[..|es| - 1]), es[|es| - 1])
  }

  const EMPTY := Meter(map[], [], map[], [])

  // ----- conservation

  /** The count, or the error count, a table has for a key. */
  function Pick(t: Tally, errors: bool): int {
    if errors then t.errors else t.count
  }

  function WeightOf(t: Table, k: Key, errors: bool): int {
    Pick(Get(t, k), errors)
  }

  function WorthOf(r: Request, k: Key, errors: bool): int {
    if r.key == k && (errors ==> 400 <= r.status) then 1 else 0
  }

  function Weight(k: Key, errors: bool): Table -> int {
    (t: Table) => WeightOf(t, k, errors)
  }

  function Worth(k: Key, errors: bool): Request -> int {
    (r: Request) => WorthOf(r, k, errors)
  }

  ghost predicate Conserved(m: Meter, k: Key, errors: bool) {
    WeightOf(m.stored, k, errors) + WeightOf(m.buffer, k, errors) + SumBy(m.flights, Weight(k, errors))
    == SumBy(m.seen, Worth(k, errors))
  }

  ghost predicate Sane(t: Table) {
    forall k :: k in t ==> t[k].errors <= t[k].count
  }

  ghost predicate AllSane(m: Meter) {
    Sane(m.stored) && Sane(m.buffer) && forall f :: 0 <= f < |m.flights| ==> Sane(m.flights[f])
  }

  lemma PutKeepsSane(t: Table, k: Key, v: Tally)
    requires Sane(t) && v.errors <= v.count
    ensures Sane(t[k := v])
  {
  }

  lemma BumpKeepsSane(t: Table, r: Request)
    requires Sane(t)
    ensures Sane(Bump(t, r))
  {
    PutKeepsSane(t, r.key, Add(Get(t, r.key), Tally(1, if IsError(r.status) then 1 else 0)));
  }

  lemma RecordConserves(m: Meter, r: Request, k: Key, errors: bool)
    requires Conserved(m, k, errors)
    ensures Conserved(Record(m, r), k, errors)
  {
  }

  lemma BeginConserves(m: Meter, k: Key, errors: bool)
    requires Conserved(m, k, errors)
    ensures Conserved(BeginFlush(m), k, errors)
  {
  }

  lemma EndConserves(m: Meter, f: nat, k: Key, errors: bool)
    requires Conserved(m, k, errors)
    ensures Conserved(CommitFlush(m, f), k, errors) && Conserved(FailFlush(m, f), k, errors)
  {
    if f < |m.flights| {
      SumUpdate(m.flights, f, map[], Weight(k, errors));
    }
  }

  lemma StepConserves(m: Meter, e: Event, k: Key, errors: bool)
    requires Conserved(m, k, errors)
    ensures Conserved(Step(m, e), k, errors)
  {
    match e
    case ERecord(r) => RecordConserves(m, r, k, errors);
    case EBegin => BeginConserves(m, k, errors);
    case ECommit(f) => EndConserves(m, f, k, errors);
    case EFail(f) => EndConserves(m, f, k, errors);
  }

  lemma StepKeepsSane(m: Meter, e: Event)
    requires AllSane(m)
    ensures AllSane(Step(m, e))
  {
    match e
    case ERecord(r) => BumpKeepsSane(m.buffer, r);
    case EBegin =>
    case ECommit(f) =>
    case EFail(f) =>
  }

  /** In every interleaving of requests with flushes that commit or fail, for each key what is stored,
      buffered and in flight adds up to the requests recorded, and likewise for errors, which never
      exceed counts. */
  lemma {:induction false} NothingLost(es: seq<Event>, k: Key)
    ensures Conserved(Run(EMPTY, es), k, false) && Conserved(Run(EMPTY, es), k, true)
    ensures AllSane(Run(EMPTY, es))
  {
    if es == [] {
    } else {
      NothingLost(es[..|es| - 1], k);
      StepConserves(Run(EMPTY, es[..|es| - 1]), es[|es| - 1], k, false);
      StepConserves(Run(EMPTY, es[..|es| - 1]), es[|es| - 1], k, true);
      StepKeepsSane(Run(EMPTY, es[..|es| - 1]), es[|es| - 1]);
    }
  }

  /** Once nothing is in flight and the buffer is empty, the database has every request. */
  lemma QuietMeansStored(es: seq<Event>, k: Key)
    requires var m := Run(EMPTY, es);
             m.buffer == map[] && forall f :: 0 <= f < |m.flights| ==> m.flights[f] == map[]
    ensures var m := Run(EMPTY, es);
            && Get(m.stored, k).count == SumBy(m.seen, Worth(k, false))
            && Get(m.stored, k).errors == SumBy(m.seen, Worth(k, true))
  {
    NothingLost(es, k);
    EmptyFlights(Run(EMPTY, es).flights, Weight(k, false));
    EmptyFlights(Run(EMPTY, es).flights, Weight(k, true));
  }

  lemma {:induction false} EmptyFlights(flights: seq<Table>, value: Table -> int)
    requires (forall f :: 0 <= f < |flights| ==> flights[f] == map[]) && value(map[]) == 0
    ensures SumBy(flights, value) == 0
  {
    if flights == [] {
    } else {
      EmptyFlights(flights[..|flights| - 1], value);
    }
  }

  class Middleware {
    var buffer: Table
    ghost var flights: seq<Table>
    var stored: Table
    ghost var seen: seq<Request>

    constructor ()
      ensures State() == EMPTY
    {
      buffer, flights, stored, seen := map[], [], map[], [];
    }

    ghost function State(): Meter
      reads this
    {
      Meter(buffer, flights, stored, seen)
    }

    method RecordRequest(r: Request)
      modifies this`buffer, this`seen
      ensures State() == Record(old(State()), r)
    {
      var isError := if r.status >= 400 then 1 else 0;
      if r.key in buffer {
        buffer := buffer[r.key := Tally(buffer[r.key].count + 1, buffer[r.key].errors + isError)];
      } else {
        buffer := buffer[r.key := Tally(1, isError)];
      }
      seen := seen + [r];
    }

    /** Swap the buffer for an empty one under the lock. */
    method TakeSnapshot() returns (snapshot: Table)
      modifies this`buffer, this`flights
      ensures State() == BeginFlush(old(State())) && snapshot == old(buffer)
    {
      snapshot := buffer;
      if buffer != map[] {
        flights := flights + [buffer];
        buffer := map[];
      }
    }

    /** Upsert every entry of the snapshot, then commit. */
    method CommitSnapshot(snapshot: Table, ghost f: nat)
      requires f < |flights| && flights[f] == snapshot
      modifies this`stored, this`flights
      ensures State() == CommitFlush(old(State()), f)
    {
      stored := MergeInto(stored, snapshot);
      flights := flights[f := map[]];
    }

    /** The flush failed: push the snapshot back for the next tick. */
    method RestoreSnapshot(snapshot: Table, ghost f: nat)
      requires f < |flights| && flights[f] == snapshot
      modifies this`buffer, this`flights
      ensures State() == FailFlush(old(State()), f)
    {
      buffer := MergeInto(buffer, snapshot);
      flights := flights[f := map[]];
    }
  }

  method MergeInto(target: Table, snapshot: Table) returns (merged: Table)
    ensures merged == Merge(target, snapshot)
  {
    merged := target;
    var keys := snapshot.Keys;
    ghost var done: Table := map[];
    MergeNone(target);
    while keys != {}
      invariant keys <= snapshot.Keys && done.Keys == snapshot.Keys - keys
      invariant forall k :: k in done ==> done[k] == snapshot[k]
      invariant merged == Merge(target, done)
      decreases |keys|
    {
      var k :| k in keys;
      keys := keys - {k};
      MergeOne(target, done, k, snapshot[k]);
      done := done[k := snapshot[k]];
      if k in merged {
        merged := merged[k := Tally(merged[k].count + snapshot[k].count, merged[k].errors + snapshot[k].errors)];
      } else {
        merged := merged[k := snapshot[k]];
      }
    }
    assert done == snapshot;
  }

  lemma MergeNone(target: Table)
    ensures Merge(target, map[]) == target
  {
  }

  lemma MergeOne(target: Table, done: Table, k: Key, t: Tally)
    requires k !in done
    ensures Merge(target, done[k := t]) == Merge(target, done)[k := Add(Get(Merge(target, done), k), t)]
  {
  }
}
