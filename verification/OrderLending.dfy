/** The TTL bound is exactly what the safety of lending needs. */
module OrderLending {
  import opened Common
  import opened OrderLifecycle
  import opened PaymentNames
  import opened Orders
  import opened OrderSafety

  /** A fresh installation with the given configuration. */
  function Empty(pool: seq<string>, maxTtl: int, cooldown: int): Db {
    Db(pool, maxTtl, cooldown, 0, [], [], map[], map[])
  }

  lemma RunAppend(db: Db, fold: char -> string, es: seq<Event>, e: Event)
    ensures Run(db, fold, es + [e]) == Step(Run(db, fold, es), fold, e)
  {
  }

  lemma {:induction false} AllFree(db: Db, account: string, now: int, pool: seq<string>)
    requires forall n :: n in pool ==> NameFree(db, account, n, now)
    ensures FreeNames(db, account, now, pool) == pool
  {
    if pool == [] {
    } else {
      AllFree(db, account, now, pool[1..]);
      assert pool == [pool[0]] + pool[1..];
    }
  }

  /** Four steps in a row. */
  lemma RunFour(db: Db, fold: char -> string, e1: Event, e2: Event, e3: Event, e4: Event)
    ensures Run(db, fold, [e1, e2, e3, e4]) == Step(Step(Step(Step(db, fold, e1), fold, e2), fold, e3), fold, e4)
  {
    RunAppend(db, fold, [], e1);
    RunAppend(db, fold, [e1], e2);
    RunAppend(db, fold, [e1, e2], e3);
    RunAppend(db, fold, [e1, e2, e3], e4);
    assert [] + [e1] == [e1] && [e1] + [e2] == [e1, e2] && [e1, e2] + [e3] == [e1, e2, e3]
           && [e1, e2, e3] + [e4] == [e1, e2, e3, e4];
  }

  /** One undisturbed allocation: the new order takes the first name of the pool. */
  function AllocateFirst(db: Db, sid: nat, d: Draft): Db {
    Claim(Look(Snapshot(Begin(db, sid, d, db.maxTtl), sid, db.pool), sid), sid)
  }

  ghost predicate CanAllocate(db: Db, sid: nat, d: Draft) {
    && sid !in db.sessions && 0 < db.maxTtl && d.amount > 0 && db.pool != []
    && !CodeTaken(db, d.code)
    && forall n :: n in db.pool ==> NameFree(db, d.account, n, db.clock)
  }

  lemma AllocateFirstResult(db: Db, sid: nat, d: Draft)
    requires CanAllocate(db, sid, d)
    ensures var after := AllocateFirst(db, sid, d);
            && after.orders == db.orders + [NewOrder(d.(expiredAt := db.clock + db.maxTtl), db.pool[0], db.clock)]
            && after.reserved.Keys == db.reserved.Keys + {(d.account, db.pool[0])}
            && after == db.(orders := after.orders, reserved := after.reserved, sessions := after.sessions)
            && after.sessions.Keys == db.sessions.Keys + {sid}
  {
    var d1 := Begin(db, sid, d, db.maxTtl);
    SnapshotAll(d1, sid);
    var d3 := Look(Snapshot(d1, sid, db.pool), sid);
    assert NameFree(db, d.account, db.pool[0], db.clock);
    assert Wins(d3, d3.sessions[sid]);
    assert !CodeTaken(d3, d.code);
  }

  lemma SnapshotAll(db: Db, sid: nat)
    requires sid in db.sessions && db.sessions[sid].Drafted?
    requires forall n :: n in db.pool ==> NameFree(db, db.sessions[sid].draft.account, n, db.clock)
    ensures Snapshot(db, sid, db.pool)
         == db.(sessions := db.sessions[sid := Trying(db.sessions[sid].draft, db.clock, db.pool)])
  {
    AllFree(db, db.sessions[sid].draft.account, db.clock, db.pool);
  }

  lemma {:induction false} RunConcat(db: Db, fold: char -> string, es: seq<Event>, fs: seq<Event>)
    ensures Run(db, fold, es + fs) == Run(Run(db, fold, es), fold, fs)
  {
    if fs == [] {
      assert es + fs == es;
    } else {
      var n := |fs| - 1;
      RunConcat(db, fold, es, fs[..n]);
      assert (es + fs)[..|es + fs| - 1] == es + fs[..n];
    }
  }

  function AllocateEvents(db: Db, sid: nat, d: Draft): seq<Event> {
    [EBegin(sid, d, db.maxTtl), ESnapshot(sid, db.pool), ELook(sid), EClaim(sid)]
  }

  /** Cancel at once, wait out the cooldown: the first name can be lent again. */
  function AfterCancel(pool: seq<string>, maxTtl: int, cooldown: nat): Db {
    Tick(Cancel(AllocateFirst(Empty(pool, maxTtl, cooldown), 0, FIRST), 0), cooldown)
  }

  const FIRST := Draft("A", 1, "", "", "", 0)
  const SECOND := Draft("B", 1, "", "", "", 0)

  lemma AfterCancelState(pool: seq<string>, maxTtl: int, cooldown: nat)
    requires pool != [] && cooldown < maxTtl
    ensures var db := AfterCancel(pool, maxTtl, cooldown);
            && |db.orders| == 1
            && db.orders[0] == NewOrder(FIRST.(expiredAt := maxTtl), pool[0], 0).(status := Canceled)
            && db.pool == pool && db.maxTtl == maxTtl && db.clock == cooldown
            && CanAllocate(db, 1, SECOND)
  {
    var db := Empty(pool, maxTtl, cooldown);
    assert CanAllocate(db, 0, FIRST);
    AllocateFirstResult(db, 0, FIRST);
  }

  /** The first window is still open when the name is lent again, if TTLs may exceed the cooldown. */
  lemma OverlapState(pool: seq<string>, maxTtl: int, cooldown: nat)
    requires pool != [] && cooldown < maxTtl
    ensures !Disjoint(AllocateFirst(AfterCancel(pool, maxTtl, cooldown), 1, SECOND))
  {
    var d3 := AfterCancel(pool, maxTtl, cooldown);
    AfterCancelState(pool, maxTtl, cooldown);
    AllocateFirstResult(d3, 1, SECOND);
    var d4 := AllocateFirst(d3, 1, SECOND);
    assert d4.orders[0] == d3.orders[0];
    assert SameName(d4.orders[0], d4.orders[1]) && !Apart(d4.orders[0], d4.orders[1]);
  }

  lemma AllocateRun(db: Db, fold: char -> string, sid: nat, d: Draft)
    ensures Run(db, fold, AllocateEvents(db, sid, d)) == AllocateFirst(db, sid, d)
  {
    RunFour(db, fold, EBegin(sid, d, db.maxTtl), ESnapshot(sid, db.pool), ELook(sid), EClaim(sid));
  }

  lemma OverlapRun(pool: seq<string>, maxTtl: int, cooldown: nat, fold: char -> string) returns (es: seq<Event>)
    ensures Run(Empty(pool, maxTtl, cooldown), fold, es)
         == AllocateFirst(AfterCancel(pool, maxTtl, cooldown), 1, SECOND)
  {
    var db, d3 := Empty(pool, maxTtl, cooldown), AfterCancel(pool, maxTtl, cooldown);
    var e1, e2, e3 := AllocateEvents(db, 0, FIRST), [ECancel(0), ETick(cooldown)], AllocateEvents(d3, 1, SECOND);
    es := e1 + e2 + e3;
    AllocateRun(db, fold, 0, FIRST);
    RunTwo(AllocateFirst(db, 0, FIRST), fold, ECancel(0), ETick(cooldown));
    AllocateRun(d3, fold, 1, SECOND);
    RunConcat(db, fold, e1, e2);
    RunConcat(db, fold, e1 + e2, e3);
  }

  lemma RunTwo(db: Db, fold: char -> string, e1: Event, e2: Event)
    ensures Run(db, fold, [e1, e2]) == Step(Step(db, fold, e1), fold, e2)
  {
    RunAppend(db, fold, [], e1);
    RunAppend(db, fold, [e1], e2);
    assert [] + [e1] == [e1] && [e1] + [e2] == [e1, e2];
  }

  /** The arithmetic link the safety of lending rests on, and that nothing weaker will do: from a
      fresh installation, no run ever lends one name to two overlapping orders exactly when no
      order may live longer than the cooldown. */
  lemma LendingSafeIffTtlWithinCooldown(pool: seq<string>, maxTtl: int, cooldown: int, fold: char -> string)
    requires pool != [] && 0 <= maxTtl && 0 <= cooldown
    requires forall n :: n in pool ==> EndsWith(n, SUFFIX)
    ensures (forall es :: Disjoint(Run(Empty(pool, maxTtl, cooldown), fold, es))) <==> maxTtl <= cooldown
  {
    if maxTtl <= cooldown {
      forall es ensures Disjoint(Run(Empty(pool, maxTtl, cooldown), fold, es)) {
        RunKeepsNames(Empty(pool, maxTtl, cooldown), fold, es);
      }
    } else {
      var es := OverlapRun(pool, maxTtl, cooldown, fold);
      OverlapState(pool, maxTtl, cooldown);
    }
  }

  ghost predicate During(o: Order, t: int) {
    o.createdAt <= t < o.expiredAt
  }

  /** With the shipped one-day TTL and seven-day cooldown, for any pool and any set of earlier orders:
      orders of one account that share a name never share an instant, whatever their status. */
  lemma WindowsNeverOverlap(db: Db, fold: char -> string, es: seq<Event>, i: nat, j: nat)
    requires Init(db) && db.maxTtl == MAX_TTL && db.cooldown == COOLDOWN
    requires i < j < |Run(db, fold, es).orders|
    requires SameName(Run(db, fold, es).orders[i], Run(db, fold, es).orders[j])
    ensures forall t :: !(During(Run(db, fold, es).orders[i], t) && During(Run(db, fold, es).orders[j], t))
  {
    RunKeepsNames(db, fold, es);
  }
}
