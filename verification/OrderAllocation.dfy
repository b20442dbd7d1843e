/** What one call of `allocate_order` achieves when no other session interferes. */
module OrderAllocation {
  import opened Common
  import opened PaymentNames
  import opened Orders
  import opened OrderSafety

  /** The loop over the shuffled names: look up, claim, and go on with the next name on a loss. */
  function Attempts(db: Db, sid: nat): Db
    decreases if sid in db.sessions && db.sessions[sid].Trying? then |db.sessions[sid].names| + 1 else 0
  {
    if sid in db.sessions && db.sessions[sid].Trying? then Attempts(Claim(Look(db, sid), sid), sid) else db
  }

  ghost predicate Shuffles(shuffle: seq<string> -> seq<string>) {
    forall s :: multiset(shuffle(s)) == multiset(s)
  }

  /** The whole call, from the draft to its outcome. */
  function AllocateAlone(db: Db, sid: nat, draft: Draft, ttl: int, shuffle: seq<string> -> seq<string>): Db {
    Attempts(Snapshot(Begin(db, sid, draft, ttl), sid, shuffle(FreeNames(db, draft.account, db.clock, db.pool))), sid)
  }

  predicate Accepted(db: Db, sid: nat, draft: Draft, ttl: int) {
    sid !in db.sessions && 0 < ttl <= db.maxTtl && draft.amount > 0
  }

  lemma {:induction false} FreeNamesComplete(db: Db, account: string, now: int, pool: seq<string>)
    ensures forall n :: n in pool && NameFree(db, account, n, now) ==> n in FreeNames(db, account, now, pool)
  {
    if pool == [] {
    } else {
      FreeNamesComplete(db, account, now, pool[1..]);
    }
  }

  lemma ShuffledHead(names: seq<string>, free: seq<string>)
    requires multiset(names) == multiset(free)
    ensures names == [] <==> free == []
    ensures names != [] ==> names[0] in free
  {
    if names != [] {
      assert names[0] in multiset(names);
    }
    if free != [] {
      assert free[0] in multiset(free);
    }
  }

  /** The snapshot is still true, so the first name is won unless the order code is a duplicate. */
  lemma FirstAttemptDecides(db: Db, sid: nat)
    requires sid in db.sessions && db.sessions[sid].Trying? && db.sessions[sid].now == db.clock
    requires db.sessions[sid].names != []
    requires NameFree(db, db.sessions[sid].draft.account, db.sessions[sid].names[0], db.clock)
    ensures var s := db.sessions[sid];
            var after := Attempts(db, sid);
            if CodeTaken(db, s.draft.code)
            then after == db.(sessions := db.sessions[sid := DuplicateCode])
            else after == db.(reserved := db.reserved[(s.draft.account, s.names[0]) := Max(s.draft.expiredAt, db.clock) + db.cooldown],
                              orders := db.orders + [NewOrder(s.draft, s.names[0], db.clock)],
                              sessions := db.sessions[sid := Allocated(|db.orders|)])
  {
    var looked := Look(db, sid);
    var s := looked.sessions[sid];
    assert Wins(looked, s);
    var after := Claim(looked, sid);
    assert looked == db.(sessions := looked.sessions);
    assert !after.sessions[sid].Trying?;
    assert Attempts(db, sid) == Attempts(after, sid) == after;
    assert looked.sessions[sid := DuplicateCode] == db.sessions[sid := DuplicateCode];
    assert looked.sessions[sid := Allocated(|db.orders|)] == db.sessions[sid := Allocated(|db.orders|)];
  }

  lemma SnapshotTaken(db: Db, sid: nat, draft: Draft, ttl: int, names: seq<string>)
    requires Accepted(db, sid, draft, ttl)
    requires multiset(names) == multiset(FreeNames(db, draft.account, db.clock, db.pool))
    ensures Snapshot(Begin(db, sid, draft, ttl), sid, names) == Ready(db, sid, draft, ttl, names)
  {
    var begun := Begin(db, sid, draft, ttl);
    var d := draft.(expiredAt := db.clock + ttl);
    assert begun.sessions == db.sessions[sid := Drafted(d)];
    FreeNamesSame(db, begun, draft.account, db.pool);
    assert db.sessions[sid := Drafted(d)][sid := Trying(d, db.clock, names)]
        == db.sessions[sid := Trying(d, db.clock, names)];
  }

  lemma AloneFromReady(db: Db, sid: nat, draft: Draft, ttl: int, shuffle: seq<string> -> seq<string>)
    requires Accepted(db, sid, draft, ttl) && Shuffles(shuffle)
    ensures var names := shuffle(FreeNames(db, draft.account, db.clock, db.pool));
            AllocateAlone(db, sid, draft, ttl, shuffle) == Attempts(Ready(db, sid, draft, ttl, names), sid)
  {
    SnapshotTaken(db, sid, draft, ttl, shuffle(FreeNames(db, draft.account, db.clock, db.pool)));
  }

  /** The state in which the loop starts. */
  function Ready(db: Db, sid: nat, draft: Draft, ttl: int, names: seq<string>): Db {
    db.(sessions := db.sessions[sid := Trying(draft.(expiredAt := db.clock + ttl), db.clock, names)])
  }

  lemma ReadyOutcome(db: Db, sid: nat, draft: Draft, ttl: int, names: seq<string>)
    requires Accepted(db, sid, draft, ttl)
    requires names != [] ==> names[0] in db.pool && NameFree(db, draft.account, names[0], db.clock)
    ensures var after := Attempts(Ready(db, sid, draft, ttl, names), sid);
            && sid in after.sessions
            && (after.sessions[sid].PoolFull? <==> names == [])
            && (names != [] && CodeTaken(db, draft.code) ==> after.sessions[sid].DuplicateCode?)
            && (names == [] || CodeTaken(db, draft.code) ==> after.orders == db.orders && after.reserved == db.reserved)
            && (names != [] && !CodeTaken(db, draft.code) ==> after.sessions[sid].Allocated? && Placed(db, after, draft, ttl))
  {
  }

  /** Undisturbed, an accepted order gets a name that was free, unless its code is a duplicate; the
      pool is reported full exactly when every name of the pool is held. */
  lemma UndisturbedOutcome(db: Db, sid: nat, draft: Draft, ttl: int, shuffle: seq<string> -> seq<string>)
    requires Accepted(db, sid, draft, ttl) && Shuffles(shuffle)
    ensures var after := AllocateAlone(db, sid, draft, ttl, shuffle);
            var full := forall n :: n in db.pool ==> !NameFree(db, draft.account, n, db.clock);
            && sid in after.sessions
            && (after.sessions[sid].PoolFull? <==> full)
            && (after.sessions[sid].DuplicateCode? <==> !full && CodeTaken(db, draft.code))
            && (after.sessions[sid].Allocated? <==> !full && !CodeTaken(db, draft.code))
            && (after.sessions[sid].Allocated? ==> Placed(db, after, draft, ttl))
            && (!after.sessions[sid].Allocated? ==> after.orders == db.orders && after.reserved == db.reserved)
  {
    var free := FreeNames(db, draft.account, db.clock, db.pool);
    var names := shuffle(free);
    AloneFromReady(db, sid, draft, ttl, shuffle);
    FreeNamesAreFree(db, draft.account, db.clock, db.pool);
    FreeNamesComplete(db, draft.account, db.clock, db.pool);
    ShuffledHead(names, free);
    ReadyOutcome(db, sid, draft, ttl, names);
    assert free != [] ==> free[0] in free;
  }

  /** One order was added, under a free name of the pool that is now reserved past its end. */
  ghost predicate Placed(db: Db, after: Db, draft: Draft, ttl: int) {
    && |after.orders| == |db.orders| + 1 && after.orders[..|db.orders|] == db.orders
    && var o := after.orders[|db.orders|];
    && o.content.Some? && o.content.value in db.pool && NameFree(db, draft.account, o.content.value, db.clock)
    && o == NewOrder(draft.(expiredAt := db.clock + ttl), o.content.value, db.clock)
    && after.reserved == db.reserved[(draft.account, o.content.value) := db.clock + ttl + db.cooldown]
  }

  lemma {:induction false} FreeNamesSame(db: Db, other: Db, account: string, pool: seq<string>)
    requires other == db.(sessions := other.sessions)
    ensures FreeNames(db, account, db.clock, pool) == FreeNames(other, account, db.clock, pool)
  {
    if pool == [] {
    } else {
      FreeNamesSame(db, other, account, pool[1..]);
    }
  }
}
