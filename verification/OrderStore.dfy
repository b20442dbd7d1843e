/** The order tables as the services change them, one transaction per method. */
module OrderStore {
  import opened Common
  import opened OrderLifecycle
  import opened Matcher
  import opened PaymentNames
  import opened Orders
  import opened OrderAllocation

  /** Some reservation, or one of the first `n` pre-lending orders, keeps `name` at time `now`. */
  ghost predicate Blocked(db: Db, account: string, name: string, now: int, n: nat)
    requires n <= |db.orders|
  {
    || ((account, name) in db.reserved && now < db.reserved[(account, name)])
    || exists i :: 0 <= i < n && LegacyHolds(db, account, name, now, db.orders[i])
  }

  lemma BlockedStep(db: Db, account: string, name: string, now: int, n: nat)
    requires n < |db.orders|
    ensures Blocked(db, account, name, now, n + 1)
       <==> Blocked(db, account, name, now, n) || LegacyHolds(db, account, name, now, db.orders[n])
  {
  }

  /** How many orders an expiry pass changes. */
  function DueCount(orders: seq<Order>, now: int): nat {
    if orders == [] then 0
    else
      var n := |orders| - 1;
      DueCount(orders[..n], now) + if ExpireRow(orders[n], now) != orders[n] then 1 else 0
  }

  class Store {
    const pool: seq<string>
    const maxTtl: int
    const cooldown: int
    var clock: int
    var orders: seq<Order>
    var txs: seq<Tx>
    var reserved: map<(string, string), int>
    var sessions: map<nat, Session>

    constructor (pool: seq<string>, maxTtl: int, cooldown: int, clock: int, legacy: seq<Order>,
                 reserved: map<(string, string), int>)
      ensures State() == Db(pool, maxTtl, cooldown, clock, legacy, [], reserved, map[])
    {
      this.pool, this.maxTtl, this.cooldown, this.clock := pool, maxTtl, cooldown, clock;
      this.orders, this.txs, this.reserved, this.sessions := legacy, [], reserved, map[];
    }

    function State(): Db
      reads this
    {
      Db(pool, maxTtl, cooldown, clock, orders, txs, reserved, sessions)
    }

    /** The reservations of the account, raised by the latest end of each old order per name. */
    method Reservations(account: string, now: int) returns (until: map<string, int>)
      ensures forall name :: (name in until && now < until[name]) <==> Blocked(State(), account, name, now, |orders|)
    {
      ghost var db := State();
      until := map k | k in reserved && k.0 == account :: k.1 := reserved[k];
      for n := 0 to |orders|
        invariant forall name :: (name in until && now < until[name]) <==> Blocked(db, account, name, now, n)
      {
        var o := orders[n];
        if o.account == account && o.content.None? && EndsWith(o.code, SUFFIX) {
          var end := LegacyEnd(o) + cooldown;
          if o.code !in until || until[o.code] < end {
            until := until[o.code := end];
          }
        }
        forall name ensures (name in until && now < until[name]) <==> Blocked(db, account, name, now, n + 1) {
          BlockedStep(db, account, name, now, n);
        }
      }
    }

    /** The names `allocate_order` may try, in pool order. */
    method AvailableNames(account: string, now: int) returns (available: seq<string>)
      ensures available == FreeNames(State(), account, now, pool)
    {
      var until := Reservations(account, now);
      ghost var db := State();
      available := [];
      for k := |pool| downto 0
        invariant available == FreeNames(db, account, now, pool[k..])
      {
        assert pool[k..][1..] == pool[k + 1..];
        assert NameFree(db, account, pool[k], now) <==> !Blocked(db, account, pool[k], now, |orders|);
        if pool[k] !in until || until[pool[k]] <= now {
          available := [pool[k]] + available;
        }
      }
      assert pool[0..] == pool;
    }

    /** One attempt of the allocation loop on the name last looked up. */
    method ClaimName(sid: nat)
      modifies this`reserved, this`orders, this`sessions
      ensures State() == Claim(old(State()), sid)
    {
      if sid !in sessions || !sessions[sid].Looked? {
        return;
      }
      var s := sessions[sid];
      var key := (s.draft.account, s.name);
      var taken := CodeTaken(State(), s.draft.code);
      if s.sawRow && !(key in reserved && reserved[key] <= s.now) {
        sessions := sessions[sid := Trying(s.draft, s.now, s.rest)];
      } else if taken {
        sessions := sessions[sid := DuplicateCode];
      } else if !s.sawRow && key in reserved {
        sessions := sessions[sid := Trying(s.draft, s.now, s.rest)];
      } else {
        reserved := reserved[key := Max(s.draft.expiredAt, s.now) + cooldown];
        sessions := sessions[sid := Allocated(|orders|)];
        orders := orders + [NewOrder(s.draft, s.name, clock)];
      }
    }

    /** Fetch the reservation row of the session's next name. */
    method LookUpName(sid: nat)
      modifies this`sessions
      ensures State() == Look(old(State()), sid)
    {
      if sid in sessions && sessions[sid].Trying? {
        var s := sessions[sid];
        if s.names == [] {
          sessions := sessions[sid := PoolFull];
        } else {
          var sawRow := (s.draft.account, s.names[0]) in reserved;
          sessions := sessions[sid := Looked(s.draft, s.now, s.names[0], s.names[1..], sawRow)];
        }
      }
    }

    method TryNames(sid: nat)
      modifies this`reserved, this`orders, this`sessions
      ensures State() == Attempts(old(State()), sid)
    {
      while sid in sessions && sessions[sid].Trying?
        invariant Attempts(State(), sid) == Attempts(old(State()), sid)
        decreases if sid in sessions && sessions[sid].Trying? then |sessions[sid].names| + 1 else 0
      {
        LookUpName(sid);
        ClaimName(sid);
      }
    }

    method TakeSnapshot(sid: nat, draft: Draft, ttl: int, shuffle: seq<string> -> seq<string>)
      modifies this`sessions
      ensures var before := old(State());
              State() == Ready(before, sid, draft, ttl, shuffle(FreeNames(before, draft.account, clock, pool)))
    {
      var available := AvailableNames(draft.account, clock);
      var names := shuffle(available);
      sessions := sessions[sid := Trying(draft.(expiredAt := clock + ttl), clock, names)];
    }

    /** `allocate_order` from start to end. */
    method AllocateOrder(sid: nat, draft: Draft, ttl: int, shuffle: seq<string> -> seq<string>)
      requires Accepted(State(), sid, draft, ttl) && Shuffles(shuffle)
      modifies this`reserved, this`orders, this`sessions
      ensures State() == AllocateAlone(old(State()), sid, draft, ttl, shuffle)
    {
      ghost var start := State();
      TakeSnapshot(sid, draft, ttl, shuffle);
      TryNames(sid);
      AloneFromReady(start, sid, draft, ttl, shuffle);
    }

    method CancelOrder(id: nat)
      modifies this`orders, this`reserved
      ensures State() == Cancel(old(State()), id)
    {
      if id < |orders| && orders[id].status == Pending {
        var key := (orders[id].account, PublicCode(orders[id]));
        orders := orders[id := orders[id].(status := Canceled)];
        if key in reserved {
          reserved := reserved[key := clock + cooldown];
        }
      }
    }

    method ExpireOverdueOrders() returns (count: nat)
      modifies this`orders
      ensures State() == Expire(old(State()))
      ensures count == DueCount(old(orders), clock)
    {
      count := 0;
      for i := 0 to |orders|
        invariant |orders| == |old(orders)|
        invariant forall k :: 0 <= k < i ==> orders[k] == ExpireRow(old(orders)[k], clock)
        invariant forall k :: i <= k < |orders| ==> orders[k] == old(orders)[k]
        invariant count == DueCount(old(orders)[..i], clock)
      {
        assert old(orders)[..i + 1][..i] == old(orders)[..i];
        if orders[i].status == Pending && orders[i].expiredAt <= clock {
          orders := orders[i := orders[i].(status := Expired)];
          count := count + 1;
        }
      }
      assert old(orders)[..|orders|] == old(orders);
    }

    method Candidates(account: string, b: BankTx) returns (candidates: seq<Candidate>)
      ensures candidates == Survivors(orders, account, b)
    {
      candidates := [];
      for n := 0 to |orders|
        invariant candidates == Survivors(orders[..n], account, b)
      {
        assert orders[..n + 1][..n] == orders[..n];
        if Survives(orders[n], account, b) {
          candidates := candidates + [ToCandidate(n, orders[n])];
        }
      }
      assert orders[..|orders|] == orders;
    }

    /** Dedupe, store, look for the one order the transfer identifies, pay it. */
    method IngestTransaction(fold: char -> string, account: string, b: BankTx)
      modifies this`orders, this`txs, this`reserved
      ensures State() == Ingest(old(State()), fold, account, b)
    {
      var known := Known(State(), account, b.ref);
      if known {
        return;
      }
      if b.amount <= 0 {
        txs := txs + [Tx(account, b, New, None)];
        return;
      }
      var candidates := Candidates(account, b);
      var decision := FindOrderMatch(Query(fold, b.amount, b.text, clock), candidates);
      assert decision == Decide(State(), fold, account, b);
      match decision
      case Unmatched => txs := txs + [Tx(account, b, TxUnmatched, None)];
      case Ambiguous => txs := txs + [Tx(account, b, TxReview, None)];
      case Matched(i) =>
        var o := orders[i];
        orders := orders[i := o.(status := Paid, paidTx := Some(|txs|), paidAt := Some(clock))];
        var key := (o.account, PublicCode(o));
        if key in reserved {
          reserved := reserved[key := clock + cooldown];
        }
        txs := txs + [Tx(account, b, TxMatched, Some(i))];
    }
  }
}
