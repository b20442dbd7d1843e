/** What one transaction of the order services does to the tables, case by case. */
module OrderOutcomes {
  import opened Common
  import opened OrderLifecycle
  import opened Matcher
  import opened PaymentNames
  import opened Orders
  import opened OrderSafety
  import opened OrderAllocation
  import opened OrderAttribution

  // ----- ingest

  /** The transfer calls for this order: it waits on this account for this amount, has not run out,
      lent its name over a reliable posting time unless it is older than lending, and its name or
      code stands in the text. */
  ghost predicate Called(db: Db, fold: char -> string, account: string, b: BankTx, o: Order) {
    && o.status == Pending && o.account == account && o.amount == b.amount && db.clock < o.expiredAt
    && (o.content.Some? ==> b.reliable && o.createdAt <= b.postedAt && b.postedAt < o.expiredAt)
    && Stands(Normalize(fold, b.text), Normalize(fold, if o.content.Some? then o.content.value else o.code))
  }

  ghost predicate CalledAlone(db: Db, fold: char -> string, account: string, b: BankTx, i: nat) {
    && i < |db.orders| && Called(db, fold, account, b, db.orders[i])
    && forall j :: 0 <= j < |db.orders| && j != i ==> !Called(db, fold, account, b, db.orders[j])
  }

  lemma CalledIsPayable(db: Db, fold: char -> string, account: string, b: BankTx, i: nat)
    requires i < |db.orders|
    ensures Called(db, fold, account, b, db.orders[i]) <==> Payable(db, fold, account, b, i)
  {
    MentionsIffStands(fold, b.text, PublicCode(db.orders[i]));
  }

  /** The decision is open exactly when some order is called, and then it is a single order or none. */
  lemma DecisionOutcome(db: Db, fold: char -> string, account: string, b: BankTx)
    ensures var d := Decide(db, fold, account, b);
      && (d == Unmatched <==> forall i :: 0 <= i < |db.orders| ==> !Called(db, fold, account, b, db.orders[i]))
      && (forall i: nat :: d == Matched(i) <==> CalledAlone(db, fold, account, b, i))
  {
    var d := Decide(db, fold, account, b);
    forall i: nat | i < |db.orders|
      ensures Called(db, fold, account, b, db.orders[i]) <==> Payable(db, fold, account, b, i)
      ensures d == Matched(i) <==> CalledAlone(db, fold, account, b, i)
      ensures Payable(db, fold, account, b, i) ==> d != Unmatched
    {
      CalledIsPayable(db, fold, account, b, i);
      DecisionOfOne(db, fold, account, b, i);
      if Payable(db, fold, account, b, i) {
        PayableIsHit(db, fold, account, b, i);
      }
    }
    if d != Unmatched {
      var i := SomeHitIsPayable(db, fold, account, b);
      CalledIsPayable(db, fold, account, b, i);
    }
  }

  lemma DecisionOfOne(db: Db, fold: char -> string, account: string, b: BankTx, i: nat)
    requires i < |db.orders|
    ensures Decide(db, fold, account, b) == Matched(i) <==> CalledAlone(db, fold, account, b, i)
  {
    forall j: nat | j < |db.orders|
      ensures Called(db, fold, account, b, db.orders[j]) <==> Payable(db, fold, account, b, j)
    {
      CalledIsPayable(db, fold, account, b, j);
    }
    DecisionMeansPayable(db, fold, account, b, i);
  }

  lemma PayableIsHit(db: Db, fold: char -> string, account: string, b: BankTx, i: nat)
    requires i < |db.orders| && Payable(db, fold, account, b, i)
    ensures Decide(db, fold, account, b) != Unmatched
  {
    var q, cs := Query(fold, b.amount, b.text, db.clock), Survivors(db.orders, account, b);
    var k := SurvivorsComplete(db.orders, account, b, i);
    HitsCount(q, cs, cs[k]);
    assert cs[k] in multiset(cs);
  }

  lemma SomeHitIsPayable(db: Db, fold: char -> string, account: string, b: BankTx) returns (i: nat)
    requires Decide(db, fold, account, b) != Unmatched
    ensures i < |db.orders| && Payable(db, fold, account, b, i)
  {
    var q, cs := Query(fold, b.amount, b.text, db.clock), Survivors(db.orders, account, b);
    HitsAreHits(q, cs);
    assert Hits(q, cs)[0] in Hits(q, cs);
    i := Hits(q, cs)[0].id;
  }

  ghost predicate Unseen(db: Db, account: string, ref: string) {
    forall t :: 0 <= t < |db.txs| ==> !(db.txs[t].account == account && db.txs[t].bank.ref == ref)
  }

  ghost predicate Settled(db: Db, after: Db, account: string, b: BankTx, i: nat)
    requires i < |db.orders|
  {
    var o := db.orders[i];
    var key := (o.account, if o.content.Some? then o.content.value else o.code);
    && after.orders == db.orders[i := o.(status := Paid, paidTx := Some(|db.txs|), paidAt := Some(db.clock))]
    && after.txs == db.txs + [Tx(account, b, TxMatched, Some(i))]
    && after.reserved == (if key in db.reserved then db.reserved[key := db.clock + db.cooldown] else db.reserved)
    && after == db.(orders := after.orders, txs := after.txs, reserved := after.reserved)
  }

  lemma SeveralAreAmbiguous(db: Db, fold: char -> string, account: string, b: BankTx, i: nat, j: nat)
    requires i < j < |db.orders|
    requires Called(db, fold, account, b, db.orders[i]) && Called(db, fold, account, b, db.orders[j])
    ensures Decide(db, fold, account, b) == Ambiguous
  {
    DecisionOutcome(db, fold, account, b);
    assert forall k: nat :: !CalledAlone(db, fold, account, b, k);
  }

  lemma IngestByDecision(db: Db, fold: char -> string, account: string, b: BankTx)
    requires Unseen(db, account, b.ref) && b.amount > 0
    ensures var d, after := Decide(db, fold, account, b), Ingest(db, fold, account, b);
      && (d == Unmatched ==> after == db.(txs := db.txs + [Tx(account, b, TxUnmatched, None)]))
      && (d == Ambiguous ==> after == db.(txs := db.txs + [Tx(account, b, TxReview, None)]))
      && (d.Matched? ==> d.id < |db.orders| && Settled(db, after, account, b, d.id))
  {
  }

  /** A transfer is stored once. An outgoing one is left alone; otherwise the one order it calls for
      is paid and its name's cooldown restarted; with no such order it is unmatched, with several it
      goes to review, and then no order and no reservation changes. */
  lemma IngestOutcome(db: Db, fold: char -> string, account: string, b: BankTx)
    ensures var after := Ingest(db, fold, account, b);
      && (!Unseen(db, account, b.ref) ==> after == db)
      && (Unseen(db, account, b.ref) && b.amount <= 0 ==> after == db.(txs := db.txs + [Tx(account, b, New, None)]))
      && (Unseen(db, account, b.ref) && b.amount > 0 ==>
            && (forall i: nat :: CalledAlone(db, fold, account, b, i) ==> Settled(db, after, account, b, i))
            && ((forall i :: 0 <= i < |db.orders| ==> !Called(db, fold, account, b, db.orders[i])) ==>
                  after == db.(txs := db.txs + [Tx(account, b, TxUnmatched, None)]))
            && (forall i, j :: (0 <= i < j < |db.orders| && Called(db, fold, account, b, db.orders[i])
                                && Called(db, fold, account, b, db.orders[j])) ==>
                  after == db.(txs := db.txs + [Tx(account, b, TxReview, None)])))
  {
    DecisionOutcome(db, fold, account, b);
    if Unseen(db, account, b.ref) && b.amount > 0 {
      IngestByDecision(db, fold, account, b);
      forall i, j | 0 <= i < j < |db.orders| && Called(db, fold, account, b, db.orders[i])
                    && Called(db, fold, account, b, db.orders[j])
        ensures Decide(db, fold, account, b) == Ambiguous
      {
        SeveralAreAmbiguous(db, fold, account, b, i, j);
      }
    }
  }

  /** End to end: whatever a payer writes before and after the name of a waiting order, and with any
      separators in between, the order is paid, unless the name of another waiting order stands in
      the text as well. */
  lemma QuotedOrderIsPaid(db: Db, fold: char -> string, account: string, b: BankTx, i: nat, x: string, y: string)
    requires i < |db.orders| && Unseen(db, account, b.ref) && b.amount > 0
    requires var o := db.orders[i];
             && o.status == Pending && o.account == account && o.amount == b.amount && db.clock < o.expiredAt
             && o.content.Some? && b.reliable && o.createdAt <= b.postedAt < o.expiredAt
             && Strip(fold, b.text) == Strip(fold, x + o.content.value + y)
    requires forall j :: 0 <= j < |db.orders| && j != i ==> !Called(db, fold, account, b, db.orders[j])
    ensures Decide(db, fold, account, b) == Matched(i)
    ensures Settled(db, Ingest(db, fold, account, b), account, b, i)
  {
    var name := db.orders[i].content.value;
    NormalizeStrip(fold, b.text);
    NormalizeStrip(fold, x + name + y);
    NormalizeConcat(fold, x + name, y);
    NormalizeConcat(fold, x, name);
    assert Normalize(fold, b.text) == Normalize(fold, x) + Normalize(fold, name) + Normalize(fold, y);
    assert Called(db, fold, account, b, db.orders[i]);
    assert CalledAlone(db, fold, account, b, i);
    DecisionOutcome(db, fold, account, b);
    IngestOutcome(db, fold, account, b);
  }

  // ----- which names can be lent, and when a name comes back

  /** The old order keeps the name at `now`: seven days, or whatever the cooldown is, after it was
      paid, or after it ran out. */
  ghost predicate KeptByOld(db: Db, account: string, name: string, now: int, o: Order) {
    && o.account == account && o.content.None? && o.code == name && EndsWith(name, SUFFIX)
    && now < db.cooldown + if o.status == Paid && o.paidAt.Some? then o.paidAt.value else o.expiredAt
  }

  /** A name may be tried exactly when it is in the pool, its reservation is over and no old order
      keeps it. */
  lemma AvailableIff(db: Db, account: string, now: int, name: string)
    ensures name in FreeNames(db, account, now, db.pool)
       <==> (name in db.pool
             && ((account, name) in db.reserved ==> db.reserved[(account, name)] <= now)
             && forall i :: 0 <= i < |db.orders| ==> !KeptByOld(db, account, name, now, db.orders[i]))
  {
    FreeNamesAreFree(db, account, now, db.pool);
    FreeNamesComplete(db, account, now, db.pool);
    forall i | 0 <= i < |db.orders|
      ensures LegacyHolds(db, account, name, now, db.orders[i]) <==> KeptByOld(db, account, name, now, db.orders[i])
    {
    }
  }

  /** What one attempt on a looked-up name comes to, whoever came first in the meantime. With a row in
      sight the name is won if that row was over when the snapshot was taken and is so still; without
      one, if there is still none. A name that is lost sends the session on to its next one; a code
      that is taken ends it unless the row in sight was lost already. */
  lemma ClaimOutcome(db: Db, sid: nat)
    requires sid in db.sessions && db.sessions[sid].Looked?
    ensures var s, after := db.sessions[sid], Claim(db, sid);
      var key := (s.draft.account, s.name);
      var taken := exists i :: 0 <= i < |db.orders| && db.orders[i].code == s.draft.code;
      var lostRow := s.sawRow && !(key in db.reserved && db.reserved[key] <= s.now);
      var lostInsert := !s.sawRow && key in db.reserved;
      && (lostRow || (lostInsert && !taken) ==>
            after == db.(sessions := db.sessions[sid := Trying(s.draft, s.now, s.rest)]))
      && (!lostRow && taken ==> after == db.(sessions := db.sessions[sid := DuplicateCode]))
      && (!lostRow && !lostInsert && !taken ==>
            && after.orders == db.orders + [NewOrder(s.draft, s.name, db.clock)]
            && after.reserved == db.reserved[key := db.cooldown + if s.now <= s.draft.expiredAt then s.draft.expiredAt else s.now]
            && after.sessions == db.sessions[sid := Allocated(|db.orders|)])
  {
    assert CodeTaken(db, db.sessions[sid].draft.code)
      <==> exists i :: 0 <= i < |db.orders| && db.orders[i].code == db.sessions[sid].draft.code;
  }

  /** A session that has names left looks at the first one, and is told that the pool is full only when
      none is left. */
  lemma LookOutcome(db: Db, sid: nat)
    requires sid in db.sessions && db.sessions[sid].Trying?
    ensures var s, after := db.sessions[sid], Look(db, sid);
      after == db.(sessions := db.sessions[sid :=
        if s.names == [] then PoolFull
        else Looked(s.draft, s.now, s.names[0], s.names[1..], (s.draft.account, s.names[0]) in db.reserved)])
  {
  }

  /** A pending lent order that is canceled gives its name back exactly one cooldown later, however
      long it could still have lived; any other order is not canceled. */
  lemma CancelOutcome(db: Db, id: nat, u: int)
    ensures var after := Cancel(db, id);
      && after == db.(orders := after.orders, reserved := after.reserved) && |after.orders| == |db.orders|
      && (forall j :: 0 <= j < |db.orders| ==>
            after.orders[j] == if j == id && db.orders[j].status == Pending then db.orders[j].(status := Canceled)
                               else db.orders[j])
      && (id < |db.orders| && db.orders[id].status == Pending && db.orders[id].content.Some? ==>
            var o := db.orders[id];
            var name := o.content.value;
            name in db.pool && (o.account, name) in db.reserved ==>
              (name in FreeNames(after, o.account, u, db.pool) <==>
                 db.clock + db.cooldown <= u
                 && forall i :: 0 <= i < |db.orders| ==> !KeptByOld(db, o.account, name, u, db.orders[i])))
  {
    var after := Cancel(db, id);
    if id < |db.orders| && db.orders[id].status == Pending && db.orders[id].content.Some? {
      var o := db.orders[id];
      AvailableIff(after, o.account, u, o.content.value);
      forall i | 0 <= i < |db.orders|
        ensures KeptByOld(after, o.account, o.content.value, u, after.orders[i])
           <==> KeptByOld(db, o.account, o.content.value, u, db.orders[i])
      {
      }
    }
  }

  /** The administrator's cancel and an expiry pass change statuses only. */
  lemma StatusOutcome(db: Db, id: nat)
    ensures AdminCancel(db, id) == db.(orders := Cancel(db, id).orders)
    ensures var after := Expire(db);
      && after == db.(orders := after.orders) && |after.orders| == |db.orders|
      && forall j :: 0 <= j < |db.orders| ==>
           var o := db.orders[j];
           after.orders[j] == if o.status == Pending && o.expiredAt <= db.clock then o.(status := Expired) else o
  {
  }
}
