/** Which order a transfer pays, and how paid orders and matched transfers correspond. */
module OrderPayments {
  import opened Common
  import opened OrderLifecycle
  import opened Matcher
  import opened Orders
  import opened OrderSafety

  // ----- paid orders and matched transfers are inverse to each other

  ghost predicate PaidRow(db: Db, i: nat)
    requires i < |db.orders|
  {
    var o := db.orders[i];
    && (o.status == Paid <==> o.paidTx.Some?)
    && (o.paidTx.Some? ==>
          && o.paidAt.Some?
          && o.paidTx.value < |db.txs|
          && db.txs[o.paidTx.value].matchedOrder == Some(i)
          && db.txs[o.paidTx.value].account == o.account
          && db.txs[o.paidTx.value].bank.amount == o.amount
          && o.amount > 0)
  }

  ghost predicate MatchedRow(db: Db, t: nat)
    requires t < |db.txs|
  {
    var x := db.txs[t];
    && (x.state == TxMatched <==> x.matchedOrder.Some?)
    && (x.matchedOrder.Some? ==>
          && x.matchedOrder.value < |db.orders|
          && db.orders[x.matchedOrder.value].paidTx == Some(t))
  }

  ghost predicate Paired(db: Db) {
    && (forall i :: 0 <= i < |db.orders| ==> PaidRow(db, i))
    && (forall t :: 0 <= t < |db.txs| ==> MatchedRow(db, t))
  }

  ghost predicate UniqueRefs(db: Db) {
    forall t, u :: 0 <= t < u < |db.txs| ==>
      !(db.txs[t].account == db.txs[u].account && db.txs[t].bank.ref == db.txs[u].bank.ref)
  }

  ghost predicate UniqueCodes(db: Db) {
    forall i, j :: 0 <= i < j < |db.orders| ==> db.orders[i].code != db.orders[j].code
  }

  ghost predicate PayInv(db: Db) {
    Paired(db) && UniqueRefs(db) && UniqueCodes(db)
  }

  /** Steps that touch neither a paid order nor a stored transfer. */
  lemma UnpaidStepKeeps(db: Db, after: Db)
    requires PayInv(db) && after.txs == db.txs && |db.orders| <= |after.orders|
    requires forall i :: 0 <= i < |db.orders| ==> SameIdentity(db.orders[i], after.orders[i])
    requires forall i :: 0 <= i < |db.orders| && after.orders[i] != db.orders[i] ==>
               db.orders[i].status == Pending && after.orders[i].status in {Canceled, Expired}
               && after.orders[i].paidTx == db.orders[i].paidTx
    requires forall i :: |db.orders| <= i < |after.orders| ==>
               after.orders[i].status == Pending && after.orders[i].paidTx.None?
    requires UniqueCodes(after)
    ensures PayInv(after)
  {
    forall i | 0 <= i < |after.orders| ensures PaidRow(after, i) {
      assert i < |db.orders| ==> PaidRow(db, i);
    }
    forall t | 0 <= t < |after.txs| ensures MatchedRow(after, t) {
      assert MatchedRow(db, t);
    }
  }

  lemma ClaimKeepsPay(db: Db, sid: nat)
    requires PayInv(db)
    ensures PayInv(Claim(db, sid))
  {
    UnpaidStepKeeps(db, Claim(db, sid));
  }

  lemma CancelKeepsPay(db: Db, id: nat)
    requires PayInv(db)
    ensures PayInv(Cancel(db, id)) && PayInv(AdminCancel(db, id))
  {
    CancelSettles(db, id);
    UnpaidStepKeeps(db, Cancel(db, id));
    UnpaidStepKeeps(db, AdminCancel(db, id));
  }

  lemma ExpireKeepsPay(db: Db)
    requires PayInv(db)
    ensures PayInv(Expire(db))
  {
    ExpireSettles(db);
    UnpaidStepKeeps(db, Expire(db));
  }

  lemma StoreKeepsPay(db: Db, x: Tx)
    requires PayInv(db) && !Known(db, x.account, x.bank.ref)
    requires x.state != TxMatched && x.matchedOrder.None?
    ensures PayInv(db.(txs := db.txs + [x]))
  {
    var after := db.(txs := db.txs + [x]);
    forall i | 0 <= i < |after.orders| ensures PaidRow(after, i) {
      assert PaidRow(db, i);
    }
    forall t | 0 <= t < |after.txs| ensures MatchedRow(after, t) {
      assert t < |db.txs| ==> MatchedRow(db, t);
    }
  }

  lemma PayKeepsPay(db: Db, account: string, b: BankTx, i: nat)
    requires PayInv(db) && !Known(db, account, b.ref) && b.amount > 0
    requires i < |db.orders| && Survives(db.orders[i], account, b)
    ensures PayInv(Pay(db, account, b, i))
  {
    var after := Pay(db, account, b, i);
    assert PaidRow(db, i);
    forall k | 0 <= k < |after.orders| ensures PaidRow(after, k) {
      assert PaidRow(db, k);
    }
    forall t | 0 <= t < |after.txs| ensures MatchedRow(after, t) {
      assert t < |db.txs| ==> MatchedRow(db, t);
    }
    assert UniqueCodes(after);
  }

  lemma IngestKeepsPay(db: Db, fold: char -> string, account: string, b: BankTx)
    requires PayInv(db)
    ensures PayInv(Ingest(db, fold, account, b))
  {
    if !Known(db, account, b.ref) {
      StoreKeepsPay(db, Tx(account, b, New, None));
      StoreKeepsPay(db, Tx(account, b, TxUnmatched, None));
      StoreKeepsPay(db, Tx(account, b, TxReview, None));
      var d := Decide(db, fold, account, b);
      if b.amount > 0 && d.Matched? {
        PayKeepsPay(db, account, b, d.id);
      }
    }
  }

  lemma StepKeepsPay(db: Db, fold: char -> string, e: Event)
    requires PayInv(db)
    ensures PayInv(Step(db, fold, e))
  {
    match e
    case EClaim(sid) => ClaimKeepsPay(db, sid);
    case ECancel(id) => CancelKeepsPay(db, id);
    case EAdminCancel(id) => CancelKeepsPay(db, id);
    case EExpire => ExpireKeepsPay(db);
    case EIngest(account, b) => IngestKeepsPay(db, fold, account, b);
    case _ => UnpaidStepKeeps(db, Step(db, fold, e));
  }

  /** Over every run: paid orders and matched transfers are in one-to-one correspondence, with
      equal positive amounts on one account; no bank reference is stored twice on an account. */
  lemma {:induction false} RunKeepsPay(db: Db, fold: char -> string, es: seq<Event>)
    requires PayInv(db)
    ensures PayInv(Run(db, fold, es))
  {
    if es == [] {
    } else {
      RunKeepsPay(db, fold, es[..|es| - 1]);
      StepKeepsPay(Run(db, fold, es[..|es| - 1]), fold, es[|es| - 1]);
    }
  }

  // ----- re-ingesting changes nothing; finished orders and stored transfers are never touched

  lemma ReingestIsNoOp(db: Db, fold: char -> string, account: string, b: BankTx, again: BankTx)
    requires again.ref == b.ref
    ensures var once := Ingest(db, fold, account, b);
            Ingest(once, fold, account, again) == once
  {
    var once := Ingest(db, fold, account, b);
    if !Known(db, account, b.ref) {
      assert once.txs[|db.txs|].account == account && once.txs[|db.txs|].bank.ref == b.ref;
    }
  }

  ghost predicate Grows(db: Db, after: Db) {
    && db.txs <= after.txs
    && |db.orders| <= |after.orders|
    && (forall i :: 0 <= i < |db.orders| ==>
          && SameIdentity(db.orders[i], after.orders[i])
          && (Terminal(db.orders[i].status) ==> after.orders[i] == db.orders[i])
          && (after.orders[i].status != db.orders[i].status ==>
                CanTransition(db.orders[i].status, after.orders[i].status)))
  }

  lemma IngestGrows(db: Db, fold: char -> string, account: string, b: BankTx)
    ensures Grows(db, Ingest(db, fold, account, b))
  {
    IngestSettles(db, fold, account, b);
  }

  lemma SettlementGrows(db: Db, id: nat)
    ensures Grows(db, Cancel(db, id)) && Grows(db, AdminCancel(db, id)) && Grows(db, Expire(db))
  {
  }

  lemma ClaimGrows(db: Db, sid: nat)
    ensures Grows(db, Claim(db, sid))
  {
  }

  lemma StepGrows(db: Db, fold: char -> string, e: Event)
    ensures Grows(db, Step(db, fold, e))
  {
    match e
    case ECancel(id) => SettlementGrows(db, id);
    case EAdminCancel(id) => SettlementGrows(db, id);
    case EExpire => SettlementGrows(db, 0);
    case EIngest(account, b) => IngestGrows(db, fold, account, b);
    case EClaim(sid) => ClaimGrows(db, sid);
    case _ =>
  }

  /** Paid, expired and canceled are never left, stored transfers never change, and an order keeps
      its name, amount, account and window, whatever happens next. */
  lemma {:induction false} RunGrows(db: Db, fold: char -> string, es: seq<Event>)
    ensures Grows(db, Run(db, fold, es))
  {
    if es == [] {
    } else {
      var mid := Run(db, fold, es[..|es| - 1]);
      RunGrows(db, fold, es[..|es| - 1]);
      StepGrows(mid, fold, es[|es| - 1]);
    }
  }

}
