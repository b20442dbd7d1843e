/** At most one order in the whole history answers to a transfer that quotes one pool name. */
module OrderAttribution {
  import opened Common
  import opened OrderLifecycle
  import opened Matcher
  import opened Orders
  import opened OrderSafety

  /** The order, whatever became of it, lent its name over the transfer's posting time, and the
      transfer quotes that name. */
  ghost predicate Owns(fold: char -> string, o: Order, account: string, b: BankTx) {
    && Lends(o, account, b.postedAt)
    && Mentions(fold, b.text, o.content.value)
  }

  ghost predicate QuotesOneName(fold: char -> string, pool: seq<string>, text: string) {
    forall n, m :: n in pool && m in pool && Mentions(fold, text, n) && Mentions(fold, text, m) ==> n == m
  }

  /** The order, whatever became of it, lent its name on this account at this time. */
  ghost predicate Lends(o: Order, account: string, t: int) {
    o.content.Some? && o.account == account && o.createdAt <= t < o.expiredAt
  }

  lemma LendersDiffer(db: Db, account: string, t: int, i: nat, j: nat)
    requires NamesInv(db) && i < j < |db.orders| && Lends(db.orders[i], account, t) && Lends(db.orders[j], account, t)
    ensures db.orders[i].content != db.orders[j].content
  {
    assert SameName(db.orders[i], db.orders[j]) ==> Apart(db.orders[i], db.orders[j]);
  }

  /** Two lent orders that pass ingest's filter for one transfer carry different names. */
  lemma SurvivorsDiffer(db: Db, account: string, b: BankTx, i: nat, j: nat)
    requires NamesInv(db) && i < j < |db.orders| && db.orders[i].content.Some? && db.orders[j].content.Some?
    requires Survives(db.orders[i], account, b) && Survives(db.orders[j], account, b)
    ensures db.orders[i].content != db.orders[j].content
  {
    LendersDiffer(db, account, b.postedAt, i, j);
  }

  lemma AtMostOneOwner(db: Db, fold: char -> string, account: string, b: BankTx, i: nat, j: nat)
    requires NamesInv(db) && QuotesOneName(fold, db.pool, b.text)
    requires i < |db.orders| && j < |db.orders|
    requires Owns(fold, db.orders[i], account, b) && Owns(fold, db.orders[j], account, b)
    ensures i == j
  {
  }

  /** The order can be paid by this transfer now. */
  ghost predicate Payable(db: Db, fold: char -> string, account: string, b: BankTx, i: nat)
    requires i < |db.orders|
  {
    var o := db.orders[i];
    && Survives(o, account, b)
    && o.expiredAt > db.clock
    && Mentions(fold, b.text, PublicCode(o))
  }

  lemma {:induction false} SurvivorsIncreasing(orders: seq<Order>, account: string, b: BankTx)
    ensures Increasing(Survivors(orders, account, b))
  {
    if orders == [] {
    } else {
      var n := |orders| - 1;
      SurvivorsIncreasing(orders[..n], account, b);
      var cs := Survivors(orders[..n], account, b);
      assert forall j :: 0 <= j < |cs| ==> cs[j] in cs && cs[j].id < n;
      assert Survivors(orders, account, b) == cs || Survivors(orders, account, b) == cs + [ToCandidate(n, orders[n])];
    }
  }

  lemma {:induction false} SurvivorsComplete(orders: seq<Order>, account: string, b: BankTx, i: nat) returns (k: nat)
    requires i < |orders| && Survives(orders[i], account, b)
    ensures k < |Survivors(orders, account, b)|
    ensures Survivors(orders, account, b)[k] == ToCandidate(i, orders[i])
  {
    var n := |orders| - 1;
    if i == n {
      k := |Survivors(orders[..n], account, b)|;
    } else {
      k := SurvivorsComplete(orders[..n], account, b, i);
    }
  }

  /** `ingest` pays order `i` exactly when `i` is the one order payable by the transfer. */
  lemma DecisionMeansPayable(db: Db, fold: char -> string, account: string, b: BankTx, i: nat)
    requires i < |db.orders|
    ensures Decide(db, fold, account, b) == Matched(i)
       <==> (Payable(db, fold, account, b, i)
             && forall j :: 0 <= j < |db.orders| && Payable(db, fold, account, b, j) ==> j == i)
  {
    var q, cs := Query(fold, b.amount, b.text, db.clock), Survivors(db.orders, account, b);
    SurvivorsIncreasing(db.orders, account, b);
    forall k | 0 <= k < |cs| ensures cs[k] == ToCandidate(cs[k].id, db.orders[cs[k].id]) {
      assert cs[k] in cs;
    }
    assert forall k :: 0 <= k < |cs| ==> cs[k] in cs && (Hit(q, cs[k]) <==> Payable(db, fold, account, b, cs[k].id));
    if Survives(db.orders[i], account, b) {
      var k := SurvivorsComplete(db.orders, account, b, i);
      MatchedMeansUnique(q, cs, k);
      forall j | 0 <= j < |db.orders| && Payable(db, fold, account, b, j) && j != i
        ensures !OnlyHit(q, cs, k)
      {
        var l := SurvivorsComplete(db.orders, account, b, j);
        assert Hit(q, cs[l]);
      }
    }
  }

  /** No order from before lending competes for this transfer. */
  ghost predicate NoLegacyRival(db: Db, fold: char -> string, account: string, b: BankTx) {
    forall i :: 0 <= i < |db.orders| && db.orders[i].content.None? ==> !Payable(db, fold, account, b, i)
  }

  /** In every reachable state: a transfer quoting one pool name is never ambiguous, and it pays
      order `i` exactly when `i` owns it, waits for that amount and has not run out; no other order
      of the whole history owns it. */
  lemma DecisionIsTheOwner(db: Db, fold: char -> string, account: string, b: BankTx)
    requires NamesInv(db) && QuotesOneName(fold, db.pool, b.text)
    requires NoLegacyRival(db, fold, account, b)
    ensures Decide(db, fold, account, b) != Ambiguous
    ensures forall i: nat :: i < |db.orders| ==>
      (Decide(db, fold, account, b) == Matched(i) <==> Payable(db, fold, account, b, i))
    ensures forall i: nat :: Decide(db, fold, account, b) == Matched(i) ==>
      && i < |db.orders| && b.reliable
      && Owns(fold, db.orders[i], account, b)
      && forall j :: 0 <= j < |db.orders| && Owns(fold, db.orders[j], account, b) ==> j == i
  {
    forall i: nat, j: nat | i < |db.orders| && j < |db.orders|
                            && Payable(db, fold, account, b, i) && Payable(db, fold, account, b, j)
      ensures i == j
    {
      AtMostOneOwner(db, fold, account, b, i, j);
    }
    forall i: nat | i < |db.orders|
      ensures Decide(db, fold, account, b) == Matched(i) <==> Payable(db, fold, account, b, i)
    {
      DecisionMeansPayable(db, fold, account, b, i);
    }
    forall i: nat, j: nat | Decide(db, fold, account, b) == Matched(i) && j < |db.orders|
                            && Owns(fold, db.orders[j], account, b)
      ensures j == i
    {
      AtMostOneOwner(db, fold, account, b, i, j);
    }
    NeverAmbiguous(db, fold, account, b);
  }

  /** The same from any database of pre-lending orders, after any run. */
  lemma EveryRunPaysTheOwner(start: Db, fold: char -> string, es: seq<Event>, account: string, b: BankTx)
    requires Init(start)
    requires QuotesOneName(fold, Run(start, fold, es).pool, b.text)
    requires NoLegacyRival(Run(start, fold, es), fold, account, b)
    ensures var db := Run(start, fold, es);
      && Decide(db, fold, account, b) != Ambiguous
      && (forall i: nat :: i < |db.orders| ==>
            (Decide(db, fold, account, b) == Matched(i) <==> Payable(db, fold, account, b, i)))
      && (forall i: nat :: Decide(db, fold, account, b) == Matched(i) ==>
            i < |db.orders| && forall j :: 0 <= j < |db.orders| && Owns(fold, db.orders[j], account, b) ==> j == i)
  {
    RunKeepsNames(start, fold, es);
    DecisionIsTheOwner(Run(start, fold, es), fold, account, b);
  }

  lemma NeverAmbiguous(db: Db, fold: char -> string, account: string, b: BankTx)
    requires forall i: nat, j: nat ::
      (i < |db.orders| && j < |db.orders|
       && Payable(db, fold, account, b, i) && Payable(db, fold, account, b, j)) ==> i == j
    ensures Decide(db, fold, account, b) != Ambiguous
  {
    var q, cs := Query(fold, b.amount, b.text, db.clock), Survivors(db.orders, account, b);
    var hits := Hits(q, cs);
    SurvivorsIncreasing(db.orders, account, b);
    HitsIncreasing(q, cs);
    HitsAreHits(q, cs);
    if |hits| > 1 {
      assert hits[0] in hits && hits[1] in hits && hits[0].id < hits[1].id;
      assert Payable(db, fold, account, b, hits[0].id) && Payable(db, fold, account, b, hits[1].id);
    }
  }
}
