/** A run in which a paid top-up is never credited, because something else used its key. */
module TopupLoss {
  import opened Common
  import opened OrderLifecycle
  import opened Matcher
  import opened Sums
  import opened Wallet
  import O = Orders
  import opened OrderAttribution
  import L = OrderLending
  import opened TopupFlow

  function Draft(account: string, user: string, amount: int): O.Draft {
    O.Draft("A", amount, account, "topup", user, 0)
  }

  /** The transfer that quotes the lent name right away. */
  function Payment(name: string, amount: int): O.BankTx {
    O.BankTx("R", amount, name, 0, true)
  }

  lemma RunSnoc(f: Flow, fold: char -> string, es: seq<Event>, e: Event)
    ensures Run(f, fold, es + [e]) == Step(Run(f, fold, es), fold, e)
  {
    assert (es + [e])[..|es + [e]| - 1] == es;
  }

  function AsFlow(os: seq<O.Event>): seq<Event> {
    if os == [] then [] else AsFlow(os[..|os| - 1]) + [EOrder(os[|os| - 1])]
  }

  /** Order steps that ingest nothing leave the wallet alone. */
  lemma {:induction false} OrderSteps(f: Flow, fold: char -> string, es: seq<Event>, os: seq<O.Event>)
    requires forall k :: 0 <= k < |os| ==> !os[k].EIngest?
    ensures var g := Run(f, fold, es);
            Run(f, fold, es + AsFlow(os)) == g.(db := O.Run(g.db, fold, os))
  {
    if os == [] {
      assert es + AsFlow(os) == es;
    } else {
      var n := |os| - 1;
      OrderSteps(f, fold, es, os[..n]);
      assert es + AsFlow(os) == es + AsFlow(os[..n]) + [EOrder(os[n])];
      RunSnoc(f, fold, es + AsFlow(os[..n]), EOrder(os[n]));
    }
  }

  lemma AllocateInFlow(f: Flow, fold: char -> string, es: seq<Event>, sid: nat, d: O.Draft) returns (fs: seq<Event>)
    ensures var g := Run(f, fold, es);
            Run(f, fold, fs) == g.(db := L.AllocateFirst(g.db, sid, d))
  {
    var g := Run(f, fold, es);
    var os := L.AllocateEvents(g.db, sid, d);
    OrderSteps(f, fold, es, os);
    L.AllocateRun(g.db, fold, sid, d);
    fs := es + AsFlow(os);
  }

  lemma MentionsItself(fold: char -> string, s: string)
    ensures Mentions(fold, s, s)
  {
    var h := Normalize(fold, s);
    assert OccursAt(h, h, 0);
  }

  /** The one order there is waits for this payment. */
  lemma PaymentFindsTheOrder(db: O.Db, fold: char -> string, account: string, user: string, amount: int)
    requires amount > 0 && db.txs == [] && db.clock == 0 && db.pool != [] && db.maxTtl > 0
    requires db.orders == [O.NewOrder(Draft(account, user, amount).(expiredAt := db.maxTtl), db.pool[0], 0)]
    ensures PaidBy(db, fold, account, Payment(db.pool[0], amount)) == Some(0)
  {
    MentionsItself(fold, db.pool[0]);
    DecisionMeansPayable(db, fold, account, Payment(db.pool[0], amount), 0);
  }

  lemma AllocatedState(pool: seq<string>, maxTtl: int, cooldown: int, d: O.Draft)
    requires pool != [] && maxTtl > 0 && d.amount > 0
    ensures var db := L.AllocateFirst(L.Empty(pool, maxTtl, cooldown), 0, d);
            && db.orders == [O.NewOrder(d.(expiredAt := maxTtl), pool[0], 0)]
            && db.txs == [] && db.clock == 0 && db.pool == pool && db.maxTtl == maxTtl
  {
    assert L.CanAllocate(L.Empty(pool, maxTtl, cooldown), 0, d);
    L.AllocateFirstResult(L.Empty(pool, maxTtl, cooldown), 0, d);
  }

  function Start(pool: seq<string>, maxTtl: int, cooldown: int, user: string): Flow {
    Flow(L.Empty(pool, maxTtl, cooldown), Book(map[user := 0], []))
  }

  lemma KeyTaken(user: string, other: int)
    requires other > 0
    ensures var book := Apply(Book(map[user := 0], []), Request(user, Topup, other, TopupKey(0))).0;
            && BookOk(book) && HasKey(book.ledger, TopupKey(0))
            && book.balances.Keys == {user} && TopupTotal(book.ledger) == other
            && book.ledger == [Entry(user, Topup, other, other, TopupKey(0))]
  {
    var empty := Book(map[user := 0], []);
    var req := Request(user, Topup, other, TopupKey(0));
    ApplyKeepsBook(empty, req);
    SumAppend([], EntryFor(empty, req), TopupAmount());
    var book := Apply(empty, req).0;
    assert book.ledger == [] + [EntryFor(empty, req)];
    assert book.ledger[0].key == TopupKey(0);
  }

  lemma OneTransferTotal(x: O.Tx, orders: seq<O.Order>, users: set<string>)
    requires x.matchedOrder == Some(0) && |orders| > 0 && Creditable(orders[0], users)
    ensures CreditedTotal([x], orders, users) == x.bank.amount
  {
    SumAppend([], x, CreditedAmount(orders, users));
    assert [] + [x] == [x];
  }

  lemma LostCredit(f: Flow, fold: char -> string, account: string, user: string, amount: int)
    requires BookOk(f.book) && HasKey(f.book.ledger, TopupKey(0)) && f.book.balances.Keys == {user}
    requires user != "" && |f.db.orders| == 1 && f.db.txs == [] && f.db.pool != []
    requires PaidBy(f.db, fold, account, Payment(f.db.pool[0], amount)) == Some(0)
    requires f.db.orders[0].kind == "topup" && f.db.orders[0].metaUser == user
    ensures var g := IngestAndCredit(f, fold, account, Payment(f.db.pool[0], amount));
            && PaidTopup(g, 0) && g.book == f.book
            && CreditedTotal(g.db.txs, g.db.orders, g.book.balances.Keys) == amount
  {
    var b := Payment(f.db.pool[0], amount);
    CreditPostsIffKeyUnused(f, fold, account, b, 0);
    var g := IngestAndCredit(f, fold, account, b);
    assert g.db == O.Pay(f.db, account, b, 0);
    OneTransferTotal(g.db.txs[0], g.db.orders, g.book.balances.Keys);
    assert g.db.txs == [g.db.txs[0]];
  }

  /** The key of order 0 is taken, then the order is placed. */
  lemma Prepared(f: Flow, fold: char -> string, user: string, d: O.Draft, other: int) returns (es: seq<Event>)
    requires other > 0 && f.book == Book(map[user := 0], [])
    ensures Run(f, fold, es)
         == Flow(L.AllocateFirst(f.db, 0, d), Apply(f.book, Request(user, Topup, other, TopupKey(0))).0)
  {
    var foreign := EOther(Request(user, Topup, other, TopupKey(0)));
    RunSnoc(f, fold, [], foreign);
    assert [] + [foreign] == [foreign];
    es := AllocateInFlow(f, fold, [foreign], 0, d);
  }

  lemma StartIsSound(pool: seq<string>, maxTtl: int, cooldown: int, user: string)
    ensures Init(Start(pool, maxTtl, cooldown, user))
  {
  }

  /** From a fresh installation: a wallet call takes the key of order 0, the order is placed and paid.
      It is a paid top-up of an existing user, and the wallet has nothing for it. */
  lemma PaidButNotCredited(pool: seq<string>, maxTtl: int, cooldown: int, fold: char -> string,
                           account: string, user: string, amount: int, other: int) returns (es: seq<Event>)
    requires pool != [] && maxTtl > 0 && user != "" && amount > 0 && other > 0 && other != amount
    ensures Init(Start(pool, maxTtl, cooldown, user))
    ensures var g := Run(Start(pool, maxTtl, cooldown, user), fold, es);
            && PaidTopup(g, 0)
            && g.book.ledger == [Entry(user, Topup, other, other, TopupKey(0))]
            && TopupTotal(g.book.ledger) != CreditedTotal(g.db.txs, g.db.orders, g.book.balances.Keys)
  {
    var f := Start(pool, maxTtl, cooldown, user);
    StartIsSound(pool, maxTtl, cooldown, user);
    var d := Draft(account, user, amount);
    var before := Prepared(f, fold, user, d, other);
    KeyTaken(user, other);
    AllocatedState(pool, maxTtl, cooldown, d);
    var ready := Run(f, fold, before);
    PaymentFindsTheOrder(ready.db, fold, account, user, amount);
    LostCredit(ready, fold, account, user, amount);
    var pay := EOrder(O.EIngest(account, Payment(pool[0], amount)));
    RunSnoc(f, fold, before, pay);
    es := before + [pay];
  }
}
