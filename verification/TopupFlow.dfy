/** From a listed bank transfer to money in the user's wallet. */
module TopupFlow {
  import opened Common
  import opened Sums
  import opened OrderLifecycle
  import opened Matcher
  import opened Wallet
  import O = Orders
  import opened OrderSafety
  import opened OrderPayments

  datatype Flow = Flow(db: O.Db, book: Book)

  /** Anything the order services do, and any other use of the wallet. */
  datatype Event = EOrder(order: O.Event) | EOther(req: Request)

  predicate IsTopupOrder(o: O.Order) {
    o.kind == "topup"
  }

  /** Paying this order credits a wallet: it is a top-up naming an existing user. */
  predicate Creditable(o: O.Order, users: set<string>) {
    IsTopupOrder(o) && o.metaUser != "" && o.metaUser in users
  }

  function CreditWalletForTopup(book: Book, o: O.Order, id: nat): Book {
    if !Creditable(o, book.balances.Keys) then book
    else
      match Credit(o.metaUser, o.amount, TopupKey(id))
      case Ok(req) => Apply(book, req).0
      case Err(_) => book
  }

  /** The order that ingesting this transfer pays, if any. */
  function PaidBy(db: O.Db, fold: char -> string, account: string, b: O.BankTx): (p: Option<nat>)
    ensures p.Some? ==> p.value < |db.orders| && O.Survives(db.orders[p.value], account, b) && b.amount > 0
  {
    if O.Known(db, account, b.ref) || b.amount <= 0 then None
    else
      match O.Decide(db, fold, account, b)
      case Matched(i) => Some(i)
      case _ => None
  }

  function IngestAndCredit(f: Flow, fold: char -> string, account: string, b: O.BankTx): Flow {
    var db := O.Ingest(f.db, fold, account, b);
    match PaidBy(f.db, fold, account, b)
    case None => f.(db := db)
    case Some(i) => Flow(db, CreditWalletForTopup(f.book, f.db.orders[i], i))
  }

  function Step(f: Flow, fold: char -> string, e: Event): Flow {
    match e
    case EOther(req) => if SignOk(req.kind, req.amount) then f.(book := Apply(f.book, req).0) else f
    case EOrder(o) =>
      if o.EIngest? then IngestAndCredit(f, fold, o.account, o.bank) else f.(db := O.Step(f.db, fold, o))
  }

  function Run(f: Flow, fold: char -> string, es: seq<Event>): Flow {
    if es == [] then f else Step(Run(f, fold, es[..|es| - 1]), fold, es[|es| - 1])
  }

  // ----- totals

  function TopupAmount(): Entry -> int {
    (e: Entry) => if e.key.TopupKey? then e.amount else 0
  }

  function TopupTotal(ledger: seq<Entry>): int {
    SumBy(ledger, TopupAmount())
  }

  /** What a transfer contributes: its amount, when it paid a creditable order. */
  function CreditedAmount(orders: seq<O.Order>, users: set<string>): O.Tx -> int {
    (x: O.Tx) =>
      if x.matchedOrder.Some? && x.matchedOrder.value < |orders| && Creditable(orders[x.matchedOrder.value], users)
      then x.bank.amount else 0
  }

  function CreditedTotal(txs: seq<O.Tx>, orders: seq<O.Order>, users: set<string>): int {
    SumBy(txs, CreditedAmount(orders, users))
  }

  lemma {:induction false} CreditedFrame(txs: seq<O.Tx>, a: seq<O.Order>, b: seq<O.Order>, users: set<string>)
    requires |a| <= |b| && forall i :: 0 <= i < |a| ==> SameIdentity(a[i], b[i])
    requires forall t :: 0 <= t < |txs| && txs[t].matchedOrder.Some? ==> txs[t].matchedOrder.value < |a|
    ensures CreditedTotal(txs, a, users) == CreditedTotal(txs, b, users)
  {
    if txs == [] {
    } else {
      CreditedFrame(txs[..|txs| - 1], a, b, users);
      assert txs[|txs| - 1].matchedOrder.Some? ==>
        SameIdentity(a[txs[|txs| - 1].matchedOrder.value], b[txs[|txs| - 1].matchedOrder.value]);
    }
  }

  // ----- the invariant

  ghost predicate EntryBacked(f: Flow, e: Entry) {
    e.key.TopupKey? ==>
      && e.key.order < |f.db.orders|
      && f.db.orders[e.key.order].status == Paid
      && Creditable(f.db.orders[e.key.order], f.book.balances.Keys)
      && e.user == f.db.orders[e.key.order].metaUser
      && e.amount == f.db.orders[e.key.order].amount
      && e.kind == Topup
  }

  ghost predicate Backed(f: Flow) {
    forall k :: 0 <= k < |f.book.ledger| ==> EntryBacked(f, f.book.ledger[k])
  }

  /** A paid top-up order that names an existing user. */
  ghost predicate PaidTopup(f: Flow, i: nat) {
    && i < |f.db.orders| && f.db.orders[i].status == Paid
    && f.db.orders[i].kind == "topup" && f.db.orders[i].metaUser != "" && f.db.orders[i].metaUser in f.book.balances
  }

  ghost predicate Credited(f: Flow) {
    forall i: nat :: PaidTopup(f, i) ==> HasKey(f.book.ledger, TopupKey(i))
  }

  ghost predicate Inv(f: Flow) {
    && PayInv(f.db)
    && BookOk(f.book)
    && Backed(f)
    && Credited(f)
    && TopupTotal(f.book.ledger) == CreditedTotal(f.db.txs, f.db.orders, f.book.balances.Keys)
  }

  lemma MatchedInRange(db: O.Db)
    requires Paired(db)
    ensures forall t :: 0 <= t < |db.txs| && db.txs[t].matchedOrder.Some? ==>
              db.txs[t].matchedOrder.value < |db.orders| && db.orders[db.txs[t].matchedOrder.value].status == Paid
  {
    forall t | 0 <= t < |db.txs| && db.txs[t].matchedOrder.Some?
      ensures db.txs[t].matchedOrder.value < |db.orders| && db.orders[db.txs[t].matchedOrder.value].status == Paid
    {
      assert MatchedRow(db, t);
      assert PaidRow(db, db.txs[t].matchedOrder.value);
    }
  }

  // ----- steps that pay nothing

  lemma OrderStepKeeps(f: Flow, after: O.Db)
    requires Inv(f) && Grows(f.db, after) && PayInv(after)
    requires |after.txs| == |f.db.txs| || (after.txs == f.db.txs + [after.txs[|f.db.txs|]]
                                           && after.txs[|f.db.txs|].matchedOrder.None?)
    requires forall i :: 0 <= i < |f.db.orders| ==> (after.orders[i].status == Paid <==> f.db.orders[i].status == Paid)
    requires forall i :: |f.db.orders| <= i < |after.orders| ==> after.orders[i].status != Paid
    ensures Inv(f.(db := after))
  {
    var g := f.(db := after);
    forall k | 0 <= k < |g.book.ledger| ensures EntryBacked(g, g.book.ledger[k]) {
      assert EntryBacked(f, f.book.ledger[k]);
    }
    assert forall j: nat :: PaidTopup(g, j) ==> PaidTopup(f, j);
    MatchedInRange(f.db);
    CreditedFrame(f.db.txs, f.db.orders, after.orders, f.book.balances.Keys);
    if |after.txs| != |f.db.txs| {
      assert after.txs[..|after.txs| - 1] == f.db.txs;
    } else {
      assert after.txs == f.db.txs;
    }
  }

  lemma {:induction false} OtherKeepsPaid(db: O.Db, fold: char -> string, e: O.Event)
    requires !e.EIngest?
    ensures var after := O.Step(db, fold, e);
            && after.txs == db.txs
            && |db.orders| <= |after.orders|
            && (forall i :: 0 <= i < |db.orders| ==> (after.orders[i].status == Paid <==> db.orders[i].status == Paid))
            && (forall i :: |db.orders| <= i < |after.orders| ==> after.orders[i].status != Paid)
  {
  }

  lemma ApplyOtherKeeps(f: Flow, req: Request)
    requires Inv(f) && SignOk(req.kind, req.amount) && !req.key.TopupKey?
    ensures Inv(f.(book := Apply(f.book, req).0))
  {
    var g := f.(book := Apply(f.book, req).0);
    ApplyKeepsBook(f.book, req);
    if g != f {
      PostedKeeps(f, g, EntryFor(f.book, req));
      SumAppend(f.book.ledger, EntryFor(f.book, req), TopupAmount());
    }
  }

  /** Appending one entry keeps what was known of the others. */
  lemma PostedKeeps(f: Flow, g: Flow, e: Entry)
    requires Backed(f) && Credited(f) && EntryBacked(g, e)
    requires g.db == f.db && g.book.ledger == f.book.ledger + [e] && g.book.balances.Keys == f.book.balances.Keys
    ensures Backed(g) && Credited(g)
  {
    forall k | 0 <= k < |g.book.ledger| ensures EntryBacked(g, g.book.ledger[k]) {
      assert k < |f.book.ledger| ==> EntryBacked(f, f.book.ledger[k]);
    }
    assert forall j: nat :: PaidTopup(g, j) ==> PaidTopup(f, j);
    forall i: nat | HasKey(f.book.ledger, TopupKey(i)) ensures HasKey(g.book.ledger, TopupKey(i)) {
      var k :| 0 <= k < |f.book.ledger| && f.book.ledger[k].key == TopupKey(i);
      assert g.book.ledger[k].key == TopupKey(i);
    }
  }

  // ----- the step that pays

  /** The key of an unpaid order is still free, so its credit goes through. */
  lemma CreditPosts(f: Flow, i: nat)
    requires Inv(f) && i < |f.db.orders| && f.db.orders[i].status == Pending && f.db.orders[i].amount > 0
    requires Creditable(f.db.orders[i], f.book.balances.Keys)
    ensures var req := Request(f.db.orders[i].metaUser, Topup, f.db.orders[i].amount, TopupKey(i));
            CreditWalletForTopup(f.book, f.db.orders[i], i) == Post(f.book, EntryFor(f.book, req))
            && BookOk(Post(f.book, EntryFor(f.book, req)))
  {
    var req := Request(f.db.orders[i].metaUser, Topup, f.db.orders[i].amount, TopupKey(i));
    forall k | 0 <= k < |f.book.ledger| ensures f.book.ledger[k].key != TopupKey(i) {
      assert EntryBacked(f, f.book.ledger[k]);
    }
    PostKeepsBook(f.book, req);
  }

  lemma PayTotals(f: Flow, account: string, b: O.BankTx, i: nat)
    requires PayInv(f.db) && i < |f.db.orders| && O.Survives(f.db.orders[i], account, b)
    ensures CreditedTotal(O.Pay(f.db, account, b, i).txs, O.Pay(f.db, account, b, i).orders, f.book.balances.Keys)
         == CreditedTotal(f.db.txs, f.db.orders, f.book.balances.Keys)
            + (if Creditable(f.db.orders[i], f.book.balances.Keys) then b.amount else 0)
  {
    var after := O.Pay(f.db, account, b, i);
    assert after.txs[..|after.txs| - 1] == f.db.txs;
    MatchedInRange(f.db);
    CreditedFrame(f.db.txs, f.db.orders, after.orders, f.book.balances.Keys);
  }

  /** Everything the invariant says but the totals, after paying order `i`. */
  lemma PayBacks(f: Flow, g: Flow, account: string, b: O.BankTx, i: nat)
    requires Backed(f) && Credited(f)
    requires i < |f.db.orders| && O.Survives(f.db.orders[i], account, b)
    requires g.db == O.Pay(f.db, account, b, i) && g.book == f.book
    ensures Backed(g)
    ensures forall j: nat :: j != i && PaidTopup(g, j) ==> HasKey(g.book.ledger, TopupKey(j))
  {
  }

  lemma PayKeeps(f: Flow, account: string, b: O.BankTx, i: nat)
    requires Inv(f) && !O.Known(f.db, account, b.ref) && b.amount > 0
    requires i < |f.db.orders| && O.Survives(f.db.orders[i], account, b)
    ensures Inv(Flow(O.Pay(f.db, account, b, i), CreditWalletForTopup(f.book, f.db.orders[i], i)))
  {
    var paid := f.(db := O.Pay(f.db, account, b, i));
    var g := paid.(book := CreditWalletForTopup(f.book, f.db.orders[i], i));
    PayKeepsPay(f.db, account, b, i);
    PayTotals(f, account, b, i);
    PayBacks(f, paid, account, b, i);
    if Creditable(f.db.orders[i], f.book.balances.Keys) {
      CreditPosts(f, i);
      var e := g.book.ledger[|f.book.ledger|];
      assert g.book.ledger == f.book.ledger + [e] && g.book.balances.Keys == f.book.balances.Keys;
      SumAppend(f.book.ledger, e, TopupAmount());
      CreditedAfter(paid, g, e, i);
    }
  }

  lemma CreditedAfter(paid: Flow, g: Flow, e: Entry, i: nat)
    requires Backed(paid) && g.db == paid.db && e.key == TopupKey(i) && EntryBacked(g, e)
    requires g.book.ledger == paid.book.ledger + [e] && g.book.balances.Keys == paid.book.balances.Keys
    requires forall j: nat :: j != i && PaidTopup(paid, j) ==> HasKey(paid.book.ledger, TopupKey(j))
    ensures Backed(g) && Credited(g)
  {
    forall k | 0 <= k < |g.book.ledger| ensures EntryBacked(g, g.book.ledger[k]) {
      assert k < |paid.book.ledger| ==> EntryBacked(paid, paid.book.ledger[k]);
    }
    assert forall j: nat :: PaidTopup(g, j) ==> PaidTopup(paid, j);
    assert g.book.ledger[|paid.book.ledger|].key == TopupKey(i);
    forall j: nat | HasKey(paid.book.ledger, TopupKey(j)) ensures HasKey(g.book.ledger, TopupKey(j)) {
      var k :| 0 <= k < |paid.book.ledger| && paid.book.ledger[k].key == TopupKey(j);
      assert g.book.ledger[k].key == TopupKey(j);
    }
  }

  lemma IngestKeeps(f: Flow, fold: char -> string, account: string, b: O.BankTx)
    requires Inv(f)
    ensures Inv(IngestAndCredit(f, fold, account, b))
  {
    var p := PaidBy(f.db, fold, account, b);
    if p.Some? {
      PayKeeps(f, account, b, p.value);
    } else {
      StepGrows(f.db, fold, O.EIngest(account, b));
      IngestKeepsPay(f.db, fold, account, b);
      OrderStepKeeps(f, O.Ingest(f.db, fold, account, b));
    }
  }

  /** Other callers of the wallet do not use the keys reserved for top-ups. */
  predicate Clean(e: Event) {
    e.EOther? ==> !e.req.key.TopupKey?
  }

  lemma StepKeeps(f: Flow, fold: char -> string, e: Event)
    requires Inv(f) && Clean(e)
    ensures Inv(Step(f, fold, e))
  {
    match e
    case EOther(req) =>
      if SignOk(req.kind, req.amount) {
        ApplyOtherKeeps(f, req);
      }
    case EOrder(o) =>
      if o.EIngest? {
        IngestKeeps(f, fold, o.account, o.bank);
      } else {
        StepGrows(f.db, fold, o);
        StepKeepsPay(f.db, fold, o);
        OtherKeepsPaid(f.db, fold, o);
        OrderStepKeeps(f, O.Step(f.db, fold, o));
      }
  }

  /** Nothing credited yet and nothing waiting to be. */
  ghost predicate Init(f: Flow) {
    && PayInv(f.db) && BookOk(f.book)
    && (forall i: nat :: !PaidTopup(f, i))
    && (forall k :: 0 <= k < |f.book.ledger| ==> !f.book.ledger[k].key.TopupKey?)
  }

  lemma {:induction false} NoTopups(ledger: seq<Entry>)
    requires forall k :: 0 <= k < |ledger| ==> !ledger[k].key.TopupKey?
    ensures TopupTotal(ledger) == 0
  {
    if ledger == [] {
    } else {
      NoTopups(ledger[..|ledger| - 1]);
    }
  }

  lemma {:induction false} NoCredits(f: Flow, txs: seq<O.Tx>)
    requires PayInv(f.db) && txs <= f.db.txs && forall i: nat :: !PaidTopup(f, i)
    ensures CreditedTotal(txs, f.db.orders, f.book.balances.Keys) == 0
  {
    if txs == [] {
    } else {
      NoCredits(f, txs[..|txs| - 1]);
      MatchedInRange(f.db);
      var x := f.db.txs[|txs| - 1];
      assert x.matchedOrder.Some? ==> !PaidTopup(f, x.matchedOrder.value);
    }
  }

  lemma {:induction false} RunKeeps(f: Flow, fold: char -> string, es: seq<Event>)
    requires Init(f) && forall e :: e in es ==> Clean(e)
    ensures Inv(Run(f, fold, es))
  {
    if es == [] {
      NoTopups(f.book.ledger);
      NoCredits(f, f.db.txs);
    } else {
      RunKeeps(f, fold, es[..|es| - 1]);
      StepKeeps(Run(f, fold, es[..|es| - 1]), fold, es[|es| - 1]);
    }
  }

  /** End to end, for any polls with any repeats: an order has a top-up entry exactly when it is a
      paid top-up of an existing user; it has one, for the order's amount and user; and the entries
      add up to the transfers matched to those orders. */
  lemma TopupsAreExact(f: Flow, fold: char -> string, es: seq<Event>)
    requires Init(f) && forall e :: e in es ==> Clean(e)
    ensures var g := Run(f, fold, es);
      && (forall i: nat :: HasKey(g.book.ledger, TopupKey(i)) <==> PaidTopup(g, i))
      && (forall k, l :: 0 <= k < l < |g.book.ledger| ==> g.book.ledger[k].key != g.book.ledger[l].key)
      && Backed(g)
      && TopupTotal(g.book.ledger) == CreditedTotal(g.db.txs, g.db.orders, g.book.balances.Keys)
  {
    var g := Run(f, fold, es);
    RunKeeps(f, fold, es);
    forall i: nat | HasKey(g.book.ledger, TopupKey(i)) ensures PaidTopup(g, i) {
      var k :| 0 <= k < |g.book.ledger| && g.book.ledger[k].key == TopupKey(i);
      assert EntryBacked(g, g.book.ledger[k]);
    }
  }

  /** Why the keys must be left alone: ingest swallows the wallet's refusal, so a transfer that pays
      a creditable order posts its credit exactly when nobody used the order's key before. */
  lemma CreditPostsIffKeyUnused(f: Flow, fold: char -> string, account: string, b: O.BankTx, i: nat)
    requires BookOk(f.book) && PaidBy(f.db, fold, account, b) == Some(i)
    requires Creditable(f.db.orders[i], f.book.balances.Keys)
    ensures IngestAndCredit(f, fold, account, b).db.orders[i].status == Paid
    ensures |IngestAndCredit(f, fold, account, b).book.ledger| == |f.book.ledger| + 1
       <==> !HasKey(f.book.ledger, TopupKey(i))
    ensures HasKey(f.book.ledger, TopupKey(i)) ==> IngestAndCredit(f, fold, account, b).book == f.book
  {
  }
}
