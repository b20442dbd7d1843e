/** From a matched on-chain transfer to money in the user's wallet. */
module CryptoTopups {
  import opened Common
  import opened Sums
  import opened Wallet
  import opened Crypto

  // ----- totals

  function CryptoAmount(): Entry -> int {
    (e: Entry) => if e.key.CryptoKey? then e.amount else 0
  }

  predicate PaidOut(i: Invoice) {
    i.status == Completed && Creditable(i)
  }

  function PaidVnd(): Invoice -> int {
    (i: Invoice) => if PaidOut(i) then i.vnd.value else 0
  }

  // ----- the invariant

  ghost predicate EntryBacked(d: Desk, e: Entry) {
    e.key.CryptoKey? ==>
      && e.key.invoice < |d.invoices| && PaidOut(d.invoices[e.key.invoice])
      && e.user == d.invoices[e.key.invoice].user.value
      && e.amount == d.invoices[e.key.invoice].vnd.value
      && e.kind == Topup
  }

  ghost predicate Backed(d: Desk) {
    forall k :: 0 <= k < |d.book.ledger| ==> EntryBacked(d, d.book.ledger[k])
  }

  ghost predicate PaidInvoice(d: Desk, i: nat) {
    i < |d.invoices| && PaidOut(d.invoices[i])
  }

  ghost predicate Credited(d: Desk) {
    forall i: nat :: PaidInvoice(d, i) ==> HasKey(d.book.ledger, CryptoKey(i))
  }

  ghost predicate Inv(d: Desk) {
    && BookOk(d.book) && Backed(d) && Credited(d)
    && SumBy(d.book.ledger, CryptoAmount()) == SumBy(d.invoices, PaidVnd())
  }

  // ----- steps that complete no invoice

  /** Invoices keep their user and amount, and none is newly completed. */
  ghost predicate NothingPaid(a: seq<Invoice>, b: seq<Invoice>) {
    && |a| <= |b|
    && (forall i :: 0 <= i < |a| ==>
          (PaidOut(a[i]) <==> PaidOut(b[i])) && b[i].user == a[i].user && b[i].vnd == a[i].vnd)
    && (forall i :: |a| <= i < |b| ==> !PaidOut(b[i]))
  }

  lemma {:induction false} SameTotal(a: seq<Invoice>, b: seq<Invoice>)
    requires NothingPaid(a, b)
    ensures SumBy(a, PaidVnd()) == SumBy(b, PaidVnd())
    decreases |b|
  {
    if |b| == |a| {
      SumSame(a, b, PaidVnd());
    } else {
      SameTotal(a, b[..|b| - 1]);
    }
  }

  lemma QuietKeeps(d: Desk, after: Desk)
    requires Inv(d) && after.book == d.book && NothingPaid(d.invoices, after.invoices)
    ensures Inv(after)
  {
    SameTotal(d.invoices, after.invoices);
    forall k | 0 <= k < |after.book.ledger| ensures EntryBacked(after, after.book.ledger[k]) {
      assert EntryBacked(d, d.book.ledger[k]);
    }
    assert forall i: nat :: PaidInvoice(after, i) ==> PaidInvoice(d, i);
  }

  lemma {:induction false} ExpireQuiet(d: Desk, ids: seq<nat>)
    ensures ExpireDue(d, ids).book == d.book && NothingPaid(d.invoices, ExpireDue(d, ids).invoices)
  {
    if ids == [] {
    } else {
      ExpireQuiet(d, ids[..|ids| - 1]);
    }
  }

  lemma HasKeyGrows(ledger: seq<Entry>, e: Entry)
    ensures HasKey(ledger + [e], e.key)
    ensures forall key :: HasKey(ledger, key) ==> HasKey(ledger + [e], key)
  {
    assert (ledger + [e])[|ledger|] == e;
    forall key | HasKey(ledger, key) ensures HasKey(ledger + [e], key) {
      var k :| 0 <= k < |ledger| && ledger[k].key == key;
      assert (ledger + [e])[k].key == key;
    }
  }

  lemma WalletKeeps(d: Desk, req: Request)
    requires Inv(d) && SignOk(req.kind, req.amount) && !req.key.CryptoKey?
    ensures Inv(d.(book := Apply(d.book, req).0))
  {
    var after := d.(book := Apply(d.book, req).0);
    ApplyKeepsBook(d.book, req);
    if after != d {
      var e := EntryFor(d.book, req);
      SumAppend(d.book.ledger, e, CryptoAmount());
      HasKeyGrows(d.book.ledger, e);
      forall k | 0 <= k < |after.book.ledger| ensures EntryBacked(after, after.book.ledger[k]) {
        assert k < |d.book.ledger| ==> EntryBacked(d, d.book.ledger[k]);
      }
      assert forall i: nat :: PaidInvoice(after, i) ==> PaidInvoice(d, i);
    }
  }

  // ----- the step that completes one

  predicate WalletTakes(book: Book, inv: Invoice)
    requires Creditable(inv)
  {
    inv.vnd.value > 0 && inv.user.value in book.balances
  }

  /** The key of an open invoice is unused, so the wallet refuses only a missing user or an amount
      that is not positive. */
  lemma CreditOutcome(d: Desk, i: nat)
    requires Inv(d) && i < |d.invoices| && Open(d.invoices[i]) && Creditable(d.invoices[i])
    ensures !HasKey(d.book.ledger, CryptoKey(i))
    ensures var inv, r := d.invoices[i], CreditInvoice(d.book, d.invoices[i], i);
            && (r.Some? <==> WalletTakes(d.book, inv))
            && (r.Some? ==>
                  var req := Request(inv.user.value, Topup, inv.vnd.value, CryptoKey(i));
                  r.value == Post(d.book, EntryFor(d.book, req)) && BookOk(r.value))
  {
    var inv := d.invoices[i];
    forall k | 0 <= k < |d.book.ledger| ensures d.book.ledger[k].key != CryptoKey(i) {
      assert EntryBacked(d, d.book.ledger[k]);
    }
    if WalletTakes(d.book, inv) {
      PostKeepsBook(d.book, Request(inv.user.value, Topup, inv.vnd.value, CryptoKey(i)));
    }
  }

  /** Invoice `i` of `d` was completed and its credit went through. */
  ghost predicate Completes(d: Desk, i: nat, after: Desk) {
    && i < |d.invoices| == |after.invoices| && Open(d.invoices[i])
    && CreditInvoice(d.book, d.invoices[i], i) == Some(after.book)
    && after.invoices == d.invoices[i := after.invoices[i]]
    && after.invoices[i].status == Completed
    && after.invoices[i].user == d.invoices[i].user && after.invoices[i].vnd == d.invoices[i].vnd
  }

  lemma CompleteBacks(d: Desk, i: nat, after: Desk)
    requires Inv(d) && Completes(d, i, after)
    ensures BookOk(after.book) && Backed(after) && Credited(after)
  {
    if Creditable(d.invoices[i]) {
      CreditOutcome(d, i);
      HasKeyGrows(d.book.ledger, after.book.ledger[|d.book.ledger|]);
    }
    forall k | 0 <= k < |after.book.ledger| ensures EntryBacked(after, after.book.ledger[k]) {
      assert k < |d.book.ledger| ==> EntryBacked(d, d.book.ledger[k]);
    }
    assert forall j: nat :: j != i && PaidInvoice(after, j) ==> PaidInvoice(d, j);
  }

  lemma CompleteKeeps(d: Desk, i: nat, after: Desk)
    requires Inv(d) && Completes(d, i, after)
    ensures Inv(after)
  {
    CompleteBacks(d, i, after);
    SumUpdate(d.invoices, i, after.invoices[i], PaidVnd());
    if Creditable(d.invoices[i]) {
      CreditOutcome(d, i);
      SumAppend(d.book.ledger, after.book.ledger[|d.book.ledger|], CryptoAmount());
    }
  }

  lemma MatchKeeps(d: Desk, t: nat)
    requires Inv(d)
    ensures MatchTransfer(d, t).Some? ==> Inv(MatchTransfer(d, t).value)
  {
    if t < |d.transfers| && MatchTransfer(d, t).Some? {
      var found, after := FindInvoice(d, d.transfers[t], |d.invoices|), MatchTransfer(d, t).value;
      if found.Some? && !AlreadyMatched(d, found.value, t) {
        var i := found.value;
        if after.invoices[i].status == Completed {
          CompleteKeeps(d, i, after);
        } else {
          QuietKeeps(d, after);
        }
      }
    }
  }

  lemma {:induction false} MatchAllKeeps(d: Desk, ts: seq<nat>)
    requires Inv(d)
    ensures MatchAll(d, ts).Some? ==> Inv(MatchAll(d, ts).value)
  {
    if ts == [] {
    } else {
      MatchAllKeeps(d, ts[..|ts| - 1]);
      if MatchAll(d, ts[..|ts| - 1]).Some? {
        MatchKeeps(MatchAll(d, ts[..|ts| - 1]).value, ts[|ts| - 1]);
      }
    }
  }

  /** A match is rolled back exactly when it would complete an invoice whose credit the wallet
      refuses: its user does not exist or its amount is not positive. */
  lemma RefusedIffWalletRefuses(d: Desk, t: nat)
    requires Inv(d) && t < |d.transfers|
    ensures MatchTransfer(d, t).None? <==>
            exists i :: FindInvoice(d, d.transfers[t], |d.invoices|) == Some(i) && !AlreadyMatched(d, i, t)
              && d.invoices[i].received + d.transfers[t].amount >= d.invoices[i].pay
              && Creditable(d.invoices[i]) && !WalletTakes(d.book, d.invoices[i])
  {
    var found := FindInvoice(d, d.transfers[t], |d.invoices|);
    if found.Some? && Creditable(d.invoices[found.value]) {
      CreditOutcome(d, found.value);
    }
  }

  // ----- runs

  /** Other callers of the wallet do not use the keys reserved for invoices. */
  predicate Clean(e: Event) {
    e.EWallet? ==> !e.req.key.CryptoKey?
  }

  lemma CreateIsQuiet(d: Desk, o: Order, draw: nat)
    ensures Create(d, o, draw).book == d.book && NothingPaid(d.invoices, Create(d, o, draw).invoices)
  {
  }

  lemma CancelIsQuiet(d: Desk, id: nat)
    ensures Cancel(d, id).book == d.book && NothingPaid(d.invoices, Cancel(d, id).invoices)
  {
  }

  lemma WatchKeeps(d: Desk, t: Transfer)
    requires Inv(d)
    ensures Inv(Watch(d, t))
  {
    var stored := d.(transfers := d.transfers + [t.(status := Confirmed)]);
    QuietKeeps(d, stored);
    MatchKeeps(stored, |d.transfers|);
  }

  lemma StepKeeps(d: Desk, e: Event)
    requires Inv(d) && Clean(e)
    ensures Inv(Step(d, e))
  {
    match e
    case ECreate(order, draw) =>
      CreateIsQuiet(d, order, draw);
      QuietKeeps(d, Create(d, order, draw));
    case ECancel(id) =>
      CancelIsQuiet(d, id);
      QuietKeeps(d, Cancel(d, id));
    case EExpire(ids) =>
      ExpireQuiet(d, ids);
      QuietKeeps(d, ExpireDue(d, ids));
    case EWatch(t) => WatchKeeps(d, t);
    case EReconcile(id) =>
      if id < |d.invoices| {
        MatchAllKeeps(d, Selection(d, d.invoices[id], |d.transfers|));
      }
    case EWallet(req) =>
      if SignOk(req.kind, req.amount) {
        WalletKeeps(d, req);
      }
    case ETick(dt) => QuietKeeps(d, Step(d, e));
  }

  /** Nothing credited yet and nothing waiting to be. */
  ghost predicate Init(d: Desk) {
    && BookOk(d.book)
    && (forall k :: 0 <= k < |d.book.ledger| ==> !d.book.ledger[k].key.CryptoKey?)
    && (forall i :: 0 <= i < |d.invoices| ==> !PaidOut(d.invoices[i]))
  }

  lemma {:induction false} NoEntries(ledger: seq<Entry>)
    requires forall k :: 0 <= k < |ledger| ==> !ledger[k].key.CryptoKey?
    ensures SumBy(ledger, CryptoAmount()) == 0
  {
    if ledger == [] {
    } else {
      NoEntries(ledger[..|ledger| - 1]);
    }
  }

  lemma {:induction false} RunKeeps(d: Desk, es: seq<Event>)
    requires Init(d) && forall e :: e in es ==> Clean(e)
    ensures Inv(Run(d, es))
  {
    if es == [] {
      NoEntries(d.book.ledger);
      SameTotal([], d.invoices);
    } else {
      RunKeeps(d, es[..|es| - 1]);
      StepKeeps(Run(d, es[..|es| - 1]), es[|es| - 1]);
    }
  }

  /** Over every run: an invoice has a ledger entry exactly when it is completed and names a user and
      an amount; it has one, for that user and amount, the user exists and the amount is positive;
      and the entries add up to the amounts of those invoices. */
  lemma CryptoTopupsAreExact(d: Desk, es: seq<Event>)
    requires Init(d) && forall e :: e in es ==> Clean(e)
    ensures var g := Run(d, es);
      && (forall i: nat :: HasKey(g.book.ledger, CryptoKey(i)) <==> PaidInvoice(g, i))
      && (forall k, l :: 0 <= k < l < |g.book.ledger| ==> g.book.ledger[k].key != g.book.ledger[l].key)
      && Backed(g)
      && (forall i: nat :: PaidInvoice(g, i) ==> WalletTakes(g.book, g.invoices[i]))
      && SumBy(g.book.ledger, CryptoAmount()) == SumBy(g.invoices, PaidVnd())
  {
    var g := Run(d, es);
    RunKeeps(d, es);
    forall i: nat | HasKey(g.book.ledger, CryptoKey(i)) ensures PaidInvoice(g, i) && WalletTakes(g.book, g.invoices[i]) {
      var k :| 0 <= k < |g.book.ledger| && g.book.ledger[k].key == CryptoKey(i);
      assert EntryBacked(g, g.book.ledger[k]);
    }
  }
}
