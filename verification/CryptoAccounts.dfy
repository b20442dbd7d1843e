/** Slots and money of the crypto desk, over every run. */
module CryptoAccounts {
  import opened Common
  import opened Sums
  import W = Wallet
  import opened Crypto

  // ----- slots: a receiver's counter is its number of open invoices

  function OpenAt(w: nat): Invoice -> int {
    (i: Invoice) => if Open(i) && i.wallet == w then 1 else 0
  }

  ghost predicate SlotOk(d: Desk, w: nat)
    requires w < |d.receivers|
  {
    d.receivers[w].active == SumBy(d.invoices, OpenAt(w))
  }

  ghost predicate Slots(d: Desk) {
    && (forall i :: 0 <= i < |d.invoices| ==> d.invoices[i].wallet < |d.receivers|)
    && (forall w :: 0 <= w < |d.receivers| ==> SlotOk(d, w))
  }

  /** The guard on release never suppresses it: an open invoice is counted. */
  lemma OpenIsCounted(d: Desk, i: nat)
    requires Slots(d) && i < |d.invoices| && Open(d.invoices[i])
    ensures 0 < d.receivers[d.invoices[i].wallet].active
  {
    var w := d.invoices[i].wallet;
    assert SlotOk(d, w);
    SumNonNegative(d.invoices, OpenAt(w));
    assert OpenAt(w)(d.invoices[i]) == 1;
  }

  /** Closing an open invoice, by whatever status, gives back exactly its slot. */
  lemma CloseKeepsSlots(d: Desk, after: Desk, i: nat)
    requires Slots(d) && i < |d.invoices| && Open(d.invoices[i])
    requires |after.invoices| == |d.invoices| && after.invoices == d.invoices[i := after.invoices[i]]
    requires !Open(after.invoices[i]) && after.invoices[i].wallet == d.invoices[i].wallet
    requires after.receivers == Release(d.receivers, d.invoices[i].wallet)
    ensures Slots(after)
  {
    OpenIsCounted(d, i);
    forall w | 0 <= w < |after.receivers| ensures SlotOk(after, w) {
      assert SlotOk(d, w);
      SumUpdate(d.invoices, i, after.invoices[i], OpenAt(w));
    }
  }

  lemma CreateKeepsSlots(d: Desk, o: Order, draw: nat)
    requires Slots(d)
    ensures Slots(Create(d, o, draw))
  {
    var after := Create(d, o, draw);
    if after != d {
      var (rs, chosen) := ChooseReceiver(d, o.token.network, o.address).value;
      var inv := after.invoices[|d.invoices|];
      forall w | 0 <= w < |after.receivers| ensures SlotOk(after, w) {
        SumAppend(d.invoices, inv, OpenAt(w));
        if w < |d.receivers| {
          assert SlotOk(d, w);
        } else {
          NobodyThere(d.invoices, w);
        }
      }
    }
  }

  lemma {:induction false} NobodyThere(invoices: seq<Invoice>, w: nat)
    requires forall i :: 0 <= i < |invoices| ==> invoices[i].wallet < w
    ensures SumBy(invoices, OpenAt(w)) == 0
  {
    if invoices == [] {
    } else {
      NobodyThere(invoices[..|invoices| - 1], w);
    }
  }

  lemma FundKeepsSlots(d: Desk, i: nat, t: nat, book: W.Book)
    requires Slots(d) && i < |d.invoices| && t < |d.transfers| && Open(d.invoices[i])
    ensures Slots(Fund(d, i, t, book))
  {
    var after := Fund(d, i, t, book);
    if Open(after.invoices[i]) {
      forall w | 0 <= w < |after.receivers| ensures SlotOk(after, w) {
        assert SlotOk(d, w);
        SumUpdate(d.invoices, i, after.invoices[i], OpenAt(w));
      }
    } else {
      CloseKeepsSlots(d, after, i);
    }
  }

  lemma MatchKeepsSlots(d: Desk, t: nat)
    requires Slots(d)
    ensures MatchTransfer(d, t).Some? ==> Slots(MatchTransfer(d, t).value)
  {
    if t < |d.transfers| {
      var found := FindInvoice(d, d.transfers[t], |d.invoices|);
      if found.Some? && MatchTransfer(d, t).Some? {
        FundKeepsSlots(d, found.value, t, MatchTransfer(d, t).value.book);
      }
    }
  }

  lemma {:induction false} MatchAllKeepsSlots(d: Desk, ts: seq<nat>)
    requires Slots(d)
    ensures MatchAll(d, ts).Some? ==> Slots(MatchAll(d, ts).value)
  {
    if ts == [] {
    } else {
      MatchAllKeepsSlots(d, ts[..|ts| - 1]);
      if MatchAll(d, ts[..|ts| - 1]).Some? {
        MatchKeepsSlots(MatchAll(d, ts[..|ts| - 1]).value, ts[|ts| - 1]);
      }
    }
  }

  lemma SlotsFrame(d: Desk, after: Desk)
    requires Slots(d) && after.receivers == d.receivers && after.invoices == d.invoices
    ensures Slots(after)
  {
    forall w | 0 <= w < |after.receivers| ensures SlotOk(after, w) {
      assert SlotOk(d, w);
    }
  }

  lemma {:induction false} ExpireKeepsSlots(d: Desk, ids: seq<nat>)
    requires Slots(d)
    ensures Slots(ExpireDue(d, ids))
  {
    if ids == [] {
    } else {
      ExpireKeepsSlots(d, ids[..|ids| - 1]);
      var mid, i := ExpireDue(d, ids[..|ids| - 1]), ids[|ids| - 1];
      if ExpireOne(mid, i) != mid {
        CloseKeepsSlots(mid, ExpireOne(mid, i), i);
      }
    }
  }

  lemma StepKeepsSlots(d: Desk, e: Event)
    requires Slots(d)
    ensures Slots(Step(d, e))
  {
    match e
    case ECreate(order, draw) => CreateKeepsSlots(d, order, draw);
    case ECancel(id) =>
      if Cancel(d, id) != d {
        CloseKeepsSlots(d, Cancel(d, id), id);
      }
    case EExpire(ids) => ExpireKeepsSlots(d, ids);
    case EWatch(t) =>
      SlotsFrame(d, d.(transfers := d.transfers + [t.(status := Confirmed)]));
      MatchKeepsSlots(d.(transfers := d.transfers + [t.(status := Confirmed)]), |d.transfers|);
    case EReconcile(id) =>
      if id < |d.invoices| {
        MatchAllKeepsSlots(d, Selection(d, d.invoices[id], |d.transfers|));
      }
    case EWallet(_) => SlotsFrame(d, Step(d, e));
    case ETick(_) => SlotsFrame(d, Step(d, e));
  }

  /** In every run each receiver's `active` is its number of waiting or partial invoices. */
  lemma {:induction false} RunKeepsSlots(d: Desk, es: seq<Event>)
    requires Slots(d)
    ensures Slots(Run(d, es))
  {
    if es == [] {
    } else {
      RunKeepsSlots(d, es[..|es| - 1]);
      StepKeepsSlots(Run(d, es[..|es| - 1]), es[|es| - 1]);
    }
  }

  /** An invoice without a merchant address goes to a receiver that stays within its limit. */
  lemma CreateStaysWithinLimit(d: Desk, o: Order, draw: nat)
    requires Slots(d) && o.address.None? && Create(d, o, draw) != d
    ensures var after := Create(d, o, draw);
            && |after.invoices| == |d.invoices| + 1
            && var w := after.invoices[|d.invoices|].wallet;
               && w < |after.receivers|
               && SumBy(after.invoices, OpenAt(w)) <= after.receivers[w].maxActive
               && (forall k :: 0 <= k < |d.receivers| && Eligible(d.receivers[k], o.token.network) ==>
                     d.receivers[w].active <= d.receivers[k].active)
  {
    CreateKeepsSlots(d, o, draw);
    var after := Create(d, o, draw);
    assert SlotOk(after, after.invoices[|d.invoices|].wallet);
  }

  // ----- money

  function Received(): Invoice -> int {
    (i: Invoice) => i.received
  }

  function Matched(): Match -> int {
    (m: Match) => m.amount
  }

  function Spent(): Transfer -> int {
    (t: Transfer) => if t.status == TMatched then t.amount else 0
  }

  ghost predicate InvoiceOk(i: Invoice) {
    && i.status != Partial
    && i.received == (if i.status == Completed then i.pay else 0)
  }

  ghost predicate MatchOk(d: Desk, m: Match) {
    && m.invoice < |d.invoices| && m.transfer < |d.transfers|
    && d.invoices[m.invoice].status == Completed
    && d.transfers[m.transfer].status == TMatched
    && m.amount == d.transfers[m.transfer].amount == d.invoices[m.invoice].pay
    && SamePayment(d.invoices[m.invoice], d.transfers[m.transfer])
  }

  /** The transfer went to the invoice's address, in its token and network, and inside its window if
      its block is dated. */
  ghost predicate SamePayment(i: Invoice, t: Transfer) {
    && i.network == t.network && i.token == t.token && i.address == t.to
    && (t.blockTime.Some? ==> i.createdAt <= t.blockTime.value && t.blockTime.value <= i.expiresAt)
  }

  /** Each invoice has at most one match and each transfer funds at most one invoice. */
  ghost predicate OneToOne(ms: seq<Match>) {
    forall j, k :: 0 <= j < k < |ms| ==> ms[j].invoice != ms[k].invoice && ms[j].transfer != ms[k].transfer
  }

  ghost predicate Balanced(d: Desk) {
    SumBy(d.invoices, Received()) == SumBy(d.matches, Matched()) == SumBy(d.transfers, Spent())
  }

  ghost predicate Money(d: Desk) {
    && (forall i :: 0 <= i < |d.invoices| ==> InvoiceOk(d.invoices[i]))
    && (forall k :: 0 <= k < |d.matches| ==> MatchOk(d, d.matches[k]))
    && OneToOne(d.matches)
    && Balanced(d)
  }

  lemma FundRows(d: Desk, i: nat, t: nat, book: W.Book)
    requires Money(d) && i < |d.invoices| && t < |d.transfers|
    requires Fits(d, d.invoices[i], d.transfers[t]) && d.transfers[t].status != TMatched
    ensures var after := Fund(d, i, t, book);
            && (forall k :: 0 <= k < |after.invoices| ==> InvoiceOk(after.invoices[k]))
            && (forall k :: 0 <= k < |after.matches| ==> MatchOk(after, after.matches[k]))
            && OneToOne(after.matches)
            && after.invoices[i].status == Completed
  {
    var after := Fund(d, i, t, book);
    assert InvoiceOk(d.invoices[i]);
    forall k | 0 <= k < |d.matches|
      ensures MatchOk(after, d.matches[k]) && d.matches[k].invoice != i && d.matches[k].transfer != t
    {
      assert MatchOk(d, d.matches[k]);
    }
  }

  lemma FundBalances(d: Desk, i: nat, t: nat, book: W.Book)
    requires Money(d) && i < |d.invoices| && t < |d.transfers|
    requires Fits(d, d.invoices[i], d.transfers[t]) && d.transfers[t].status != TMatched
    ensures Balanced(Fund(d, i, t, book))
  {
    var after := Fund(d, i, t, book);
    assert InvoiceOk(d.invoices[i]);
    SumUpdate(d.invoices, i, after.invoices[i], Received());
    SumUpdate(d.transfers, t, after.transfers[t], Spent());
    SumAppend(d.matches, after.matches[|d.matches|], Matched());
  }

  /** Matching an unmatched transfer; the `partial` and the existing-match branch are not reached. */
  lemma MatchKeepsMoney(d: Desk, t: nat)
    requires Money(d) && t < |d.transfers| && d.transfers[t].status != TMatched
    ensures MatchTransfer(d, t).Some? ==>
      && Money(MatchTransfer(d, t).value)
      && |MatchTransfer(d, t).value.transfers| == |d.transfers|
      && (forall k :: 0 <= k < |d.transfers| && k != t ==> MatchTransfer(d, t).value.transfers[k] == d.transfers[k])
    ensures forall i: nat :: !AlreadyMatched(d, i, t)
    ensures forall i :: FindInvoice(d, d.transfers[t], |d.invoices|) == Some(i) ==>
              d.invoices[i].received + d.transfers[t].amount >= d.invoices[i].pay
  {
    forall k | 0 <= k < |d.matches| ensures d.matches[k].transfer != t {
      assert MatchOk(d, d.matches[k]);
    }
    var found := FindInvoice(d, d.transfers[t], |d.invoices|);
    if found.Some? {
      assert InvoiceOk(d.invoices[found.value]);
      if MatchTransfer(d, t).Some? {
        FundRows(d, found.value, t, MatchTransfer(d, t).value.book);
        FundBalances(d, found.value, t, MatchTransfer(d, t).value.book);
      }
    }
  }

  lemma {:induction false} MatchAllKeepsMoney(d: Desk, ts: seq<nat>)
    requires Money(d) && Ascending(ts)
    requires forall t :: t in ts ==> t < |d.transfers| && d.transfers[t].status != TMatched
    ensures MatchAll(d, ts).Some? ==>
      && Money(MatchAll(d, ts).value)
      && |MatchAll(d, ts).value.transfers| == |d.transfers|
      && (forall k: nat :: k < |d.transfers| && k !in ts ==> MatchAll(d, ts).value.transfers[k] == d.transfers[k])
  {
    if ts == [] {
    } else {
      var n := |ts| - 1;
      assert forall t :: t in ts[..n] ==> t in ts;
      MatchAllKeepsMoney(d, ts[..n]);
      if MatchAll(d, ts[..n]).Some? {
        assert ts[n] in ts && ts[n] !in ts[..n];
        MatchKeepsMoney(MatchAll(d, ts[..n]).value, ts[n]);
      }
    }
  }

  /** Closing an unpaid invoice moves no money. */
  lemma CloseKeepsMoney(d: Desk, i: nat, status: InvoiceStatus)
    requires Money(d) && i < |d.invoices| && Open(d.invoices[i]) && status in {Expired, Canceled}
    ensures Money(Close(d, i, status))
  {
    var after := Close(d, i, status);
    assert InvoiceOk(d.invoices[i]);
    forall k | 0 <= k < |d.matches| ensures MatchOk(after, d.matches[k]) {
      assert MatchOk(d, d.matches[k]);
    }
    SumUpdate(d.invoices, i, after.invoices[i], Received());
  }

  lemma {:induction false} ExpireKeepsMoney(d: Desk, ids: seq<nat>)
    requires Money(d)
    ensures Money(ExpireDue(d, ids))
  {
    if ids == [] {
    } else {
      ExpireKeepsMoney(d, ids[..|ids| - 1]);
      var mid, i := ExpireDue(d, ids[..|ids| - 1]), ids[|ids| - 1];
      if ExpireOne(mid, i) != mid {
        CloseKeepsMoney(mid, i, Expired);
      }
    }
  }

  lemma CreateKeepsMoney(d: Desk, o: Order, draw: nat)
    requires Money(d)
    ensures Money(Create(d, o, draw))
  {
  }

  lemma WatchKeepsMoney(d: Desk, t: Transfer)
    requires Money(d)
    ensures Money(Step(d, EWatch(t)))
  {
    MatchKeepsMoney(d.(transfers := d.transfers + [t.(status := Confirmed)]), |d.transfers|);
  }

  lemma MoneyFrame(d: Desk, clock: int, book: W.Book)
    requires Money(d)
    ensures Money(d.(clock := clock, book := book))
  {
  }

  lemma StepKeepsMoney(d: Desk, e: Event)
    requires Money(d)
    ensures Money(Step(d, e))
  {
    match e
    case ECreate(order, draw) => CreateKeepsMoney(d, order, draw);
    case ECancel(id) =>
      if Cancel(d, id) != d {
        CloseKeepsMoney(d, id, Canceled);
      }
    case EExpire(ids) => ExpireKeepsMoney(d, ids);
    case EWatch(t) => WatchKeepsMoney(d, t);
    case EReconcile(id) =>
      if id < |d.invoices| {
        MatchAllKeepsMoney(d, Selection(d, d.invoices[id], |d.transfers|));
      }
    case EWallet(_) => MoneyFrame(d, d.clock, Step(d, e).book);
    case ETick(dt) => MoneyFrame(d, d.clock + dt, d.book);
  }

  /** In every run of create, cancel, expire, watch and reconcile_invoice: one match per invoice, one
      invoice per transfer, received is 0 or the pay amount, no invoice is ever partial, and total
      received equals the total of matched transfers. */
  lemma {:induction false} RunKeepsMoney(d: Desk, es: seq<Event>)
    requires Money(d)
    ensures Money(Run(d, es))
  {
    if es == [] {
    } else {
      RunKeepsMoney(d, es[..|es| - 1]);
      StepKeepsMoney(Run(d, es[..|es| - 1]), es[|es| - 1]);
    }
  }

  // ----- nothing is matched or completed without a trace

  ghost predicate FundedInvoice(d: Desk, i: nat) {
    exists k :: 0 <= k < |d.matches| && d.matches[k].invoice == i
  }

  ghost predicate UsedTransfer(d: Desk, t: nat) {
    exists k :: 0 <= k < |d.matches| && d.matches[k].transfer == t
  }

  ghost predicate TracedInvoice(d: Desk, i: nat)
    requires i < |d.invoices|
  {
    d.invoices[i].status == Completed ==> FundedInvoice(d, i)
  }

  ghost predicate Traced(d: Desk) {
    && (forall i :: 0 <= i < |d.invoices| ==> TracedInvoice(d, i))
    && (forall t :: 0 <= t < |d.transfers| && d.transfers[t].status == TMatched ==> UsedTransfer(d, t))
  }

  /** Matches are only ever added. */
  lemma TracesStay(d: Desk, after: Desk)
    requires Traced(d) && d.matches <= after.matches
    requires |d.invoices| <= |after.invoices| && |d.transfers| <= |after.transfers|
    requires forall i :: 0 <= i < |d.invoices| && after.invoices[i].status == Completed ==>
               after.invoices[i] == d.invoices[i] || TracedInvoice(after, i)
    requires forall i :: |d.invoices| <= i < |after.invoices| ==> after.invoices[i].status != Completed
    requires forall t :: 0 <= t < |d.transfers| && after.transfers[t].status == TMatched ==>
               d.transfers[t].status == TMatched || UsedTransfer(after, t)
    requires forall t :: |d.transfers| <= t < |after.transfers| ==> after.transfers[t].status != TMatched
    ensures Traced(after)
  {
    forall i: nat | FundedInvoice(d, i) ensures FundedInvoice(after, i) {
      var k :| 0 <= k < |d.matches| && d.matches[k].invoice == i;
      assert after.matches[k].invoice == i;
    }
    forall t: nat | UsedTransfer(d, t) ensures UsedTransfer(after, t) {
      var k :| 0 <= k < |d.matches| && d.matches[k].transfer == t;
      assert after.matches[k].transfer == t;
    }
    forall i | 0 <= i < |after.invoices| ensures TracedInvoice(after, i) {
      assert i < |d.invoices| ==> TracedInvoice(d, i);
    }
  }

  lemma FundTraces(d: Desk, i: nat, t: nat, book: W.Book)
    requires Traced(d) && i < |d.invoices| && t < |d.transfers|
    ensures Traced(Fund(d, i, t, book))
  {
    var after := Fund(d, i, t, book);
    assert after.matches[|d.matches|].invoice == i && after.matches[|d.matches|].transfer == t;
    assert FundedInvoice(after, i) && UsedTransfer(after, t);
    TracesStay(d, after);
  }

  lemma {:induction false} MatchAllTraces(d: Desk, ts: seq<nat>)
    requires Traced(d)
    ensures MatchAll(d, ts).Some? ==> Traced(MatchAll(d, ts).value)
  {
    if ts == [] {
    } else {
      MatchAllTraces(d, ts[..|ts| - 1]);
      if MatchAll(d, ts[..|ts| - 1]).Some? {
        MatchTraces(MatchAll(d, ts[..|ts| - 1]).value, ts[|ts| - 1]);
      }
    }
  }

  lemma MatchTraces(d: Desk, t: nat)
    requires Traced(d)
    ensures MatchTransfer(d, t).Some? ==> Traced(MatchTransfer(d, t).value)
  {
    if t < |d.transfers| {
      var found := FindInvoice(d, d.transfers[t], |d.invoices|);
      if found.Some? && MatchTransfer(d, t).Some? {
        FundTraces(d, found.value, t, MatchTransfer(d, t).value.book);
      }
    }
  }

  lemma {:induction false} ExpireTraces(d: Desk, ids: seq<nat>)
    requires Traced(d)
    ensures Traced(ExpireDue(d, ids))
  {
    if ids == [] {
    } else {
      ExpireTraces(d, ids[..|ids| - 1]);
      TracesStay(ExpireDue(d, ids[..|ids| - 1]), ExpireDue(d, ids));
    }
  }

  lemma StepTraces(d: Desk, e: Event)
    requires Traced(d)
    ensures Traced(Step(d, e))
  {
    match e
    case ECreate(order, draw) => TracesStay(d, Create(d, order, draw));
    case ECancel(id) => TracesStay(d, Cancel(d, id));
    case EExpire(ids) => ExpireTraces(d, ids);
    case EWatch(t) =>
      TracesStay(d, d.(transfers := d.transfers + [t.(status := Confirmed)]));
      MatchTraces(d.(transfers := d.transfers + [t.(status := Confirmed)]), |d.transfers|);
    case EReconcile(id) =>
      if id < |d.invoices| {
        MatchAllTraces(d, Selection(d, d.invoices[id], |d.transfers|));
      }
    case _ => TracesStay(d, Step(d, e));
  }

  /** In every run each completed invoice and each matched transfer has its match. */
  lemma {:induction false} RunTraces(d: Desk, es: seq<Event>)
    requires Traced(d)
    ensures Traced(Run(d, es))
  {
    if es == [] {
    } else {
      RunTraces(d, es[..|es| - 1]);
      StepTraces(Run(d, es[..|es| - 1]), es[|es| - 1]);
    }
  }
}
