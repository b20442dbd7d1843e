/** What one transaction of the crypto desk does to the tables, case by case. */
module CryptoOutcomes {
  import opened Common
  import opened Sums
  import W = Wallet
  import opened Crypto
  import opened CryptoAccounts
  import CT = CryptoTopups

  // ----- a transfer is seen

  /** The transfer pays this invoice: it is open, at the transfer's address, in its token and network,
      for its amount, and the block time, or the clock for an undated block, is in its window. */
  ghost predicate PaidBy(d: Desk, i: Invoice, t: Transfer) {
    && (i.status == Waiting || i.status == Partial)
    && i.network == t.network && i.token == t.token && i.address == t.to && i.pay == t.amount
    && (match t.blockTime
        case Some(at) => i.createdAt <= at && at <= i.expiresAt
        case None => i.createdAt <= d.clock && d.clock <= i.expiresAt)
  }

  /** Some invoice is paid by the transfer, and this one is the oldest of them. */
  ghost predicate OldestPaid(d: Desk, i: nat, t: Transfer) {
    && i < |d.invoices| && PaidBy(d, d.invoices[i], t)
    && forall j :: 0 <= j < |d.invoices| && PaidBy(d, d.invoices[j], t) ==> d.invoices[i].createdAt <= d.invoices[j].createdAt
  }

  /** The wallet has nothing against the credit that completing the invoice makes, if it makes one. */
  ghost predicate Creditworthy(book: W.Book, i: Invoice) {
    i.user.Some? && i.user.value != "" && i.vnd.Some? ==> i.vnd.value > 0 && i.user.value in book.balances
  }

  /** Invoice `i` is completed by transfer `t` and nothing else happens to any invoice or transfer:
      the match is recorded, the wallet slot is given back and the user is credited. */
  ghost predicate Completion(d: Desk, after: Desk, i: nat, t: nat)
    requires i < |d.invoices| && t < |d.transfers|
  {
    var inv := d.invoices[i];
    && after.clock == d.clock
    && after.invoices == d.invoices[i := inv.(received := inv.pay, status := Completed)]
    && after.transfers == d.transfers[t := d.transfers[t].(status := TMatched)]
    && after.matches == d.matches + [Match(i, t, inv.pay)]
    && |after.receivers| == |d.receivers| && inv.wallet < |d.receivers|
    && (forall w :: 0 <= w < |d.receivers| ==>
          after.receivers[w] == if w == inv.wallet then d.receivers[w].(active := d.receivers[w].active - 1)
                                else d.receivers[w])
    && CreditedBook(d.book, after.book, inv, i)
  }

  lemma FitsIsPaidBy(d: Desk, i: Invoice, t: Transfer)
    ensures Fits(d, i, t) <==> PaidBy(d, i, t)
  {
  }

  lemma FoundIsOldest(d: Desk, t: Transfer)
    ensures match FindInvoice(d, t, |d.invoices|)
            case Some(i) => OldestPaid(d, i, t)
            case None => forall i :: 0 <= i < |d.invoices| ==> !PaidBy(d, d.invoices[i], t)
  {
    forall i | 0 <= i < |d.invoices| ensures Fits(d, d.invoices[i], t) <==> PaidBy(d, d.invoices[i], t) {
      FitsIsPaidBy(d, d.invoices[i], t);
    }
  }

  ghost predicate Healthy(d: Desk) {
    Money(d) && Slots(d) && CT.Inv(d)
  }

  /** The wallet after the credit of an open invoice, if one is made. */
  ghost predicate CreditedBook(before: W.Book, after: W.Book, inv: Invoice, i: nat) {
    if inv.user.Some? && inv.user.value != "" && inv.vnd.Some?
    then inv.user.value in before.balances
         && var balance := before.balances[inv.user.value] + inv.vnd.value;
            after == W.Book(before.balances[inv.user.value := balance],
                            before.ledger + [W.Entry(inv.user.value, W.Topup, inv.vnd.value, balance, W.CryptoKey(i))])
    else after == before
  }

  lemma CreditIsMade(d: Desk, i: nat)
    requires CT.Inv(d) && i < |d.invoices| && Open(d.invoices[i])
    ensures var r := CreditInvoice(d.book, d.invoices[i], i);
            && (r.Some? <==> Creditworthy(d.book, d.invoices[i]))
            && (r.Some? ==> CreditedBook(d.book, r.value, d.invoices[i], i))
  {
    if Creditable(d.invoices[i]) {
      CT.CreditOutcome(d, i);
    }
  }

  lemma FundCompletes(d: Desk, t: nat, i: nat)
    requires Healthy(d) && t < |d.transfers| && d.transfers[t].status != TMatched
    requires FindInvoice(d, d.transfers[t], |d.invoices|) == Some(i) && Creditworthy(d.book, d.invoices[i])
    ensures MatchTransfer(d, t).Some? && Completion(d, MatchTransfer(d, t).value, i, t)
  {
    MatchKeepsMoney(d, t);
    OpenIsCounted(d, i);
    CreditIsMade(d, i);
    assert InvoiceOk(d.invoices[i]);
  }

  /** In every healthy state, an unmatched transfer completes the oldest invoice it pays; if it pays
      none, or the wallet refuses, nothing changes, and it is the refusal that is reported. */
  lemma MatchOutcome(d: Desk, t: nat)
    requires Healthy(d) && t < |d.transfers| && d.transfers[t].status != TMatched
    ensures var r := MatchTransfer(d, t);
      && ((forall i :: 0 <= i < |d.invoices| ==> !PaidBy(d, d.invoices[i], d.transfers[t])) ==> r == Some(d))
      && ((exists i :: 0 <= i < |d.invoices| && PaidBy(d, d.invoices[i], d.transfers[t])) ==>
            exists i: nat :: OldestPaid(d, i, d.transfers[t])
              && (Creditworthy(d.book, d.invoices[i]) ==> r.Some? && Completion(d, r.value, i, t))
              && (!Creditworthy(d.book, d.invoices[i]) ==> r == None))
  {
    FoundIsOldest(d, d.transfers[t]);
    var found := FindInvoice(d, d.transfers[t], |d.invoices|);
    if found.Some? {
      var i := found.value;
      assert OldestPaid(d, i, d.transfers[t]);
      if Creditworthy(d.book, d.invoices[i]) {
        FundCompletes(d, t, i);
      } else {
        MatchKeepsMoney(d, t);
        CT.CreditOutcome(d, i);
      }
    }
  }

  /** A log already stored changes nothing. A new one is stored and, where its invoice can be credited,
      completes the oldest invoice it pays; a log that pays an invoice whose user cannot be credited is
      not stored. */
  lemma WatchOutcome(d: Desk, t: Transfer)
    requires Healthy(d)
    ensures var stored, after := d.(transfers := d.transfers + [t.(status := Confirmed)]), Watch(d, t);
      if exists k :: 0 <= k < |d.transfers| && d.transfers[k].network == t.network && d.transfers[k].hash == t.hash
                     && d.transfers[k].logIndex == t.logIndex
      then after == d
      else if forall i :: 0 <= i < |d.invoices| ==> !PaidBy(d, d.invoices[i], t)
      then after == stored
      else exists i: nat :: OldestPaid(d, i, t)
             && if Creditworthy(d.book, d.invoices[i]) then Completion(stored, after, i, |d.transfers|) else after == d
  {
    var stored := d.(transfers := d.transfers + [t.(status := Confirmed)]);
    AddTransferHealthy(d, t);
    MatchOutcome(stored, |d.transfers|);
    forall i | 0 <= i < |d.invoices|
      ensures PaidBy(stored, d.invoices[i], stored.transfers[|d.transfers|]) <==> PaidBy(d, d.invoices[i], t)
    {
    }
    forall i: nat ensures OldestPaid(stored, i, stored.transfers[|d.transfers|]) <==> OldestPaid(d, i, t) {
    }
  }

  lemma AddTransferHealthy(d: Desk, t: Transfer)
    requires Healthy(d)
    ensures Healthy(d.(transfers := d.transfers + [t.(status := Confirmed)]))
  {
    var stored := d.(transfers := d.transfers + [t.(status := Confirmed)]);
    SlotsFrame(d, stored);
    CT.QuietKeeps(d, stored);
    SumAppend(d.transfers, t.(status := Confirmed), Spent());
    forall k | 0 <= k < |d.matches| ensures MatchOk(stored, d.matches[k]) {
      assert MatchOk(d, d.matches[k]);
    }
  }

  /** The three invariants hold over every run in which other wallet callers leave the keys alone. */
  lemma EveryRunIsHealthy(d: Desk, es: seq<Event>)
    requires Money(d) && Slots(d) && CT.Init(d) && forall e :: e in es ==> CT.Clean(e)
    ensures Healthy(Run(d, es))
  {
    RunKeepsMoney(d, es);
    RunKeepsSlots(d, es);
    CT.RunKeeps(d, es);
  }

  // ----- an invoice is reconciled

  /** The transfer is one of those `reconcile_invoice` goes through. */
  ghost predicate Concerns(i: Invoice, t: Transfer) {
    t.network == i.network && t.token == i.token && t.to == i.address && t.amount == i.pay && t.status != TMatched
  }

  lemma MatchIsOnward(d: Desk, t: nat)
    requires Healthy(d) && t < |d.transfers| && d.transfers[t].status != TMatched && MatchTransfer(d, t).Some?
    ensures var after := MatchTransfer(d, t).value;
      && Onward(d, after) && Exhausted(after, t)
      && forall k :: 0 <= k < |d.transfers| && k != t ==> after.transfers[k] == d.transfers[k]
  {
    MatchOutcome(d, t);
    var after := MatchTransfer(d, t).value;
    assert after == d ==> Exhausted(after, t);
  }

  lemma MatchStaysHealthy(d: Desk, t: nat)
    requires Healthy(d) && t < |d.transfers| && d.transfers[t].status != TMatched && MatchTransfer(d, t).Some?
    ensures Healthy(MatchTransfer(d, t).value)
  {
    MatchKeepsMoney(d, t);
    MatchKeepsSlots(d, t);
    CT.MatchKeeps(d, t);
  }

  /** Invoices only close, and what is matched stays matched. */
  ghost predicate Onward(d: Desk, after: Desk) {
    && after.clock == d.clock && |after.transfers| == |d.transfers| && |after.invoices| == |d.invoices|
    && (forall k :: 0 <= k < |d.transfers| && d.transfers[k].status == TMatched ==> after.transfers[k] == d.transfers[k])
    && (forall i :: 0 <= i < |d.invoices| ==>
          after.invoices[i] == d.invoices[i] || after.invoices[i].status == Completed)
  }

  ghost predicate Exhausted(d: Desk, t: nat) {
    t < |d.transfers| && (d.transfers[t].status == TMatched
                          || forall i :: 0 <= i < |d.invoices| ==> !PaidBy(d, d.invoices[i], d.transfers[t]))
  }

  lemma ExhaustedStays(d: Desk, after: Desk, t: nat)
    requires Onward(d, after) && Exhausted(d, t) && after.transfers[t] == d.transfers[t]
    ensures Exhausted(after, t)
  {
    forall i | 0 <= i < |after.invoices| && PaidBy(after, after.invoices[i], after.transfers[t])
      ensures PaidBy(d, d.invoices[i], d.transfers[t])
    {
    }
  }

  lemma {:induction false} MatchAllExhausts(d: Desk, ts: seq<nat>)
    requires Healthy(d) && Ascending(ts) && MatchAll(d, ts).Some?
    requires forall t :: t in ts ==> t < |d.transfers| && d.transfers[t].status != TMatched
    ensures var after := MatchAll(d, ts).value;
      && Healthy(after) && |after.transfers| == |d.transfers|
      && (forall k: nat :: k < |d.transfers| && k !in ts ==> after.transfers[k] == d.transfers[k])
      && (forall t :: t in ts ==> Exhausted(after, t))
  {
    if ts == [] {
    } else {
      var n := |ts| - 1;
      var t := ts[n];
      assert forall k :: k in ts[..n] ==> k in ts;
      MatchAllExhausts(d, ts[..n]);
      var mid := MatchAll(d, ts[..n]).value;
      assert t in ts && t !in ts[..n];
      MatchIsOnward(mid, t);
      MatchStaysHealthy(mid, t);
      var after := MatchTransfer(mid, t).value;
      forall k | k in ts ensures Exhausted(after, k) {
        if k != t {
          assert k in ts[..n];
          ExhaustedStays(mid, after, k);
        }
      }
    }
  }

  /** Reconciling an invoice touches no transfer but the unmatched ones of its address, token, network
      and amount; unless the wallet refused a credit, each of those is matched afterwards or pays no
      open invoice. */
  lemma ReconcileOutcome(d: Desk, i: nat)
    requires Healthy(d) && i < |d.invoices|
    ensures var after := ReconcileInvoice(d, i);
      && |after.transfers| == |d.transfers|
      && (forall k :: 0 <= k < |d.transfers| && !Concerns(d.invoices[i], d.transfers[k]) ==>
            after.transfers[k] == d.transfers[k])
      && (MatchAll(d, Selection(d, d.invoices[i], |d.transfers|)).Some? ==>
            forall k: nat :: k < |d.transfers| && Concerns(d.invoices[i], d.transfers[k]) ==> Exhausted(after, k))
  {
    var ts := Selection(d, d.invoices[i], |d.transfers|);
    assert forall k: nat :: k < |d.transfers| ==> (k in ts <==> Concerns(d.invoices[i], d.transfers[k]));
    if MatchAll(d, ts).Some? {
      MatchAllExhausts(d, ts);
    }
  }

  // ----- an invoice is created, canceled, expires

  /** With a dust step the amount to pay is a multiple of it, above the requested amount by more than
      `draw` and at most `draw + 1` steps; without one it is the requested amount. */
  lemma SuffixOutcome(amount: int, unit: nat, draw: nat)
    ensures var pay := SuffixAmount(amount, unit, draw);
      && (unit == 0 ==> pay == amount)
      && (unit > 0 ==> pay % unit == 0 && draw * unit < pay - amount <= (draw + 1) * unit && amount < pay)
  {
    if unit > 0 {
      var q := amount / unit;
      assert amount == unit * q + amount % unit;
      assert (draw + 1) * unit == draw * unit + unit;
      assert SuffixAmount(amount, unit, draw) == unit * (q + (draw + 1));
      MultipleOf(unit, q + (draw + 1));
    }
  }

  lemma MultipleOf(unit: int, k: int)
    requires unit > 0
    ensures unit * k % unit == 0
  {
    var r := unit * k % unit;
    var q := unit * k / unit;
    assert unit * k == unit * q + r;
    assert unit * (k - q) == r;
    assert k - q >= 1 ==> unit * (k - q) >= unit;
    assert k - q <= -1 ==> unit * (k - q) <= -unit;
  }

  /** The wallet is of another network, disabled or full. */
  ghost predicate Unavailable(r: Receiver, network: string) {
    r.network != network || !r.enabled || r.maxActive <= r.active
  }

  /** A request is answered by one new waiting invoice exactly when it was not made before, its amount
      is within the token's limits and there is a wallet for it; the invoice lives for the requested
      time at that wallet's address. */
  lemma CreateOutcome(d: Desk, o: Order, draw: nat)
    ensures var after := Create(d, o, draw);
      && (after != d ==>
            && (forall k :: 0 <= k < |d.invoices| ==>
                  !(d.invoices[k].merchant == o.merchant && d.invoices[k].requestId == o.requestId))
            && o.token.min <= o.amount && o.amount <= o.token.max
            && |after.invoices| == |d.invoices| + 1 && after.invoices[..|d.invoices|] == d.invoices
            && var inv := after.invoices[|d.invoices|];
               && inv.merchant == o.merchant && inv.requestId == o.requestId
               && inv.network == o.token.network && inv.token == o.token.symbol
               && inv.status == Waiting && inv.received == 0 && inv.requested == o.amount
               && inv.user == o.user && inv.vnd == o.vnd
               && inv.createdAt == d.clock && inv.expiresAt == d.clock + o.lifetime
               && inv.wallet < |after.receivers| && after.receivers[inv.wallet].address == inv.address
               && after.receivers[inv.wallet].network == inv.network && after.receivers[inv.wallet].enabled
               && (o.address.Some? ==> inv.address == o.address.value && inv.pay == o.amount)
               && (o.address.None? && o.token.unit > 0 ==> o.amount < inv.pay <= o.amount + (draw + 1) * o.token.unit))
      && (after == d ==>
            || (exists k :: 0 <= k < |d.invoices| && d.invoices[k].merchant == o.merchant && d.invoices[k].requestId == o.requestId)
            || !(o.token.min <= o.amount <= o.token.max)
            || (match o.address
                case None => forall w :: 0 <= w < |d.receivers| ==> Unavailable(d.receivers[w], o.token.network)
                case Some(a) => exists w :: 0 <= w < |d.receivers| && d.receivers[w].network == o.token.network
                                              && d.receivers[w].address == a && !d.receivers[w].enabled))
  {
    SuffixOutcome(o.amount, o.token.unit, draw);
    var after := Create(d, o, draw);
    if after == d {
      assert |after.invoices| == |d.invoices|;
    }
  }

  /** Canceling and expiring close open invoices, an expired one only once its time is over. */
  lemma CloseOutcome(d: Desk, i: nat)
    requires Slots(d)
    ensures var open := i < |d.invoices| && (d.invoices[i].status == Waiting || d.invoices[i].status == Partial);
      && (open ==> Closed(d, Cancel(d, i), i, Canceled))
      && (!open ==> Cancel(d, i) == d)
      && (open && d.invoices[i].expiresAt < d.clock ==> Closed(d, ExpireOne(d, i), i, Expired))
      && (!(open && d.invoices[i].expiresAt < d.clock) ==> ExpireOne(d, i) == d)
  {
    if i < |d.invoices| && Open(d.invoices[i]) {
      OpenIsCounted(d, i);
    }
  }

  ghost predicate Closed(d: Desk, after: Desk, i: nat, status: InvoiceStatus)
    requires i < |d.invoices|
  {
    var w := d.invoices[i].wallet;
    && w < |d.receivers|
    && after == d.(invoices := d.invoices[i := d.invoices[i].(status := status)],
                   receivers := d.receivers[w := d.receivers[w].(active := d.receivers[w].active - 1)])
  }
}
