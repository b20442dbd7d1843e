/** Reconciling by transaction hash, which does not look at a transfer's status. */
module CryptoHashes {
  import opened Common
  import W = Wallet
  import opened Crypto
  import opened CryptoAccounts

  /** All transfers of a transaction, matched or not. */
  function ByHash(d: Desk, hash: string, n: nat): (ts: seq<nat>)
    requires n <= |d.transfers|
    ensures forall t: nat :: t in ts <==> t < n && d.transfers[t].hash == hash
    ensures Ascending(ts)
  {
    if n == 0 then []
    else
      var before := ByHash(d, hash, n - 1);
      assert forall j :: 0 <= j < |before| ==> before[j] in before;
      before + (if d.transfers[n - 1].hash == hash then [n - 1] else [])
  }

  function ReconcileHash(d: Desk, hash: string): Desk {
    OrElse(d, MatchAll(d, ByHash(d, hash, |d.transfers|)))
  }

  /** The status filter of reconcile_invoice is what protects transfers; reconcile_tx_hash has none.
      Matching a transfer keeps every transfer on a single invoice exactly when it was unmatched or
      fits nothing. */
  lemma OneInvoiceIffUnmatchedOrUnfit(d: Desk, t: nat)
    requires Money(d) && Traced(d) && t < |d.transfers| && MatchTransfer(d, t).Some?
    ensures OneToOne(MatchTransfer(d, t).value.matches)
       <==> (d.transfers[t].status != TMatched || FindInvoice(d, d.transfers[t], |d.invoices|).None?)
  {
    var found := FindInvoice(d, d.transfers[t], |d.invoices|);
    if d.transfers[t].status != TMatched {
      MatchKeepsMoney(d, t);
    } else if found.Some? {
      var i := found.value;
      forall k | 0 <= k < |d.matches| ensures d.matches[k].invoice != i {
        assert MatchOk(d, d.matches[k]);
      }
      var after := MatchTransfer(d, t).value;
      var k :| 0 <= k < |d.matches| && d.matches[k].transfer == t;
      assert after.matches[k].transfer == after.matches[|d.matches|].transfer;
    }
  }

  /** At its turn in the loop, the `k`-th transfer is unmatched or fits no invoice. */
  ghost predicate FreshAt(d: Desk, ts: seq<nat>, k: nat)
    requires k < |ts|
  {
    var mid := MatchAll(d, ts[..k]);
    mid.Some? && ts[k] < |mid.value.transfers|
    && (mid.value.transfers[ts[k]].status != TMatched
        || FindInvoice(mid.value, mid.value.transfers[ts[k]], |mid.value.invoices|).None?)
  }

  ghost predicate AllFresh(d: Desk, ts: seq<nat>) {
    forall k :: 0 <= k < |ts| ==> FreshAt(d, ts, k)
  }

  lemma AllFreshSnoc(d: Desk, ts: seq<nat>)
    requires ts != []
    ensures var n := |ts| - 1; AllFresh(d, ts) <==> AllFresh(d, ts[..n]) && FreshAt(d, ts, n)
  {
    var n := |ts| - 1;
    forall k | 0 <= k < n ensures FreshAt(d, ts, k) <==> FreshAt(d, ts[..n], k) {
      assert ts[..n][..k] == ts[..k];
    }
  }

  lemma MatchingAppends(d: Desk, t: nat)
    ensures MatchTransfer(d, t).Some? ==>
      d.matches <= MatchTransfer(d, t).value.matches && |MatchTransfer(d, t).value.transfers| == |d.transfers|
  {
  }

  /** Reconciling a list of transfers keeps one invoice per transfer exactly when each of them is
      unmatched, or fits no invoice, at its turn. */
  lemma {:induction false} LoopKeepsOneInvoiceIffAllFresh(d: Desk, ts: seq<nat>)
    requires Money(d) && Traced(d) && MatchAll(d, ts).Some? && forall t :: t in ts ==> t < |d.transfers|
    ensures |MatchAll(d, ts).value.transfers| == |d.transfers|
    ensures OneToOne(MatchAll(d, ts).value.matches) <==> AllFresh(d, ts)
    ensures AllFresh(d, ts) ==> Money(MatchAll(d, ts).value)
  {
    if ts == [] {
    } else {
      var n := |ts| - 1;
      assert forall t :: t in ts[..n] ==> t in ts;
      LoopKeepsOneInvoiceIffAllFresh(d, ts[..n]);
      AllFreshSnoc(d, ts);
      var mid := MatchAll(d, ts[..n]).value;
      MatchingAppends(mid, ts[n]);
      if AllFresh(d, ts[..n]) {
        assert ts[n] in ts;
        MatchAllTraces(d, ts[..n]);
        OneInvoiceIffUnmatchedOrUnfit(mid, ts[n]);
        if FreshAt(d, ts, n) && mid.transfers[ts[n]].status != TMatched {
          MatchKeepsMoney(mid, ts[n]);
        }
      }
    }
  }

  /** The same for `reconcile_tx_hash`. */
  lemma HashKeepsOneInvoiceIffAllFresh(d: Desk, hash: string)
    requires Money(d) && Traced(d)
    ensures var ts := ByHash(d, hash, |d.transfers|);
            MatchAll(d, ts).Some? ==> (OneToOne(ReconcileHash(d, hash).matches) <==> AllFresh(d, ts))
  {
    var ts := ByHash(d, hash, |d.transfers|);
    if MatchAll(d, ts).Some? {
      LoopKeepsOneInvoiceIffAllFresh(d, ts);
    }
  }

  // ----- a run that gives one transfer two invoices

  function Empty(): Desk {
    Desk(0, [], [], [], [], W.Book(map[], []))
  }

  /** Two orders of one merchant address and amount, without a wallet to credit. */
  ghost predicate Twins(a: Order, b: Order) {
    && a.token == b.token && a.amount == b.amount && a.address == b.address && a.address.Some?
    && a.token.min <= a.amount <= a.token.max && a.lifetime >= 0 && b.lifetime >= 0
    && !(a.merchant == b.merchant && a.requestId == b.requestId)
    && a.user.None? && b.user.None?
  }

  function InvoiceFor(o: Order): Invoice
    requires o.address.Some?
  {
    Invoice(o.merchant, o.requestId, o.name, o.token.network, o.token.symbol, 0, o.address.value,
            o.amount, o.amount, 0, o.user, o.vnd, Waiting, 0, o.lifetime)
  }

  function TransferFor(o: Order, hash: string): Transfer
    requires o.address.Some?
  {
    Transfer(o.token.network, o.token.symbol, hash, 0, o.address.value, o.amount, None, Confirmed)
  }

  function OwnReceiver(o: Order, active: int): Receiver
    requires o.address.Some?
  {
    Receiver(o.token.network, o.address.value, true, 100, active, 0)
  }

  lemma TwoCreates(a: Order, b: Order)
    requires Twins(a, b)
    ensures Create(Create(Empty(), a, 0), b, 0)
         == Empty().(receivers := [OwnReceiver(a, 2)], invoices := [InvoiceFor(a), InvoiceFor(b)])
  {
    var one := Create(Empty(), a, 0);
    assert one == Empty().(receivers := [OwnReceiver(a, 1)], invoices := [InvoiceFor(a)]);
    assert AtAddress(one.receivers[0], b.token.network, b.address.value);
  }

  /** Both invoices are open, the transfer pays the first. */
  function Paid(a: Order, b: Order, hash: string): Desk
    requires a.address.Some? && b.address.Some?
  {
    Desk(0, [OwnReceiver(a, 1)], [InvoiceFor(a).(received := a.amount, status := Completed), InvoiceFor(b)],
         [TransferFor(a, hash).(status := TMatched)], [Match(0, 0, a.amount)], W.Book(map[], []))
  }

  lemma WatchPaysTheFirst(a: Order, b: Order, hash: string)
    requires Twins(a, b)
    ensures var d := Empty().(receivers := [OwnReceiver(a, 2)], invoices := [InvoiceFor(a), InvoiceFor(b)]);
            Watch(d, TransferFor(a, hash)) == Paid(a, b, hash)
  {
    var d := Empty().(receivers := [OwnReceiver(a, 2)], invoices := [InvoiceFor(a), InvoiceFor(b)]);
    var stored := d.(transfers := [TransferFor(a, hash)]);
    assert FindInvoice(stored, TransferFor(a, hash), 1) == Some(0);
    assert FindInvoice(stored, TransferFor(a, hash), 2) == Some(0);
    assert CreditInvoice(d.book, d.invoices[0], 0) == Some(d.book);
  }

  lemma RunThree(d: Desk, x: Event, y: Event, z: Event)
    ensures Run(d, [x, y, z]) == Step(Step(Step(d, x), y), z)
  {
    assert [x, y, z][..2] == [x, y] && [x, y][..1] == [x] && [x][..0] == [];
    assert Run(d, [x]) == Step(d, x);
    assert Run(d, [x, y]) == Step(Step(d, x), y);
  }

  /** From an empty desk: two invoices at one address, one transfer. */
  lemma PaidIsReachable(a: Order, b: Order, hash: string) returns (es: seq<Event>)
    requires Twins(a, b)
    ensures Run(Empty(), es) == Paid(a, b, hash) && Money(Paid(a, b, hash)) && Traced(Paid(a, b, hash))
  {
    es := [ECreate(a, 0), ECreate(b, 0), EWatch(TransferFor(a, hash))];
    RunThree(Empty(), ECreate(a, 0), ECreate(b, 0), EWatch(TransferFor(a, hash)));
    TwoCreates(a, b);
    WatchPaysTheFirst(a, b, hash);
    RunKeepsMoney(Empty(), es);
    RunTraces(Empty(), es);
  }

  /** Then its hash is reconciled, and the transfer ends up funding both. */
  lemma HashCanPayTwice(a: Order, b: Order, hash: string) returns (es: seq<Event>)
    requires Twins(a, b)
    ensures !OneToOne(ReconcileHash(Run(Empty(), es), hash).matches)
  {
    es := PaidIsReachable(a, b, hash);
    var d := Paid(a, b, hash);
    HashLists(d, hash);
    StillFits(a, b, hash);
    LoopKeepsOneInvoiceIffAllFresh(d, [0]);
  }

  lemma HashLists(d: Desk, hash: string)
    requires |d.transfers| == 1 && d.transfers[0].hash == hash
    ensures ByHash(d, hash, |d.transfers|) == [0]
  {
    assert ByHash(d, hash, 0) == [];
  }

  lemma SecondFits(a: Order, b: Order, hash: string)
    requires Twins(a, b)
    ensures var d := Paid(a, b, hash); FindInvoice(d, d.transfers[0], 2) == Some(1)
  {
    var d := Paid(a, b, hash);
    assert !Fits(d, d.invoices[0], d.transfers[0]) && Fits(d, d.invoices[1], d.transfers[0]);
    assert FindInvoice(d, d.transfers[0], 1).None?;
  }

  lemma StillFits(a: Order, b: Order, hash: string)
    requires Twins(a, b)
    ensures MatchAll(Paid(a, b, hash), [0]).Some? && !AllFresh(Paid(a, b, hash), [0])
  {
    var d := Paid(a, b, hash);
    SecondFits(a, b, hash);
    assert CreditInvoice(d.book, d.invoices[1], 1) == Some(d.book);
    assert [0][..0] == [];
    assert MatchAll(d, []) == Some(d);
    assert !FreshAt(d, [0], 0);
  }
}
