/**
 Crypto invoices, the receiving wallets whose slots they occupy, and on-chain transfers.

 Amounts are integers in the smallest unit the database keeps. Rows are numbered by table order.
 A function returns the tables unchanged where the source raises, because the surrounding
 transaction is then rolled back.
 */
module Crypto {
  import opened Common
  import W = Wallet

  datatype InvoiceStatus = Waiting | Partial | Completed | Expired | Canceled

  datatype TransferStatus = Seen | Confirmed | TMatched

  datatype Receiver = Receiver(
    network: string, address: string, enabled: bool, maxActive: int, active: int, createdAt: int)

  datatype Invoice = Invoice(
    merchant: string, requestId: string, name: string,
    network: string, token: string, wallet: nat, address: string,
    requested: int, pay: int, received: int,
    user: Option<string>, vnd: Option<int>,
    status: InvoiceStatus, createdAt: int, expiresAt: int)

  datatype Transfer = Transfer(
    network: string, token: string, hash: string, logIndex: int, to: string, amount: int,
    blockTime: Option<int>, status: TransferStatus)

  datatype Match = Match(invoice: nat, transfer: nat, amount: int)

  datatype Desk = Desk(
    clock: int,
    receivers: seq<Receiver>,
    invoices: seq<Invoice>,
    transfers: seq<Transfer>,
    matches: seq<Match>,
    book: W.Book)

  /** `unit` is the dust step of the token, 0 when it has none. */
  datatype Token = Token(network: string, symbol: string, min: int, max: int, unit: nat)

  datatype Order = Order(
    merchant: string, requestId: string, name: string, token: Token, amount: int,
    address: Option<string>, lifetime: int, user: Option<string>, vnd: Option<int>)

  predicate Open(i: Invoice) {
    i.status == Waiting || i.status == Partial
  }

  // ----- create

  predicate SameRequest(i: Invoice, o: Order) {
    i.merchant == o.merchant && i.requestId == o.requestId
  }

  predicate Eligible(r: Receiver, network: string) {
    r.network == network && r.enabled && r.active < r.maxActive
  }

  predicate Before(r: Receiver, s: Receiver) {
    r.active < s.active || (r.active == s.active && r.createdAt < s.createdAt)
  }

  /** The least busy eligible receiver, the oldest among equals. */
  function BestReceiver(rs: seq<Receiver>, network: string): (best: Option<nat>)
    ensures best.Some? ==> best.value < |rs| && Eligible(rs[best.value], network)
    ensures best.Some? ==> forall k :: 0 <= k < |rs| && Eligible(rs[k], network) ==> !Before(rs[k], rs[best.value])
    ensures best.None? ==> forall k :: 0 <= k < |rs| ==> !Eligible(rs[k], network)
  {
    if rs == [] then None
    else
      var n := |rs| - 1;
      var best := BestReceiver(rs[..n], network);
      if Eligible(rs[n], network) && (best.None? || Before(rs[n], rs[best.value])) then Some(n) else best
  }

  predicate AtAddress(r: Receiver, network: string, address: string) {
    r.network == network && r.address == address
  }

  /** Receiver tables after choosing one, and the choice. */
  function ChooseReceiver(d: Desk, network: string, address: Option<string>): (choice: Option<(seq<Receiver>, nat)>)
    ensures choice.Some? ==> choice.value.1 < |choice.value.0|
  {
    match address
    case None =>
      (match BestReceiver(d.receivers, network)
       case None => None
       case Some(w) => Some((d.receivers, w)))
    case Some(a) =>
      if exists w: nat | w < |d.receivers| :: AtAddress(d.receivers[w], network, a) then
        var w: nat := FirstAt(d.receivers, network, a);
        if d.receivers[w].enabled then Some((d.receivers, w)) else None
      else Some((d.receivers + [Receiver(network, a, true, 100, 0, d.clock)], |d.receivers|))
  }

  function FirstAt(rs: seq<Receiver>, network: string, address: string): (w: nat)
    requires exists w: nat :: w < |rs| && AtAddress(rs[w], network, address)
    ensures w < |rs| && AtAddress(rs[w], network, address)
    ensures forall k :: 0 <= k < w ==> !AtAddress(rs[k], network, address)
  {
    if AtAddress(rs[0], network, address) then 0
    else
      assert exists w: nat :: w < |rs[1..]| && AtAddress(rs[1..][w], network, address) by {
        var w: nat :| w < |rs| && AtAddress(rs[w], network, address);
        assert AtAddress(rs[1..][w - 1], network, address);
      }
      1 + FirstAt(rs[1..], network, address)
  }

  /** The amount to pay: truncated to the dust step plus a random number of steps. */
  function SuffixAmount(amount: int, unit: nat, draw: nat): int {
    if unit == 0 then amount else amount - amount % unit + (draw + 1) * unit
  }

  function Create(d: Desk, o: Order, draw: nat): Desk {
    if exists i | 0 <= i < |d.invoices| :: SameRequest(d.invoices[i], o) then d
    else if !(o.token.min <= o.amount <= o.token.max) then d
    else
      match ChooseReceiver(d, o.token.network, o.address)
      case None => d
      case Some((rs, w)) =>
        var pay := if o.address.None? then SuffixAmount(o.amount, o.token.unit, draw) else o.amount;
        var inv := Invoice(o.merchant, o.requestId, o.name, o.token.network, o.token.symbol, w, rs[w].address,
                           o.amount, pay, 0, o.user, o.vnd, Waiting, d.clock, d.clock + o.lifetime);
        d.(receivers := rs[w := rs[w].(active := rs[w].active + 1)], invoices := d.invoices + [inv])
  }

  // ----- cancel and expire

  function Release(rs: seq<Receiver>, w: nat): seq<Receiver> {
    if w < |rs| && rs[w].active > 0 then rs[w := rs[w].(active := rs[w].active - 1)] else rs
  }

  function Close(d: Desk, i: nat, status: InvoiceStatus): Desk
    requires i < |d.invoices|
  {
    d.(invoices := d.invoices[i := d.invoices[i].(status := status)],
       receivers := Release(d.receivers, d.invoices[i].wallet))
  }

  function Cancel(d: Desk, i: nat): Desk {
    if i < |d.invoices| && Open(d.invoices[i]) then Close(d, i, Canceled) else d
  }

  function ExpireOne(d: Desk, i: nat): Desk {
    if i < |d.invoices| && Open(d.invoices[i]) && d.invoices[i].expiresAt < d.clock then Close(d, i, Expired) else d
  }

  /** A batch of due invoices, one after the other. */
  function ExpireDue(d: Desk, ids: seq<nat>): Desk {
    if ids == [] then d else ExpireOne(ExpireDue(d, ids[..|ids| - 1]), ids[|ids| - 1])
  }

  // ----- match

  function TimeOf(d: Desk, t: Transfer): int {
    if t.blockTime.Some? then t.blockTime.value else d.clock
  }

  predicate Fits(d: Desk, i: Invoice, t: Transfer) {
    && i.network == t.network && i.token == t.token && i.address == t.to
    && Open(i)
    && i.createdAt <= TimeOf(d, t) <= i.expiresAt
    && i.pay == t.amount
  }

  /** The oldest of the first `n` invoices that fits. */
  function FindInvoice(d: Desk, t: Transfer, n: nat): (found: Option<nat>)
    requires n <= |d.invoices|
    ensures found.Some? ==> found.value < n && Fits(d, d.invoices[found.value], t)
    ensures found.Some? ==> forall k :: 0 <= k < n && Fits(d, d.invoices[k], t)
                                        ==> d.invoices[found.value].createdAt <= d.invoices[k].createdAt
    ensures found.None? ==> forall k :: 0 <= k < n ==> !Fits(d, d.invoices[k], t)
  {
    if n == 0 then None
    else
      var found := FindInvoice(d, t, n - 1);
      if Fits(d, d.invoices[n - 1], t)
         && (found.None? || d.invoices[n - 1].createdAt < d.invoices[found.value].createdAt)
      then Some(n - 1) else found
  }

  predicate AlreadyMatched(d: Desk, i: nat, t: nat) {
    exists k | 0 <= k < |d.matches| :: d.matches[k].invoice == i && d.matches[k].transfer == t
  }

  /** Completing this invoice credits a wallet. */
  predicate Creditable(i: Invoice) {
    i.user.Some? && i.user.value != "" && i.vnd.Some?
  }

  /** The wallet after the credit; `None` where the wallet raises. */
  function CreditInvoice(book: W.Book, inv: Invoice, i: nat): Option<W.Book> {
    if !Creditable(inv) then Some(book)
    else
      match W.Credit(inv.user.value, inv.vnd.value, W.CryptoKey(i))
      case Err(_) => None
      case Ok(req) =>
        var (after, entry) := W.Apply(book, req);
        if entry.Ok? then Some(after) else None
  }

  function Fund(d: Desk, i: nat, t: nat, book: W.Book): Desk
    requires i < |d.invoices| && t < |d.transfers|
  {
    var inv, tr := d.invoices[i], d.transfers[t];
    var received := inv.received + tr.amount;
    var funded := d.(matches := d.matches + [Match(i, t, tr.amount)],
                     transfers := d.transfers[t := tr.(status := TMatched)], book := book);
    if received >= inv.pay then
      funded.(invoices := d.invoices[i := inv.(received := received, status := Completed)],
              receivers := Release(d.receivers, inv.wallet))
    else funded.(invoices := d.invoices[i := inv.(received := received, status := Partial)])
  }

  /** `None` where the wallet refuses the credit: the surrounding transaction is lost. */
  function MatchTransfer(d: Desk, t: nat): Option<Desk> {
    if t >= |d.transfers| then Some(d)
    else
      match FindInvoice(d, d.transfers[t], |d.invoices|)
      case None => Some(d)
      case Some(i) =>
        if AlreadyMatched(d, i, t) then Some(d)
        else if d.invoices[i].received + d.transfers[t].amount < d.invoices[i].pay then Some(Fund(d, i, t, d.book))
        else
          match CreditInvoice(d.book, d.invoices[i], i)
          case None => None
          case Some(book) => Some(Fund(d, i, t, book))
  }

  /** Match a list of transfers in one transaction; `None` when one of them raised. */
  function MatchAll(d: Desk, ts: seq<nat>): Option<Desk> {
    if ts == [] then Some(d)
    else
      match MatchAll(d, ts[..|ts| - 1])
      case None => None
      case Some(mid) => MatchTransfer(mid, ts[|ts| - 1])
  }

  predicate Selected(d: Desk, i: Invoice, t: Transfer) {
    && t.network == i.network && t.token == i.token && t.to == i.address && t.amount == i.pay
    && t.status != TMatched
  }

  /** The transfers `reconcile_invoice` loads before its loop. */
  function Selection(d: Desk, i: Invoice, n: nat): (ts: seq<nat>)
    requires n <= |d.transfers|
    ensures forall t: nat :: t in ts <==> t < n && Selected(d, i, d.transfers[t])
    ensures Ascending(ts)
  {
    if n == 0 then []
    else
      var before := Selection(d, i, n - 1);
      assert forall j :: 0 <= j < |before| ==> before[j] in before;
      before + (if Selected(d, i, d.transfers[n - 1]) then [n - 1] else [])
  }

  ghost predicate Ascending(ts: seq<nat>) {
    forall j, k :: 0 <= j < k < |ts| ==> ts[j] < ts[k]
  }

  function OrElse(d: Desk, r: Option<Desk>): Desk {
    if r.Some? then r.value else d
  }

  function ReconcileInvoice(d: Desk, i: nat): Desk {
    if i >= |d.invoices| then d
    else OrElse(d, MatchAll(d, Selection(d, d.invoices[i], |d.transfers|)))
  }

  /** A watcher sees a transfer log: stored once, then matched. */
  function Watch(d: Desk, t: Transfer): Desk {
    if exists k | 0 <= k < |d.transfers| ::
         d.transfers[k].network == t.network && d.transfers[k].hash == t.hash && d.transfers[k].logIndex == t.logIndex
    then d
    else OrElse(d, MatchTransfer(d.(transfers := d.transfers + [t.(status := Confirmed)]), |d.transfers|))
  }

  datatype Event =
    | ECreate(order: Order, draw: nat)
    | ECancel(id: nat)
    | EExpire(ids: seq<nat>)
    | EWatch(transfer: Transfer)
    | EReconcile(id: nat)
    | EWallet(req: W.Request)  // any other use of the wallet
    | ETick(dt: nat)

  function Step(d: Desk, e: Event): Desk {
    match e
    case ECreate(order, draw) => Create(d, order, draw)
    case ECancel(id) => Cancel(d, id)
    case EExpire(ids) => ExpireDue(d, ids)
    case EWatch(transfer) => Watch(d, transfer)
    case EReconcile(id) => ReconcileInvoice(d, id)
    case EWallet(req) => if W.SignOk(req.kind, req.amount) then d.(book := W.Apply(d.book, req).0) else d
    case ETick(dt) => d.(clock := d.clock + dt)
  }

  function Run(d: Desk, es: seq<Event>): Desk {
    if es == [] then d else Step(Run(d, es[..|es| - 1]), es[|es| - 1])
  }
}
