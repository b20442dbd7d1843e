/** The crypto tables as the services change them, one transaction per method. */
module CryptoDesk {
  import opened Common
  import W = Wallet
  import opened Crypto

  datatype Answer = Created(invoice: nat) | Existing(invoice: nat) | PayloadConflict | Refused

  predicate SamePayload(i: Invoice, o: Order) {
    i.requested == o.amount && i.name == o.name && i.network == o.token.network && i.token == o.token.symbol
  }

  /** How many of the listed transfers found an invoice at their turn. */
  function MatchCount(d: Desk, ts: seq<nat>): nat {
    if ts == [] then 0
    else
      var n := |ts| - 1;
      var mid := MatchAll(d, ts[..n]);
      MatchCount(d, ts[..n])
      + if mid.Some? && ts[n] < |mid.value.transfers| && Finds(mid.value, ts[n]) then 1 else 0
  }

  predicate Finds(d: Desk, t: nat)
    requires t < |d.transfers|
  {
    FindInvoice(d, d.transfers[t], |d.invoices|).Some?
  }

  class Store {
    var clock: int
    var receivers: seq<Receiver>
    var invoices: seq<Invoice>
    var transfers: seq<Transfer>
    var matches: seq<Match>
    var book: W.Book

    constructor (receivers: seq<Receiver>, book: W.Book)
      ensures State() == Desk(0, receivers, [], [], [], book)
    {
      this.clock, this.receivers, this.invoices, this.transfers := 0, receivers, [], [];
      this.matches, this.book := [], book;
    }

    function State(): Desk
      reads this
    {
      Desk(clock, receivers, invoices, transfers, matches, book)
    }

    /** The least busy enabled wallet of the network with a free slot. */
    method ChooseWallet(network: string) returns (best: Option<nat>)
      ensures best == BestReceiver(receivers, network)
    {
      best := None;
      for n := 0 to |receivers|
        invariant best == BestReceiver(receivers[..n], network)
      {
        assert receivers[..n + 1][..n] == receivers[..n];
        var r := receivers[n];
        if r.network == network && r.enabled && r.active < r.maxActive
           && (best.None? || Before(r, receivers[best.value])) {
          best := Some(n);
        }
      }
      assert receivers[..|receivers|] == receivers;
    }

    /** The wallet registered under an address, if there is one. */
    method WalletAt(network: string, address: string) returns (found: Option<nat>)
      ensures match found
              case None => !exists w: nat :: w < |receivers| && AtAddress(receivers[w], network, address)
              case Some(w) => w < |receivers| && AtAddress(receivers[w], network, address)
                              && forall k :: 0 <= k < w ==> !AtAddress(receivers[k], network, address)
    {
      for n := 0 to |receivers|
        invariant forall k :: 0 <= k < n ==> !AtAddress(receivers[k], network, address)
      {
        if AtAddress(receivers[n], network, address) {
          return Some(n);
        }
      }
      return None;
    }

    /** The wallet to use, registering a merchant's own address when it is new. */
    method PickWallet(network: string, address: Option<string>) returns (choice: Option<nat>)
      modifies this`receivers
      ensures match ChooseReceiver(old(State()), network, address)
              case None => choice.None? && receivers == old(receivers)
              case Some((rs, w)) => choice == Some(w) && receivers == rs
    {
      if address.None? {
        choice := ChooseWallet(network);
        return;
      }
      choice := WalletAt(network, address.value);
      if choice.None? {
        receivers := receivers + [Receiver(network, address.value, true, 100, 0, clock)];
        return Some(|receivers| - 1);
      }
      if !receivers[choice.value].enabled {
        return None;
      }
    }

    /** The invoice of a request that was made before. */
    method ExistingInvoice(o: Order) returns (found: Option<nat>)
      ensures match found
              case None => forall k :: 0 <= k < |invoices| ==> !SameRequest(invoices[k], o)
              case Some(i) => i < |invoices| && SameRequest(invoices[i], o)
                              && forall k :: 0 <= k < i ==> !SameRequest(invoices[k], o)
    {
      for n := 0 to |invoices|
        invariant forall k :: 0 <= k < n ==> !SameRequest(invoices[k], o)
      {
        if SameRequest(invoices[n], o) {
          return Some(n);
        }
      }
      return None;
    }

    /** A repeated request is answered with its invoice if the payload is the same, and refused
        otherwise; a new one is created, or refused for its amount or for want of a wallet. */
    method CreateInvoice(o: Order, draw: nat) returns (r: Answer)
      modifies this`receivers, this`invoices
      ensures State() == Create(old(State()), o, draw)
      ensures r.Created? <==> |invoices| == |old(invoices)| + 1
      ensures r.Created? ==> r.invoice == |old(invoices)|
      ensures r.Existing? || r.PayloadConflict? <==> exists k :: 0 <= k < |old(invoices)| && SameRequest(old(invoices)[k], o)
      ensures r.Existing? ==> r.invoice < |old(invoices)| && SameRequest(old(invoices)[r.invoice], o)
                              && SamePayload(old(invoices)[r.invoice], o)
      ensures r.PayloadConflict? ==> exists k :: 0 <= k < |old(invoices)| && SameRequest(old(invoices)[k], o)
                                                && !SamePayload(old(invoices)[k], o)
    {
      var known := ExistingInvoice(o);
      if known.Some? {
        var i := invoices[known.value];
        return if i.requested == o.amount && i.name == o.name && i.network == o.token.network && i.token == o.token.symbol
               then Existing(known.value) else PayloadConflict;
      }
      if !(o.token.min <= o.amount <= o.token.max) {
        return Refused;
      }
      var choice := PickWallet(o.token.network, o.address);
      if choice.None? {
        return Refused;
      }
      var w := choice.value;
      var pay := if o.address.None? then SuffixAmount(o.amount, o.token.unit, draw) else o.amount;
      invoices := invoices + [Invoice(o.merchant, o.requestId, o.name, o.token.network, o.token.symbol, w,
                                      receivers[w].address, o.amount, pay, 0, o.user, o.vnd, Waiting,
                                      clock, clock + o.lifetime)];
      receivers := receivers[w := receivers[w].(active := receivers[w].active + 1)];
      return Created(|invoices| - 1);
    }

    method ReleaseWalletSlot(w: nat)
      modifies this`receivers
      ensures receivers == Release(old(receivers), w)
    {
      if w < |receivers| && receivers[w].active > 0 {
        receivers := receivers[w := receivers[w].(active := receivers[w].active - 1)];
      }
    }

    method CancelInvoice(i: nat) returns (done: bool)
      modifies this`invoices, this`receivers
      ensures State() == Cancel(old(State()), i)
      ensures done <==> i < |old(invoices)| && Open(old(invoices)[i])
    {
      done := i < |invoices| && Open(invoices[i]);
      if done {
        ReleaseWalletSlot(invoices[i].wallet);
        invoices := invoices[i := invoices[i].(status := Canceled)];
      }
    }

    method ExpireIfDue(i: nat) returns (due: bool)
      requires i < |invoices|
      modifies this`invoices, this`receivers
      ensures due <==> Open(old(invoices)[i]) && old(invoices)[i].expiresAt < clock
      ensures State() == if due then ExpireOne(old(State()), i) else old(State())
      ensures |invoices| == |old(invoices)| && !(Open(invoices[i]) && invoices[i].expiresAt < clock)
      ensures forall k :: 0 <= k < |invoices| && k != i ==> invoices[k] == old(invoices)[k]
    {
      due := Open(invoices[i]) && invoices[i].expiresAt < clock;
      if due {
        ReleaseWalletSlot(invoices[i].wallet);
        invoices := invoices[i := invoices[i].(status := Expired)];
      }
    }

    /** Expire at most `limit` overdue invoices; `ids` are the ones taken. */
    method ExpireDueInvoices(limit: nat) returns (count: nat, ghost ids: seq<nat>)
      modifies this`invoices, this`receivers
      ensures State() == ExpireDue(old(State()), ids) && |ids| == count <= limit && Ascending(ids)
      ensures forall i :: i in ids ==>
                i < |old(invoices)| && Open(old(invoices)[i]) && old(invoices)[i].expiresAt < clock
      ensures count < limit ==> forall i :: 0 <= i < |invoices| ==> !(Open(invoices[i]) && invoices[i].expiresAt < clock)
    {
      count, ids := 0, [];
      var n := 0;
      while n < |invoices| && count < limit
        invariant n <= |invoices| == |old(invoices)| && |ids| == count <= limit && Ascending(ids)
        invariant State() == ExpireDue(old(State()), ids)
        invariant forall i :: n <= i < |invoices| ==> invoices[i] == old(invoices)[i]
        invariant forall i :: 0 <= i < n ==> !(Open(invoices[i]) && invoices[i].expiresAt < clock)
        invariant forall i :: i in ids ==>
                    i < n && Open(old(invoices)[i]) && old(invoices)[i].expiresAt < clock
      {
        var due := ExpireIfDue(n);
        if due {
          TakeNext(old(State()), ids, n);
          count, ids := count + 1, ids + [n];
        }
        n := n + 1;
      }
    }

    /** The oldest open invoice that fits the transfer. */
    method Find(t: nat) returns (found: Option<nat>)
      requires t < |transfers|
      ensures found == FindInvoice(State(), transfers[t], |invoices|)
    {
      found := None;
      for n := 0 to |invoices|
        invariant found == FindInvoice(State(), transfers[t], n)
      {
        if Fits(State(), invoices[n], transfers[t])
           && (found.None? || invoices[n].createdAt < invoices[found.value].createdAt) {
          found := Some(n);
        }
      }
    }

    /** `ok` is false where the wallet raises; nothing is then changed. */
    method CreditWallet(i: nat) returns (ok: bool)
      requires i < |invoices|
      modifies this`book
      ensures CreditInvoice(old(book), invoices[i], i) == if ok then Some(book) else None
      ensures !ok ==> book == old(book)
    {
      var inv := invoices[i];
      if inv.user.None? || inv.user.value == "" || inv.vnd.None? {
        return true;
      }
      if inv.vnd.value <= 0 {
        return false;
      }
      var (after, entry) := W.Apply(book, W.Request(inv.user.value, W.Topup, inv.vnd.value, W.CryptoKey(i)));
      if entry.Ok? {
        book := after;
      }
      return entry.Ok?;
    }

    /** `ok` is false when the wallet credit raised; nothing is then changed. */
    method MatchOne(t: nat) returns (ok: bool, matched: bool)
      requires t < |transfers|
      modifies this`invoices, this`receivers, this`transfers, this`matches, this`book
      ensures MatchTransfer(old(State()), t) == if ok then Some(State()) else None
      ensures !ok ==> State() == old(State())
      ensures matched == Finds(old(State()), t)
      ensures |transfers| == |old(transfers)| && |invoices| == |old(invoices)| && clock == old(clock)
    {
      ok := true;
      var tr := transfers[t];
      var found := Find(t);
      matched := found.Some?;
      if found.None? {
        return;
      }
      var i := found.value;
      var known := AlreadyMatched(State(), i, t);
      if known {
        return;
      }
      var inv := invoices[i];
      var received := inv.received + tr.amount;
      if received >= inv.pay {
        ok := CreditWallet(i);
        if !ok {
          return;
        }
        ReleaseWalletSlot(inv.wallet);
        invoices := invoices[i := inv.(received := received, status := Completed)];
      } else {
        invoices := invoices[i := inv.(received := received, status := Partial)];
      }
      matches := matches + [Match(i, t, tr.amount)];
      transfers := transfers[t := tr.(status := TMatched)];
    }

    method Rollback(before: Desk)
      modifies this
      ensures State() == before
    {
      clock, receivers, invoices := before.clock, before.receivers, before.invoices;
      transfers, matches, book := before.transfers, before.matches, before.book;
    }

    /** Match the listed transfers; stops at the first one that raises. */
    method MatchListed(ts: seq<nat>) returns (ok: bool, count: nat)
      requires forall t :: t in ts ==> t < |transfers|
      modifies this`invoices, this`receivers, this`transfers, this`matches, this`book
      ensures MatchAll(old(State()), ts) == if ok then Some(State()) else None
      ensures ok ==> count == MatchCount(old(State()), ts)
    {
      ghost var before := State();
      ok, count := true, 0;
      var n := 0;
      while n < |ts|
        invariant n <= |ts| && |transfers| == |before.transfers|
        invariant MatchAll(before, ts[..n]) == Some(State()) && count == MatchCount(before, ts[..n])
      {
        MatchAllStep(before, ts, n);
        assert ts[n] in ts;
        var matched;
        ok, matched := MatchOne(ts[n]);
        if !ok {
          FailureIsFinal(before, ts, n + 1);
          return;
        }
        count := count + if matched then 1 else 0;
        n := n + 1;
      }
      assert ts[..n] == ts;
    }

    /** The number of matches; `None` where a credit raised and everything was undone. */
    method Reconcile(i: nat) returns (count: Option<nat>)
      requires i < |invoices|
      modifies this
      ensures State() == ReconcileInvoice(old(State()), i)
      ensures var ts := Selection(old(State()), old(invoices)[i], |old(transfers)|);
              count == if MatchAll(old(State()), ts).Some? then Some(MatchCount(old(State()), ts)) else None
    {
      var before := State();
      var ts := Selection(before, invoices[i], |transfers|);
      var ok, matched := MatchListed(ts);
      if ok {
        return Some(matched);
      }
      Rollback(before);
      return None;
    }
  }

  lemma TakeNext(d: Desk, ids: seq<nat>, n: nat)
    requires Ascending(ids) && forall i :: i in ids ==> i < n
    ensures Ascending(ids + [n]) && ExpireDue(d, ids + [n]) == ExpireOne(ExpireDue(d, ids), n)
  {
    assert (ids + [n])[..|ids + [n]| - 1] == ids;
    assert forall j :: 0 <= j < |ids| ==> ids[j] in ids;
  }

  lemma MatchAllStep(d: Desk, ts: seq<nat>, n: nat)
    requires n < |ts| && MatchAll(d, ts[..n]).Some?
    ensures MatchAll(d, ts[..n + 1]) == MatchTransfer(MatchAll(d, ts[..n]).value, ts[n])
    ensures var mid := MatchAll(d, ts[..n]).value;
            ts[n] < |mid.transfers| ==>
              MatchCount(d, ts[..n + 1]) == MatchCount(d, ts[..n]) + if Finds(mid, ts[n]) then 1 else 0
  {
    assert ts[..n + 1][..n] == ts[..n];
  }

  lemma {:induction false} FailureIsFinal(d: Desk, ts: seq<nat>, n: nat)
    requires n <= |ts| && MatchAll(d, ts[..n]).None?
    ensures MatchAll(d, ts).None?
  {
    if n == |ts| {
      assert ts[..n] == ts;
    } else {
      assert ts[..|ts| - 1][..n] == ts[..n];
      FailureIsFinal(d, ts[..|ts| - 1], n);
    }
  }
}
