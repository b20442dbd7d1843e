/**
 The wallet ledger: an atomic account of what one call does, and the concurrent protocol
 (unlocked key check, user lock, flush under a unique key, commit or roll back) refining it.
 */
module Wallet {
  import opened Common
  import opened Sums

  datatype Kind = Topup | Debit | Refund | Adjust

  /** The prefixed key families the services build, and the keys callers supply themselves. */
  datatype Key =
    | TopupKey(order: nat)
    | CryptoKey(invoice: nat)
    | ProrateKey(text: string)
    | ChangeKey(text: string)
    | ClientKey(text: string)

  datatype Entry = Entry(user: string, kind: Kind, amount: int, balanceAfter: int, key: Key)

  datatype Request = Request(user: string, kind: Kind, amount: int, key: Key)

  datatype Error = BadAmount | UserNotFound | InsufficientFunds | IdempotencyConflict

  /** `balances` caches, per existing user, what `ledger` says. */
  datatype Book = Book(balances: map<string, int>, ledger: seq<Entry>)

  // ----- the four public operations, as requests

  function Credit(user: string, amount: int, key: Key): Result<Request, Error> {
    if amount <= 0 then Err(BadAmount) else Ok(Request(user, Topup, amount, key))
  }

  function DebitOf(user: string, amount: int, key: Key): Result<Request, Error> {
    if amount <= 0 then Err(BadAmount) else Ok(Request(user, Debit, -amount, key))
  }

  function RefundOf(user: string, amount: int, key: Key): Result<Request, Error> {
    if amount <= 0 then Err(BadAmount) else Ok(Request(user, Refund, amount, key))
  }

  function AdjustOf(user: string, amount: int, key: Key): Result<Request, Error> {
    if amount == 0 then Err(BadAmount) else Ok(Request(user, Adjust, amount, key))
  }

  predicate SignOk(kind: Kind, amount: int) {
    match kind
    case Topup => amount > 0
    case Debit => amount < 0
    case Refund => amount > 0
    case Adjust => amount != 0
  }

  /** What a public operation of kind `kind` makes of a caller's amount. */
  function RequestOf(kind: Kind, user: string, amount: int, key: Key): Result<Request, Error> {
    match kind
    case Topup => Credit(user, amount, key)
    case Debit => DebitOf(user, amount, key)
    case Refund => RefundOf(user, amount, key)
    case Adjust => AdjustOf(user, amount, key)
  }

  /** The public operations refuse exactly the amounts of the wrong sign, and otherwise ask for the
      caller's amount, with the sign of the operation. */
  lemma RequestsAreSigned(kind: Kind, user: string, amount: int, key: Key)
    ensures var r, signed := RequestOf(kind, user, amount, key), if kind == Debit then -amount else amount;
            && (r.Ok? <==> SignOk(kind, signed))
            && (r.Err? ==> r.error == BadAmount)
            && (r.Ok? ==> r.value == Request(user, kind, signed, key))
  {
  }

  // ----- what a book means

  function AmountFor(user: string): Entry -> int {
    (e: Entry) => if e.user == user then e.amount else 0
  }

  function Sum(ledger: seq<Entry>, user: string): int {
    SumBy(ledger, AmountFor(user))
  }

  predicate HasKey(ledger: seq<Entry>, key: Key) {
    exists i | 0 <= i < |ledger| :: ledger[i].key == key
  }

  function IndexOf(ledger: seq<Entry>, key: Key): (i: nat)
    requires HasKey(ledger, key)
    ensures i < |ledger| && ledger[i].key == key
    ensures forall j :: 0 <= j < i ==> ledger[j].key != key
  {
    if ledger[0].key == key then 0 else
      assert HasKey(ledger[1..], key) by {
        var i :| 0 <= i < |ledger| && ledger[i].key == key;
        assert ledger[1..][i - 1] == ledger[i];
      }
      1 + IndexOf(ledger[1..], key)
  }

  ghost predicate UniqueKeys(ledger: seq<Entry>) {
    forall i, j :: 0 <= i < j < |ledger| ==> ledger[i].key != ledger[j].key
  }

  ghost predicate RunningSums(ledger: seq<Entry>) {
    forall i :: 0 <= i < |ledger| ==>
      && ledger[i].balanceAfter == Sum(ledger[..i + 1], ledger[i].user)
      && 0 <= ledger[i].balanceAfter
  }

  ghost predicate BookOk(b: Book) {
    && (forall u :: u in b.balances ==> b.balances[u] == Sum(b.ledger, u) && 0 <= b.balances[u])
    && (forall i :: 0 <= i < |b.ledger| ==> b.ledger[i].user in b.balances)
    && UniqueKeys(b.ledger)
    && RunningSums(b.ledger)
    && (forall i :: 0 <= i < |b.ledger| ==> SignOk(b.ledger[i].kind, b.ledger[i].amount))
  }

  // ----- one call, atomically

  function EntryFor(b: Book, r: Request): Entry
    requires r.user in b.balances
  {
    Entry(r.user, r.kind, r.amount, b.balances[r.user] + r.amount, r.key)
  }

  function Post(b: Book, e: Entry): Book {
    Book(b.balances[e.user := e.balanceAfter], b.ledger + [e])
  }

  /** The new book, and the index of the entry that answers the call. */
  function Apply(b: Book, r: Request): (Book, Result<nat, Error>) {
    if r.amount == 0 then (b, Err(BadAmount))
    else if HasKey(b.ledger, r.key) then
      var i := IndexOf(b.ledger, r.key);
      if b.ledger[i].user == r.user && b.ledger[i].amount == r.amount && b.ledger[i].kind == r.kind
      then (b, Ok(i)) else (b, Err(IdempotencyConflict))
    else if r.user !in b.balances then (b, Err(UserNotFound))
    else if b.balances[r.user] + r.amount < 0 then (b, Err(InsufficientFunds))
    else (Post(b, EntryFor(b, r)), Ok(|b.ledger|))
  }

  /** How a call is answered: a used key with the entry it stands for, or a conflict when that has
      another user, kind or amount; otherwise the amount is posted to an existing user who can bear it. */
  lemma ApplyOutcome(b: Book, r: Request)
    requires UniqueKeys(b.ledger) && r.amount != 0
    ensures var (after, answer) := Apply(b, r);
      && (forall k: nat :: k < |b.ledger| && b.ledger[k].key == r.key ==>
            after == b && var e := b.ledger[k];
            answer == if e.user == r.user && e.kind == r.kind && e.amount == r.amount then Ok(k) else Err(IdempotencyConflict))
      && ((forall k :: 0 <= k < |b.ledger| ==> b.ledger[k].key != r.key) ==>
            && (r.user !in b.balances ==> after == b && answer == Err(UserNotFound))
            && (r.user in b.balances && b.balances[r.user] + r.amount < 0 ==> after == b && answer == Err(InsufficientFunds))
            && (r.user in b.balances && 0 <= b.balances[r.user] + r.amount ==>
                  var balance := b.balances[r.user] + r.amount;
                  && answer == Ok(|b.ledger|)
                  && after.balances == b.balances[r.user := balance]
                  && after.ledger == b.ledger + [Entry(r.user, r.kind, r.amount, balance, r.key)]))
  {
    forall k: nat | k < |b.ledger| && b.ledger[k].key == r.key ensures HasKey(b.ledger, r.key) && IndexOf(b.ledger, r.key) == k {
      assert HasKey(b.ledger, r.key);
    }
  }

  lemma AppendKeepsSums(ledger: seq<Entry>, e: Entry)
    requires RunningSums(ledger) && 0 <= e.balanceAfter == Sum(ledger, e.user) + e.amount
    ensures RunningSums(ledger + [e])
  {
    var after := ledger + [e];
    forall i | 0 <= i < |after|
      ensures after[i].balanceAfter == Sum(after[..i + 1], after[i].user) && 0 <= after[i].balanceAfter
    {
      if i < |ledger| {
        assert after[..i + 1] == ledger[..i + 1];
      } else {
        assert after[..i + 1] == after;
        SumAppend(ledger, e, AmountFor(e.user));
      }
    }
  }

  lemma PostKeepsBook(b: Book, r: Request)
    requires BookOk(b) && SignOk(r.kind, r.amount)
    requires r.user in b.balances && 0 <= b.balances[r.user] + r.amount && !HasKey(b.ledger, r.key)
    ensures BookOk(Post(b, EntryFor(b, r)))
  {
    var e := EntryFor(b, r);
    var after := Post(b, e);
    forall u | u in after.balances ensures after.balances[u] == Sum(after.ledger, u) {
      SumAppend(b.ledger, e, AmountFor(u));
    }
    AppendKeepsSums(b.ledger, e);
  }

  lemma ApplyKeepsBook(b: Book, r: Request)
    requires BookOk(b) && SignOk(r.kind, r.amount)
    ensures BookOk(Apply(b, r).0)
  {
    if Apply(b, r).0 != b {
      PostKeepsBook(b, r);
    }
  }

  /** A repeated call changes nothing and answers with the same entry. */
  lemma ApplyTwice(b: Book, r: Request)
    requires Apply(b, r).1.Ok?
    ensures Apply(Apply(b, r).0, r) == (Apply(b, r).0, Apply(b, r).1)
  {
    var (b1, i) := Apply(b, r);
    assert b1.ledger[i.value].key == r.key;
    assert HasKey(b1.ledger, r.key);
    if !HasKey(b.ledger, r.key) {
      assert IndexOf(b1.ledger, r.key) == |b.ledger|;
    }
  }
}
