/**
 Whether a wallet call is answered with what it asked for. The key check compares payloads, the
 refetch after a lost race does not.
 */
module WalletAnswers {
  import opened Common
  import opened Wallet
  import opened WalletProtocol

  /** The entry has the user, kind, amount and key of the request. */
  predicate Answers(e: Entry, r: Request) {
    e.user == r.user && e.kind == r.kind && e.amount == r.amount && e.key == r.key
  }

  /** Every call that returned got an entry with its own payload. */
  ghost predicate Truthful(w: World) {
    forall id :: id in w.calls && w.calls[id].phase.Returned? ==>
      && w.calls[id].phase.index < |w.book.ledger|
      && Answers(w.book.ledger[w.calls[id].phase.index], w.calls[id].req)
  }

  /** What callers can see to: acceptable requests that share a key are the same request. */
  ghost predicate KeysAgree(rs: set<Request>) {
    forall a, b :: a in rs && b in rs && SignOk(a.kind, a.amount) && SignOk(b.kind, b.amount) && a.key == b.key
      ==> a == b
  }

  ghost predicate StartsFrom(es: seq<Event>, rs: set<Request>) {
    forall k :: 0 <= k < |es| && es[k].EStart? ==> es[k].req in rs
  }

  // ----- agreeing keys are enough

  /** Past the key check, with the outcome still open. */
  predicate Unanswered(p: Phase) {
    p.Missed? || p.Locked? || p.Flushed? || p.RolledBack?
  }

  ghost predicate CallTruthful(w: World, id: nat)
    requires id in w.calls
  {
    var c := w.calls[id];
    && (c.phase.Returned? ==> c.phase.index < |w.book.ledger| && Answers(w.book.ledger[c.phase.index], c.req))
    && (Unanswered(c.phase) ==>
          forall i :: 0 <= i < |w.book.ledger| && w.book.ledger[i].key == c.req.key ==> Answers(w.book.ledger[i], c.req))
  }

  ghost predicate AnswersInv(w: World, rs: set<Request>) {
    forall id :: id in w.calls ==>
      w.calls[id].req in rs && SignOk(w.calls[id].req.kind, w.calls[id].req.amount) && CallTruthful(w, id)
  }

  lemma CommitAnswers(w: World, id: nat, rs: set<Request>)
    requires Inv(w) && AnswersInv(w, rs) && KeysAgree(rs)
    ensures AnswersInv(Commit(w, id), rs)
  {
    var after := Commit(w, id);
    if after != w {
      assert CallOk(w, id);
      forall k | k in after.calls ensures CallTruthful(after, k) {
        assert CallTruthful(w, k);
        assert w.calls[k].req.key == w.calls[id].req.key ==> w.calls[k].req == w.calls[id].req;
      }
    }
  }

  /** A step of one call that commits nothing. */
  lemma QuietAnswers(w: World, after: World, id: nat, rs: set<Request>)
    requires AnswersInv(w, rs) && after.book == w.book
    requires forall k :: k in after.calls && k != id ==> k in w.calls && after.calls[k] == w.calls[k]
    requires id in after.calls ==>
               after.calls[id].req in rs && SignOk(after.calls[id].req.kind, after.calls[id].req.amount)
               && CallTruthful(after, id)
    ensures AnswersInv(after, rs)
  {
    forall k | k in after.calls ensures CallTruthful(after, k) {
      assert k != id ==> CallTruthful(w, k);
    }
  }

  lemma LockAnswers(w: World, id: nat, rs: set<Request>)
    requires AnswersInv(w, rs) && id in w.calls
    ensures AnswersInv(Lock(w, id), rs)
  {
    assert CallTruthful(w, id);
    QuietAnswers(w, Lock(w, id), id, rs);
  }

  lemma FlushAnswers(w: World, id: nat, rs: set<Request>)
    requires AnswersInv(w, rs) && id in w.calls
    ensures AnswersInv(Flush(w, id), rs)
  {
    assert CallTruthful(w, id);
    QuietAnswers(w, Flush(w, id), id, rs);
  }

  lemma AbortAnswers(w: World, id: nat, rs: set<Request>)
    requires AnswersInv(w, rs) && id in w.calls
    ensures AnswersInv(Abort(w, id), rs)
  {
    assert CallTruthful(w, id);
    QuietAnswers(w, Abort(w, id), id, rs);
  }

  /** The check compares payloads; the refetch relies on their agreement. */
  lemma ReadingAnswers(w: World, id: nat, rs: set<Request>)
    requires AnswersInv(w, rs) && id in w.calls
    ensures AnswersInv(Check(w, id), rs) && AnswersInv(Refetch(w, id), rs)
  {
    assert CallTruthful(w, id);
    QuietAnswers(w, Check(w, id), id, rs);
    QuietAnswers(w, Refetch(w, id), id, rs);
  }

  lemma StepAnswers(w: World, e: Event, rs: set<Request>)
    requires Inv(w) && AnswersInv(w, rs) && KeysAgree(rs) && (e.EStart? ==> e.req in rs)
    ensures AnswersInv(Step(w, e), rs)
  {
    match e
    case EStart(id, req) =>
      if id !in w.calls {
        QuietAnswers(w, Start(w, id, req), id, rs);
      }
    case ECommit(id) => CommitAnswers(w, id, rs);
    case _ =>
      if e.id in w.calls {
        LockAnswers(w, e.id, rs);
        FlushAnswers(w, e.id, rs);
        AbortAnswers(w, e.id, rs);
        ReadingAnswers(w, e.id, rs);
      }
  }

  lemma {:induction false} RunAnswers(w: World, es: seq<Event>, rs: set<Request>)
    requires Init(w) && StartsFrom(es, rs) && KeysAgree(rs)
    ensures AnswersInv(Run(w, es), rs)
  {
    if es == [] {
    } else {
      var n := |es| - 1;
      RunAnswers(w, es[..n], rs);
      RunKeeps(w, es[..n]);
      StepAnswers(Run(w, es[..n]), es[n], rs);
    }
  }

  /** Over every run: calls whose requests agree key by key are answered with their own payload,
      whatever the ledger held before. */
  lemma AgreeingKeysAreTruthful(w: World, es: seq<Event>, rs: set<Request>)
    requires Init(w) && StartsFrom(es, rs) && KeysAgree(rs)
    ensures Truthful(Run(w, es))
  {
    RunAnswers(w, es, rs);
    assert forall id :: id in Run(w, es).calls ==> CallTruthful(Run(w, es), id);
  }

  // ----- and necessary

  /** Two calls with one unused key have passed the key check, and nothing holds them up: the users'
      rows are free and there are funds for `x`, and for `y` after `x`. */
  ghost predicate RacePossible(w: World, x: nat, y: nat) {
    && x in w.calls && y in w.calls && x != y && w.calls[x].phase.Missed? && w.calls[y].phase.Missed?
    && var a, b := w.calls[x].req, w.calls[y].req;
    && a.user in w.book.balances && b.user in w.book.balances
    && a.user !in w.locks && b.user !in w.locks
    && 0 <= w.book.balances[a.user] + a.amount
    && 0 <= w.book.balances[b.user] + b.amount + (if a.user == b.user then a.amount else 0)
    && a.key == b.key && !HasKey(w.book.ledger, a.key) && !KeyPending(w, x, a.key)
  }

  function Win(w: World, x: nat): World {
    Commit(Flush(Lock(w, x), x), x)
  }

  function Lose(w: World, y: nat): World {
    Refetch(Flush(Lock(w, y), y), y)
  }

  lemma WinnerCommits(w: World, x: nat, y: nat)
    requires RacePossible(w, x, y)
    ensures var a, v := w.calls[x].req, Win(w, x);
            && v.book == Post(w.book, EntryFor(w.book, a))
            && y in v.calls && v.calls[y] == w.calls[y] && w.calls[y].req.user !in v.locks
  {
    var l := Lock(w, x);
    assert l.calls[x] == Call(w.calls[x].req, Locked(w.book.balances[w.calls[x].req.user]));
    assert !KeyPending(l, x, w.calls[x].req.key);
  }

  lemma LoserIsAnswered(v: World, y: nat, i: nat)
    requires y in v.calls && v.calls[y].phase.Missed?
    requires var b := v.calls[y].req;
             && b.user in v.book.balances && b.user !in v.locks && 0 <= v.book.balances[b.user] + b.amount
             && i < |v.book.ledger| && v.book.ledger[i].key == b.key
             && forall j :: 0 <= j < i ==> v.book.ledger[j].key != b.key
    ensures var u := Lose(v, y);
            u.book == v.book && y in u.calls && u.calls[y] == Call(v.calls[y].req, Returned(i))
  {
    var b := v.calls[y].req;
    assert HasKey(v.book.ledger, b.key) && IndexOf(v.book.ledger, b.key) == i;
    var l := Lock(v, y);
    assert Flush(l, y).calls[y] == Call(b, RolledBack);
  }

  /** Whatever the loser of the race asked for, it is answered with the winner's entry. */
  lemma LostRaceSkipsPayloadCheck(w: World, x: nat, y: nat) returns (es: seq<Event>)
    requires RacePossible(w, x, y)
    ensures forall k :: 0 <= k < |es| ==> !es[k].EStart?
    ensures var v := Run(w, es);
            && y in v.calls && v.calls[y] == Call(w.calls[y].req, Returned(|w.book.ledger|))
            && |v.book.ledger| == |w.book.ledger| + 1
            && Answers(v.book.ledger[|w.book.ledger|], w.calls[x].req)
  {
    es := RaceRun(w, x, y);
    WinnerCommits(w, x, y);
    LoserIsAnswered(Win(w, x), y, |w.book.ledger|);
  }

  lemma RaceRun(w: World, x: nat, y: nat) returns (es: seq<Event>)
    ensures Run(w, es) == Lose(Win(w, x), y) && forall k :: 0 <= k < |es| ==> !es[k].EStart?
  {
    es := [ELock(x), EFlush(x), ECommit(x)] + [ELock(y), EFlush(y), ERefetch(y)];
    RunThree(w, ELock(x), EFlush(x), ECommit(x));
    RunThree(Win(w, x), ELock(y), EFlush(y), ERefetch(y));
    RunConcat(w, [ELock(x), EFlush(x), ECommit(x)], [ELock(y), EFlush(y), ERefetch(y)]);
  }

  lemma RunThree(w: World, a: Event, b: Event, c: Event)
    ensures Run(w, [a, b, c]) == Step(Step(Step(w, a), b), c)
  {
    RunTwo(w, a, b);
    assert [a, b, c][..2] == [a, b];
  }

  lemma Deposit(b: Book, user: string, amount: nat, key: Key) returns (after: Book)
    requires BookOk(b) && user in b.balances && amount > 0 && !HasKey(b.ledger, key)
    ensures BookOk(after) && after.balances == b.balances[user := b.balances[user] + amount]
    ensures forall k :: HasKey(after.ledger, k) ==> HasKey(b.ledger, k) || k == key
  {
    var r := Request(user, Topup, amount, key);
    after := Post(b, EntryFor(b, r));
    PostKeepsBook(b, r);
  }

  /** A sound ledger in which both users have funds and the key is unused. */
  lemma Funded(x: string, y: string, funds: nat, key: Key) returns (book: Book)
    requires funds > 0
    ensures BookOk(book) && !HasKey(book.ledger, key)
    ensures x in book.balances && y in book.balances
    ensures book.balances[x] >= funds && book.balances[y] >= funds
  {
    var n := if key.TopupKey? then key.order + 1 else 0;
    book := Book(map[x := 0, y := 0], []);
    book := Deposit(book, x, funds, TopupKey(n));
    book := Deposit(book, y, funds, TopupKey(n + 1));
  }

  function Abs(x: int): nat {
    if x < 0 then -x else x
  }

  lemma BothPassTheCheck(book: Book, a: Request, b: Request)
    requires SignOk(a.kind, a.amount) && SignOk(b.kind, b.amount)
    requires a.key == b.key && !HasKey(book.ledger, a.key)
    ensures Check(Check(Start(Start(World(book, map[], map[]), 0, a), 1, b), 0), 1)
         == World(book, map[0 := Call(a, Missed), 1 := Call(b, Missed)], map[])
  {
    var w := World(book, map[], map[]);
    assert Start(Start(w, 0, a), 1, b) == w.(calls := map[0 := Call(a, Started), 1 := Call(b, Started)]);
  }

  /** From a sound ledger and no calls, two calls under one key both get past the check. */
  lemma RaceIsReachable(a: Request, b: Request) returns (w: World, es: seq<Event>)
    requires SignOk(a.kind, a.amount) && SignOk(b.kind, b.amount) && a.key == b.key
    ensures Init(w) && StartsFrom(es, {a, b}) && RacePossible(Run(w, es), 0, 1)
    ensures Run(w, es).calls[0].req == a && Run(w, es).calls[1].req == b
  {
    var book := Funded(a.user, b.user, 1 + Abs(a.amount) + Abs(b.amount), a.key);
    w := World(book, map[], map[]);
    es := [EStart(0, a), EStart(1, b), ECheck(0), ECheck(1)];
    RunFour(w, EStart(0, a), EStart(1, b), ECheck(0), ECheck(1));
    BothPassTheCheck(book, a, b);
  }

  lemma DisagreementCanLie(a: Request, b: Request) returns (w: World, es: seq<Event>)
    requires SignOk(a.kind, a.amount) && SignOk(b.kind, b.amount) && a.key == b.key && a != b
    ensures Init(w) && StartsFrom(es, {a, b}) && !Truthful(Run(w, es))
  {
    var before: seq<Event>;
    w, before := RaceIsReachable(a, b);
    var race := LostRaceSkipsPayloadCheck(Run(w, before), 0, 1);
    RunConcat(w, before, race);
    es := before + race;
  }

  /** Requests are answered with their own payload in every run, from every sound ledger, exactly
      when those that share a key are the same request. */
  lemma TruthfulIffKeysAgree(rs: set<Request>)
    ensures (forall w, es :: Init(w) && StartsFrom(es, rs) ==> Truthful(Run(w, es))) <==> KeysAgree(rs)
  {
    if KeysAgree(rs) {
      forall w, es | Init(w) && StartsFrom(es, rs) ensures Truthful(Run(w, es)) {
        AgreeingKeysAreTruthful(w, es, rs);
      }
    } else {
      var a, b :| a in rs && b in rs && SignOk(a.kind, a.amount) && SignOk(b.kind, b.amount)
                  && a.key == b.key && a != b;
      var w, es := DisagreementCanLie(a, b);
      assert StartsFrom(es, rs);
    }
  }
}
