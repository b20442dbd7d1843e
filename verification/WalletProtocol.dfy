/**
 Concurrent `_apply` calls, one step at a time.

 The balance a call adds to is the one visible once it holds the user's row lock; the lock is held
 until the surrounding transaction commits or rolls back. A flush waits while another open
 transaction has flushed the same key, which is how a unique index behaves.
 */
module WalletProtocol {
  import opened Common
  import opened Wallet

  datatype Phase =
    | Started
    | Missed                     // the key check found nothing
    | Locked(balance: int)       // the user row is locked
    | Flushed(entry: Entry)      // written, not yet committed
    | RolledBack                 // the flush hit the unique key
    | Returned(index: nat)
    | Failed(error: Error)
    | Aborted

  datatype Call = Call(req: Request, phase: Phase)

  /** `book` is the committed state. */
  datatype World = World(book: Book, calls: map<nat, Call>, locks: map<string, nat>)

  datatype Event =
    | EStart(id: nat, req: Request)
    | ECheck(id: nat)
    | ELock(id: nat)
    | EFlush(id: nat)
    | ECommit(id: nat)
    | ERefetch(id: nat)
    | EAbort(id: nat)

  function SetPhase(w: World, id: nat, p: Phase): World
    requires id in w.calls
  {
    w.(calls := w.calls[id := w.calls[id].(phase := p)])
  }

  function Unlock(w: World, id: nat): World
    requires id in w.calls
  {
    w.(locks := w.locks - {w.calls[id].req.user})
  }

  predicate KeyPending(w: World, id: nat, key: Key) {
    exists k | k in w.calls :: k != id && w.calls[k].phase.Flushed? && w.calls[k].req.key == key
  }

  function Start(w: World, id: nat, req: Request): World {
    if id in w.calls || !SignOk(req.kind, req.amount) then w
    else w.(calls := w.calls[id := Call(req, Started)])
  }

  function Check(w: World, id: nat): World {
    if id !in w.calls || w.calls[id].phase != Started then w else
    var req := w.calls[id].req;
    if HasKey(w.book.ledger, req.key) then
      var i := IndexOf(w.book.ledger, req.key);
      var e := w.book.ledger[i];
      SetPhase(w, id, if e.user == req.user && e.amount == req.amount && e.kind == req.kind
                      then Returned(i) else Failed(IdempotencyConflict))
    else SetPhase(w, id, Missed)
  }

  function Lock(w: World, id: nat): World {
    if id !in w.calls || w.calls[id].phase != Missed then w else
    var user := w.calls[id].req.user;
    if user !in w.book.balances then SetPhase(w, id, Failed(UserNotFound))
    else if user in w.locks then w
    else SetPhase(w, id, Locked(w.book.balances[user])).(locks := w.locks[user := id])
  }

  function Flush(w: World, id: nat): World {
    if id !in w.calls || !w.calls[id].phase.Locked? then w else
    var req, balance := w.calls[id].req, w.calls[id].phase.balance;
    if balance + req.amount < 0 then Unlock(SetPhase(w, id, Failed(InsufficientFunds)), id)
    else if HasKey(w.book.ledger, req.key) then Unlock(SetPhase(w, id, RolledBack), id)
    else if KeyPending(w, id, req.key) then w
    else SetPhase(w, id, Flushed(Entry(req.user, req.kind, req.amount, balance + req.amount, req.key)))
  }

  function Commit(w: World, id: nat): World {
    if id !in w.calls || !w.calls[id].phase.Flushed? then w
    else Unlock(SetPhase(w, id, Returned(|w.book.ledger|)), id).(book := Post(w.book, w.calls[id].phase.entry))
  }

  function Refetch(w: World, id: nat): World {
    if id !in w.calls || w.calls[id].phase != RolledBack then w
    else if HasKey(w.book.ledger, w.calls[id].req.key)
    then SetPhase(w, id, Returned(IndexOf(w.book.ledger, w.calls[id].req.key)))
    else SetPhase(w, id, Failed(IdempotencyConflict))
  }

  function Abort(w: World, id: nat): World {
    if id !in w.calls then w else
    match w.calls[id].phase
    case Started => SetPhase(w, id, Aborted)
    case Missed => SetPhase(w, id, Aborted)
    case RolledBack => SetPhase(w, id, Aborted)
    case Locked(_) => Unlock(SetPhase(w, id, Aborted), id)
    case Flushed(_) => Unlock(SetPhase(w, id, Aborted), id)
    case _ => w
  }

  function Step(w: World, e: Event): World {
    match e
    case EStart(id, req) => Start(w, id, req)
    case ECheck(id) => Check(w, id)
    case ELock(id) => Lock(w, id)
    case EFlush(id) => Flush(w, id)
    case ECommit(id) => Commit(w, id)
    case ERefetch(id) => Refetch(w, id)
    case EAbort(id) => Abort(w, id)
  }

  function Run(w: World, es: seq<Event>): World {
    if es == [] then w else Step(Run(w, es[..|es| - 1]), es[|es| - 1])
  }

  // ----- the invariant

  predicate Holding(p: Phase) {
    p.Locked? || p.Flushed?
  }

  ghost predicate CallOk(w: World, id: nat)
    requires id in w.calls
  {
    var c := w.calls[id];
    && SignOk(c.req.kind, c.req.amount)
    && (Holding(c.phase) ==> c.req.user in w.locks && w.locks[c.req.user] == id && c.req.user in w.book.balances)
    && (c.phase.Locked? ==> c.phase.balance == w.book.balances[c.req.user])
    && (c.phase.Flushed? ==>
          && c.phase.entry == EntryFor(w.book, c.req)
          && 0 <= c.phase.entry.balanceAfter
          && !HasKey(w.book.ledger, c.req.key)
          && !KeyPending(w, id, c.req.key))
    && (c.phase.RolledBack? ==> HasKey(w.book.ledger, c.req.key))
    && (c.phase.Returned? ==> c.phase.index < |w.book.ledger| && w.book.ledger[c.phase.index].key == c.req.key)
  }

  ghost predicate Inv(w: World) {
    && BookOk(w.book)
    && (forall id :: id in w.calls ==> CallOk(w, id))
  }

  /** A step of one call that leaves the committed book alone and neither takes a lock nor flushes. */
  lemma QuietStep(w: World, after: World, id: nat)
    requires Inv(w) && after.book == w.book && id in after.calls
    requires forall k :: k in after.calls && k != id ==> k in w.calls && after.calls[k] == w.calls[k]
    requires forall k :: k in after.calls && k != id && Holding(w.calls[k].phase)
               ==> w.calls[k].req.user in after.locks && after.locks[w.calls[k].req.user] == k
    requires !after.calls[id].phase.Flushed?
    requires CallOk(after, id)
    ensures Inv(after)
  {
  }

  lemma StartKeeps(w: World, id: nat, req: Request)
    requires Inv(w)
    ensures Inv(Start(w, id, req))
  {
  }

  lemma CheckKeeps(w: World, id: nat)
    requires Inv(w)
    ensures Inv(Check(w, id))
  {
    if Check(w, id) != w {
      assert CallOk(w, id);
      QuietStep(w, Check(w, id), id);
    }
  }

  lemma LockKeeps(w: World, id: nat)
    requires Inv(w)
    ensures Inv(Lock(w, id))
  {
    if Lock(w, id) != w {
      assert CallOk(w, id);
      assert forall k :: k in w.calls && Holding(w.calls[k].phase) ==> CallOk(w, k);
      QuietStep(w, Lock(w, id), id);
    }
  }

  /** Two holders of locks hold locks of different users. */
  lemma HoldersDiffer(w: World, id: nat, k: nat)
    requires Inv(w) && id in w.calls && k in w.calls && id != k
    requires Holding(w.calls[id].phase) && Holding(w.calls[k].phase)
    ensures w.calls[id].req.user != w.calls[k].req.user
  {
  }

  lemma ReleaseKeeps(w: World, id: nat, p: Phase)
    requires Inv(w) && id in w.calls && Holding(w.calls[id].phase)
    requires !Holding(p) && !p.Returned? && (p.RolledBack? ==> HasKey(w.book.ledger, w.calls[id].req.key))
    ensures Inv(Unlock(SetPhase(w, id, p), id))
  {
  }

  lemma FlushKeeps(w: World, id: nat)
    requires Inv(w)
    ensures Inv(Flush(w, id))
  {
    var after := Flush(w, id);
    if after != w {
      assert CallOk(w, id);
      var req := w.calls[id].req;
      if w.calls[id].phase.balance + req.amount < 0 {
        ReleaseKeeps(w, id, Failed(InsufficientFunds));
      } else if HasKey(w.book.ledger, req.key) {
        ReleaseKeeps(w, id, RolledBack);
      } else {
        forall k | k in after.calls ensures CallOk(after, k) {
          assert CallOk(w, k);
        }
      }
    }
  }

  lemma CommitKeeps(w: World, id: nat)
    requires Inv(w)
    ensures Inv(Commit(w, id))
  {
    var after := Commit(w, id);
    if after != w {
      assert CallOk(w, id);
      PostKeepsBook(w.book, w.calls[id].req);
      forall k | k in after.calls ensures CallOk(after, k) {
        CommitKeepsCall(w, id, k);
      }
    }
  }

  lemma CommitKeepsCall(w: World, id: nat, k: nat)
    requires Inv(w) && id in w.calls && w.calls[id].phase.Flushed? && k in w.calls
    ensures CallOk(Commit(w, id), k)
  {
    var after := Commit(w, id);
    assert CallOk(w, id) && CallOk(w, k);
    assert w.book.ledger <= after.book.ledger;
    if k == id {
      assert after.book.ledger[|w.book.ledger|].key == w.calls[id].req.key;
    } else {
      assert forall key :: HasKey(w.book.ledger, key) ==> HasKey(after.book.ledger, key);
      if Holding(w.calls[k].phase) {
        HoldersDiffer(w, id, k);
      }
      if w.calls[k].phase.Flushed? {
        assert w.calls[k].req.key != w.calls[id].req.key;
        assert !HasKey(after.book.ledger, w.calls[k].req.key);
      }
    }
  }

  lemma RefetchKeeps(w: World, id: nat)
    requires Inv(w)
    ensures Inv(Refetch(w, id))
  {
  }

  lemma AbortKeeps(w: World, id: nat)
    requires Inv(w)
    ensures Inv(Abort(w, id))
  {
    if Abort(w, id) != w {
      assert CallOk(w, id);
      if Holding(w.calls[id].phase) {
        ReleaseKeeps(w, id, Aborted);
      } else {
        QuietStep(w, Abort(w, id), id);
      }
    }
  }

  lemma StepKeeps(w: World, e: Event)
    requires Inv(w)
    ensures Inv(Step(w, e))
  {
    match e
    case EStart(id, req) => StartKeeps(w, id, req);
    case ECheck(id) => CheckKeeps(w, id);
    case ELock(id) => LockKeeps(w, id);
    case EFlush(id) => FlushKeeps(w, id);
    case ECommit(id) => CommitKeeps(w, id);
    case ERefetch(id) => RefetchKeeps(w, id);
    case EAbort(id) => AbortKeeps(w, id);
  }

  ghost predicate Init(w: World) {
    BookOk(w.book) && w.calls == map[]
  }

  /** In every interleaving: each balance is the sum of the user's entries and not negative, every
      `balanceAfter` is the running sum at its entry, and keys are unique. */
  lemma {:induction false} RunKeeps(w: World, es: seq<Event>)
    requires Init(w)
    ensures Inv(Run(w, es))
    ensures BookOk(Run(w, es).book)
  {
    if es == [] {
    } else {
      RunKeeps(w, es[..|es| - 1]);
      StepKeeps(Run(w, es[..|es| - 1]), es[|es| - 1]);
    }
  }

  // ----- refinement of the atomic ledger

  /** A step either leaves the committed book alone or does exactly what one atomic call does. */
  lemma StepRefinesApply(w: World, e: Event)
    requires Inv(w)
    ensures Step(w, e).book != w.book ==>
      && e.ECommit? && e.id in w.calls
      && Apply(w.book, w.calls[e.id].req) == (Step(w, e).book, Ok(|w.book.ledger|))
      && Step(w, e).calls[e.id].phase == Returned(|w.book.ledger|)
  {
  }

  /** The atomic requests a run commits, in commit order. */
  function Committed(w: World, es: seq<Event>): seq<Request> {
    if es == [] then []
    else
      var mid, e := Run(w, es[..|es| - 1]), es[|es| - 1];
      Committed(w, es[..|es| - 1])
      + (if e.ECommit? && e.id in mid.calls && mid.calls[e.id].phase.Flushed? then [mid.calls[e.id].req] else [])
  }

  function ApplyAll(b: Book, rs: seq<Request>): Book {
    if rs == [] then b else Apply(ApplyAll(b, rs[..|rs| - 1]), rs[|rs| - 1]).0
  }

  /** Every interleaving leaves the book that applying the committed requests one after the other
      leaves: the locking protocol refines the sequential ledger. */
  lemma {:induction false} RunRefinesSequential(w: World, es: seq<Event>)
    requires Init(w)
    ensures Run(w, es).book == ApplyAll(w.book, Committed(w, es))
  {
    if es == [] {
    } else {
      var mid, e := Run(w, es[..|es| - 1]), es[|es| - 1];
      RunRefinesSequential(w, es[..|es| - 1]);
      RunKeeps(w, es[..|es| - 1]);
      StepRefinesApply(mid, e);
      var rs := Committed(w, es[..|es| - 1]);
      if e.ECommit? && e.id in mid.calls && mid.calls[e.id].phase.Flushed? {
        assert Committed(w, es) == rs + [mid.calls[e.id].req];
        assert Committed(w, es)[..|Committed(w, es)| - 1] == rs;
        assert CallOk(mid, e.id);
        assert mid.book.ledger != Step(mid, e).book.ledger by {
          assert |Step(mid, e).book.ledger| == |mid.book.ledger| + 1;
        }
      } else {
        assert Committed(w, es) == rs;
      }
    }
  }

  // ----- idempotency

  /** Once a key is in the ledger, no step of a call with that key changes the book. */
  lemma AppliedKeyChangesNothing(w: World, e: Event)
    requires Inv(w) && e.id in w.calls && HasKey(w.book.ledger, w.calls[e.id].req.key)
    ensures Step(w, e).book == w.book
  {
    assert CallOk(w, e.id);
  }

  /** All calls that ever return for one key return the same entry, also after losing a race. */
  lemma CallersAgree(w: World, es: seq<Event>, id: nat, k: nat)
    requires Init(w)
    requires var v := Run(w, es);
             && id in v.calls && k in v.calls
             && v.calls[id].phase.Returned? && v.calls[k].phase.Returned?
             && v.calls[id].req.key == v.calls[k].req.key
    ensures Run(w, es).calls[id].phase == Run(w, es).calls[k].phase
  {
    RunKeeps(w, es);
    assert CallOk(Run(w, es), id) && CallOk(Run(w, es), k);
  }

  /** The branch that finds no row after a rolled-back flush is never taken. */
  lemma RefetchFindsTheWinner(w: World, es: seq<Event>, id: nat)
    requires Init(w) && id in Run(w, es).calls && Run(w, es).calls[id].phase.RolledBack?
    ensures Refetch(Run(w, es), id).calls[id].phase.Returned?
  {
    RunKeeps(w, es);
    assert CallOk(Run(w, es), id);
  }

  // ----- runs end to end

  lemma {:induction false} RunConcat(w: World, es: seq<Event>, fs: seq<Event>)
    ensures Run(w, es + fs) == Run(Run(w, es), fs)
  {
    if fs == [] {
      assert es + fs == es;
    } else {
      RunConcat(w, es, fs[..|fs| - 1]);
      assert (es + fs)[..|es + fs| - 1] == es + fs[..|fs| - 1];
    }
  }

  lemma RunTwo(w: World, a: Event, b: Event)
    ensures Run(w, [a, b]) == Step(Step(w, a), b)
  {
    assert [a, b][..1] == [a] && [a][..0] == [];
    assert Run(w, [a]) == Step(w, a);
  }

  lemma RunFour(w: World, a: Event, b: Event, c: Event, d: Event)
    ensures Run(w, [a, b, c, d]) == Step(Step(Step(Step(w, a), b), c), d)
  {
    RunTwo(w, a, b);
    RunTwo(Run(w, [a, b]), c, d);
    RunConcat(w, [a, b], [c, d]);
    assert [a, b] + [c, d] == [a, b, c, d];
  }

  // ----- an undisturbed call

  function CallAlone(id: nat, req: Request): seq<Event> {
    [EStart(id, req), ECheck(id), ELock(id), EFlush(id)] + [ECommit(id), ERefetch(id)]
  }

  lemma CallAloneSteps(w: World, id: nat, req: Request)
    ensures Run(w, CallAlone(id, req)) == Refetch(Commit(Flush(Lock(Check(Start(w, id, req), id), id), id), id), id)
  {
    var four := [EStart(id, req), ECheck(id), ELock(id), EFlush(id)];
    RunFour(w, EStart(id, req), ECheck(id), ELock(id), EFlush(id));
    RunTwo(Run(w, four), ECommit(id), ERefetch(id));
    RunConcat(w, four, [ECommit(id), ERefetch(id)]);
  }

  /** A call that nobody gets in the way of does what the atomic call does, and answers the same. */
  lemma UndisturbedIsAtomic(w: World, id: nat, req: Request)
    requires id !in w.calls && SignOk(req.kind, req.amount) && req.user !in w.locks
    requires forall k :: k in w.calls && w.calls[k].phase.Flushed? ==> w.calls[k].req.key != req.key
    ensures var v, (after, answer) := Run(w, CallAlone(id, req)), Apply(w.book, req);
      && v.book == after && v.locks == w.locks
      && id in v.calls && v.calls[id].phase == if answer.Ok? then Returned(answer.value) else Failed(answer.error)
  {
    CallAloneSteps(w, id, req);
    var checked := Check(Start(w, id, req), id);
    if !HasKey(w.book.ledger, req.key) && req.user in w.book.balances {
      LockToCommit(checked, id);
    }
  }

  lemma LockToCommit(w: World, id: nat)
    requires id in w.calls && w.calls[id].phase == Missed
    requires var req := w.calls[id].req;
             && req.user !in w.locks && req.user in w.book.balances && !HasKey(w.book.ledger, req.key)
             && SignOk(req.kind, req.amount)
             && forall k :: k in w.calls && w.calls[k].phase.Flushed? ==> w.calls[k].req.key != req.key
    ensures var req, v := w.calls[id].req, Commit(Flush(Lock(w, id), id), id);
      && v.locks == w.locks && id in v.calls
      && (if w.book.balances[req.user] + req.amount < 0
          then v.book == w.book && v.calls[id].phase == Failed(InsufficientFunds)
          else v.book == Post(w.book, EntryFor(w.book, req)) && v.calls[id].phase == Returned(|w.book.ledger|))
  {
    var req := w.calls[id].req;
    var l := Lock(w, id);
    assert l.calls[id] == Call(req, Locked(w.book.balances[req.user]));
    assert !KeyPending(l, id, req.key);
    assert l.locks - {req.user} == w.locks;
  }
}
