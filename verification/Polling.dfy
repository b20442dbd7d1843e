/** Polling a bank account: the window each poll asks for, and what ends up stored. */
module Polling {
  import opened Common
  import O = Orders
  import opened OrderSafety
  import opened OrderPayments

  const REACH := 2 * DAY

  datatype Window = Window(start: int, end: int)

  datatype Phase = Idle | Fetching(window: Window, todo: seq<O.BankTx>)

  /** `cursor` is the saved end of the last successful poll; `windows` records the successful polls. */
  datatype Poll = Poll(db: O.Db, cursor: Option<int>, phase: Phase, windows: seq<Window>)

  datatype Event =
    | EOpen(listing: seq<O.BankTx>)  // read the cursor and the clock, ask the bank
    | EStore                         // ingest the next listed transfer, in its own commit
    | ECrash                         // any error: the cursor is not saved
    | ESave                          // everything ingested: save the cursor
    | EElse(other: O.Event)          // the rest of the system

  function NextWindow(cursor: Option<int>, end: int): Window {
    var start := if cursor.Some? then cursor.value else end - REACH;
    Window(Max(start, end - REACH), end)
  }

  predicate Within(w: Window, t: int) {
    w.start <= t <= w.end
  }

  /** The bank lists what it has for the window, in any order, possibly repeating itself. */
  predicate Lists(bank: set<O.BankTx>, w: Window, listing: seq<O.BankTx>) {
    && (forall b | b in listing :: b in bank)
    && (forall b | b in bank :: Within(w, b.postedAt) ==> b in listing)
  }

  function Open(p: Poll, bank: set<O.BankTx>, listing: seq<O.BankTx>): Poll {
    var w := NextWindow(p.cursor, p.db.clock);
    if p.phase.Idle? && Lists(bank, w, listing) then p.(phase := Fetching(w, listing)) else p
  }

  function Store(p: Poll, fold: char -> string, account: string): Poll {
    if p.phase.Fetching? && p.phase.todo != [] then
      p.(db := O.Ingest(p.db, fold, account, p.phase.todo[0]), phase := p.phase.(todo := p.phase.todo[1..]))
    else p
  }

  function Crash(p: Poll): Poll {
    p.(phase := Idle)
  }

  function Save(p: Poll): Poll {
    if p.phase.Fetching? && p.phase.todo == [] then
      p.(cursor := Some(p.phase.window.end), windows := p.windows + [p.phase.window], phase := Idle)
    else p
  }

  /** One ingesting session per account: other steps do not ingest for this one. */
  function Else(p: Poll, fold: char -> string, account: string, e: O.Event): Poll {
    if e.EIngest? && e.account == account then p else p.(db := O.Step(p.db, fold, e))
  }

  function Step(p: Poll, fold: char -> string, account: string, bank: set<O.BankTx>, e: Event): Poll {
    match e
    case EOpen(listing) => Open(p, bank, listing)
    case EStore => Store(p, fold, account)
    case ECrash => Crash(p)
    case ESave => Save(p)
    case EElse(other) => Else(p, fold, account, other)
  }

  function Run(p: Poll, fold: char -> string, account: string, bank: set<O.BankTx>, es: seq<Event>): Poll {
    if es == [] then p
    else Step(Run(p, fold, account, bank, es[..|es| - 1]), fold, account, bank, es[|es| - 1])
  }

  // ----- the windows of successful polls

  /** The first window reaches back two days; each later one starts where the previous one ended, unless
      that is more than two days ago. */
  ghost predicate Chained(ws: seq<Window>) {
    && (ws != [] ==> ws[0].start == ws[0].end - 2 * DAY)
    && (forall k :: 0 <= k < |ws| ==> ws[k].start <= ws[k].end)
    && (forall k :: 0 < k < |ws| ==>
          ws[k].start == Max(ws[k - 1].end, ws[k].end - 2 * DAY) && ws[k - 1].end <= ws[k].end)
  }

  ghost predicate GapsWithinReach(ws: seq<Window>) {
    forall k :: 0 < k < |ws| ==> ws[k].end - ws[k - 1].end <= 2 * DAY
  }

  ghost predicate CoversAt(ws: seq<Window>, t: real) {
    exists k :: 0 <= k < |ws| && ws[k].start as real <= t <= ws[k].end as real
  }

  ghost predicate Covers(ws: seq<Window>) {
    ws != [] ==> forall t: real :: ws[0].start as real <= t <= ws[|ws| - 1].end as real ==> CoversAt(ws, t)
  }

  lemma {:induction false} GapsGiveCover(ws: seq<Window>, t: real)
    requires Chained(ws) && GapsWithinReach(ws) && ws != []
    requires ws[0].start as real <= t <= ws[|ws| - 1].end as real
    ensures CoversAt(ws, t)
  {
    var n := |ws| - 1;
    if n > 0 && t <= ws[n - 1].end as real {
      GapsGiveCover(ws[..n], t);
      var k :| 0 <= k < n && ws[..n][k].start as real <= t <= ws[..n][k].end as real;
      assert ws[k].start as real <= t <= ws[k].end as real;
    } else {
      assert ws[n].start as real <= t <= ws[n].end as real;
    }
  }

  lemma {:induction false} EndsGrow(ws: seq<Window>, j: nat, k: nat)
    requires Chained(ws) && j <= k < |ws|
    ensures ws[j].end <= ws[k].end && ws[0].start <= ws[k].end
    ensures j < k ==> ws[j].end <= ws[k].start
    decreases k
  {
    if j < k {
      EndsGrow(ws, j, k - 1);
    } else if 0 < k {
      EndsGrow(ws, k - 1, k - 1);
    }
  }

  lemma GapLeavesHole(ws: seq<Window>, k: nat)
    requires Chained(ws) && 0 < k < |ws| && ws[k].end - ws[k - 1].end > 2 * DAY
    ensures !Covers(ws)
  {
    var t := (ws[k - 1].end as real + ws[k].start as real) / 2.0;
    forall j | 0 <= j < |ws| ensures !(ws[j].start as real <= t <= ws[j].end as real) {
      if j < k {
        EndsGrow(ws, j, k - 1);
      } else if j > k {
        EndsGrow(ws, k, j);
      }
    }
    assert !CoversAt(ws, t);
    EndsGrow(ws, 0, k - 1);
    EndsGrow(ws, k, |ws| - 1);
  }

  /** The successful windows cover every instant since the first one's start exactly when no two
      consecutive successes are more than two days apart. */
  lemma CoverIffGapsWithinReach(ws: seq<Window>)
    requires Chained(ws)
    ensures Covers(ws) <==> GapsWithinReach(ws)
  {
    if GapsWithinReach(ws) && ws != [] {
      forall t: real | ws[0].start as real <= t <= ws[|ws| - 1].end as real ensures CoversAt(ws, t) {
        GapsGiveCover(ws, t);
      }
    }
    if !GapsWithinReach(ws) {
      var k :| 0 < k < |ws| && ws[k].end - ws[k - 1].end > 2 * DAY;
      GapLeavesHole(ws, k);
    }
  }

  // ----- the invariant

  /** Exactly one stored row is this transfer. */
  ghost predicate StoredOnce(db: O.Db, account: string, b: O.BankTx) {
    exists t :: 0 <= t < |db.txs| && db.txs[t].account == account && db.txs[t].bank == b
      && forall u :: 0 <= u < |db.txs| && db.txs[u].account == account && db.txs[u].bank.ref == b.ref ==> u == t
  }

  ghost predicate DistinctRefs(bank: set<O.BankTx>) {
    forall b, c :: b in bank && c in bank && b.ref == c.ref ==> b == c
  }

  ghost predicate RowsFromBank(db: O.Db, account: string, bank: set<O.BankTx>) {
    forall t :: 0 <= t < |db.txs| && db.txs[t].account == account ==> db.txs[t].bank in bank
  }

  ghost predicate WindowStored(p: Poll, account: string, bank: set<O.BankTx>, w: Window) {
    forall b :: b in bank && Within(w, b.postedAt) ==> O.Known(p.db, account, b.ref)
  }

  ghost predicate PhaseOk(p: Poll, account: string, bank: set<O.BankTx>) {
    p.phase.Fetching? ==>
      && p.phase.window.end <= p.db.clock
      && p.phase.window == NextWindow(p.cursor, p.phase.window.end)
      && (p.cursor.Some? ==> p.cursor.value <= p.phase.window.end)
      && (forall b :: b in p.phase.todo ==> b in bank)
      && (forall b :: b in bank && Within(p.phase.window, b.postedAt) ==>
            b in p.phase.todo || O.Known(p.db, account, b.ref))
  }

  ghost predicate CursorOk(p: Poll) {
    && (p.cursor.Some? ==> p.cursor.value <= p.db.clock)
    && (p.windows == [] ==> p.cursor.None?)
    && (p.windows != [] ==> p.cursor == Some(p.windows[|p.windows| - 1].end))
  }

  ghost predicate Inv(p: Poll, account: string, bank: set<O.BankTx>) {
    && PayInv(p.db)
    && RowsFromBank(p.db, account, bank)
    && Chained(p.windows)
    && CursorOk(p)
    && PhaseOk(p, account, bank)
    && (forall k :: 0 <= k < |p.windows| ==> WindowStored(p, account, bank, p.windows[k]))
  }

  /** What is stored stays stored, whatever happens to the database. */
  lemma KnownStays(db: O.Db, after: O.Db, account: string, ref: string)
    requires Grows(db, after) && O.Known(db, account, ref)
    ensures O.Known(after, account, ref)
  {
  }

  lemma WindowsStay(p: Poll, q: Poll, account: string, bank: set<O.BankTx>)
    requires Grows(p.db, q.db) && q.windows == p.windows
    requires forall k :: 0 <= k < |p.windows| ==> WindowStored(p, account, bank, p.windows[k])
    ensures forall k :: 0 <= k < |q.windows| ==> WindowStored(q, account, bank, q.windows[k])
  {
  }

  lemma IngestStores(db: O.Db, fold: char -> string, account: string, b: O.BankTx)
    ensures var after := O.Ingest(db, fold, account, b);
            && O.Known(after, account, b.ref)
            && after.clock == db.clock
            && (after.txs == db.txs
                || (|after.txs| == |db.txs| + 1 && after.txs[..|db.txs|] == db.txs
                    && after.txs[|db.txs|].account == account && after.txs[|db.txs|].bank == b))
  {
    var after := O.Ingest(db, fold, account, b);
    if !O.Known(db, account, b.ref) {
      assert after.txs[|db.txs|].account == account && after.txs[|db.txs|].bank.ref == b.ref;
    }
  }

  lemma StoreKeepsPhase(p: Poll, fold: char -> string, account: string, bank: set<O.BankTx>)
    requires PhaseOk(p, account, bank) && p.phase.Fetching? && p.phase.todo != []
    requires Grows(p.db, O.Ingest(p.db, fold, account, p.phase.todo[0]))
    ensures PhaseOk(Store(p, fold, account), account, bank)
  {
    var q := Store(p, fold, account);
    IngestStores(p.db, fold, account, p.phase.todo[0]);
    forall c | c in bank && Within(q.phase.window, c.postedAt)
      ensures c in q.phase.todo || O.Known(q.db, account, c.ref)
    {
      if O.Known(p.db, account, c.ref) {
        KnownStays(p.db, q.db, account, c.ref);
      } else {
        assert c in p.phase.todo;
      }
    }
  }

  lemma StoreKeeps(p: Poll, fold: char -> string, account: string, bank: set<O.BankTx>)
    requires Inv(p, account, bank)
    ensures Inv(Store(p, fold, account), account, bank)
  {
    var q := Store(p, fold, account);
    if p.phase.Fetching? && p.phase.todo != [] {
      var b := p.phase.todo[0];
      IngestStores(p.db, fold, account, b);
      IngestKeepsPay(p.db, fold, account, b);
      IngestGrows(p.db, fold, account, b);
      WindowsStay(p, q, account, bank);
      StoreKeepsPhase(p, fold, account, bank);
    }
  }

  lemma ElseKeepsPhase(p: Poll, account: string, bank: set<O.BankTx>, after: O.Db)
    requires PhaseOk(p, account, bank) && Grows(p.db, after) && p.db.clock <= after.clock
    ensures PhaseOk(p.(db := after), account, bank)
  {
  }

  lemma StepKeepsRows(db: O.Db, fold: char -> string, account: string, bank: set<O.BankTx>, e: O.Event)
    requires RowsFromBank(db, account, bank) && !(e.EIngest? && e.account == account)
    ensures RowsFromBank(O.Step(db, fold, e), account, bank) && db.clock <= O.Step(db, fold, e).clock
  {
    if e.EIngest? {
      IngestStores(db, fold, e.account, e.bank);
    }
  }

  lemma ElseKeeps(p: Poll, fold: char -> string, account: string, bank: set<O.BankTx>, e: O.Event)
    requires Inv(p, account, bank)
    ensures Inv(Else(p, fold, account, e), account, bank)
  {
    var q := Else(p, fold, account, e);
    if q != p {
      StepKeepsPay(p.db, fold, e);
      StepGrows(p.db, fold, e);
      WindowsStay(p, q, account, bank);
      StepKeepsRows(p.db, fold, account, bank, e);
      ElseKeepsPhase(p, account, bank, q.db);
    }
  }

  lemma SaveKeeps(p: Poll, account: string, bank: set<O.BankTx>)
    requires Inv(p, account, bank)
    ensures Inv(Save(p), account, bank)
  {
    var q := Save(p);
    if q != p {
      forall k | 0 <= k < |q.windows| ensures WindowStored(q, account, bank, q.windows[k]) {
        assert k < |p.windows| ==> WindowStored(p, account, bank, p.windows[k]);
      }
    }
  }

  lemma StepKeeps(p: Poll, fold: char -> string, account: string, bank: set<O.BankTx>, e: Event)
    requires Inv(p, account, bank)
    ensures Inv(Step(p, fold, account, bank, e), account, bank)
  {
    match e
    case EOpen(listing) =>
    case EStore => StoreKeeps(p, fold, account, bank);
    case ECrash =>
      forall k | 0 <= k < |p.windows| ensures WindowStored(Crash(p), account, bank, p.windows[k]) {
        assert WindowStored(p, account, bank, p.windows[k]);
      }
    case ESave => SaveKeeps(p, account, bank);
    case EElse(other) => ElseKeeps(p, fold, account, bank, other);
  }

  /** Before the first poll of the account. */
  ghost predicate Init(p: Poll, account: string) {
    && PayInv(p.db) && p.phase.Idle? && p.windows == [] && p.cursor.None?
    && forall t :: 0 <= t < |p.db.txs| ==> p.db.txs[t].account != account
  }

  lemma {:induction false} RunKeeps(p: Poll, fold: char -> string, account: string, bank: set<O.BankTx>, es: seq<Event>)
    requires Init(p, account)
    ensures Inv(Run(p, fold, account, bank, es), account, bank)
  {
    if es == [] {
    } else {
      RunKeeps(p, fold, account, bank, es[..|es| - 1]);
      StepKeeps(Run(p, fold, account, bank, es[..|es| - 1]), fold, account, bank, es[|es| - 1]);
    }
  }

  /** Despite crashes between commits, every transfer the bank has for the covered time is stored
      exactly once, as the bank lists it. */
  lemma EverythingStoredOnce(p: Poll, fold: char -> string, account: string, bank: set<O.BankTx>, es: seq<Event>,
                             b: O.BankTx)
    requires Init(p, account) && DistinctRefs(bank) && b in bank
    requires var q := Run(p, fold, account, bank, es);
             q.windows != [] && GapsWithinReach(q.windows)
             && q.windows[0].start <= b.postedAt <= q.windows[|q.windows| - 1].end
    ensures StoredOnce(Run(p, fold, account, bank, es).db, account, b)
  {
    var q := Run(p, fold, account, bank, es);
    RunKeeps(p, fold, account, bank, es);
    GapsGiveCover(q.windows, b.postedAt as real);
    var k :| 0 <= k < |q.windows| && q.windows[k].start as real <= b.postedAt as real <= q.windows[k].end as real;
    assert WindowStored(q, account, bank, q.windows[k]) && Within(q.windows[k], b.postedAt);
  }

  /** Over every run, the recorded windows leave a hole exactly when some gap exceeds two days. */
  lemma PollsCoverIffGapsWithinReach(p: Poll, fold: char -> string, account: string, bank: set<O.BankTx>, es: seq<Event>)
    requires Init(p, account)
    ensures Covers(Run(p, fold, account, bank, es).windows)
       <==> GapsWithinReach(Run(p, fold, account, bank, es).windows)
  {
    RunKeeps(p, fold, account, bank, es);
    CoverIffGapsWithinReach(Run(p, fold, account, bank, es).windows);
  }

  // ----- one pass of the poll loop

  function StoreFirst(p: Poll, fold: char -> string, account: string, n: nat): Poll {
    if n == 0 then p else Store(StoreFirst(p, fold, account, n - 1), fold, account)
  }

  lemma StoreNext(begun: Poll, fold: char -> string, account: string, i: nat, listing: seq<O.BankTx>)
    requires i < |listing|
    requires var p := StoreFirst(begun, fold, account, i); p.phase.Fetching? && p.phase.todo == listing[i..]
    ensures var p, q := StoreFirst(begun, fold, account, i), StoreFirst(begun, fold, account, i + 1);
            q == p.(db := O.Ingest(p.db, fold, account, listing[i]), phase := Fetching(p.phase.window, listing[i + 1..]))
  {
  }

  class Poller {
    const account: string
    var db: O.Db
    var cursor: Option<int>
    ghost var windows: seq<Window>

    constructor (account: string, db: O.Db)
      ensures this.account == account && State() == Poll(db, None, Idle, [])
    {
      this.account, this.db, this.cursor, this.windows := account, db, None, [];
    }

    /** Between two passes. */
    ghost function State(): Poll
      reads this
    {
      Poll(db, cursor, Idle, windows)
    }

    /** Compute the window, ingest what the bank lists for it one commit at a time, save the cursor;
        `failAt` is where an error strikes, if one does. The transfers ingested before it stay. */
    method PollOnce(fold: char -> string, ghost bank: set<O.BankTx>, listing: seq<O.BankTx>, failAt: Option<nat>)
      returns (w: Window)
      requires Lists(bank, NextWindow(cursor, db.clock), listing)
      modifies this
      ensures w == NextWindow(old(cursor), old(db).clock)
      ensures var begun := Open(old(State()), bank, listing);
              State() == if failAt.Some? && failAt.value < |listing|
                         then Crash(StoreFirst(begun, fold, account, failAt.value))
                         else Save(StoreFirst(begun, fold, account, |listing|))
    {
      var end := db.clock;
      var start := if cursor.Some? then cursor.value else end - REACH;
      start := Max(start, end - REACH);
      w := Window(start, end);
      ghost var begun := Open(State(), bank, listing);
      var n := IngestListed(fold, listing, failAt, w, begun);
      if n == |listing| {
        cursor := Some(end);
        windows := windows + [w];
      }
    }

    /** Ingest the listed transfers up to the error, if one strikes; `n` of them were stored. */
    method IngestListed(fold: char -> string, listing: seq<O.BankTx>, failAt: Option<nat>,
                        ghost w: Window, ghost begun: Poll) returns (n: nat)
      requires begun == Poll(db, cursor, Fetching(w, listing), windows)
      modifies this`db
      ensures n == if failAt.Some? && failAt.value < |listing| then failAt.value else |listing|
      ensures StoreFirst(begun, fold, account, n) == Poll(db, cursor, Fetching(w, listing[n..]), windows)
    {
      n := 0;
      while n < |listing|
        invariant n <= |listing|
        invariant failAt.Some? && failAt.value < |listing| ==> n <= failAt.value
        invariant StoreFirst(begun, fold, account, n) == Poll(db, cursor, Fetching(w, listing[n..]), windows)
      {
        if failAt == Some(n) {
          return;
        }
        StoreNext(begun, fold, account, n, listing);
        db := O.Ingest(db, fold, account, listing[n]);
        n := n + 1;
      }
    }
  }
}
