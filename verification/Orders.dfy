/**
 Orders, the names they borrow, and the bank transfers that pay them.

 Tables are sequences whose index is the primary key, except the reservation table, which is
 keyed by (bank account, name). Times are integers in one fixed unit (microseconds). Every
 function from `Begin` to `Ingest` is one database transaction or one step of `allocate_order`;
 a step whose guard fails leaves the database alone.
 */
module Orders {
  import opened Common
  import opened OrderLifecycle
  import opened Matcher
  import opened PaymentNames

  /** Largest accepted order lifetime, and the pause before a name is lent again. */
  const MAX_TTL := DAY
  const COOLDOWN := 7 * DAY

  /** `content` is `None` for orders made before names were lent; `kind` and `metaUser` are the
      two metadata entries the top-up flow reads, empty when absent. */
  datatype Order = Order(
    code: string,
    content: Option<string>,
    amount: int,
    account: string,
    kind: string,
    metaUser: string,
    createdAt: int,
    expiredAt: int,
    status: Status,
    paidTx: Option<nat>,
    paidAt: Option<int>)

  datatype TxState = New | TxMatched | TxUnmatched | TxReview

  datatype BankTx = BankTx(ref: string, amount: int, text: string, postedAt: int, reliable: bool)

  datatype Tx = Tx(account: string, bank: BankTx, state: TxState, matchedOrder: Option<nat>)

  datatype Draft = Draft(
    code: string, amount: int, account: string, kind: string, metaUser: string, expiredAt: int)

  /** Where one call of `allocate_order` stands. `now` is the clock value read with the snapshot. */
  datatype Session =
    | Drafted(draft: Draft)
    | Trying(draft: Draft, now: int, names: seq<string>)
    | Looked(draft: Draft, now: int, name: string, rest: seq<string>, sawRow: bool)
    | Allocated(order: nat)
    | PoolFull
    | DuplicateCode

  /** `pool`, `maxTtl` and `cooldown` are configuration; no step changes them. */
  datatype Db = Db(
    pool: seq<string>,
    maxTtl: int,
    cooldown: int,
    clock: int,
    orders: seq<Order>,
    txs: seq<Tx>,
    reserved: map<(string, string), int>,
    sessions: map<nat, Session>)

  function PublicCode(o: Order): string {
    if o.content.Some? then o.content.value else o.code
  }

  // ----- allocate_order, step by step

  function Begin(db: Db, sid: nat, d: Draft, ttl: int): Db {
    if sid in db.sessions || !(0 < ttl <= db.maxTtl) || d.amount <= 0 then db
    else db.(sessions := db.sessions[sid := Drafted(d.(expiredAt := db.clock + ttl))])
  }

  /** When a pre-lending order stops protecting its code, before the cooldown is added. */
  function LegacyEnd(o: Order): int {
    if o.status == Paid && o.paidAt.Some? then o.paidAt.value else o.expiredAt
  }

  predicate LegacyHolds(db: Db, account: string, name: string, now: int, o: Order) {
    && o.account == account
    && o.content.None?
    && EndsWith(o.code, SUFFIX)
    && o.code == name
    && now < LegacyEnd(o) + db.cooldown
  }

  predicate NameFree(db: Db, account: string, name: string, now: int) {
    && ((account, name) in db.reserved ==> db.reserved[(account, name)] <= now)
    && forall i | 0 <= i < |db.orders| :: !LegacyHolds(db, account, name, now, db.orders[i])
  }

  function FreeNames(db: Db, account: string, now: int, pool: seq<string>): seq<string> {
    if pool == [] then []
    else
      (if NameFree(db, account, pool[0], now) then [pool[0]] else [])
      + FreeNames(db, account, now, pool[1..])
  }

  /** Read the clock, the reservations and the old orders; `names` is the shuffled outcome. */
  function Snapshot(db: Db, sid: nat, names: seq<string>): Db {
    if sid in db.sessions && db.sessions[sid].Drafted?
       && multiset(names) == multiset(FreeNames(db, db.sessions[sid].draft.account, db.clock, db.pool))
    then db.(sessions := db.sessions[sid := Trying(db.sessions[sid].draft, db.clock, names)])
    else db
  }

  /** Fetch the reservation row of the next name, or give up when none is left. */
  function Look(db: Db, sid: nat): Db {
    if sid in db.sessions && db.sessions[sid].Trying? then
      var s := db.sessions[sid];
      if s.names == [] then db.(sessions := db.sessions[sid := PoolFull])
      else
        var saw := (s.draft.account, s.names[0]) in db.reserved;
        db.(sessions := db.sessions[sid := Looked(s.draft, s.now, s.names[0], s.names[1..], saw)])
    else db
  }

  predicate CodeTaken(db: Db, code: string) {
    exists i | 0 <= i < |db.orders| :: db.orders[i].code == code
  }

  /** The unique insert (no row was seen) or the guarded update (a row was seen) goes through. */
  predicate Wins(db: Db, s: Session)
    requires s.Looked?
  {
    var key := (s.draft.account, s.name);
    if s.sawRow then key in db.reserved && db.reserved[key] <= s.now else key !in db.reserved
  }

  function NewOrder(d: Draft, name: string, createdAt: int): Order {
    Order(d.code, Some(name), d.amount, d.account, d.kind, d.metaUser, createdAt, d.expiredAt,
          Pending, None, None)
  }

  function Take(db: Db, sid: nat, s: Session): Db
    requires s.Looked?
  {
    db.(reserved := db.reserved[(s.draft.account, s.name) := Max(s.draft.expiredAt, s.now) + db.cooldown],
        orders := db.orders + [NewOrder(s.draft, s.name, db.clock)],
        sessions := db.sessions[sid := Allocated(|db.orders|)])
  }

  function Claim(db: Db, sid: nat): Db {
    if sid in db.sessions && db.sessions[sid].Looked? then
      var s := db.sessions[sid];
      var next := db.(sessions := db.sessions[sid := Trying(s.draft, s.now, s.rest)]);
      if s.sawRow && !Wins(db, s) then next
      else if CodeTaken(db, s.draft.code) then db.(sessions := db.sessions[sid := DuplicateCode])
      else if !Wins(db, s) then next
      else Take(db, sid, s)
    else db
  }

  // ----- the rest of an order's life

  function Tick(db: Db, d: nat): Db {
    db.(clock := db.clock + d)
  }

  /** Both cancel and pay restart the cooldown of the order's name, if it has a reservation. */
  function Rearm(db: Db, o: Order): map<(string, string), int> {
    var key := (o.account, PublicCode(o));
    if key in db.reserved then db.reserved[key := db.clock + db.cooldown] else db.reserved
  }

  function Cancel(db: Db, id: nat): Db {
    if id < |db.orders| && db.orders[id].status == Pending then
      db.(orders := db.orders[id := db.orders[id].(status := Canceled)],
          reserved := Rearm(db, db.orders[id]))
    else db
  }

  /** The administrator's cancel leaves the reservation alone. */
  function AdminCancel(db: Db, id: nat): Db {
    if id < |db.orders| && db.orders[id].status == Pending then
      db.(orders := db.orders[id := db.orders[id].(status := Canceled)])
    else db
  }

  function ExpireRow(o: Order, now: int): Order {
    if o.status == Pending && o.expiredAt <= now then o.(status := Expired) else o
  }

  function Expire(db: Db): Db {
    db.(orders := seq(|db.orders|, i requires 0 <= i < |db.orders| => ExpireRow(db.orders[i], db.clock)))
  }

  // ----- ingest

  predicate Known(db: Db, account: string, ref: string) {
    exists t | 0 <= t < |db.txs| :: db.txs[t].account == account && db.txs[t].bank.ref == ref
  }

  /** The database query plus the time-window filter that guards reusable names. */
  predicate Survives(o: Order, account: string, b: BankTx) {
    && o.status == Pending
    && o.account == account
    && o.amount == b.amount
    && (o.content.None? || (b.reliable && o.createdAt <= b.postedAt < o.expiredAt))
  }

  function ToCandidate(id: nat, o: Order): Candidate {
    Candidate(id, PublicCode(o), o.amount, o.status, o.expiredAt)
  }

  function Survivors(orders: seq<Order>, account: string, b: BankTx): (cs: seq<Candidate>)
    ensures forall c :: c in cs ==> c.id < |orders| && Survives(orders[c.id], account, b)
                                    && c == ToCandidate(c.id, orders[c.id])
  {
    if orders == [] then []
    else
      var n := |orders| - 1;
      Survivors(orders[..n], account, b)
      + (if Survives(orders[n], account, b) then [ToCandidate(n, orders[n])] else [])
  }

  function Decide(db: Db, fold: char -> string, account: string, b: BankTx): (d: Decision)
    ensures d.Matched? ==> d.id < |db.orders| && Survives(db.orders[d.id], account, b)
  {
    var q, cs := Query(fold, b.amount, b.text, db.clock), Survivors(db.orders, account, b);
    HitsAreHits(q, cs);
    assert |Hits(q, cs)| > 0 ==> Hits(q, cs)[0] in Hits(q, cs);
    FindOrderMatch(q, cs)
  }

  function Pay(db: Db, account: string, b: BankTx, i: nat): Db
    requires i < |db.orders| && db.orders[i].status == Pending
  {
    var o := db.orders[i];
    db.(orders := db.orders[i := o.(status := Transition(o.status, Paid).value,
                                    paidTx := Some(|db.txs|), paidAt := Some(db.clock))],
        txs := db.txs + [Tx(account, b, TxMatched, Some(i))],
        reserved := Rearm(db, o))
  }

  /** Store a listed transfer once, and pay the order it identifies. */
  function Ingest(db: Db, fold: char -> string, account: string, b: BankTx): Db {
    if Known(db, account, b.ref) then db
    else if b.amount <= 0 then db.(txs := db.txs + [Tx(account, b, New, None)])
    else
      match Decide(db, fold, account, b)
      case Unmatched => db.(txs := db.txs + [Tx(account, b, TxUnmatched, None)])
      case Ambiguous => db.(txs := db.txs + [Tx(account, b, TxReview, None)])
      case Matched(i) => Pay(db, account, b, i)
  }

  // ----- runs

  datatype Event =
    | EBegin(sid: nat, draft: Draft, ttl: int)
    | ESnapshot(sid: nat, names: seq<string>)
    | ELook(sid: nat)
    | EClaim(sid: nat)
    | ETick(d: nat)
    | ECancel(id: nat)
    | EAdminCancel(id: nat)
    | EExpire
    | EIngest(account: string, bank: BankTx)

  function Step(db: Db, fold: char -> string, e: Event): Db {
    match e
    case EBegin(sid, draft, ttl) => Begin(db, sid, draft, ttl)
    case ESnapshot(sid, names) => Snapshot(db, sid, names)
    case ELook(sid) => Look(db, sid)
    case EClaim(sid) => Claim(db, sid)
    case ETick(d) => Tick(db, d)
    case ECancel(id) => Cancel(db, id)
    case EAdminCancel(id) => AdminCancel(db, id)
    case EExpire => Expire(db)
    case EIngest(account, bank) => Ingest(db, fold, account, bank)
  }

  function Run(db: Db, fold: char -> string, es: seq<Event>): Db {
    if es == [] then db else Step(Run(db, fold, es[..|es| - 1]), fold, es[|es| - 1])
  }
}
