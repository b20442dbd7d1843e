/** What every run of the order database keeps. */
module OrderSafety {
  import opened Common
  import opened OrderLifecycle
  import opened Matcher
  import opened PaymentNames
  import opened Orders

  // ----- the invariant

  ghost predicate RowTimes(db: Db, o: Order) {
    && o.createdAt <= db.clock
    && o.expiredAt <= o.createdAt + db.maxTtl
    && (o.paidAt.Some? ==> o.createdAt <= o.paidAt.value)
  }

  ghost predicate Times(db: Db) {
    forall i :: 0 <= i < |db.orders| ==> RowTimes(db, db.orders[i])
  }

  /** The reservation of a lent name outlives every order that ever took it. */
  ghost predicate CoveredRow(db: Db, o: Order) {
    o.content.Some? ==>
      && (o.account, o.content.value) in db.reserved
      && o.expiredAt <= db.reserved[(o.account, o.content.value)]
      && o.content.value in db.pool
  }

  ghost predicate Covered(db: Db) {
    forall i :: 0 <= i < |db.orders| ==> CoveredRow(db, db.orders[i])
  }

  ghost predicate SameName(o: Order, p: Order) {
    && o.account == p.account
    && PublicCode(o) == PublicCode(p)
    && (o.content.Some? || p.content.Some?)
  }

  /** The half-open windows [createdAt, expiredAt) do not meet. */
  ghost predicate Apart(o: Order, p: Order) {
    o.expiredAt <= p.createdAt || p.expiredAt <= o.createdAt
  }

  ghost predicate Disjoint(db: Db) {
    forall i, j :: 0 <= i < j < |db.orders| && SameName(db.orders[i], db.orders[j])
      ==> Apart(db.orders[i], db.orders[j])
  }

  ghost predicate LegacyUnder(o: Order, account: string, name: string) {
    o.content.None? && o.account == account && o.code == name
  }

  /** No pre-lending order still runs under `name` at time `now`. */
  ghost predicate LegacyOver(orders: seq<Order>, account: string, name: string, now: int) {
    forall i :: 0 <= i < |orders| && LegacyUnder(orders[i], account, name) ==> orders[i].expiredAt <= now
  }

  ghost predicate NameReady(db: Db, account: string, name: string, now: int) {
    name in db.pool && LegacyOver(db.orders, account, name, now)
  }

  ghost predicate NamesReady(db: Db, account: string, names: seq<string>, now: int) {
    forall n :: n in names ==> NameReady(db, account, n, now)
  }

  ghost predicate SessionOk(db: Db, s: Session) {
    match s
    case Drafted(d) => d.expiredAt <= db.clock + db.maxTtl && d.amount > 0
    case Trying(d, now, names) =>
      && d.expiredAt <= db.clock + db.maxTtl && d.amount > 0
      && now <= db.clock && NamesReady(db, d.account, names, now)
    case Looked(d, now, name, rest, sawRow) =>
      && d.expiredAt <= db.clock + db.maxTtl && d.amount > 0
      && now <= db.clock && NameReady(db, d.account, name, now) && NamesReady(db, d.account, rest, now)
    case _ => true
  }

  ghost predicate SessionsOk(db: Db) {
    forall sid :: sid in db.sessions ==> SessionOk(db, db.sessions[sid])
  }

  ghost predicate Config(db: Db) {
    && 0 <= db.maxTtl <= db.cooldown
    && forall n :: n in db.pool ==> EndsWith(n, SUFFIX)
  }

  ghost predicate NamesInv(db: Db) {
    Config(db) && Times(db) && Covered(db) && Disjoint(db) && SessionsOk(db)
  }

  // ----- what no step does: orders keep their identity, and only lending adds to them

  ghost predicate SameIdentity(o: Order, p: Order) {
    && o.code == p.code && o.content == p.content && o.account == p.account && o.amount == p.amount
    && o.createdAt == p.createdAt && o.expiredAt == p.expiredAt
    && o.kind == p.kind && o.metaUser == p.metaUser
  }

  ghost predicate Extends(a: seq<Order>, b: seq<Order>) {
    && |a| <= |b|
    && (forall i :: 0 <= i < |a| ==> SameIdentity(a[i], b[i]))
    && (forall i :: |a| <= i < |b| ==> b[i].content.Some?)
  }

  ghost predicate SameConfig(db: Db, after: Db) {
    after.pool == db.pool && after.maxTtl == db.maxTtl && after.cooldown == db.cooldown
  }

  lemma ExtendsKeepsSession(db: Db, after: Db, s: Session)
    requires SameConfig(db, after) && Extends(db.orders, after.orders) && db.clock <= after.clock
    requires SessionOk(db, s)
    ensures SessionOk(after, s)
  {
  }

  // ----- steps that only settle orders: statuses move, reservations are re-armed

  ghost predicate Settles(db: Db, after: Db) {
    && after == db.(orders := after.orders, txs := after.txs, reserved := after.reserved)
    && |db.orders| == |after.orders| && Extends(db.orders, after.orders)
    && (forall i :: 0 <= i < |db.orders| && after.orders[i].paidAt != db.orders[i].paidAt
          ==> after.orders[i].paidAt == Some(db.clock))
    && (forall k :: k in db.reserved ==>
          k in after.reserved
          && (after.reserved[k] == db.reserved[k] || after.reserved[k] == db.clock + db.cooldown))
  }

  lemma SettlesKeepsNames(db: Db, after: Db)
    requires NamesInv(db) && Settles(db, after)
    ensures NamesInv(after)
  {
  }

  lemma CancelSettles(db: Db, id: nat)
    ensures Settles(db, Cancel(db, id)) && Settles(db, AdminCancel(db, id))
  {
  }

  lemma ExpireSettles(db: Db)
    ensures Settles(db, Expire(db))
  {
  }

  lemma IngestSettles(db: Db, fold: char -> string, account: string, b: BankTx)
    ensures Settles(db, Ingest(db, fold, account, b))
  {
    var d := Decide(db, fold, account, b);
    if d.Matched? {
      PaySettles(db, account, b, d.id);
    }
  }

  lemma PaySettles(db: Db, account: string, b: BankTx, i: nat)
    requires i < |db.orders| && db.orders[i].status == Pending
    ensures Settles(db, Pay(db, account, b, i))
  {
  }

  // ----- allocation

  lemma {:induction false} FreeNamesAreFree(db: Db, account: string, now: int, pool: seq<string>)
    ensures forall n :: n in FreeNames(db, account, now, pool) ==> n in pool && NameFree(db, account, n, now)
  {
    if pool == [] {
    } else {
      FreeNamesAreFree(db, account, now, pool[1..]);
    }
  }

  lemma FreeIsReady(db: Db, account: string, name: string)
    requires Config(db) && Times(db) && NameFree(db, account, name, db.clock) && name in db.pool
    ensures NameReady(db, account, name, db.clock)
  {
  }

  lemma SnapshotKeepsNames(db: Db, sid: nat, names: seq<string>)
    requires NamesInv(db)
    ensures NamesInv(Snapshot(db, sid, names))
  {
    var after := Snapshot(db, sid, names);
    if after != db {
      var account := db.sessions[sid].draft.account;
      FreeNamesAreFree(db, account, db.clock, db.pool);
      forall n | n in names ensures NameReady(after, account, n, db.clock) {
        assert n in multiset(names);
        FreeIsReady(db, account, n);
      }
      SameTables(db, after, sid);
    }
  }

  /** A step that only moves one session. */
  lemma SameTables(db: Db, after: Db, sid: nat)
    requires NamesInv(db) && after == db.(sessions := after.sessions)
    requires forall k :: k in after.sessions && k != sid ==> k in db.sessions && after.sessions[k] == db.sessions[k]
    requires sid in after.sessions ==> SessionOk(after, after.sessions[sid])
    ensures NamesInv(after)
  {
  }

  lemma BeginKeepsNames(db: Db, sid: nat, d: Draft, ttl: int)
    requires NamesInv(db)
    ensures NamesInv(Begin(db, sid, d, ttl))
  {
  }

  lemma LookKeepsNames(db: Db, sid: nat)
    requires NamesInv(db)
    ensures NamesInv(Look(db, sid))
  {
    var after := Look(db, sid);
    if after != db {
      ExtendsKeepsSession(db, after, db.sessions[sid]);
      SameTables(db, after, sid);
    }
  }

  lemma TickKeepsNames(db: Db, d: nat)
    requires NamesInv(db)
    ensures NamesInv(Tick(db, d))
  {
  }

  lemma ClaimKeepsNames(db: Db, sid: nat)
    requires NamesInv(db)
    ensures NamesInv(Claim(db, sid))
  {
    var after := Claim(db, sid);
    if sid in db.sessions && db.sessions[sid].Looked? {
      var s := db.sessions[sid];
      if after == Take(db, sid, s) && Wins(db, s) {
        TakeKeepsNames(db, sid, s);
      } else {
        ExtendsKeepsSession(db, after, s);
        SameTables(db, after, sid);
      }
    }
  }

  lemma TakeKeepsNames(db: Db, sid: nat, s: Session)
    requires NamesInv(db)
    requires s.Looked? && SessionOk(db, s) && Wins(db, s)
    ensures NamesInv(Take(db, sid, s))
  {
    var after := Take(db, sid, s);
    forall i | 0 <= i < |after.orders| ensures RowTimes(after, after.orders[i]) {
      assert i < |db.orders| ==> RowTimes(db, db.orders[i]);
    }
    TakeDisjoint(db, sid, s);
  }

  lemma TakeDisjoint(db: Db, sid: nat, s: Session)
    requires Covered(db) && Disjoint(db)
    requires s.Looked? && SessionOk(db, s) && Wins(db, s)
    ensures Disjoint(Take(db, sid, s))
  {
  }

  lemma StepKeepsNames(db: Db, fold: char -> string, e: Event)
    requires NamesInv(db)
    ensures NamesInv(Step(db, fold, e))
  {
    match e
    case EBegin(sid, draft, ttl) => BeginKeepsNames(db, sid, draft, ttl);
    case ESnapshot(sid, names) => SnapshotKeepsNames(db, sid, names);
    case ELook(sid) => LookKeepsNames(db, sid);
    case EClaim(sid) => ClaimKeepsNames(db, sid);
    case ETick(d) => TickKeepsNames(db, d);
    case ECancel(id) =>
      CancelSettles(db, id);
      SettlesKeepsNames(db, Cancel(db, id));
    case EAdminCancel(id) =>
      CancelSettles(db, id);
      SettlesKeepsNames(db, AdminCancel(db, id));
    case EExpire =>
      ExpireSettles(db);
      SettlesKeepsNames(db, Expire(db));
    case EIngest(account, b) =>
      IngestSettles(db, fold, account, b);
      SettlesKeepsNames(db, Ingest(db, fold, account, b));
  }

  /** A database at the moment lending starts: only pre-lending orders, no call under way. */
  ghost predicate Init(db: Db) {
    && Config(db)
    && Times(db)
    && (forall i :: 0 <= i < |db.orders| ==> db.orders[i].content.None?)
    && db.sessions == map[]
  }

  lemma {:induction false} RunKeepsNames(db: Db, fold: char -> string, es: seq<Event>)
    requires Init(db)
    ensures NamesInv(Run(db, fold, es))
  {
    if es == [] {
    } else {
      RunKeepsNames(db, fold, es[..|es| - 1]);
      StepKeepsNames(Run(db, fold, es[..|es| - 1]), fold, es[|es| - 1]);
    }
  }
}
