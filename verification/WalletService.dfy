/** The wallet tables as one uncontended call changes them. */
module WalletService {
  import opened Common
  import opened Wallet

  class Service {
    var balances: map<string, int>
    var ledger: seq<Entry>

    constructor (users: set<string>)
      ensures Contents() == Book(map u | u in users :: 0, []) && BookOk(Contents())
    {
      balances := map u | u in users :: 0;
      ledger := [];
    }

    function Contents(): Book
      reads this
    {
      Book(balances, ledger)
    }

    method ExistingByIdempotency(key: Key) returns (found: Option<nat>)
      ensures found == if HasKey(ledger, key) then Some(IndexOf(ledger, key)) else None
    {
      for i := 0 to |ledger|
        invariant forall j :: 0 <= j < i ==> ledger[j].key != key
      {
        if ledger[i].key == key {
          return Some(i);
        }
      }
      return None;
    }

    method ApplyCall(r: Request) returns (result: Result<nat, Error>)
      modifies this
      ensures (Contents(), result) == Apply(old(Contents()), r)
    {
      if r.amount == 0 {
        return Err(BadAmount);
      }
      var existing := ExistingByIdempotency(r.key);
      if existing.Some? {
        var e := ledger[existing.value];
        if e.user != r.user || e.amount != r.amount || e.kind != r.kind {
          return Err(IdempotencyConflict);
        }
        return Ok(existing.value);
      }
      if r.user !in balances {
        return Err(UserNotFound);
      }
      var newBalance := balances[r.user] + r.amount;
      if newBalance < 0 {
        return Err(InsufficientFunds);
      }
      balances := balances[r.user := newBalance];
      result := Ok(|ledger|);
      ledger := ledger + [Entry(r.user, r.kind, r.amount, newBalance, r.key)];
    }
  }
}
