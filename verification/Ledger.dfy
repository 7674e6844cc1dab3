/** The ledger helpers and the routes that use them, over the users and escrows tables. */
module Ledger {
  import opened Wrappers
  import opened MapSums
  import opened LedgerBook

  function ErrorOf(r: Result): Option<Error> {
    match r case Ok(_) => None case Err(e) => Some(e)
  }

  class Database {
    const hashEmail: Email -> Hash
    var balances: map<UserId, int>
    var emails: map<UserId, Email>
    var escrows: map<nat, Escrow>
    var nextId: nat

    ghost function Contents(): Book
      reads this
    {
      Book(balances, emails, escrows, nextId)
    }

    constructor (hash: Email -> Hash)
      ensures hashEmail == hash && Contents() == Book(map[], map[], map[], 0) && Valid(Contents())
    {
      hashEmail := hash;
      balances, emails, escrows, nextId := map[], map[], map[], 0;
    }

    /** Commits or, if the transaction threw, rolls back. */
    twostate predicate Committed(r: Result)
      reads this
    {
      Contents() == match r case Ok(b) => b case Err(_) => old(Contents())
    }

    /** `debitBalance`: one guarded UPDATE. */
    method DebitBalance(user: UserId, amount: int) returns (error: Option<Error>)
      modifies `balances
      ensures Committed(old(Debit(Contents(), user, amount)))
      ensures error == old(ErrorOf(Debit(Contents(), user, amount)))
    {
      if amount <= 0 { return Some(InvalidAmount); }
      if user !in balances || balances[user] < amount { return Some(InsufficientBalance); }
      balances := balances[user := balances[user] - amount];
      return None;
    }

    method CreditBalance(user: UserId, amount: int) returns (error: Option<Error>)
      modifies `balances
      ensures Committed(old(Credit(Contents(), user, amount)))
      ensures error == old(ErrorOf(Credit(Contents(), user, amount)))
    {
      if amount <= 0 { return Some(InvalidAmount); }
      if user !in balances { return Some(UserNotFound); }
      balances := balances[user := balances[user] + amount];
      return None;
    }

    method InsertEscrow(e: Escrow)
      modifies `escrows, `nextId
      ensures Contents() == old(AddEscrow(Contents(), e))
    {
      escrows := escrows[nextId := e];
      nextId := nextId + 1;
    }

    /** The transaction shared by sends and charges. */
    method TransferTx(payer: UserId, hash: Hash, recipient: Option<UserId>, amount: int, held: EscrowStatus)
      returns (error: Option<Error>)
      modifies this
      ensures Committed(old(Transfer(Contents(), payer, hash, recipient, amount, held)))
      ensures error == old(ErrorOf(Transfer(Contents(), payer, hash, recipient, amount, held)))
      ensures error.None? <==> old(CanPay(Contents(), payer, recipient, amount))
      ensures error.None? ==> Pays(old(Contents()), Contents(), payer, hash, recipient, amount, held)
    {
      TransferPaysExactly(Contents(), payer, hash, recipient, amount, held);
      var before := balances;
      error := DebitBalance(payer, amount);
      if error.Some? { return; }
      if recipient.Some? {
        error := CreditBalance(recipient.value, amount);
        if error.Some? {
          balances := before;  // roll back
          return;
        }
      }
      var status := if recipient.Some? then Claimed else held;
      InsertEscrow(Escrow(hash, amount, status, recipient));
    }

    /** SELECT id FROM users WHERE email = ... */
    method FindUser(email: Email) returns (user: Option<UserId>)
      requires Valid(Contents())
      ensures user == Owner(Contents(), email)
    {
      if u :| u in emails && emails[u] == email {
        return Some(u);
      }
      return None;
    }

    /** `POST /escrow/send/platform`. `recipient` was looked up before the transaction. */
    method SendPlatform(sender: UserId, to: Email, recipient: Option<UserId>, amount: int) returns (error: Option<Error>)
      modifies this
      ensures Contents() == old(Commit(Contents(), hashEmail, Send(sender, to, recipient, amount)))
      ensures error == old(ErrorOf(Apply(Contents(), hashEmail, Send(sender, to, recipient, amount))))
      ensures error.None? <==>
                && 1_000_000 <= amount <= 1_000_000_000_000 && old(CanPay(Contents(), sender, recipient, amount))
                && !(sender in old(emails) && old(emails)[sender] == to)
      ensures error.None? ==> Pays(old(Contents()), Contents(), sender, hashEmail(to), recipient, amount, Pending)
    {
      SendPaysExactly(Contents(), hashEmail, sender, to, recipient, amount);
      if sender in emails && emails[sender] == to { return Some(InvalidRecipient); }
      if amount < MIN_SEND { return Some(InvalidAmount); }
      if amount > MAX_SEND { return Some(InvalidAmount); }
      if sender !in balances || balances[sender] < amount { return Some(InsufficientBalance); }
      error := TransferTx(sender, hashEmail(to), recipient, amount, Pending);
    }

    /** `chargeSubscription`. */
    method ChargeSubscription(subscriber: UserId, creator: UserId, payout: Email, amount: int) returns (error: Option<Error>)
      requires Valid(Contents())
      modifies this
      ensures Contents() == old(Commit(Contents(), hashEmail, Charge(subscriber, creator, payout, amount)))
      ensures error == old(ErrorOf(Apply(Contents(), hashEmail, Charge(subscriber, creator, payout, amount))))
      ensures error.None? <==>
                && amount > 0 && subscriber in old(balances) && old(balances)[subscriber] >= amount
                && subscriber != creator && old(emails)[subscriber] != payout
      ensures error.None? ==>
                Pays(old(Contents()), Contents(), subscriber, hashEmail(payout), old(Owner(Contents(), payout)), amount, Pending)
    {
      ghost var b := Contents();
      ChargePaysExactly(b, hashEmail, subscriber, creator, payout, amount);
      if amount <= 0 { return Some(InvalidAmount); }
      var recipient := FindUser(payout);
      if subscriber == creator || (subscriber in emails && emails[subscriber] == payout) || recipient == Some(subscriber) {
        return Some(SelfPayment);
      }
      error := TransferTx(subscriber, hashEmail(payout), recipient, amount, Pending);
    }

    /** `claimPendingEscrows`. */
    method ClaimPendingEscrows(user: UserId) returns (error: Option<Error>, total: int, count: nat)
      requires Valid(Contents()) && user in emails
      modifies this
      ensures Contents() == old(Commit(Contents(), hashEmail, Claim(user)))
      ensures error.None? && Valid(Contents())
      ensures total == old(Sum(Amounts(escrows, PendingFor(Contents(), hashEmail(emails[user])))))
      ensures count == old(|PendingFor(Contents(), hashEmail(emails[user]))|)
    {
      ghost var b := Contents();
      CommitWorth(b, hashEmail, Claim(user));
      var hash := hashEmail(emails[user]);
      var claimed := set i | i in escrows && escrows[i].emailHash == hash && escrows[i].status == Pending;
      assert claimed == PendingFor(b, hash);
      SumPositive(Amounts(b.escrows, claimed));
      total := AddUp(escrows, claimed);
      count := |claimed|;
      escrows := MarkClaimed(escrows, claimed, user);
      error := None;
      if total > 0 {
        error := CreditBalance(user, total);
      }
    }

    /** The transaction of `/escrow/claim` and `/escrow/claim/auto`. The balance is written
        as TEXT to a numeric column, so it is rolled back whenever it gets that far. */
    method ClaimByRouteTx(user: UserId) returns (error: Option<Error>)
      requires Valid(Contents()) && user in emails
      modifies `escrows
      ensures Contents() == old(Contents()) == old(Commit(Contents(), hashEmail, ClaimByRoute(user)))
      ensures error == old(ErrorOf(Apply(Contents(), hashEmail, ClaimByRoute(user))))
    {
      var before, hash := escrows, hashEmail(emails[user]);
      var ids := set i | i in escrows && escrows[i].emailHash == hash && escrows[i].status == Pending;
      assert ids == PendingFor(Contents(), hash);
      if ids == {} { return None; }
      var total := AddUp(escrows, ids);
      escrows := MarkClaimed(escrows, ids, user);
      escrows := before;  // the second UPDATE is refused for its type: roll back
      return Some(TypeMismatch);
    }
  }

  /** The `reduce` over the claimed rows. */
  method AddUp(escrows: map<nat, Escrow>, ids: set<nat>) returns (total: int)
    requires ids <= escrows.Keys
    ensures total == Sum(Amounts(escrows, ids))
  {
    var rest := ids;
    total := 0;
    while rest != {}
      invariant rest <= ids
      invariant total == Sum(Amounts(escrows, ids)) - Sum(Amounts(escrows, rest))
      decreases |rest|
    {
      var i :| i in rest;
      SumRemove(Amounts(escrows, rest), i);
      assert Amounts(escrows, rest) - {i} == Amounts(escrows, rest - {i});
      total := total + escrows[i].amount;
      rest := rest - {i};
    }
    assert Amounts(escrows, {}) == map[];
  }
}
