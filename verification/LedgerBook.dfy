/** Custodial balances and email escrows, and every transaction that moves money
    between them. Amounts are micro-USDC. */
module LedgerBook {
  import opened Wrappers
  import opened MapSums

  // identifiers are only ever compared; emails are already lower-cased and trimmed
  type UserId = nat
  type Email = nat
  type Hash = nat

  /** `Confirmed` is what the recurring worker writes. */
  datatype EscrowStatus = Pending | Confirmed | Claimed

  datatype Escrow = Escrow(emailHash: Hash, amount: int, status: EscrowStatus, recipient: Option<UserId>)

  datatype Book = Book(balances: map<UserId, int>, emails: map<UserId, Email>, escrows: map<nat, Escrow>, nextId: nat)

  datatype Error = InvalidAmount | InsufficientBalance | UserNotFound | SelfPayment | InvalidRecipient | TypeMismatch

  datatype Result = Ok(book: Book) | Err(error: Error)

  const MIN_SEND := 1_000_000
  const MAX_SEND := 1_000_000_000_000

  // ── Building blocks ───────────────────────────────────────────────────────

  /** Who has this email, if anybody. */
  ghost function Owner(b: Book, email: Email): Option<UserId> {
    if exists u :: u in b.emails && b.emails[u] == email
    then var u :| u in b.emails && b.emails[u] == email; Some(u)
    else None
  }

  function Debit(b: Book, user: UserId, amount: int): Result {
    if amount <= 0 then Err(InvalidAmount)
    else if user !in b.balances || b.balances[user] < amount then Err(InsufficientBalance)
    else Ok(b.(balances := b.balances[user := b.balances[user] - amount]))
  }

  function Credit(b: Book, user: UserId, amount: int): Result {
    if amount <= 0 then Err(InvalidAmount)
    else if user !in b.balances then Err(UserNotFound)
    else Ok(b.(balances := b.balances[user := b.balances[user] + amount]))
  }

  function AddEscrow(b: Book, e: Escrow): Book {
    b.(escrows := b.escrows[b.nextId := e], nextId := b.nextId + 1)
  }

  // ── Transactions ──────────────────────────────────────────────────────────

  /** Debits `payer`; credits `recipient` if there is one, else leaves an escrow. */
  function Transfer(b: Book, payer: UserId, hash: Hash, recipient: Option<UserId>, amount: int, held: EscrowStatus): Result {
    match Debit(b, payer, amount)
    case Err(e) => Err(e)
    case Ok(b1) =>
      if recipient.None? then Ok(AddEscrow(b1, Escrow(hash, amount, held, None)))
      else match Credit(b1, recipient.value, amount)
        case Err(e) => Err(e)
        case Ok(b2) => Ok(AddEscrow(b2, Escrow(hash, amount, Claimed, recipient)))
  }

  function PendingFor(b: Book, hash: Hash): set<nat> {
    set i | i in b.escrows && b.escrows[i].emailHash == hash && b.escrows[i].status == Pending
  }

  function Amounts(escrows: map<nat, Escrow>, ids: set<nat>): map<nat, int> {
    map i | i in escrows && i in ids :: escrows[i].amount
  }

  function MarkClaimed(escrows: map<nat, Escrow>, ids: set<nat>, user: UserId): map<nat, Escrow> {
    map i | i in escrows :: if i in ids then escrows[i].(status := Claimed, recipient := Some(user)) else escrows[i]
  }

  /** Everything pending for the user's email, in one transaction. */
  ghost function ClaimAll(b: Book, user: UserId, hash: Hash): Result {
    var ids := PendingFor(b, hash);
    var b1 := b.(escrows := MarkClaimed(b.escrows, ids, user));
    var total := Sum(Amounts(b.escrows, ids));
    if total > 0 then Credit(b1, user, total) else Ok(b1)
  }

  /** The transactions. `recipient` of `Send` is what a SELECT found some time before
      the transaction, so it may be out of date. */
  datatype Op =
    | Join(user: UserId, email: Email)
    | Send(sender: UserId, to: Email, recipient: Option<UserId>, amount: int)
    | Claim(user: UserId)
    | ClaimByRoute(user: UserId)
    | Charge(subscriber: UserId, creator: UserId, payout: Email, amount: int)
    | Recurring(sender: UserId, to: Email, amount: int)

  ghost function Apply(b: Book, hash: Email -> Hash, op: Op): Result {
    match op
    case Join(u, email) =>
      if u in b.balances || u in b.emails || Owner(b, email).Some? then Err(InvalidRecipient)
      else Ok(b.(balances := b.balances[u := 0], emails := b.emails[u := email]))
    case Send(sender, to, recipient, amount) =>
      if sender in b.emails && b.emails[sender] == to then Err(InvalidRecipient)
      else if amount < MIN_SEND || amount > MAX_SEND then Err(InvalidAmount)
      else Transfer(b, sender, hash(to), recipient, amount, Pending)
    case Claim(u) =>
      if u !in b.emails then Err(UserNotFound) else ClaimAll(b, u, hash(b.emails[u]))
    // the route writes the new balance as TEXT, which PostgreSQL does not assign to a numeric column
    case ClaimByRoute(u) =>
      if u !in b.emails then Err(UserNotFound)
      else if PendingFor(b, hash(b.emails[u])) == {} then Ok(b)
      else Err(TypeMismatch)
    case Charge(s, creator, payout, amount) =>
      if amount <= 0 then Err(InvalidAmount)
      else if s == creator || (s in b.emails && b.emails[s] == payout) || Owner(b, payout) == Some(s) then Err(SelfPayment)
      else Transfer(b, s, hash(payout), Owner(b, payout), amount, Pending)
    case Recurring(sender, to, amount) => Transfer(b, sender, hash(to), None, amount, Confirmed)
  }

  /** A transaction that throws is rolled back. */
  ghost function Commit(b: Book, hash: Email -> Hash, op: Op): Book {
    match Apply(b, hash, op)
    case Ok(b') => b'
    case Err(_) => b
  }

  ghost function Run(b: Book, hash: Email -> Hash, ops: seq<Op>): Book
    decreases |ops|
  {
    if ops == [] then b else Run(Commit(b, hash, ops[0]), hash, ops[1..])
  }

  lemma {:induction false} RunThen(b: Book, hash: Email -> Hash, ops: seq<Op>, op: Op)
    ensures Run(b, hash, ops + [op]) == Commit(Run(b, hash, ops), hash, op)
    decreases |ops|
  {
    hide Commit;
    if ops == [] {
      assert ([] + [op])[1..] == [];
    } else {
      RunThen(Commit(b, hash, ops[0]), hash, ops[1..], op);
      assert (ops + [op])[1..] == ops[1..] + [op];
    }
  }

  lemma {:induction false} RunAppend(b: Book, hash: Email -> Hash, ops: seq<Op>, more: seq<Op>)
    ensures Run(b, hash, ops + more) == Run(Run(b, hash, ops), hash, more)
    decreases |ops|
  {
    hide Commit;
    if ops == [] {
      assert ops + more == more;
    } else {
      RunAppend(Commit(b, hash, ops[0]), hash, ops[1..], more);
      assert (ops + more)[1..] == ops[1..] + more;
    }
  }

  // ── Who is paid ───────────────────────────────────────────────────────────

  /** From b to b', `amount` went from the payer to the recipient, or into a new escrow for
      the hash; nobody else's balance and no other escrow changed. */
  ghost predicate Pays(b: Book, b': Book, payer: UserId, hash: Hash, recipient: Option<UserId>, amount: int, held: EscrowStatus) {
    && amount > 0 && payer in b.balances && b.balances[payer] >= amount
    && b'.emails == b.emails && b'.balances.Keys == b.balances.Keys
    && (forall u :: u in b.balances ==>
          b'.balances[u] == b.balances[u] - (if u == payer then amount else 0) + (if recipient == Some(u) then amount else 0))
    && b'.nextId == b.nextId + 1
    && b'.escrows == b.escrows[b.nextId := Escrow(hash, amount, if recipient.Some? then Claimed else held, recipient)]
  }

  predicate CanPay(b: Book, payer: UserId, recipient: Option<UserId>, amount: int) {
    amount > 0 && payer in b.balances && b.balances[payer] >= amount && (recipient.Some? ==> recipient.value in b.balances)
  }

  lemma TransferPaysExactly(b: Book, payer: UserId, hash: Hash, recipient: Option<UserId>, amount: int, held: EscrowStatus)
    ensures var r := Transfer(b, payer, hash, recipient, amount, held);
            && (r.Ok? <==> CanPay(b, payer, recipient, amount))
            && (r.Ok? ==> Pays(b, r.book, payer, hash, recipient, amount, held))
  {
  }

  /** A send pays the user who was found, or leaves the money for the email, exactly if it
      is between 1 and 1,000,000 USDC, not to oneself, and covered. */
  lemma SendPaysExactly(b: Book, hash: Email -> Hash, sender: UserId, to: Email, recipient: Option<UserId>, amount: int)
    ensures var r := Apply(b, hash, Send(sender, to, recipient, amount));
            && (r.Ok? <==>
                  && 1_000_000 <= amount <= 1_000_000_000_000 && CanPay(b, sender, recipient, amount)
                  && !(sender in b.emails && b.emails[sender] == to))
            && (r.Ok? ==> Pays(b, r.book, sender, hash(to), recipient, amount, Pending))
  {
    hide Pays, CanPay;
    TransferPaysExactly(b, sender, hash(to), recipient, amount, Pending);
  }

  /** A charge is paid by the subscriber, to whoever has the payout email or else into an
      escrow for it, exactly if it is covered and the subscriber is neither the creator nor
      the owner of the payout email. */
  lemma ChargePaysExactly(b: Book, hash: Email -> Hash, subscriber: UserId, creator: UserId, payout: Email, amount: int)
    requires Valid(b)
    ensures var r := Apply(b, hash, Charge(subscriber, creator, payout, amount));
            && (r.Ok? <==>
                  && amount > 0 && subscriber in b.balances && b.balances[subscriber] >= amount
                  && subscriber != creator && b.emails[subscriber] != payout)
            && (r.Ok? ==>
                  && (forall u :: u in b.emails && b.emails[u] == payout
                        ==> Pays(b, r.book, subscriber, hash(payout), Some(u), amount, Pending))
                  && ((forall u :: u in b.emails ==> b.emails[u] != payout)
                        ==> Pays(b, r.book, subscriber, hash(payout), None, amount, Pending)))
  {
    hide Pays;
    TransferPaysExactly(b, subscriber, hash(payout), Owner(b, payout), amount, Pending);
  }

  /** A recurring transfer always goes into a confirmed escrow, even to an existing user. */
  lemma RecurringPaysExactly(b: Book, hash: Email -> Hash, sender: UserId, to: Email, amount: int)
    ensures var r := Apply(b, hash, Recurring(sender, to, amount));
            && (r.Ok? <==> CanPay(b, sender, None, amount))
            && (r.Ok? ==> Pays(b, r.book, sender, hash(to), None, amount, Confirmed))
  {
    hide Pays, CanPay;
    TransferPaysExactly(b, sender, hash(to), None, amount, Confirmed);
  }

  // ── What is conserved ─────────────────────────────────────────────────────

  function Held(e: Escrow): int {
    if e.status == Claimed then 0 else e.amount
  }

  function HeldAmounts(escrows: map<nat, Escrow>): map<nat, int> {
    map i | i in escrows :: Held(escrows[i])
  }

  /** All the money: every balance plus every escrow still held. */
  ghost function Worth(b: Book): int {
    Sum(b.balances) + Sum(HeldAmounts(b.escrows))
  }

  ghost predicate Valid(b: Book) {
    && b.emails.Keys == b.balances.Keys
    && (forall u, v :: u in b.emails && v in b.emails && b.emails[u] == b.emails[v] ==> u == v)
    && (forall u :: u in b.balances ==> b.balances[u] >= 0)
    && (forall i :: i in b.escrows ==> i < b.nextId && b.escrows[i].amount > 0)
  }

  /** An escrow stays as it is, or goes from pending to claimed, keeping its amount. */
  predicate Moves(e: Escrow, e': Escrow) {
    e' == e || (e.status == Pending && e'.recipient.Some? && e' == e.(status := Claimed, recipient := e'.recipient))
  }

  predicate EscrowsMove(e: map<nat, Escrow>, e': map<nat, Escrow>) {
    forall i :: i in e ==> i in e' && Moves(e[i], e'[i])
  }

  lemma AddEscrowWorth(b: Book, e: Escrow)
    requires Valid(b)
    ensures Worth(AddEscrow(b, e)) == Worth(b) + Held(e)
  {
    SumPut(HeldAmounts(b.escrows), b.nextId, Held(e));
    assert HeldAmounts(AddEscrow(b, e).escrows) == HeldAmounts(b.escrows)[b.nextId := Held(e)];
  }

  lemma DebitWorth(b: Book, user: UserId, amount: int)
    requires Valid(b) && Debit(b, user, amount).Ok?
    ensures var b' := Debit(b, user, amount).book; Valid(b') && Worth(b') == Worth(b) - amount
  {
    SumPut(b.balances, user, b.balances[user] - amount);
  }

  lemma CreditWorth(b: Book, user: UserId, amount: int)
    requires Valid(b) && Credit(b, user, amount).Ok?
    ensures var b' := Credit(b, user, amount).book; Valid(b') && Worth(b') == Worth(b) + amount
  {
    SumPut(b.balances, user, b.balances[user] + amount);
  }

  lemma TransferWorth(b: Book, payer: UserId, hash: Hash, recipient: Option<UserId>, amount: int, held: EscrowStatus)
    requires Valid(b) && held != Claimed && Transfer(b, payer, hash, recipient, amount, held).Ok?
    ensures var b' := Transfer(b, payer, hash, recipient, amount, held).book;
      Valid(b') && Worth(b') == Worth(b) && EscrowsMove(b.escrows, b'.escrows)
  {
    hide Sum, Worth;
    DebitWorth(b, payer, amount);
    var b1 := Debit(b, payer, amount).book;
    if recipient.None? {
      AddEscrowWorth(b1, Escrow(hash, amount, held, None));
    } else {
      CreditWorth(b1, recipient.value, amount);
      AddEscrowWorth(Credit(b1, recipient.value, amount).book, Escrow(hash, amount, Claimed, recipient));
    }
  }

  /** Marking escrows claimed releases exactly the sum of their amounts. */
  lemma MarkClaimedReleases(escrows: map<nat, Escrow>, ids: set<nat>, user: UserId)
    requires forall i :: i in ids ==> i in escrows && escrows[i].status == Pending
    ensures Sum(HeldAmounts(MarkClaimed(escrows, ids, user))) == Sum(HeldAmounts(escrows)) - Sum(Amounts(escrows, ids))
  {
    var m, m' := HeldAmounts(escrows), HeldAmounts(MarkClaimed(escrows, ids, user));
    SumSplit(m, ids);
    SumSplit(m', ids);
    SumZero(Only(m', ids));
    assert Only(m, ids) == Amounts(escrows, ids);
    assert m' - ids == m - ids;
  }

  lemma ClaimWorth(b: Book, user: UserId, hash: Hash)
    requires Valid(b) && ClaimAll(b, user, hash).Ok?
    ensures var b' := ClaimAll(b, user, hash).book;
      Valid(b') && Worth(b') == Worth(b) && EscrowsMove(b.escrows, b'.escrows)
  {
    hide Sum, HeldAmounts;
    var ids := PendingFor(b, hash);
    MarkClaimedReleases(b.escrows, ids, user);
    SumPositive(Amounts(b.escrows, ids));
    var b1 := b.(escrows := MarkClaimed(b.escrows, ids, user));
    forall i | i in b.escrows && i in ids
      ensures b1.escrows[i] == b.escrows[i].(status := Claimed, recipient := Some(user))
    {
    }
    if Sum(Amounts(b.escrows, ids)) > 0 {
      CreditWorth(b1, user, Sum(Amounts(b.escrows, ids)));
    }
  }

  lemma CommitWorth(b: Book, hash: Email -> Hash, op: Op)
    requires Valid(b)
    ensures var b' := Commit(b, hash, op);
      Valid(b') && Worth(b') == Worth(b) && EscrowsMove(b.escrows, b'.escrows)
  {
    if Apply(b, hash, op).Ok? {
      match op
      case Join(u, email) => SumPut(b.balances, u, 0);
      case Send(sender, to, recipient, amount) => TransferWorth(b, sender, hash(to), recipient, amount, Pending);
      case Claim(u) => ClaimWorth(b, u, hash(b.emails[u]));
      case ClaimByRoute(_) =>
      case Charge(s, _, payout, amount) => TransferWorth(b, s, hash(payout), Owner(b, payout), amount, Pending);
      case Recurring(sender, to, amount) => TransferWorth(b, sender, hash(to), None, amount, Confirmed);
    }
  }

  /** Whatever the order and outcome of sends, claims, charges, recurring transfers and
      sign-ups: no money is made or lost, and no balance is ever negative. */
  lemma {:induction false} Conservation(b: Book, hash: Email -> Hash, ops: seq<Op>)
    requires Valid(b)
    ensures Valid(Run(b, hash, ops)) && Worth(Run(b, hash, ops)) == Worth(b)
    decreases |ops|
  {
    if ops != [] {
      CommitWorth(b, hash, ops[0]);
      Conservation(Commit(b, hash, ops[0]), hash, ops[1..]);
    }
  }

  /** An escrow changes at most once, from pending to claimed, keeping its amount. A
      claimed one never changes again, and neither does one the recurring worker wrote:
      "confirmed" is not picked up by any claim, so that money stays out of every balance. */
  lemma {:induction false} EscrowLife(b: Book, hash: Email -> Hash, ops: seq<Op>, i: nat)
    requires Valid(b) && i in b.escrows
    ensures i in Run(b, hash, ops).escrows && Moves(b.escrows[i], Run(b, hash, ops).escrows[i])
    decreases |ops|
  {
    if ops != [] {
      CommitWorth(b, hash, ops[0]);
      EscrowLife(Commit(b, hash, ops[0]), hash, ops[1..], i);
    }
  }

  /** A claim leaves nothing pending for that email, and the user gains exactly what
      the escrows it turned from pending to claimed were worth. */
  lemma ClaimIsComplete(b: Book, hash: Email -> Hash, user: UserId)
    requires Valid(b) && user in b.emails
    ensures var b', ids := Commit(b, hash, Claim(user)), PendingFor(b, hash(b.emails[user]));
      && PendingFor(b', hash(b.emails[user])) == {}
      && (forall i :: i in b.escrows ==>
            (i in ids <==> b.escrows[i].status == Pending && b'.escrows[i].status == Claimed))
      && b'.balances == b.balances[user := b.balances[user] + Sum(Amounts(b.escrows, ids))]
  {
    hide Sum;
    var ids := PendingFor(b, hash(b.emails[user]));
    SumPositive(Amounts(b.escrows, ids));
    var b' := Commit(b, hash, Claim(user));
    assert b'.escrows == MarkClaimed(b.escrows, ids, user);
    assert Sum(Amounts(b.escrows, ids)) == 0 ==> b'.balances == b.balances[user := b.balances[user] + 0];
  }

  /** The claim routes never claim anything: they change nothing in any state, and their
      transaction commits exactly when nothing is pending. So they leave nothing pending
      exactly if there was nothing to claim. */
  lemma RouteNeverClaims(b: Book, hash: Email -> Hash, user: UserId)
    requires Valid(b) && user in b.emails
    ensures var b', h := Commit(b, hash, ClaimByRoute(user)), hash(b.emails[user]);
      && b' == b
      && (Apply(b, hash, ClaimByRoute(user)).Ok? <==> PendingFor(b, h) == {})
      && (PendingFor(b', h) == {} <==> Commit(b, hash, Claim(user)).balances == b.balances)
  {
    var ids := PendingFor(b, hash(b.emails[user]));
    SumPositive(Amounts(b.escrows, ids));
    if ids != {} {
      var i :| i in ids;
      assert i in Amounts(b.escrows, ids);
    }
  }
}
