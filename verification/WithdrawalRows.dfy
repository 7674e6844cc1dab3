/** The withdrawals and users tables: many rows that share balances, the statements that
    write them, what each user is owed, and how a row follows WithdrawalProtocol. */
module WithdrawalRows {
  import opened Wrappers
  import opened MapSums
  import opened WithdrawalStatus
  import P = WithdrawalProtocol

  datatype Row = Row(
    user: nat, amount: nat, destination: string, status: Status, hasKey: bool,
    transferId: Option<nat>, txHash: Option<nat>, createdAt: int)

  datatype Table = Table(balances: map<nat, int>, rows: map<nat, Row>)

  /** Rows belong to existing users. */
  predicate Owned(t: Table) {
    forall id :: id in t.rows ==> t.rows[id].user in t.balances
  }

  function Paid(balances: map<nat, int>, user: nat, amount: int): map<nat, int> {
    if user in balances then balances[user := balances[user] + amount] else balances
  }

  // ── One statement or transaction on one row ───────────────────────────────

  predicate In(t: Table, id: nat, from: set<Status>) {
    id in t.rows && t.rows[id].status in from
  }

  function Moved(t: Table, id: nat, from: set<Status>, to: Status): Table {
    if In(t, id, from) then t.(rows := t.rows[id := t.rows[id].(status := to)]) else t
  }

  function GiveBack(t: Table, id: nat, from: set<Status>, to: Status): Table {
    if In(t, id, from)
    then Moved(t, id, from, to).(balances := Paid(t.balances, t.rows[id].user, t.rows[id].amount))
    else t
  }

  /** `atomicRestore` and the unguarded UPDATE to "failed". */
  function Restored(t: Table, id: nat): Table {
    if id in t.rows
    then Table(Paid(t.balances, t.rows[id].user, t.rows[id].amount), t.rows[id := t.rows[id].(status := Failed)])
    else t
  }

  // ── What a user is owed ───────────────────────────────────────────────────

  predicate GivenBack(status: Status) { status in {Failed, Refunded} }

  function Claim(r: Row, user: nat): int {
    if r.user == user && !GivenBack(r.status) then r.amount else 0
  }

  function Claims(rows: map<nat, Row>, user: nat): map<nat, int> {
    map id | id in rows :: Claim(rows[id], user)
  }

  /** A user's balance and the withdrawals that were not given back. */
  ghost function Owed(t: Table, user: nat): int {
    (if user in t.balances then t.balances[user] else 0) + Sum(Claims(t.rows, user))
  }

  lemma OwedAfter(t: Table, id: nat, row: Row, user: nat)
    requires id in t.rows
    ensures Sum(Claims(t.rows[id := row], user)) == Sum(Claims(t.rows, user)) - Claim(t.rows[id], user) + Claim(row, user)
  {
    SumPut(Claims(t.rows, user), id, Claim(row, user));
    assert Claims(t.rows[id := row], user) == Claims(t.rows, user)[id := Claim(row, user)];
  }

  lemma SameClaim(t: Table, id: nat, row: Row, user: nat)
    requires id in t.rows && row.user == t.rows[id].user && row.amount == t.rows[id].amount
    requires GivenBack(row.status) == GivenBack(t.rows[id].status)
    ensures Owed(t.(rows := t.rows[id := row]), user) == Owed(t, user)
  {
    OwedAfter(t, id, row, user);
  }

  /** A guarded refund pays out of the claim, for any number of attempts. */
  lemma RefundKeepsOwed(t: Table, id: nat, from: set<Status>, to: Status, user: nat)
    requires Owned(t) && GivenBack(to) && Failed !in from && Refunded !in from
    ensures Owed(GiveBack(t, id, from, to), user) == Owed(t, user)
  {
    if In(t, id, from) {
      OwedAfter(t, id, t.rows[id].(status := to), user);
    }
  }

  lemma MoveKeepsOwed(t: Table, id: nat, from: set<Status>, to: Status, user: nat)
    requires !GivenBack(to) && Failed !in from && Refunded !in from
    ensures Owed(Moved(t, id, from, to), user) == Owed(t, user)
  {
    if In(t, id, from) {
      OwedAfter(t, id, t.rows[id].(status := to), user);
    }
  }

  /** The route's unguarded restore pays a second time exactly when the row was already
      given back. */
  lemma RestoreKeepsOwedExactly(t: Table, id: nat, user: nat)
    requires Owned(t) && id in t.rows
    ensures Owed(Restored(t, id), user)
         == Owed(t, user) + if GivenBack(t.rows[id].status) && t.rows[id].user == user then t.rows[id].amount else 0
  {
    OwedAfter(t, id, t.rows[id].(status := Failed), user);
  }

  // ── The table follows the protocol ────────────────────────────────────────

  /** A delivered row; the hash is kept if none is known. */
  function Delivered(r: Row, txHash: Option<nat>): Row {
    r.(status := Completed, txHash := if txHash.Some? then txHash else r.txHash)
  }

  /** A row after a mint notification for its transfer. */
  function Minted(r: Row, txHash: Option<nat>): Row {
    if (r.status == Completed && r.txHash.Some?) || r.status in {Refunded, Failed} then r
    else r.(status := Completed, txHash := txHash)
  }

  /** The write that an action of the protocol makes. `paid`: the id of the transfer, and
      `txHash`: its hash, if the action comes with one. */
  function Write(t: Table, id: nat, a: P.Action, paid: nat, txHash: Option<nat>): Table {
    match a
    case ChainUnsupported | DirectRejected | GatewayRejected | RoutePollerSeesFailure => Restored(t, id)
    case ChooseGateway => Set(t, id, SubmittingGateway, None)
    case GatewayInconclusive => Set(t, id, NeedsReview, None)
    case RecordDirect => Set(t, id, Completed, Some(paid))
    case RecordGateway => Set(t, id, Delivering, Some(paid))
    case ReconHold | ReconConflict => Moved(t, id, {Processing, SubmittingGateway}, NeedsReview)
    case ReconRecord => if In(t, id, {Processing}) then Set(t, id, Completed, Some(paid)) else t
    case ReconRejected => GiveBack(t, id, {Processing}, Failed)
    case ReconPollerSeesFailure => GiveBack(t, id, {Completed}, Failed)
    case DeliveryConfirmed =>
      if In(t, id, {Delivering}) then t.(rows := t.rows[id := Delivered(t.rows[id], txHash)]) else t
    case DeliveryFailed => GiveBack(t, id, {Delivering}, Refunded)
    case MintWebhook => if id in t.rows then t.(rows := t.rows[id := Minted(t.rows[id], txHash)]) else t
    case AdminDelivered =>
      if In(t, id, {NeedsReview}) then t.(rows := t.rows[id := Delivered(t.rows[id], txHash)]) else t
    case AdminRefund => GiveBack(t, id, {NeedsReview}, Refunded)
    case _ => t
  }

  /** An unguarded UPDATE of one row. */
  function Set(t: Table, id: nat, status: Status, paid: Option<nat>): Table {
    if id !in t.rows then t
    else t.(rows := t.rows[id := t.rows[id].(status := status, transferId := if paid.Some? then paid else t.rows[id].transferId)])
  }

  /** The protocol's state describes this row; the balance is its owner's. */
  predicate Shows(t: Table, id: nat, s: P.State) {
    && id in t.rows && t.rows[id].user in t.balances
    && s.status == t.rows[id].status && s.gross == t.rows[id].amount
    && s.balance == t.balances[t.rows[id].user] && (s.transferId == P.NoId <==> t.rows[id].transferId == None)
  }

  lemma HandlerWrites(t: Table, id: nat, s: P.State, a: P.Action, paid: nat, txHash: Option<nat>)
    requires Shows(t, id, s) && P.ActorOf(a) == P.Handler && !a.Deduct?
    ensures Shows(Write(t, id, a, paid, txHash), id, P.Do(s, a))
  {
  }

  lemma OutcomeWrites(t: Table, id: nat, s: P.State, a: P.Action, paid: nat, txHash: Option<nat>)
    requires Shows(t, id, s) && P.ActorOf(a) == P.Outcome
    ensures Shows(Write(t, id, a, paid, txHash), id, P.Do(s, a))
  {
  }

  lemma WorldWrites(t: Table, id: nat, s: P.State, a: P.Action, paid: nat, txHash: Option<nat>)
    requires Shows(t, id, s) && P.ActorOf(a) == P.World
    ensures Shows(Write(t, id, a, paid, txHash), id, P.Do(s, a))
  {
  }

  lemma PassHolds(t: Table, id: nat, s: P.State, a: P.Action, paid: nat, txHash: Option<nat>)
    requires Shows(t, id, s) && a in {P.ReconHold, P.ReconConflict, P.ReconRejected}
    ensures Shows(Write(t, id, a, paid, txHash), id, P.Do(s, a))
  {
  }

  lemma PassWrites(t: Table, id: nat, s: P.State, a: P.Action, paid: nat, txHash: Option<nat>)
    requires Shows(t, id, s) && P.ActorOf(a) == P.Pass && a !in {P.ReconHold, P.ReconConflict, P.ReconRejected}
    ensures Shows(Write(t, id, a, paid, txHash), id, P.Do(s, a))
  {
  }

  /** The writers that give the amount back, and those that do not. */
  predicate Refunds(a: P.Action) {
    a in {P.RoutePollerSeesFailure, P.ReconPollerSeesFailure, P.DeliveryFailed, P.AdminRefund}
  }

  lemma RefunderWrites(t: Table, id: nat, s: P.State, a: P.Action, paid: nat, txHash: Option<nat>)
    requires Shows(t, id, s) && P.ActorOf(a) == P.Writer && Refunds(a)
    ensures Shows(Write(t, id, a, paid, txHash), id, P.Do(s, a))
  {
  }

  lemma ConfirmerWrites(t: Table, id: nat, s: P.State, a: P.Action, paid: nat, txHash: Option<nat>)
    requires Shows(t, id, s) && P.ActorOf(a) == P.Writer && !Refunds(a)
    ensures Shows(Write(t, id, a, paid, txHash), id, P.Do(s, a))
  {
  }

  predicate SameElsewhere(t: Table, t': Table, id: nat, user: nat) {
    && (forall other :: other in t.rows && other != id ==> other in t'.rows && t'.rows[other] == t.rows[other])
    && (forall u :: u in t.balances && u != user ==> u in t'.balances && t'.balances[u] == t.balances[u])
  }

  lemma WritesOneRow(t: Table, id: nat, a: P.Action, paid: nat, txHash: Option<nat>)
    requires id in t.rows
    ensures SameElsewhere(t, Write(t, id, a, paid, txHash), id, t.rows[id].user)
  {
  }

  /** Every write to the real tables is the protocol's step on that row, and leaves every
      other row and every other user's balance alone. */
  lemma WriteFollowsProtocol(t: Table, id: nat, s: P.State, a: P.Action, paid: nat, txHash: Option<nat>)
    requires Shows(t, id, s) && !a.Deduct?
    ensures Shows(Write(t, id, a, paid, txHash), id, P.Do(s, a))
    ensures SameElsewhere(t, Write(t, id, a, paid, txHash), id, t.rows[id].user)
  {
    hide Shows, SameElsewhere, Write, P.Do;
    assert id in t.rows by { Shown(t, id, s); }
    match P.ActorOf(a) {
      case Handler => HandlerWrites(t, id, s, a, paid, txHash);
      case Outcome => OutcomeWrites(t, id, s, a, paid, txHash);
      case World => WorldWrites(t, id, s, a, paid, txHash);
      case Pass =>
        if a in {P.ReconHold, P.ReconConflict, P.ReconRejected} {
          PassHolds(t, id, s, a, paid, txHash);
        } else {
          PassWrites(t, id, s, a, paid, txHash);
        }
      case Writer =>
        if Refunds(a) {
          RefunderWrites(t, id, s, a, paid, txHash);
        } else {
          ConfirmerWrites(t, id, s, a, paid, txHash);
        }
    }
    WritesOneRow(t, id, a, paid, txHash);
  }

  lemma Shown(t: Table, id: nat, s: P.State)
    requires Shows(t, id, s)
    ensures id in t.rows
  {
  }
}
