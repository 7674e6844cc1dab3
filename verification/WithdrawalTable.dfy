/** The code that writes the withdrawals table: the withdraw route, the reconciliation
    worker, the Gateway delivery worker, the mint webhook and the admin resolve route.
    Each method is one uninterrupted call; WithdrawalProtocol says how calls interleave. */
module WithdrawalTable {
  import opened Wrappers
  import opened MapSums
  import opened WithdrawalStatus
  import opened WithdrawalRows
  import opened Chains
  import opened Destination
  import opened JsStrings
  import GatewayPosts
  import P = WithdrawalProtocol

  const STALE_MS := 600_000

  // ── Answers and their effects ─────────────────────────────────────────────

  /** What Circle says to a direct transfer. An error with a status means nothing was sent. */
  datatype CircleAnswer = Sent(id: nat) | Error(status: Option<int>)

  /** What Gateway says about a transfer. */
  datatype Delivery = CheckFailed | Unknown | Confirmed(txHash: Option<nat>) | Undelivered | Pending

  /** A direct transfer asked of Circle. */
  datatype Request = Request(target: Target, net: int)

  datatype Response = Refused | Insufficient | Unconfirmed | FailedAndRestored | Accepted(id: nat)

  /** What the route sent out. */
  datatype Dispatch = Nothing | Direct(request: Request) | Gateway(attempts: seq<GatewayPosts.Attempt>, outcome: GatewayPosts.Outcome)

  /** The status in which the handler leaves its row. */
  function StatusLeft(sent: Dispatch, circle: CircleAnswer): Status {
    match sent
    case Nothing => Absent
    case Direct(_) =>
      (match circle
       case Sent(_) => Completed
       case Error(None) => Processing
       case Error(Some(_)) => Failed)
    case Gateway(_, Submitted(_)) => Delivering
    case Gateway(_, Inconclusive) => NeedsReview
    case Gateway(_, Failed) => Failed
  }

  function TransferLeft(sent: Dispatch, circle: CircleAnswer): Option<nat> {
    if sent.Direct? && circle.Sent? then Some(circle.id)
    else if sent.Gateway? && sent.outcome.Submitted? then Some(sent.outcome.id)
    else None
  }

  /** What recovery asks of Circle for a stale row that never reached Gateway. */
  function Replay(r: Row): Option<Request> {
    var target := ParseDestination(r.destination);
    if r.status != Processing || target.None? || !r.hasKey then None
    else Some(Request(target.value, NetWithdrawalAmount(target.value.chain, r.amount)))
  }

  predicate RetryLater(status: Option<int>) {
    status.None? || status.value >= 500 || status.value == 429
  }

  /** A stale row after one pass of the reconciliation worker. */
  function Recovered(r: Row, answer: CircleAnswer): Row {
    if Replay(r).None? then r.(status := NeedsReview)
    else match answer
         case Sent(id) => r.(status := Completed, transferId := Some(id))
         case Error(status) =>
           if RetryLater(status) then r
           else if status == Some(409) then r.(status := NeedsReview)
           else r.(status := Failed)
  }

  predicate Stale(r: Row, now: int) {
    r.status in {Processing, SubmittingGateway} && r.createdAt < now - STALE_MS
  }

  /** A delivering row after one pass of the delivery worker. */
  function Checked(r: Row, answer: Delivery): Row {
    if r.status != Delivering || r.transferId.None? then r
    else match answer
         case Confirmed(tx) => Delivered(r, tx)
         case Undelivered => r.(status := Refunded)
         case _ => r
  }

  /** `recoverDirect` on a row seen as `w`. */
  function RecoverEffect(t: Table, id: nat, w: Row, answer: CircleAnswer): Table {
    if Replay(w).None? then Moved(t, id, {Processing, SubmittingGateway}, NeedsReview)
    else match answer
         case Sent(paid) => if In(t, id, {Processing}) then Set(t, id, Completed, Some(paid)) else t
         case Error(status) =>
           if RetryLater(status) then t
           else if status == Some(409) then Moved(t, id, {Processing, SubmittingGateway}, NeedsReview)
           else GiveBack(t, id, {Processing}, Failed)
  }

  lemma RecoverKeeps(t: Table, id: nat, w: Row, answer: CircleAnswer, user: nat)
    requires Owned(t) && id in t.rows && t.rows[id] == w && w.status in {Processing, SubmittingGateway}
    ensures var t' := RecoverEffect(t, id, w, answer);
            && Owned(t') && t'.rows == t.rows[id := Recovered(w, answer)] && Owed(t', user) == Owed(t, user)
  {
    hide ParseDestination, Sum;
    RefundKeepsOwed(t, id, {Processing}, Failed, user);
    MoveKeepsOwed(t, id, {Processing, SubmittingGateway}, NeedsReview, user);
    var t' := RecoverEffect(t, id, w, answer);
    if Replay(w).Some? && answer.Sent? { OwedAfter(t, id, Recovered(w, answer), user); }
  }

  /** One row of `checkGatewayDeliveries`. */
  function CheckEffect(t: Table, id: nat, w: Row, answer: Delivery): Table {
    if w.transferId.None? then t
    else match answer
         case Confirmed(tx) =>
           if In(t, id, {Delivering})
           then t.(rows := t.rows[id := t.rows[id].(status := Completed, txHash := if tx.Some? then tx else w.txHash)])
           else t
         case Undelivered => GiveBack(t, id, {Delivering}, Refunded)
         case _ => t
  }

  lemma CheckKeeps(t: Table, id: nat, w: Row, answer: Delivery, user: nat)
    requires Owned(t) && id in t.rows && t.rows[id] == w && w.status == Delivering
    ensures var t' := CheckEffect(t, id, w, answer);
            && Owned(t') && t'.rows == t.rows[id := Checked(w, answer)] && Owed(t', user) == Owed(t, user)
  {
    hide Sum;
    RefundKeepsOwed(t, id, {Delivering}, Refunded, user);
    if answer.Confirmed? { OwedAfter(t, id, Checked(w, answer), user); }
  }

  function ResponseTo(sent: Dispatch, circle: CircleAnswer): (r: Response)
    requires sent != Nothing
    ensures r.Unconfirmed? || r.FailedAndRestored? || r.Accepted?
  {
    if StatusLeft(sent, circle) == Failed then FailedAndRestored
    else if TransferLeft(sent, circle).Some? then Accepted(TransferLeft(sent, circle).value)
    else Unconfirmed
  }

  /** What the response tells: an id is the one in Circle's answer or in the last attempt's,
      it is stored, and only a definite refusal is answered with the money given back. */
  ghost predicate Told(t: Table, id: nat, user: nat, destination: string, gross: nat, now: int, sent: Dispatch, circle: CircleAnswer, t': Table, r: Response)
    requires sent != Nothing && user in t.balances
  {
    && id in t'.rows && t'.rows - {id} == t.rows - {id}
    && t'.rows[id] == Row(user, gross, destination, t'.rows[id].status, true, t'.rows[id].transferId, None, now)
    && (match sent
        case Direct(_) =>
          (match circle
           case Sent(paid) => r == Accepted(paid) && t'.rows[id].status == Completed
           case Error(None) => r == Unconfirmed && t'.rows[id].status == Processing
           case Error(Some(_)) => r == FailedAndRestored)
        case Gateway(attempts, _) =>
          if attempts != [] && attempts[|attempts| - 1].answer.OkWithId? then
            r == Accepted(attempts[|attempts| - 1].answer.id) && t'.rows[id].status == Delivering
          else if attempts != [] && attempts[|attempts| - 1].answer.NoResponse? then
            r == Unconfirmed && t'.rows[id].status == NeedsReview
          else r == FailedAndRestored)
    && t'.rows[id].transferId == (if r.Accepted? then Some(r.id) else None)
    && (if r.FailedAndRestored? then t'.rows[id].status == Failed && t'.balances == t.balances
        else t'.balances == t.balances[user := t.balances[user] - gross])
  }

  lemma AnswerTells(t: Table, id: nat, user: nat, destination: string, gross: nat, now: int, sent: Dispatch,
                    circle: CircleAnswer, sources: seq<ChainKey>, net: nat, gateway: nat -> GatewayPosts.Answer)
    requires sent != Nothing && user in t.balances
    requires sent.Gateway? ==> GatewayPosts.IsCall(sources, net, gateway, sent.attempts, sent.outcome)
    ensures Told(t, id, user, destination, gross, now, sent, circle, AfterRoute(t, id, user, destination, gross, now, sent, circle),
                 ResponseTo(sent, circle))
  {
  }

  /** The tables when the handler has ended: one new row, and the gross amount is out of
      the balance unless it was given back. */
  function AfterRoute(t: Table, id: nat, user: nat, destination: string, gross: nat, now: int,
                      sent: Dispatch, circle: CircleAnswer): Table
    requires user in t.balances
  {
    var status := StatusLeft(sent, circle);
    Table(if status == Failed then t.balances else t.balances[user := t.balances[user] - gross],
          t.rows[id := Row(user, gross, destination, status, true, TransferLeft(sent, circle), None, now)])
  }

  lemma AfterRouteIs(t: Table, id: nat, user: nat, destination: string, gross: nat, now: int,
                     sent: Dispatch, circle: CircleAnswer, t': Table)
    requires Owned(t) && user in t.balances
    requires t'.balances == if StatusLeft(sent, circle) == Failed
                            then Paid(t.balances[user := t.balances[user] - gross], user, gross)
                            else t.balances[user := t.balances[user] - gross]
    requires t'.rows == t.rows[id := Row(user, gross, destination, StatusLeft(sent, circle), true,
                                         TransferLeft(sent, circle), None, now)]
    ensures t' == AfterRoute(t, id, user, destination, gross, now, sent, circle) && Owned(t')
  {
  }

  /** The handler moves the gross amount between a user's balance and their withdrawals,
      so nobody is owed more or less afterwards, whatever was answered. */
  lemma RouteKeepsOwed(t: Table, id: nat, owner: nat, destination: string, gross: nat, now: int,
                       sent: Dispatch, circle: CircleAnswer, user: nat)
    requires owner in t.balances && id !in t.rows
    ensures Owed(AfterRoute(t, id, owner, destination, gross, now, sent, circle), user) == Owed(t, user)
  {
    hide Sum;
    var t' := AfterRoute(t, id, owner, destination, gross, now, sent, circle);
    SumPut(Claims(t.rows, user), id, Claim(t'.rows[id], user));
    assert Claims(t'.rows, user) == Claims(t.rows, user)[id := Claim(t'.rows[id], user)];
  }

  /** Which action of the protocol a recovery is. */
  function RecoverAction(w: Row, answer: CircleAnswer): P.Action {
    if Replay(w).None? then P.ReconHold
    else match answer
         case Sent(_) => P.ReconRecord
         case Error(status) =>
           if RetryLater(status) then P.ReconRetryLater
           else if status == Some(409) then P.ReconConflict
           else P.ReconRejected
  }

  /** What recovery writes for an answer is what the protocol's action writes. */
  lemma RecoveryFollowsProtocol(t: Table, id: nat, w: Row, answer: CircleAnswer)
    ensures RecoverEffect(t, id, w, answer) == Write(t, id, RecoverAction(w, answer), if answer.Sent? then answer.id else 0, None)
  {
    hide ParseDestination, Paid, In;
  }

  /** A lost answer, a server error, a rate limit and a conflict leave it open whether the
      transfer was taken. */
  predicate LeavesOpen(answer: CircleAnswer) {
    match answer
    case Sent(_) => false
    case Error(None) => true
    case Error(Some(status)) => status >= 500 || status == 429 || status == 409
  }

  /** What Circle can answer to a replay, where `direct` is what it did with the key before:
      any other error status says that the key was never taken. */
  predicate PossibleReplay(direct: P.Payout, answer: CircleAnswer) {
    answer.Sent? || LeavesOpen(answer) || direct == P.NotSent
  }

  /** The steps of one recovery. With an id in the answer, Circle took the transfer before
      or does so now. */
  function RecoveryRun(w: Row, direct: P.Payout, answer: CircleAnswer): seq<P.Action> {
    if Replay(w).None? then [P.ReconHold]
    else if answer.Sent? then [P.ReconPost] + (if direct == P.NotSent then [P.CircleTakes] else []) + [P.ReconOk, P.ReconRecord]
    else [P.ReconPost, RecoverAction(w, answer)]
  }

  /** A step of the protocol on a row, and the write that goes with it. */
  lemma StepWithRow(env: P.Env, s: P.State, acts: seq<P.Action>, u: P.State, t: Table, id: nat, a: P.Action, paid: nat,
                    txHash: Option<nat>)
    returns (acts': seq<P.Action>, u': P.State, t': Table)
    requires P.Runs(env, s, acts) && P.After(s, acts) == u && P.Can(env, u, a) && Shows(t, id, u) && !a.Deduct?
    ensures acts' == acts + [a] && P.Runs(env, s, acts') && P.After(s, acts') == u' == P.Do(u, a)
    ensures t' == Write(t, id, a, paid, txHash) && Shows(t', id, u')
  {
    hide P.Runs, P.After, P.Can, P.Do, Shows, Write;
    acts', u' := P.Then(env, s, acts, u, a);
    t' := Write(t, id, a, paid, txHash);
    WriteFollowsProtocol(t, id, u, a, paid, txHash);
  }

  /** The replay is sent. */
  lemma ReplaySent(env: P.Env, s: P.State, t: Table, id: nat) returns (acts: seq<P.Action>, u: P.State)
    requires Shows(t, id, s) && s.route == P.Ended && s.status == Processing && P.PassFree(env, s)
    ensures acts == [P.ReconPost] && P.Runs(env, s, acts) && P.After(s, acts) == u
    ensures Shows(t, id, u) && u == s.(posting := s.posting + 1)
  {
    hide P.Runs, P.After;
    P.NoSteps(env, s);
    acts, u := P.Then(env, s, [], s, P.ReconPost);
  }

  /** Circle has the transfer, from before or from now on. */
  lemma ReplayTaken(env: P.Env, s: P.State, acts: seq<P.Action>, u: P.State, t: Table, id: nat)
    returns (acts': seq<P.Action>, u': P.State)
    requires P.Runs(env, s, acts) && P.After(s, acts) == u && Shows(t, id, u) && u.posting > 0 && u.status == Processing
    ensures acts' == acts + (if u.direct == P.NotSent then [P.CircleTakes] else []) + [P.ReconOk]
    ensures P.Runs(env, s, acts') && P.After(s, acts') == u'
    ensures Shows(t, id, u') && u'.answered > 0 && u'.status == Processing
  {
    hide P.Runs, P.After;
    acts', u' := acts, u;
    if u.direct == P.NotSent { acts', u' := P.Then(env, s, acts', u', P.CircleTakes); }
    acts', u' := P.Then(env, s, acts', u', P.ReconOk);
  }

  lemma AcceptedReplayIsRun(env: P.Env, s: P.State, t: Table, id: nat, paid: nat)
    requires Shows(t, id, s) && s.route == P.Ended && s.status == Processing && P.PassFree(env, s)
    ensures var acts := [P.ReconPost] + (if s.direct == P.NotSent then [P.CircleTakes] else []) + [P.ReconOk, P.ReconRecord];
            P.Runs(env, s, acts) && Shows(Write(t, id, P.ReconRecord, paid, None), id, P.After(s, acts))
  {
    hide P.Runs, P.After, Shows, Write, P.Do;
    var acts, u := ReplaySent(env, s, t, id);
    acts, u := ReplayTaken(env, s, acts, u, t, id);
    var v;
    acts, u, v := StepWithRow(env, s, acts, u, t, id, P.ReconRecord, paid, None);
    assert acts == [P.ReconPost] + (if s.direct == P.NotSent then [P.CircleTakes] else []) + [P.ReconOk, P.ReconRecord];
  }

  lemma ReplayIsRun(env: P.Env, s: P.State, t: Table, id: nat, a: P.Action)
    requires Shows(t, id, s) && s.route == P.Ended && s.status == Processing && P.PassFree(env, s)
    requires a in {P.ReconRetryLater, P.ReconConflict, P.ReconRejected} && (a.ReconRejected? ==> s.direct == P.NotSent)
    ensures P.Runs(env, s, [P.ReconPost, a]) && Shows(Write(t, id, a, 0, None), id, P.After(s, [P.ReconPost, a]))
  {
    hide P.Runs, P.After, Shows, Write, P.Do;
    var acts, u := ReplaySent(env, s, t, id);
    var v;
    acts, u, v := StepWithRow(env, s, acts, u, t, id, a, 0, None);
    assert acts == [P.ReconPost, a];
  }

  /** The recovery of a row at rest is a run of the protocol, for every answer that Circle
      can give, and leaves the row and the balance as the run does. A payout that Circle
      may have taken is thus never given back here. */
  lemma RecoveryIsRun(env: P.Env, s: P.State, t: Table, id: nat, answer: CircleAnswer)
    requires Shows(t, id, s) && s.route == P.Ended && P.PassFree(env, s) && PossibleReplay(s.direct, answer)
    requires t.rows[id].status in {Processing, SubmittingGateway}
    ensures var w := t.rows[id];
            && P.Runs(env, s, RecoveryRun(w, s.direct, answer))
            && Shows(RecoverEffect(t, id, w, answer), id, P.After(s, RecoveryRun(w, s.direct, answer)))
  {
    hide P.Runs, P.After, ParseDestination, Write, RecoverEffect;
    var w := t.rows[id];
    RecoveryFollowsProtocol(t, id, w, answer);
    if Replay(w).None? {
      P.NoSteps(env, s);
      var acts, u, v := StepWithRow(env, s, [], s, t, id, P.ReconHold, if answer.Sent? then answer.id else 0, None);
      assert acts == [P.ReconHold];
    } else if answer.Sent? {
      AcceptedReplayIsRun(env, s, t, id, answer.id);
    } else {
      ReplayIsRun(env, s, t, id, RecoverAction(w, answer));
    }
  }

  /** After such an answer nobody is paid back, whatever became of the row since it was
      selected: it stays as it is, or is held for review. */
  lemma RecoveryHoldsMoney(t: Table, id: nat, w: Row, answer: CircleAnswer)
    requires LeavesOpen(answer)
    ensures var t' := RecoverEffect(t, id, w, answer);
            || t' == t
            || (id in t.rows && t.rows[id].status in {Processing, SubmittingGateway}
                && t' == t.(rows := t.rows[id := t.rows[id].(status := NeedsReview)]))
  {
    hide ParseDestination;
  }

  /** What a pass makes of one stale row, in the statuses of Circle's answers. */
  ghost predicate RecoveredAs(w: Row, answer: CircleAnswer, after: Row, request: Option<Request>) {
    var target := ParseDestination(w.destination);
    if w.status == SubmittingGateway || !w.hasKey || target.None? then
      after == w.(status := NeedsReview) && request == None
    else
      && request == Some(Request(target.value, NetWithdrawalAmount(target.value.chain, w.amount)))
      && (match answer
          case Sent(id) => after == w.(status := Completed, transferId := Some(id))
          case Error(None) => after == w
          case Error(Some(status)) =>
            && (status >= 500 || status == 429 ==> after == w)
            && (status == 409 ==> after == w.(status := NeedsReview))
            && (status < 500 && status !in {409, 429} ==> after == w.(status := Failed)))
  }

  lemma RecoveredMeans(w: Row, answer: CircleAnswer)
    requires w.status in {Processing, SubmittingGateway}
    ensures RecoveredAs(w, answer, Recovered(w, answer), Replay(w))
  {
    hide ParseDestination, NetWithdrawalAmount;
  }

  /** So it is for the delivery worker: confirmed, undelivered, or nothing yet. */
  lemma CheckFollowsProtocol(t: Table, id: nat, w: Row, answer: Delivery)
    requires id in t.rows && t.rows[id].txHash == w.txHash && w.transferId.Some?
    ensures CheckEffect(t, id, w, answer) == match answer
              case Confirmed(tx) => Write(t, id, P.DeliveryConfirmed, 0, tx)
              case Undelivered => Write(t, id, P.DeliveryFailed, 0, None)
              case _ => t
  {
  }

  /** The checks of a delivering row are runs too: the burn landed if Gateway confirms it,
      and bounced if Gateway says that it was not delivered. */
  lemma CheckIsRun(env: P.Env, s: P.State, t: Table, id: nat, answer: Delivery)
    requires Shows(t, id, s) && s.transferId == P.BurnId
    requires answer.Confirmed? ==> s.burn == P.Landed
    requires answer.Undelivered? ==> s.burn == P.Bounced
    ensures var acts := match answer
                        case Confirmed(_) => [P.DeliveryConfirmed]
                        case Undelivered => [P.DeliveryFailed]
                        case _ => [];
            P.Runs(env, s, acts) && Shows(CheckEffect(t, id, t.rows[id], answer), id, P.After(s, acts))
  {
    hide P.Runs, P.After, Write, CheckEffect;
    CheckFollowsProtocol(t, id, t.rows[id], answer);
    P.NoSteps(env, s);
    if answer.Confirmed? || answer.Undelivered? {
      var a := if answer.Confirmed? then P.DeliveryConfirmed else P.DeliveryFailed;
      var acts, u, v := StepWithRow(env, s, [], s, t, id, a, 0, if answer.Confirmed? then answer.txHash else None);
      assert acts == [a];
    }
  }

  lemma GivenBackRow(t: Table, id: nat, from: set<Status>, to: Status)
    requires In(t, id, from)
    ensures GiveBack(t, id, from, to) == Table(Paid(t.balances, t.rows[id].user, t.rows[id].amount),
                                               t.rows[id := t.rows[id].(status := to)])
  {
  }

  predicate HalfChecked(selected: map<nat, Row>, gateway: nat -> Delivery, todo: set<nat>, rows: map<nat, Row>) {
    rows == map id | id in selected ::
              if selected[id].transferId.Some? && id !in todo then Checked(selected[id], gateway(selected[id].transferId.value))
              else selected[id]
  }

  lemma NoneChecked(selected: map<nat, Row>, gateway: nat -> Delivery)
    ensures HalfChecked(selected, gateway, (set id | id in selected && selected[id].status == Delivering), selected)
  {
  }

  lemma AllChecked(selected: map<nat, Row>, gateway: nat -> Delivery, rows: map<nat, Row>)
    requires HalfChecked(selected, gateway, {}, rows)
    ensures rows == map id | id in selected ::
                      if selected[id].transferId.Some? then Checked(selected[id], gateway(selected[id].transferId.value))
                      else selected[id]
  {
  }

  /** Only what Gateway confirms is completed, only what it did not deliver is refunded. */
  ghost predicate CheckedAs(w: Row, gateway: nat -> Delivery, after: Row) {
    if w.status != Delivering || w.transferId.None? then after == w
    else match gateway(w.transferId.value)
         case Confirmed(Some(tx)) => after == w.(status := Completed, txHash := Some(tx))
         case Confirmed(None) => after == w.(status := Completed)
         case Undelivered => after == w.(status := Refunded)
         case CheckFailed | Unknown | Pending => after == w
  }

  lemma CheckedAll(selected: map<nat, Row>, gateway: nat -> Delivery, rows: map<nat, Row>)
    requires rows == map id | id in selected ::
                       if selected[id].transferId.Some? then Checked(selected[id], gateway(selected[id].transferId.value))
                       else selected[id]
    ensures forall id :: id in selected ==> CheckedAs(selected[id], gateway, rows[id])
  {
  }

  lemma OneChecked(selected: map<nat, Row>, gateway: nat -> Delivery, todo: set<nat>, rows: map<nat, Row>, id: nat)
    requires HalfChecked(selected, gateway, todo, rows) && id in todo && id in selected && selected[id].status == Delivering
    ensures id in rows && rows[id] == selected[id]
    ensures HalfChecked(selected, gateway, todo - {id},
              if selected[id].transferId.Some? then rows[id := Checked(selected[id], gateway(selected[id].transferId.value))]
              else rows)
  {
    hide Checked;
  }

  /** What a pass has done when `todo` is left. */
  predicate HalfRecovered(selected: map<nat, Row>, now: int, circle: nat -> CircleAnswer, todo: set<nat>,
                          rows: map<nat, Row>, requests: map<nat, Request>) {
    && rows == (map id | id in selected ::
                  if Stale(selected[id], now) && id !in todo then Recovered(selected[id], circle(id)) else selected[id])
    && requests == (map id | id in selected && Stale(selected[id], now) && id !in todo && Replay(selected[id]).Some?
                      :: Replay(selected[id]).value)
  }

  lemma NoneRecovered(selected: map<nat, Row>, now: int, circle: nat -> CircleAnswer)
    ensures HalfRecovered(selected, now, circle, (set id | id in selected && Stale(selected[id], now)), selected, map[])
  {
  }

  lemma AllRecovered(selected: map<nat, Row>, now: int, circle: nat -> CircleAnswer, rows: map<nat, Row>, requests: map<nat, Request>)
    requires HalfRecovered(selected, now, circle, {}, rows, requests)
    ensures rows == map id | id in selected ::
                      if Stale(selected[id], now) then Recovered(selected[id], circle(id)) else selected[id]
    ensures requests == map id | id in selected && Stale(selected[id], now) && Replay(selected[id]).Some?
                        :: Replay(selected[id]).value
  {
  }

  function Asked(requests: map<nat, Request>, id: nat): Option<Request> {
    if id in requests then Some(requests[id]) else None
  }

  lemma RecoveredAll(selected: map<nat, Row>, now: int, circle: nat -> CircleAnswer, rows: map<nat, Row>, requests: map<nat, Request>)
    requires rows == map id | id in selected ::
                       if Stale(selected[id], now) then Recovered(selected[id], circle(id)) else selected[id]
    requires requests == map id | id in selected && Stale(selected[id], now) && Replay(selected[id]).Some?
                         :: Replay(selected[id]).value
    ensures forall id :: id in selected ==>
              if selected[id].status in {Processing, SubmittingGateway} && now - selected[id].createdAt > 600_000
              then RecoveredAs(selected[id], circle(id), rows[id], Asked(requests, id))
              else rows[id] == selected[id] && id !in requests
  {
    hide Recovered, Replay, RecoveredAs;
    forall id | id in selected && Stale(selected[id], now)
      ensures RecoveredAs(selected[id], circle(id), rows[id], Asked(requests, id))
    {
      RecoveredMeans(selected[id], circle(id));
    }
  }

  lemma OneRecovered(selected: map<nat, Row>, now: int, circle: nat -> CircleAnswer, todo: set<nat>,
                     rows: map<nat, Row>, requests: map<nat, Request>, id: nat)
    requires HalfRecovered(selected, now, circle, todo, rows, requests)
    requires id in todo && id in selected && Stale(selected[id], now)
    ensures id in rows && rows[id] == selected[id]
    ensures HalfRecovered(selected, now, circle, todo - {id}, rows[id := Recovered(selected[id], circle(id))],
                          if Replay(selected[id]).Some? then requests[id := Replay(selected[id]).value] else requests)
  {
    hide Recovered, Replay;
  }

  lemma NotReplayed(t: Table, id: nat, w: Row, answer: CircleAnswer)
    requires w.status == SubmittingGateway
    ensures Replay(w).None? && RecoverEffect(t, id, w, answer) == Moved(t, id, {Processing, SubmittingGateway}, NeedsReview)
  {
  }

  // ── The calls ─────────────────────────────────────────────────────────────

  class Database {
    var balances: map<nat, int>
    var rows: map<nat, Row>
    var nextId: nat
    var running: bool

    function View(): Table
      reads this
    {
      Table(balances, rows)
    }

    ghost predicate Valid()
      reads this
    {
      Owned(View()) && forall id :: id in rows ==> id < nextId
    }

    method AtomicDeduct(user: nat, amount: int) returns (ok: bool)
      modifies this`balances
      ensures ok <==> user in old(balances) && old(balances)[user] >= amount
      ensures balances == if ok then old(balances)[user := old(balances)[user] - amount] else old(balances)
    {
      ok := user in balances && balances[user] >= amount;
      if ok {
        balances := balances[user := balances[user] - amount];
      }
    }

    method AtomicRestore(user: nat, amount: int)
      modifies this`balances
      ensures balances == Paid(old(balances), user, amount)
    {
      if user in balances {
        balances := balances[user := balances[user] + amount];
      }
    }

    method RefundWithdrawal(id: nat, from: set<Status>, to: Status) returns (done: bool)
      modifies this`balances, this`rows
      ensures View() == GiveBack(old(View()), id, from, to)
      ensures done <==> In(old(View()), id, from)
    {
      done := id in rows && rows[id].status in from;
      if done {
        rows := rows[id := rows[id].(status := to)];
        AtomicRestore(rows[id].user, rows[id].amount);
      }
    }

    method MoveRow(id: nat, from: set<Status>, to: Status)
      modifies this`rows
      ensures View() == Moved(old(View()), id, from, to)
    {
      if id in rows && rows[id].status in from {
        rows := rows[id := rows[id].(status := to)];
      }
    }

    method MarkNeedsReview(id: nat)
      modifies this`rows
      ensures View() == Moved(old(View()), id, {Processing, SubmittingGateway}, NeedsReview)
    {
      MoveRow(id, {Processing, SubmittingGateway}, NeedsReview);
    }

    /** Replays the direct transfer of a row that was selected as `w`. */
    method RecoverDirect(id: nat, w: Row, circle: CircleAnswer) returns (request: Option<Request>)
      requires w.status == Processing
      modifies this`balances, this`rows
      ensures request == Replay(w)
      ensures View() == RecoverEffect(old(View()), id, w, circle)
      ensures LeavesOpen(circle) ==> balances == old(balances)
    {
      if LeavesOpen(circle) { RecoveryHoldsMoney(View(), id, w, circle); }
      var dest := ParseDestination(w.destination);
      if dest.None? || !w.hasKey {
        MarkNeedsReview(id);
        return None;
      }
      request := Some(Request(dest.value, NetWithdrawalAmount(dest.value.chain, w.amount)));
      match circle {
        case Sent(txId) =>
          if id in rows && rows[id].status == Processing {
            rows := rows[id := rows[id].(status := Completed, transferId := Some(txId))];
          }
        case Error(status) =>
          if status.None? || status.value >= 500 || status.value == 429 {
          } else if status.value == 409 {
            MarkNeedsReview(id);
          } else {
            var done := RefundWithdrawal(id, {Processing}, Failed);
          }
      }
    }

    /** One undisturbed pass. Every stale row is recovered, no other row is touched, each
        replay asks for the original transfer, and nobody's money is lost or doubled. */
    method Reconcile(now: int, circle: nat -> CircleAnswer) returns (requests: map<nat, Request>)
      requires Valid()
      modifies this`balances, this`rows
      ensures Valid()
      ensures rows == map id | id in old(rows) ::
                        if Stale(old(rows)[id], now) then Recovered(old(rows)[id], circle(id)) else old(rows)[id]
      ensures requests == map id | id in old(rows) && Stale(old(rows)[id], now) && Replay(old(rows)[id]).Some?
                          :: Replay(old(rows)[id]).value
      ensures forall id :: id in old(rows) ==>
                if old(rows)[id].status in {Processing, SubmittingGateway} && now - old(rows)[id].createdAt > 600_000
                then RecoveredAs(old(rows)[id], circle(id), rows[id], Asked(requests, id))
                else rows[id] == old(rows)[id] && id !in requests
      ensures forall user :: Owed(View(), user) == old(Owed(View(), user))
    {
      hide Replay, Recovered, RecoverEffect, Owed, Owned, HalfRecovered, Moved, RecoveredAs;
      var selected := rows;
      ghost var start := View();
      var todo := set id | id in selected && Stale(selected[id], now);
      requests := map[];
      NoneRecovered(selected, now, circle);
      while todo != {}
        invariant todo <= set id | id in selected && Stale(selected[id], now)
        invariant nextId == old(nextId) && Owned(View()) && rows.Keys == selected.Keys
        invariant HalfRecovered(selected, now, circle, todo, rows, requests)
        invariant forall user :: Owed(View(), user) == Owed(start, user)
        decreases |todo|
      {
        var id :| id in todo;
        var w := selected[id];
        ghost var before := View();
        OneRecovered(selected, now, circle, todo, rows, requests, id);
        if w.status == SubmittingGateway {
          MarkNeedsReview(id);
          NotReplayed(before, id, w, circle(id));
        } else {
          var request := RecoverDirect(id, w, circle(id));
          if request.Some? {
            requests := requests[id := request.value];
          }
        }
        forall user ensures Owed(View(), user) == Owed(start, user) {
          RecoverKeeps(before, id, w, circle(id), user);
        }
        RecoverKeeps(before, id, w, circle(id), 0);
        todo := todo - {id};
      }
      AllRecovered(selected, now, circle, rows, requests);
      RecoveredAll(selected, now, circle, rows, requests);
    }

    /** One undisturbed pass over the delivering rows; passes of one server do not overlap. */
    method CheckGatewayDeliveries(gateway: nat -> Delivery)
      requires Valid()
      modifies this`balances, this`rows, this`running
      ensures Valid() && running == old(running)
      ensures old(running) ==> View() == old(View())
      ensures !old(running) ==>
                rows == map id | id in old(rows) ::
                          if old(rows)[id].transferId.Some? then Checked(old(rows)[id], gateway(old(rows)[id].transferId.value))
                          else old(rows)[id]
      ensures !old(running) ==>
                forall id :: id in old(rows) ==> CheckedAs(old(rows)[id], gateway, rows[id])
      ensures forall user :: Owed(View(), user) == old(Owed(View(), user))
    {
      hide Checked, CheckEffect, CheckedAs, Owed, Owned, HalfChecked;
      if running {
        return;
      }
      running := true;
      var selected := rows;
      ghost var start := View();
      var todo := set id | id in selected && selected[id].status == Delivering;
      NoneChecked(selected, gateway);
      while todo != {}
        invariant todo <= set id | id in selected && selected[id].status == Delivering
        invariant running && nextId == old(nextId) && Owned(View()) && rows.Keys == selected.Keys
        invariant HalfChecked(selected, gateway, todo, rows)
        invariant forall user :: Owed(View(), user) == Owed(start, user)
        decreases |todo|
      {
        var id :| id in todo;
        var w := selected[id];
        OneChecked(selected, gateway, todo, rows, id);
        todo := todo - {id};
        if w.transferId.None? {
          continue;
        }
        var transfer := gateway(w.transferId.value);
        ghost var before := View();
        CheckRow(id, w, transfer);
        forall user ensures Owed(View(), user) == Owed(start, user) {
          CheckKeeps(before, id, w, transfer, user);
        }
        CheckKeeps(before, id, w, transfer, 0);
      }
      AllChecked(selected, gateway, rows);
      CheckedAll(selected, gateway, rows);
      running := false;
    }

    method CheckRow(id: nat, w: Row, transfer: Delivery)
      modifies this`balances, this`rows
      ensures w.transferId.Some? ==> View() == CheckEffect(old(View()), id, w, transfer)
    {
      match transfer {
        case Confirmed(tx) =>
          if id in rows && rows[id].status == Delivering {
            rows := rows[id := rows[id].(status := Completed, txHash := if tx.Some? then tx else w.txHash)];
          }
        case Undelivered =>
          var done := RefundWithdrawal(id, {Delivering}, Refunded);
        case _ =>
      }
    }

    /** Returns the row that was found for the transfer. A settled row is never reopened. */
    method HandleMintFinalized(transferId: Option<nat>, txHash: Option<nat>) returns (found: Option<nat>)
      modifies this`rows
      ensures found.None? ==> View() == old(View())
      ensures found.None? && transferId.Some? ==> forall id :: id in rows ==> rows[id].transferId != transferId
      ensures found.Some? ==>
                && found.value in old(rows) && transferId.Some? && old(rows)[found.value].transferId == transferId
                && View() == Write(old(View()), found.value, P.MintWebhook, 0, txHash)
                && (if old(rows)[found.value].status in {Refunded, Failed} then rows == old(rows)
                    else rows[found.value].status == Completed
                         && (rows[found.value].txHash == txHash || rows[found.value].txHash == old(rows)[found.value].txHash != None))
      ensures forall user :: Owed(View(), user) == old(Owed(View(), user))
    {
      hide Owed;
      found := None;
      if transferId.None? {
        return;
      }
      ghost var before := View();
      if id :| id in rows && rows[id].transferId == transferId {
        found := Some(id);
        var withdrawal := rows[id];
        if withdrawal.status == Completed && withdrawal.txHash.Some? {
          assert rows == rows[id := withdrawal];
          return;
        }
        if withdrawal.status == Refunded || withdrawal.status == Failed {
          assert rows == rows[id := withdrawal];
          return;
        }
        rows := rows[id := withdrawal.(status := Completed, txHash := txHash)];
        forall user ensures Owed(View(), user) == Owed(before, user) {
          SameClaim(before, id, rows[id], user);
        }
      }
    }

    /** Only a row held for review is resolved; None is a "not found" answer. */
    method Resolve(id: nat, delivered: bool, txHash: Option<nat>) returns (done: Option<bool>)
      requires Valid()
      modifies this`balances, this`rows
      ensures done.Some? <==> In(old(View()), id, {NeedsReview})
      ensures done.None? ==> View() == old(View())
      ensures done.Some? ==>
                done.value && View() == Write(old(View()), id, if delivered then P.AdminDelivered else P.AdminRefund, 0, txHash)
      ensures done.Some? ==>
                && rows[id].status == (if delivered then Completed else Refunded)
                && balances == if delivered then old(balances) else Paid(old(balances), rows[id].user, rows[id].amount)
      ensures forall user :: Owed(View(), user) == old(Owed(View(), user))
    {
      hide Owed, GiveBack, Owned, Paid;
      if id !in rows || rows[id].status != NeedsReview {
        return None;
      }
      ghost var before := View();
      var ok := true;
      if delivered {
        rows := rows[id := rows[id].(status := Completed, txHash := if txHash.Some? then txHash else rows[id].txHash)];
        forall user ensures Owed(View(), user) == Owed(before, user) {
          SameClaim(before, id, rows[id], user);
        }
      } else {
        ok := RefundWithdrawal(id, {NeedsReview}, Refunded);
        GivenBackRow(before, id, {NeedsReview}, Refunded);
        forall user ensures Owed(View(), user) == Owed(before, user) {
          RefundKeepsOwed(before, id, {NeedsReview}, Refunded, user);
        }
      }
      done := Some(ok);
    }

    /** The deduction and the pre-inserted row. */
    method Begin(user: nat, gross: nat, destination: string, now: int) returns (id: Option<nat>)
      modifies this`balances, this`rows, this`nextId
      ensures id.None? ==> View() == old(View()) && nextId == old(nextId) && (user in balances ==> balances[user] < gross)
      ensures id.Some? ==>
                && id.value == old(nextId) && nextId == old(nextId) + 1 && user in old(balances) && old(balances)[user] >= gross
                && balances == old(balances)[user := old(balances)[user] - gross]
                && rows == old(rows)[id.value := Row(user, gross, destination, Processing, true, None, None, now)]
    {
      var deducted := AtomicDeduct(user, gross);
      if !deducted {
        return None;
      }
      id := Some(nextId);
      rows := rows[nextId := Row(user, gross, destination, Processing, true, None, None, now)];
      nextId := nextId + 1;
    }

    /** The handler of POST /withdraw/crypto, undisturbed and without a crash. `direct`: the
        treasury can pay on the destination chain. `circle` and `gateway` are the answers. */
    method WithdrawCrypto(user: nat, address: string, chainKey: Option<ChainKey>, gross: nat, now: int, direct: bool,
                          wallets: set<ChainKey>, circle: CircleAnswer, gateway: nat -> GatewayPosts.Answer)
      returns (r: Response, sent: Dispatch)
      requires Valid()
      modifies this`balances, this`rows, this`nextId
      ensures Valid()
      ensures r == Refused <==> Length(Trim(address)) < 2 || gross < 1_000_000 || ValidateWithdrawal(chainKey, gross).Some?
      ensures r == Insufficient ==> user !in old(balances) || old(balances)[user] < gross
      ensures user !in old(balances) || old(balances)[user] < gross ==> r in {Refused, Insufficient}
      ensures r in {Refused, Insufficient} <==> sent == Nothing
      ensures sent == Nothing ==> View() == old(View())
      ensures sent != Nothing ==>
                && chainKey.Some? && user in old(balances)
                && View() == AfterRoute(old(View()), old(nextId), user, Stored(address, chainKey.value), gross, now, sent, circle)
      ensures sent.Direct? ==>
                direct && sent.request == Request(Target(address, chainKey.value), NetWithdrawalAmount(chainKey.value, gross))
      ensures sent.Gateway? ==>
                !direct
                && GatewayPosts.IsCall(GatewayPosts.Sources(chainKey.value, wallets), NetWithdrawalAmount(chainKey.value, gross),
                                       gateway, sent.attempts, sent.outcome)
      ensures sent != Nothing ==> Told(old(View()), old(nextId), user, Stored(address, chainKey.value), gross, now, sent, circle, View(), r)
    {
      hide Told, Length, Trim, Owned, Stored, GatewayPosts.IsCall, GatewayPosts.Sources, NetWithdrawalAmount, StatusLeft, TransferLeft, AfterRoute, ResponseTo;
      ghost var before := View();
      r, sent := Refused, Nothing;
      if Length(Trim(address)) < 2 || gross < 1_000_000 || ValidateWithdrawal(chainKey, gross).Some? {
        assert View() == before;
        return;
      }
      var chain := chainKey.value;
      var net := NetWithdrawalAmount(chain, gross);
      var begun := Begin(user, gross, Stored(address, chain), now);
      if begun.None? {
        assert View() == before;
        return Insufficient, Nothing;
      }
      var id := begun.value;
      if direct {
        sent := Direct(Request(Target(address, chain), net));
      } else {
        rows := rows[id := rows[id].(status := SubmittingGateway)];
        var attempts, outcome := GatewayPosts.GatewayWithdrawal(chain, wallets, net, gateway);
        sent := Gateway(attempts, outcome);
      }
      RecordOutcome(id, user, gross, sent, circle);
      r := ResponseTo(sent, circle);
      AfterRouteIs(before, id, user, Stored(address, chain), gross, now, sent, circle, View());
      AnswerTells(before, id, user, Stored(address, chain), gross, now, sent, circle,
                  GatewayPosts.Sources(chain, wallets), net, gateway);
    }

    /** Writes what came of the submission; a refusal restores the balance. */
    method RecordOutcome(id: nat, user: nat, gross: nat, sent: Dispatch, circle: CircleAnswer)
      requires id in rows && sent != Nothing && (sent.Direct? ==> rows[id].status == Processing)
      modifies this`balances, this`rows
      ensures rows == old(rows)[id := old(rows)[id].(
                status := StatusLeft(sent, circle),
                transferId := if TransferLeft(sent, circle).Some? then TransferLeft(sent, circle) else old(rows)[id].transferId)]
      ensures balances == if StatusLeft(sent, circle) == Failed then Paid(old(balances), user, gross) else old(balances)
    {
      var status, transferId := StatusLeft(sent, circle), TransferLeft(sent, circle);
      if status == Failed {
        AtomicRestore(user, gross);
        rows := rows[id := rows[id].(status := Failed)];
      } else if transferId.Some? {
        rows := rows[id := rows[id].(status := status, transferId := transferId)];
      } else if status == NeedsReview {
        rows := rows[id := rows[id].(status := NeedsReview)];
      }
    }
  }

  /** After a lost answer, recovery asks Circle for exactly what the handler asked for. */
  lemma LostAnswerIsRepeated(t: Table, id: nat, user: nat, address: string, chain: ChainKey, gross: nat, now: int,
                             sent: Dispatch, t': Table, r: Response, later: int)
    requires ValidateWithdrawal(Some(chain), gross).None?
    requires address != "" && forall c :: c in address ==> !IsSpace(c)
    requires sent == Direct(Request(Target(address, chain), NetWithdrawalAmount(chain, gross))) && user in t.balances
    requires Told(t, id, user, Stored(address, chain), gross, now, sent, Error(None), t', r)
    ensures Stale(t'.rows[id], later) <==> later > now + 600_000
    ensures Replay(t'.rows[id]) == Some(sent.request)
  {
    hide ParseDestination, Stored;
    RecoveryRepeatsTheRequest(address, chain, gross);
  }

  // ── The handler follows the protocol ──────────────────────────────────────

  /** Some batch may have been accepted although its answer was taken for a failure. */
  predicate HasUnclear(sent: Dispatch) {
    sent.Gateway? && exists i :: 0 <= i < |sent.attempts| && GatewayPosts.Unclear(sent.attempts[i].answer)
  }

  /** What the answers say about the payment. `taken`: Circle took the transfer, or Gateway
      the last batch. An answer with an id says so, a final refusal says the opposite, and a
      lost answer leaves it open. */
  predicate Possible(sent: Dispatch, circle: CircleAnswer, taken: bool)
    requires sent != Nothing
  {
    match sent
    case Direct(_) =>
      (match circle
       case Sent(_) => taken
       case Error(None) => true
       case Error(Some(_)) => !taken)
    case Gateway(_, Submitted(_)) => taken
    case Gateway(_, Inconclusive) => true
    case Gateway(_, Failed) => !taken
  }

  /** The handler's actions, with the steps that Circle or Gateway takes in between. */
  function HandlerActions(sent: Dispatch, circle: CircleAnswer, taken: bool): seq<P.Action>
    requires sent != Nothing
  {
    match sent
    case Direct(_) =>
      [P.Deduct, P.ChooseDirect]
      + (if taken then [P.CircleTakes] else [])
      + (match circle
         case Sent(_) => [P.DirectOk, P.RecordDirect]
         case Error(None) => [P.DirectNoAnswer]
         case Error(Some(_)) => [P.DirectRejected])
    case Gateway(_, outcome) =>
      [P.Deduct, P.ChooseGateway]
      + (if HasUnclear(sent) then [P.GatewayUnclear] else [])
      + (if taken then [P.GatewayTakes] else [])
      + (match outcome
         case Submitted(_) => [P.GatewayOk, P.RecordGateway]
         case Inconclusive => [P.GatewayInconclusive]
         case Failed => [P.GatewayRejected])
  }

  function Taken(taken: bool): P.Payout { if taken then P.InFlight else P.NotSent }

  /** The protocol's state once the handler has ended. */
  predicate HandlerEnded(s: P.State, t: P.State, sent: Dispatch, circle: CircleAnswer, taken: bool) {
    && t.route == P.Ended && t.status == StatusLeft(sent, circle)
    && t.balance == (if t.status == Failed then s.balance else s.balance - s.gross)
    && (t.transferId == P.NoId <==> TransferLeft(sent, circle).None?)
    && t.unclear == Taken(HasUnclear(sent))
    && t.direct == Taken(taken && sent.Direct?) && t.burn == Taken(taken && sent.Gateway?)
  }

  /** Before the request. */
  predicate Blank(s: P.State) {
    s.route == P.Idle && s.transferId == P.NoId && s.direct == P.NotSent && s.burn == P.NotSent && s.unclear == P.NotSent
  }

  /** Deduct, insert, and choose the way. */
  lemma Begins(env: P.Env, s: P.State, choice: P.Action) returns (acts: seq<P.Action>, t: P.State)
    requires Blank(s) && s.balance >= s.gross && choice in {P.ChooseDirect, P.ChooseGateway}
    ensures acts == [P.Deduct, choice] && P.Runs(env, s, acts) && P.After(s, acts) == t
    ensures t == s.(balance := s.balance - s.gross,
                    status := if choice == P.ChooseDirect then Processing else SubmittingGateway,
                    route := if choice == P.ChooseDirect then P.DirectPost else P.GatewayPost)
  {
    hide P.Runs, P.After;
    P.NoSteps(env, s);
    acts, t := [], s;
    acts, t := P.Then(env, s, acts, t, P.Deduct);
    acts, t := P.Then(env, s, acts, t, choice);
  }

  lemma DirectAccepted(env: P.Env, s: P.State, acts: seq<P.Action>, t: P.State)
    requires P.Runs(env, s, acts) && P.After(s, acts) == t && t.route == P.DirectPost && t.direct != P.NotSent
    ensures var acts' := acts + [P.DirectOk, P.RecordDirect];
            P.Runs(env, s, acts') && P.After(s, acts')
              == t.(routePoller := true, status := Completed, transferId := P.DirectId, route := P.Ended)
  {
    hide P.Runs, P.After;
    var b, u := P.Then(env, s, acts, t, P.DirectOk);
    b, u := P.Then(env, s, b, u, P.RecordDirect);
    assert b == acts + [P.DirectOk, P.RecordDirect];
  }

  lemma GatewayAccepted(env: P.Env, s: P.State, acts: seq<P.Action>, t: P.State)
    requires P.Runs(env, s, acts) && P.After(s, acts) == t && t.route == P.GatewayPost && t.burn != P.NotSent
    ensures var acts' := acts + [P.GatewayOk, P.RecordGateway];
            P.Runs(env, s, acts') && P.After(s, acts')
              == t.(status := Delivering, transferId := P.BurnId, route := P.Ended)
  {
    hide P.Runs, P.After;
    var b, u := P.Then(env, s, acts, t, P.GatewayOk);
    b, u := P.Then(env, s, b, u, P.RecordGateway);
    assert b == acts + [P.GatewayOk, P.RecordGateway];
  }

  /** The call fails, or is held for review. */
  lemma GatewayEnds(env: P.Env, s: P.State, acts: seq<P.Action>, t: P.State, a: P.Action)
    requires P.Runs(env, s, acts) && P.After(s, acts) == t && t.route == P.GatewayPost
    requires a in {P.GatewayRejected, P.GatewayInconclusive} && (a.GatewayRejected? ==> t.burn == P.NotSent)
    ensures P.Runs(env, s, acts + [a]) && P.After(s, acts + [a])
      == if a == P.GatewayRejected
         then t.(status := Failed, balance := t.balance + t.gross, refunds := t.refunds + 1, route := P.Ended)
         else t.(status := NeedsReview, route := P.Ended, burnStray := true)
  {
    hide P.Runs, P.After;
    var b, u := P.Then(env, s, acts, t, a);
  }

  /** Up to the answer of a direct transfer. */
  lemma DirectPosted(env: P.Env, s: P.State, taken: bool) returns (acts: seq<P.Action>, t: P.State)
    requires Blank(s) && s.balance >= s.gross
    ensures acts == [P.Deduct, P.ChooseDirect] + (if taken then [P.CircleTakes] else [])
    ensures P.Runs(env, s, acts) && P.After(s, acts) == t
    ensures t == s.(balance := s.balance - s.gross, status := Processing, route := P.DirectPost, direct := Taken(taken))
  {
    hide P.Runs, P.After;
    acts, t := Begins(env, s, P.ChooseDirect);
    if taken { acts, t := P.Then(env, s, acts, t, P.CircleTakes); }
  }

  lemma DirectHandlerIsRun(env: P.Env, s: P.State, sent: Dispatch, circle: CircleAnswer, taken: bool)
    requires Blank(s) && s.balance >= s.gross && sent.Direct? && Possible(sent, circle, taken)
    ensures P.Runs(env, s, HandlerActions(sent, circle, taken))
    ensures HandlerEnded(s, P.After(s, HandlerActions(sent, circle, taken)), sent, circle, taken)
  {
    hide P.Runs, P.After;
    var acts, t := DirectPosted(env, s, taken);
    match circle {
      case Sent(_) => DirectAccepted(env, s, acts, t);
      case Error(None) => acts, t := P.Then(env, s, acts, t, P.DirectNoAnswer);
      case Error(Some(_)) => acts, t := P.Then(env, s, acts, t, P.DirectRejected);
    }
  }

  /** An earlier batch was accepted with an unclear answer, or not. */
  lemma UnclearPosted(env: P.Env, s: P.State, unclear: bool) returns (acts: seq<P.Action>, t: P.State)
    requires Blank(s) && s.balance >= s.gross && (unclear ==> env.unclearGateway)
    ensures acts == [P.Deduct, P.ChooseGateway] + (if unclear then [P.GatewayUnclear] else [])
    ensures P.Runs(env, s, acts) && P.After(s, acts) == t
    ensures t == s.(balance := s.balance - s.gross, status := SubmittingGateway, route := P.GatewayPost,
                    unclear := Taken(unclear))
  {
    hide P.Runs, P.After;
    acts, t := Begins(env, s, P.ChooseGateway);
    if unclear { acts, t := P.Then(env, s, acts, t, P.GatewayUnclear); }
  }

  /** Up to the answer that ends the Gateway call. */
  lemma Posted(env: P.Env, s: P.State, unclear: bool, taken: bool) returns (acts: seq<P.Action>, t: P.State)
    requires Blank(s) && s.balance >= s.gross && (unclear ==> env.unclearGateway)
    ensures acts == [P.Deduct, P.ChooseGateway] + (if unclear then [P.GatewayUnclear] else [])
                    + (if taken then [P.GatewayTakes] else [])
    ensures P.Runs(env, s, acts) && P.After(s, acts) == t
    ensures t == s.(balance := s.balance - s.gross, status := SubmittingGateway, route := P.GatewayPost,
                    unclear := Taken(unclear), burn := Taken(taken))
  {
    hide P.Runs, P.After;
    acts, t := UnclearPosted(env, s, unclear);
    if taken { acts, t := P.Then(env, s, acts, t, P.GatewayTakes); }
  }

  lemma SubmittedHandlerIsRun(env: P.Env, s: P.State, sent: Dispatch, circle: CircleAnswer)
    requires Blank(s) && s.balance >= s.gross && sent.Gateway? && (HasUnclear(sent) ==> env.unclearGateway)
    requires sent.outcome.Submitted?
    ensures P.Runs(env, s, HandlerActions(sent, circle, true))
    ensures HandlerEnded(s, P.After(s, HandlerActions(sent, circle, true)), sent, circle, true)
  {
    hide P.Runs, P.After, P.Do, P.Can, HasUnclear;
    var acts, t := Posted(env, s, HasUnclear(sent), true);
    GatewayAccepted(env, s, acts, t);
    assert HandlerActions(sent, circle, true) == acts + [P.GatewayOk, P.RecordGateway];
  }

  lemma NotSubmittedHandlerIsRun(env: P.Env, s: P.State, sent: Dispatch, circle: CircleAnswer, taken: bool)
    requires Blank(s) && s.balance >= s.gross && sent.Gateway? && (HasUnclear(sent) ==> env.unclearGateway)
    requires !sent.outcome.Submitted? && Possible(sent, circle, taken)
    ensures P.Runs(env, s, HandlerActions(sent, circle, taken))
    ensures HandlerEnded(s, P.After(s, HandlerActions(sent, circle, taken)), sent, circle, taken)
  {
    hide P.Runs, P.After, P.Do, P.Can, HasUnclear;
    var acts, t := Posted(env, s, HasUnclear(sent), taken);
    var a := if sent.outcome.Failed? then P.GatewayRejected else P.GatewayInconclusive;
    GatewayEnds(env, s, acts, t, a);
    assert HandlerActions(sent, circle, taken) == acts + [a];
  }

  /** An undisturbed handler is a run of the protocol that ends with the same status,
      balance and transfer id, and with the payments that were taken, whatever the world did
      that fits its answers. Where Gateway answers clearly, it is a run of the deployment
      without unclear answers. */
  lemma HandlerIsRun(env: P.Env, s: P.State, sent: Dispatch, circle: CircleAnswer, taken: bool)
    requires P.Init(s) && s.balance >= s.gross && sent != Nothing && (HasUnclear(sent) ==> env.unclearGateway)
    requires Possible(sent, circle, taken)
    ensures P.Runs(env, s, HandlerActions(sent, circle, taken))
    ensures HandlerEnded(s, P.After(s, HandlerActions(sent, circle, taken)), sent, circle, taken)
  {
    hide P.Runs, P.After, HandlerEnded, HandlerActions;
    if sent.Direct? {
      DirectHandlerIsRun(env, s, sent, circle, taken);
    } else if sent.outcome.Submitted? {
      SubmittedHandlerIsRun(env, s, sent, circle);
    } else {
      NotSubmittedHandlerIsRun(env, s, sent, circle, taken);
    }
  }
}
