/** The life of one crypto withdrawal as a transition system.

    The actors are the withdraw route, Circle (direct transfers), Gateway (burn
    intents), the reconciliation worker, the Gateway delivery worker, the mint
    webhook, the admin resolve route and server crashes. Each action is one atomic
    database statement, one request sent, or one answer received, so any
    interleaving of the actors is a sequence of actions.
 */
module WithdrawalProtocol {
  import opened WithdrawalStatus

  /** What the outside world did with one payment instruction. */
  datatype Payout = NotSent | InFlight | Landed | Bounced

  /** How far the route's request handler has got. */
  datatype RoutePc =
    | Idle             // nothing happened yet
    | Routing          // balance deducted, row inserted as "processing"
    | DirectPost       // direct transfer request outstanding
    | DirectAnswered   // Circle returned a transaction id, outcome not yet written
    | GatewayPost      // "submitting_gateway" written, burn intent outstanding
    | GatewayAnswered  // Gateway returned a transfer id, outcome not yet written
    | Ended            // responded, or the server stopped

  datatype TransferId = NoId | DirectId | BurnId

  /** What the deployment may do to us.
      `outcomeWriteCanThrow`: the route's last UPDATE can fail while the process lives on.
      `reconcilers`: how many reconciliation passes can overlap.
      `unclearGateway`: Gateway may accept a batch with an answer that the server takes
      for a failure, as GatewayPosts.Unclear says. */
  datatype Env = Env(outcomeWriteCanThrow: bool, reconcilers: nat, unclearGateway: bool)

  datatype State = State(
    status: Status,
    balance: int,
    gross: nat,
    refunds: nat,              // how often the gross amount was given back
    transferId: TransferId,    // the row's circleTransferId
    route: RoutePc,
    routePoller: bool,         // the route's poller, with its unguarded onFailure, is alive
    posting: nat,              // reconciliation passes with a replay outstanding
    answered: nat,             // passes with a transaction id, outcome not yet written
    reconPoller: bool,         // some replay's poller is alive
    direct: Payout,            // the one transfer Circle keeps for the idempotency key
    burn: Payout,              // the burn of the Gateway call's last batch
    unclear: Payout,           // an earlier batch of the call, accepted with an unclear answer
    directStray: bool,         // an unanswered direct request may still reach Circle
    burnStray: bool)           // an unanswered burn request may still reach Gateway

  datatype Action =
    // route
    | Deduct | RefuseDeduct | ChooseDirect | ChooseGateway | ChainUnsupported
    | DirectOk | DirectRejected | DirectNoAnswer | RecordDirect | RecordThrows
    | GatewayUnclear | GatewayOk | GatewayRejected | GatewayInconclusive | RecordGateway
    | RoutePollerSeesFailure | RoutePollerStops
    // Circle and Gateway
    | CircleTakes | CircleLands | CircleFails | GatewayTakes | GatewayMints | GatewayBounces
    | UnclearMints | UnclearBounces
    // the server process dies
    | Crash
    // one of the reconciliation passes
    | ReconHold | ReconPost | ReconOk | ReconRetryLater | ReconConflict
    | ReconRejected | ReconRecord | ReconRecordThrows | ReconPollerSeesFailure | ReconPollerStops
    // Gateway delivery worker, mint webhook, admin
    | DeliveryConfirmed | DeliveryFailed | MintWebhook | AdminDelivered | AdminRefund

  predicate Init(s: State) {
    && s.status == Absent && s.route == Idle && s.refunds == 0 && s.transferId == NoId
    && !s.routePoller && !s.reconPoller && !s.directStray && !s.burnStray
    && s.direct == NotSent && s.burn == NotSent && s.unclear == NotSent
    && s.posting == 0 && s.answered == 0
  }

  /** Some pass is free to look at the row. */
  predicate PassFree(env: Env, s: State) { s.posting + s.answered < env.reconcilers }

  /** Gives the gross amount back and overwrites the status without looking at it:
      the route's `atomicRestore` followed by its unguarded UPDATE. */
  function Restore(s: State): State {
    s.(status := Failed, balance := s.balance + s.gross, refunds := s.refunds + 1)
  }

  /** `refundWithdrawal` and the delivery worker's `refund`: only out of `from`. */
  function RefundFrom(s: State, from: set<Status>, to: Status): State {
    if s.status in from then s.(status := to, balance := s.balance + s.gross, refunds := s.refunds + 1) else s
  }

  function MoveFrom(s: State, from: set<Status>, to: Status): State {
    if s.status in from then s.(status := to) else s
  }

  /** When an action can happen. */
  predicate Can(env: Env, s: State, a: Action) {
    match a
    case Deduct => s.route == Idle && s.balance >= s.gross
    case RefuseDeduct => s.route == Idle && s.balance < s.gross
    case ChooseDirect | ChooseGateway | ChainUnsupported => s.route == Routing
    case DirectOk => s.route == DirectPost && s.direct != NotSent
    case DirectRejected => s.route == DirectPost && s.direct == NotSent
    case DirectNoAnswer => s.route == DirectPost
    case RecordDirect => s.route == DirectAnswered
    case RecordThrows => env.outcomeWriteCanThrow && s.route in {DirectAnswered, GatewayAnswered}
    case GatewayUnclear => env.unclearGateway && s.route == GatewayPost && s.unclear == NotSent
    case GatewayOk => s.route == GatewayPost && s.burn != NotSent
    case GatewayRejected => s.route == GatewayPost && s.burn == NotSent
    case GatewayInconclusive => s.route == GatewayPost
    case RecordGateway => s.route == GatewayAnswered
    case RoutePollerSeesFailure => s.routePoller && s.direct == Bounced
    case RoutePollerStops => s.routePoller
    case CircleTakes => s.direct == NotSent && (s.directStray || s.route == DirectPost || s.posting > 0)
    case CircleLands | CircleFails => s.direct == InFlight
    case GatewayTakes => s.burn == NotSent && (s.burnStray || s.route == GatewayPost)
    case GatewayMints | GatewayBounces => s.burn == InFlight
    case UnclearMints | UnclearBounces => s.unclear == InFlight
    case Crash => s.route != Idle
    // the 10-minute threshold: a pass only looks at rows whose handler has ended
    case ReconHold => s.route == Ended && PassFree(env, s) && s.status in {Processing, SubmittingGateway}
    case ReconPost => s.route == Ended && PassFree(env, s) && s.status == Processing
    case ReconOk => s.posting > 0 && s.direct != NotSent
    case ReconRetryLater | ReconConflict => s.posting > 0
    case ReconRejected => s.posting > 0 && s.direct == NotSent
    case ReconRecord | ReconRecordThrows => s.answered > 0
    case ReconPollerSeesFailure => s.reconPoller && s.direct == Bounced
    case ReconPollerStops => s.reconPoller
    case DeliveryConfirmed => s.transferId == BurnId && s.burn == Landed
    case DeliveryFailed => s.transferId == BurnId && s.burn == Bounced
    case MintWebhook => s.transferId == BurnId && s.burn == Landed
    // the admin checked the chain first, and the answer is final
    case AdminDelivered => Landed in {s.direct, s.burn, s.unclear}
    case AdminRefund => {s.direct, s.burn, s.unclear} <= {NotSent, Bounced}
  }

  function Less(n: nat): nat { if n > 0 then n - 1 else 0 }

  /** The effect of an action. */
  function Do(s: State, a: Action): State {
    match a
    case Deduct => s.(balance := s.balance - s.gross, status := Processing, route := Routing)
    case RefuseDeduct => s.(route := Ended)
    case ChooseDirect => s.(route := DirectPost)
    case ChooseGateway => s.(status := SubmittingGateway, route := GatewayPost)
    case ChainUnsupported => Restore(s).(route := Ended)
    case DirectOk => s.(route := DirectAnswered, routePoller := true)
    case DirectRejected => Restore(s).(route := Ended)
    case DirectNoAnswer => s.(route := Ended, directStray := true)
    case RecordDirect => s.(status := Completed, transferId := DirectId, route := Ended)
    case RecordThrows => s.(route := Ended)
    case GatewayUnclear => s.(unclear := InFlight)
    case GatewayOk => s.(route := GatewayAnswered)
    case GatewayRejected => Restore(s).(route := Ended)
    case GatewayInconclusive => s.(status := NeedsReview, route := Ended, burnStray := true)
    case RecordGateway => s.(status := Delivering, transferId := BurnId, route := Ended)
    case RoutePollerSeesFailure => Restore(s).(routePoller := false)
    case RoutePollerStops => s.(routePoller := false)
    case CircleTakes => s.(direct := InFlight)
    case CircleLands => s.(direct := Landed)
    case CircleFails => s.(direct := Bounced)
    case GatewayTakes => s.(burn := InFlight)
    case GatewayMints => s.(burn := Landed)
    case GatewayBounces => s.(burn := Bounced)
    case UnclearMints => s.(unclear := Landed)
    case UnclearBounces => s.(unclear := Bounced)
    case Crash =>
      s.(route := Ended, routePoller := false, reconPoller := false, posting := 0, answered := 0,
         directStray := s.directStray || s.route == DirectPost || s.posting > 0,
         burnStray := s.burnStray || s.route == GatewayPost)
    case ReconHold => MoveFrom(s, {Processing, SubmittingGateway}, NeedsReview)
    case ReconPost => s.(posting := s.posting + 1)
    case ReconOk => s.(posting := Less(s.posting), answered := s.answered + 1, reconPoller := true)
    case ReconRetryLater => s.(posting := Less(s.posting), directStray := true)
    case ReconConflict =>
      MoveFrom(s.(posting := Less(s.posting), directStray := true), {Processing, SubmittingGateway}, NeedsReview)
    // a definite rejection of the key settles the earlier unanswered requests too
    case ReconRejected => RefundFrom(s.(posting := Less(s.posting), directStray := false), {Processing}, Failed)
    case ReconRecord =>
      if s.status == Processing then s.(answered := Less(s.answered), status := Completed, transferId := DirectId)
      else s.(answered := Less(s.answered))
    case ReconRecordThrows => s.(answered := Less(s.answered))
    case ReconPollerSeesFailure => RefundFrom(s, {Completed}, Failed)
    case ReconPollerStops => s.(reconPoller := false)
    case DeliveryConfirmed => MoveFrom(s, {Delivering}, Completed)
    case DeliveryFailed => RefundFrom(s, {Delivering}, Refunded)
    case MintWebhook => if s.status in {Refunded, Failed} then s else s.(status := Completed)
    case AdminDelivered => MoveFrom(s, {NeedsReview}, Completed)
    case AdminRefund =>
      var t := RefundFrom(s, {NeedsReview}, Refunded);
      if s.status == NeedsReview then t.(directStray := false, burnStray := false) else t
  }

  /** `acts` can happen one after the other, starting in `s`. */
  predicate Runs(env: Env, s: State, acts: seq<Action>)
    decreases |acts|
  {
    acts == [] || (Can(env, s, acts[0]) && Runs(env, Do(s, acts[0]), acts[1..]))
  }

  function After(s: State, acts: seq<Action>): State
    decreases |acts|
  {
    if acts == [] then s else After(Do(s, acts[0]), acts[1..])
  }

  /** Who takes an action; the proofs about single steps are split along it. */
  datatype Actor = Handler | Outcome | World | Pass | Writer

  function ActorOf(a: Action): Actor {
    match a
    case Deduct | RefuseDeduct | ChooseDirect | ChooseGateway | ChainUnsupported
       | DirectOk | DirectRejected | DirectNoAnswer => Handler
    case RecordDirect | RecordThrows | GatewayUnclear | GatewayOk | GatewayRejected | GatewayInconclusive
       | RecordGateway | Crash => Outcome
    case RoutePollerStops | ReconPollerStops | CircleTakes | CircleLands | CircleFails | GatewayTakes | GatewayMints
       | GatewayBounces | UnclearMints | UnclearBounces => World
    case ReconHold | ReconPost | ReconOk | ReconRetryLater | ReconConflict | ReconRejected | ReconRecord
       | ReconRecordThrows => Pass
    case RoutePollerSeesFailure | ReconPollerSeesFailure | DeliveryConfirmed | DeliveryFailed | MintWebhook
       | AdminDelivered | AdminRefund => Writer
  }

  // ── Invariants ────────────────────────────────────────────────────────────

  /** Nothing was ever asked of Gateway, and nothing will be. */
  predicate DirectRail(s: State) {
    && s.burn == NotSent && s.unclear == NotSent && !s.burnStray && s.route !in {GatewayPost, GatewayAnswered}
    && s.status !in {SubmittingGateway, Delivering} && s.transferId != BurnId
  }

  /** No reconciliation pass is at work on the row, and no replay's poller is alive. */
  predicate Unreconciled(s: State) {
    !s.reconPoller && s.posting == 0 && s.answered == 0
  }

  /** Nothing was ever asked of Circle's transfer API, and nothing will be. */
  predicate GatewayRail(s: State) {
    && s.direct == NotSent && !s.directStray && s.route !in {Idle, Routing, DirectPost, DirectAnswered}
    && s.status !in {Absent, Processing} && s.transferId != DirectId && !s.routePoller && Unreconciled(s)
  }

  predicate Pristine(s: State) {
    && s.direct == NotSent && s.burn == NotSent && s.unclear == NotSent && !s.directStray && !s.burnStray
    && s.transferId == NoId && s.refunds == 0
  }

  /** While the handler runs, no reconciliation pass touches the row. */
  predicate HandlerAlone(s: State) {
    s.route != Ended ==> Unreconciled(s) && !s.directStray && !s.burnStray && s.transferId == NoId
  }

  /** Holds in every reachable state, whatever the deployment does. */
  predicate RailInv(env: Env, s: State) {
    && (DirectRail(s) || GatewayRail(s)) && HandlerAlone(s)
    && (s.route in {Idle, Routing} ==> Pristine(s) && !s.routePoller)
    && (s.route == Idle ==> s.status == Absent)
    && (s.status == Absent ==> s.route in {Idle, Ended} && Pristine(s) && !s.routePoller && Unreconciled(s))
    && (s.route in {Routing, DirectPost} ==> s.status == Processing && s.refunds == 0 && !s.routePoller)
    && (s.route == DirectAnswered ==> s.status in {Processing, Failed})
    && (s.route == GatewayPost ==> s.status == SubmittingGateway && s.refunds == 0)
    && (s.route == GatewayAnswered ==> s.status == SubmittingGateway)
    && (s.status == Delivering ==> s.transferId == BurnId)
    && (s.route == DirectAnswered || s.routePoller || s.reconPoller || s.transferId == DirectId ==> s.direct != NotSent)
    && (s.route == GatewayAnswered || s.transferId == BurnId ==> s.burn != NotSent)
    && (s.answered > 0 ==> s.direct != NotSent) && s.posting + s.answered <= env.reconcilers
    && (s.unclear != NotSent ==> env.unclearGateway) && (s.reconPoller ==> env.reconcilers > 0)
    && (s.status in {Processing, SubmittingGateway, Delivering, NeedsReview} ==> s.refunds == 0)
    && (s.status in {Failed, Refunded} ==> s.refunds > 0)
    && (s.status == Completed ==> s.direct != NotSent || s.burn == Landed || s.unclear == Landed)
  }

  lemma RailInvByHandler(env: Env, s: State, a: Action)
    requires RailInv(env, s) && Can(env, s, a) && ActorOf(a) == Handler
    ensures RailInv(env, Do(s, a))
  {
  }

  lemma RailInvByOutcome(env: Env, s: State, a: Action)
    requires RailInv(env, s) && Can(env, s, a) && ActorOf(a) == Outcome
    ensures RailInv(env, Do(s, a))
  {
  }

  lemma RailInvByWorld(env: Env, s: State, a: Action)
    requires RailInv(env, s) && Can(env, s, a) && ActorOf(a) == World
    ensures RailInv(env, Do(s, a))
  {
  }

  lemma RailInvByPass(env: Env, s: State, a: Action)
    requires RailInv(env, s) && Can(env, s, a) && ActorOf(a) == Pass
    ensures RailInv(env, Do(s, a))
  {
  }

  lemma RailInvByWriter(env: Env, s: State, a: Action)
    requires RailInv(env, s) && Can(env, s, a) && ActorOf(a) == Writer
    ensures RailInv(env, Do(s, a))
  {
  }

  lemma RailInvStep(env: Env, s: State, a: Action)
    requires RailInv(env, s) && Can(env, s, a)
    ensures RailInv(env, Do(s, a))
  {
    hide RailInv, Can, Do;
    match ActorOf(a)
    case Handler => RailInvByHandler(env, s, a);
    case Outcome => RailInvByOutcome(env, s, a);
    case World => RailInvByWorld(env, s, a);
    case Pass => RailInvByPass(env, s, a);
    case Writer => RailInvByWriter(env, s, a);
  }

  /** Holds when the route's outcome write never throws, with any number of
      overlapping reconciliation passes, or when there is no reconciliation at all. */
  predicate OnceInv(env: Env, s: State) {
    && RailInv(env, s) && s.refunds <= 1
    // the unguarded poller only lives while nobody else can refund
    && (s.routePoller ==>
          && s.refunds == 0 && Unreconciled(s)
          && (s.route == DirectAnswered
              || (s.route == Ended && (s.status == Completed || (s.status == Processing && env.reconcilers == 0)))))
    && (s.route == DirectAnswered && s.refunds == 1 ==> s.status == Failed)
    && (s.status == Completed && s.refunds == 1 ==> Unreconciled(s) && !s.routePoller)
  }

  predicate OneRefunder(env: Env) { !(env.outcomeWriteCanThrow && env.reconcilers > 0) }

  lemma OnceInvByHandler(env: Env, s: State, a: Action)
    requires OneRefunder(env) && OnceInv(env, s) && Can(env, s, a) && ActorOf(a) == Handler
    ensures OnceInv(env, Do(s, a))
  {
    RailInvByHandler(env, s, a);
  }

  lemma OnceInvByOutcome(env: Env, s: State, a: Action)
    requires OneRefunder(env) && OnceInv(env, s) && Can(env, s, a) && ActorOf(a) == Outcome
    ensures OnceInv(env, Do(s, a))
  {
    RailInvByOutcome(env, s, a);
  }

  lemma OnceInvByWorld(env: Env, s: State, a: Action)
    requires OneRefunder(env) && OnceInv(env, s) && Can(env, s, a) && ActorOf(a) == World
    ensures OnceInv(env, Do(s, a))
  {
    RailInvByWorld(env, s, a);
  }

  lemma OnceInvByPass(env: Env, s: State, a: Action)
    requires OneRefunder(env) && OnceInv(env, s) && Can(env, s, a) && ActorOf(a) == Pass
    ensures OnceInv(env, Do(s, a))
  {
    RailInvByPass(env, s, a);
  }

  lemma OnceInvByWriter(env: Env, s: State, a: Action)
    requires OneRefunder(env) && OnceInv(env, s) && Can(env, s, a) && ActorOf(a) == Writer
    ensures OnceInv(env, Do(s, a))
  {
    RailInvByWriter(env, s, a);
  }

  lemma OnceInvStep(env: Env, s: State, a: Action)
    requires OneRefunder(env) && OnceInv(env, s) && Can(env, s, a)
    ensures OnceInv(env, Do(s, a))
  {
    hide OnceInv, OneRefunder, Can, Do;
    match ActorOf(a)
    case Handler => OnceInvByHandler(env, s, a);
    case Outcome => OnceInvByOutcome(env, s, a);
    case World => OnceInvByWorld(env, s, a);
    case Pass => OnceInvByPass(env, s, a);
    case Writer => OnceInvByWriter(env, s, a);
  }

  /** A direct payment exists and has not bounced, or could still come to exist. */
  predicate DirectAlive(s: State) {
    s.direct in {InFlight, Landed} || (s.direct == NotSent && (s.directStray || s.route == DirectPost || s.posting > 0))
  }

  predicate BurnAlive(s: State) {
    s.burn in {InFlight, Landed} || (s.burn == NotSent && (s.burnStray || s.route == GatewayPost))
  }

  /** Reconciliation passes do not overlap, and Gateway's answers are clear. */
  predicate Orderly(env: Env) { env.reconcilers <= 1 && !env.unclearGateway }

  /** Holds then: what was given back can no longer be paid. */
  predicate DeadInv(env: Env, s: State) {
    && RailInv(env, s)
    && (s.refunds > 0 ==> !DirectAlive(s) && !BurnAlive(s) && s.route in {DirectAnswered, Ended})
    && (s.posting + s.answered > 0 ==> s.status in {Processing, Failed})
  }

  lemma DeadInvByHandler(env: Env, s: State, a: Action)
    requires Orderly(env) && DeadInv(env, s) && Can(env, s, a) && ActorOf(a) == Handler
    ensures DeadInv(env, Do(s, a))
  {
    RailInvByHandler(env, s, a);
  }

  lemma DeadInvByOutcome(env: Env, s: State, a: Action)
    requires Orderly(env) && DeadInv(env, s) && Can(env, s, a) && ActorOf(a) == Outcome
    ensures DeadInv(env, Do(s, a))
  {
    RailInvByOutcome(env, s, a);
  }

  lemma DeadInvByWorld(env: Env, s: State, a: Action)
    requires Orderly(env) && DeadInv(env, s) && Can(env, s, a) && ActorOf(a) == World
    ensures DeadInv(env, Do(s, a))
  {
    RailInvByWorld(env, s, a);
  }

  lemma DeadInvByPass(env: Env, s: State, a: Action)
    requires Orderly(env) && DeadInv(env, s) && Can(env, s, a) && ActorOf(a) == Pass
    ensures DeadInv(env, Do(s, a))
  {
    RailInvByPass(env, s, a);
  }

  lemma DeadInvByWriter(env: Env, s: State, a: Action)
    requires Orderly(env) && DeadInv(env, s) && Can(env, s, a) && ActorOf(a) == Writer
    ensures DeadInv(env, Do(s, a))
  {
    RailInvByWriter(env, s, a);
  }

  lemma DeadInvStep(env: Env, s: State, a: Action)
    requires Orderly(env) && DeadInv(env, s) && Can(env, s, a)
    ensures DeadInv(env, Do(s, a))
  {
    hide DeadInv, Orderly, Can, Do;
    match ActorOf(a)
    case Handler => DeadInvByHandler(env, s, a);
    case Outcome => DeadInvByOutcome(env, s, a);
    case World => DeadInvByWorld(env, s, a);
    case Pass => DeadInvByPass(env, s, a);
    case Writer => DeadInvByWriter(env, s, a);
  }

  /** The deducted amount is out of the balance exactly while it is not refunded. */
  predicate Booked(s: State, opening: int) {
    s.balance == opening - (if s.status == Absent then 0 else s.gross) + s.refunds * s.gross
  }

  /** An action deducts the gross amount, gives it back once, or leaves the money alone. */
  predicate MoneyMoves(s: State, t: State) {
    && t.gross == s.gross
    && if s.status == Absent && t.status != Absent then t.balance == s.balance - s.gross && t.refunds == s.refunds
       else (t.status == Absent <==> s.status == Absent)
            && (t.refunds == s.refunds || t.refunds == s.refunds + 1)
            && t.balance == s.balance + (if t.refunds == s.refunds then 0 else s.gross)
  }

  lemma MoneyByHandler(env: Env, s: State, a: Action)
    requires RailInv(env, s) && Can(env, s, a) && ActorOf(a) == Handler
    ensures MoneyMoves(s, Do(s, a))
  {
  }

  lemma MoneyByOutcome(env: Env, s: State, a: Action)
    requires RailInv(env, s) && Can(env, s, a) && ActorOf(a) == Outcome
    ensures MoneyMoves(s, Do(s, a))
  {
  }

  lemma MoneyByWorkers(env: Env, s: State, a: Action)
    requires RailInv(env, s) && Can(env, s, a) && ActorOf(a) in {World, Pass}
    ensures MoneyMoves(s, Do(s, a))
  {
  }

  lemma MoneyByWriter(env: Env, s: State, a: Action)
    requires RailInv(env, s) && Can(env, s, a) && ActorOf(a) == Writer
    ensures MoneyMoves(s, Do(s, a))
  {
  }

  lemma BookedStep(env: Env, s: State, a: Action, opening: int)
    requires RailInv(env, s) && Booked(s, opening) && Can(env, s, a)
    ensures Booked(Do(s, a), opening)
  {
    hide RailInv, Can, Do;
    match ActorOf(a) {
      case Handler => MoneyByHandler(env, s, a);
      case Outcome => MoneyByOutcome(env, s, a);
      case World | Pass => MoneyByWorkers(env, s, a);
      case Writer => MoneyByWriter(env, s, a);
    }
    assert (s.refunds + 1) * s.gross == s.refunds * s.gross + s.gross;
  }

  // ── Whole runs ────────────────────────────────────────────────────────────

  lemma InitInv(env: Env, s: State)
    requires Init(s)
    ensures RailInv(env, s) && OnceInv(env, s) && DeadInv(env, s) && Booked(s, s.balance)
  {
  }

  lemma {:induction false} RailInvRuns(env: Env, s: State, acts: seq<Action>)
    requires RailInv(env, s) && Runs(env, s, acts)
    ensures RailInv(env, After(s, acts))
    decreases |acts|
  {
    hide RailInv, Do;
    if acts != [] {
      RailInvStep(env, s, acts[0]);
      RailInvRuns(env, Do(s, acts[0]), acts[1..]);
    }
  }

  lemma {:induction false} BookedRuns(env: Env, s: State, acts: seq<Action>, opening: int)
    requires RailInv(env, s) && Booked(s, opening) && Runs(env, s, acts)
    ensures Booked(After(s, acts), opening)
    decreases |acts|
  {
    hide RailInv, Booked, Do;
    if acts != [] {
      RailInvStep(env, s, acts[0]);
      BookedStep(env, s, acts[0], opening);
      BookedRuns(env, Do(s, acts[0]), acts[1..], opening);
    }
  }

  /** In every run, whatever crashes, overlaps or is answered unclearly: Circle and Gateway
      are never both paid, a completed row has a payment behind it, a failed or refunded row
      was given back, and the balance is the opening one, less the gross amount, plus the
      refunds. */
  lemma {:induction false} EveryRun(env: Env, s: State, acts: seq<Action>)
    requires Init(s) && Runs(env, s, acts)
    ensures var t := After(s, acts);
      && !(t.direct != NotSent && (t.burn != NotSent || t.unclear != NotSent))
      && (t.status == Completed ==> t.direct != NotSent || t.burn == Landed || t.unclear == Landed)
      && (t.status in {Failed, Refunded} <==> t.refunds > 0 && t.status != Completed)
      && t.balance == s.balance - (if t.status == Absent then 0 else t.gross) + t.refunds * t.gross
  {
    InitInv(env, s);
    RailInvRuns(env, s, acts);
    BookedRuns(env, s, acts, s.balance);
  }

  lemma {:induction false} OnceInvRuns(env: Env, s: State, acts: seq<Action>)
    requires OneRefunder(env) && OnceInv(env, s) && Runs(env, s, acts)
    ensures OnceInv(env, After(s, acts))
    decreases |acts|
  {
    hide OnceInv, Do;
    if acts != [] {
      OnceInvStep(env, s, acts[0]);
      OnceInvRuns(env, Do(s, acts[0]), acts[1..]);
    }
  }

  lemma {:induction false} DeadInvRuns(env: Env, s: State, acts: seq<Action>)
    requires Orderly(env) && DeadInv(env, s) && Runs(env, s, acts)
    ensures DeadInv(env, After(s, acts))
    decreases |acts|
  {
    hide DeadInv, Do;
    if acts != [] {
      DeadInvStep(env, s, acts[0]);
      DeadInvRuns(env, Do(s, acts[0]), acts[1..]);
    }
  }

  /** Runs can be prolonged by one action at the end. */
  lemma {:induction false} Prolong(env: Env, s: State, acts: seq<Action>, a: Action)
    requires Runs(env, s, acts) && Can(env, After(s, acts), a)
    ensures Runs(env, s, acts + [a]) && After(s, acts + [a]) == Do(After(s, acts), a)
    decreases |acts|
  {
    hide Do;
    if acts == [] {
      assert [a][1..] == [];
    } else {
      Prolong(env, Do(s, acts[0]), acts[1..], a);
      assert (acts + [a])[1..] == acts[1..] + [a];
    }
  }

  lemma Then(env: Env, s: State, acts: seq<Action>, t: State, a: Action) returns (acts': seq<Action>, t': State)
    requires Runs(env, s, acts) && After(s, acts) == t && Can(env, t, a)
    ensures acts' == acts + [a] && Runs(env, s, acts') && After(s, acts') == t' == Do(t, a)
  {
    Prolong(env, s, acts, a);
    acts', t' := acts + [a], Do(t, a);
  }

  lemma NoSteps(env: Env, s: State)
    ensures Runs(env, s, []) && After(s, []) == s
  {
  }

  /** A user with enough money, before anything happened. */
  const FRESH := State(Absent, 1, 1, 0, NoId, Idle, false, 0, 0, false, NotSent, NotSent, NotSent, false, false)

  // ── Refunded twice ────────────────────────────────────────────────────────

  /** The route's outcome write fails while its poller lives on ... */
  lemma OutcomeWriteLost(env: Env) returns (acts: seq<Action>, t: State)
    requires env.outcomeWriteCanThrow && env.reconcilers > 0
    ensures Runs(env, FRESH, acts) && After(FRESH, acts) == t
    ensures t == FRESH.(status := Processing, balance := 0, route := Ended, routePoller := true, direct := InFlight)
  {
    hide Runs, After;
    NoSteps(env, FRESH);
    acts, t := [], FRESH;
    acts, t := Then(env, FRESH, acts, t, Deduct);
    acts, t := Then(env, FRESH, acts, t, ChooseDirect);
    acts, t := Then(env, FRESH, acts, t, CircleTakes);
    acts, t := Then(env, FRESH, acts, t, DirectOk);
    acts, t := Then(env, FRESH, acts, t, RecordThrows);
  }

  /** ... a replay finds the transfer and starts a second poller; the transfer fails
      on-chain and both pollers give the money back. */
  lemma TwoPollersRefundTwice(env: Env) returns (acts: seq<Action>)
    requires env.outcomeWriteCanThrow && env.reconcilers > 0
    ensures Runs(env, FRESH, acts) && After(FRESH, acts).refunds == 2
  {
    hide Runs, After;
    var t;
    acts, t := OutcomeWriteLost(env);
    acts, t := Then(env, FRESH, acts, t, ReconPost);
    acts, t := Then(env, FRESH, acts, t, ReconOk);
    acts, t := Then(env, FRESH, acts, t, ReconRecord);
    acts, t := Then(env, FRESH, acts, t, CircleFails);
    acts, t := Then(env, FRESH, acts, t, ReconPollerSeesFailure);
    acts, t := Then(env, FRESH, acts, t, RoutePollerSeesFailure);
  }

  ghost predicate AlwaysRefundedAtMostOnce(env: Env) {
    forall s, acts :: Init(s) && Runs(env, s, acts) ==> After(s, acts).refunds <= 1
  }

  lemma RefundedAtMostOnce(env: Env)
    ensures AlwaysRefundedAtMostOnce(env) <==> !(env.outcomeWriteCanThrow && env.reconcilers > 0)
  {
    if env.outcomeWriteCanThrow && env.reconcilers > 0 {
      var acts := TwoPollersRefundTwice(env);
    } else {
      forall s, acts | Init(s) && Runs(env, s, acts) ensures After(s, acts).refunds <= 1 {
        InitInv(env, s);
        OnceInvRuns(env, s, acts);
      }
    }
  }

  // ── Refunded and delivered, or delivered twice ────────────────────────────

  /** Two passes replay the same row; the first is rejected and refunds, the second
      is accepted and pays. */
  lemma OverlappingPassesRefundAndPay(env: Env) returns (acts: seq<Action>)
    requires env.reconcilers > 1
    ensures Runs(env, FRESH, acts)
    ensures var t := After(FRESH, acts); t.refunds == 1 && t.direct == Landed
  {
    hide Runs, After;
    NoSteps(env, FRESH);
    var t := FRESH;
    acts := [];
    acts, t := Then(env, FRESH, acts, t, Deduct);
    acts, t := Then(env, FRESH, acts, t, ChooseDirect);
    acts, t := Then(env, FRESH, acts, t, DirectNoAnswer);
    acts, t := Then(env, FRESH, acts, t, ReconPost);
    acts, t := Then(env, FRESH, acts, t, ReconPost);
    acts, t := Then(env, FRESH, acts, t, ReconRejected);
    acts, t := Then(env, FRESH, acts, t, CircleTakes);
    acts, t := Then(env, FRESH, acts, t, CircleLands);
  }

  /** Gateway accepts a batch with an unclear answer, the next one is rejected, and the
      route refunds. */
  lemma UnclearAnswerRefundsAndPays(env: Env) returns (acts: seq<Action>)
    requires env.unclearGateway
    ensures Runs(env, FRESH, acts)
    ensures var t := After(FRESH, acts); t.refunds == 1 && t.unclear == Landed && t.status == Failed
  {
    hide Runs, After;
    NoSteps(env, FRESH);
    var t := FRESH;
    acts := [];
    acts, t := Then(env, FRESH, acts, t, Deduct);
    acts, t := Then(env, FRESH, acts, t, ChooseGateway);
    acts, t := Then(env, FRESH, acts, t, GatewayUnclear);
    acts, t := Then(env, FRESH, acts, t, GatewayRejected);
    acts, t := Then(env, FRESH, acts, t, UnclearMints);
  }

  /** Gateway accepts a batch with an unclear answer, then another one properly ... */
  lemma TwoBatchesAccepted(env: Env) returns (acts: seq<Action>, t: State)
    requires env.unclearGateway
    ensures Runs(env, FRESH, acts) && After(FRESH, acts) == t
    ensures t == FRESH.(status := SubmittingGateway, balance := 0, route := GatewayPost, unclear := InFlight, burn := InFlight)
  {
    hide Runs, After;
    NoSteps(env, FRESH);
    acts, t := [], FRESH;
    acts, t := Then(env, FRESH, acts, t, Deduct);
    acts, t := Then(env, FRESH, acts, t, ChooseGateway);
    acts, t := Then(env, FRESH, acts, t, GatewayUnclear);
    acts, t := Then(env, FRESH, acts, t, GatewayTakes);
  }

  /** ... and both arrive. */
  lemma UnclearAnswerPaysTwice(env: Env) returns (acts: seq<Action>)
    requires env.unclearGateway
    ensures Runs(env, FRESH, acts)
    ensures var t := After(FRESH, acts); t.unclear == Landed && t.burn == Landed && t.status == Delivering
  {
    hide Runs, After;
    var t;
    acts, t := TwoBatchesAccepted(env);
    acts, t := Then(env, FRESH, acts, t, GatewayOk);
    acts, t := Then(env, FRESH, acts, t, RecordGateway);
    acts, t := Then(env, FRESH, acts, t, UnclearMints);
    acts, t := Then(env, FRESH, acts, t, GatewayMints);
  }

  predicate RefundedAndDelivered(s: State) {
    s.refunds > 0 && Landed in {s.direct, s.burn, s.unclear}
  }

  ghost predicate NeverRefundedAndDelivered(env: Env) {
    forall s, acts :: Init(s) && Runs(env, s, acts) ==> !RefundedAndDelivered(After(s, acts))
  }

  lemma RefundedOrDelivered(env: Env)
    ensures NeverRefundedAndDelivered(env) <==> env.reconcilers <= 1 && !env.unclearGateway
  {
    if env.reconcilers > 1 {
      var acts := OverlappingPassesRefundAndPay(env);
      assert RefundedAndDelivered(After(FRESH, acts));
    } else if env.unclearGateway {
      var acts := UnclearAnswerRefundsAndPays(env);
      assert RefundedAndDelivered(After(FRESH, acts));
    } else {
      forall s, acts | Init(s) && Runs(env, s, acts) ensures !RefundedAndDelivered(After(s, acts)) {
        InitInv(env, s);
        DeadInvRuns(env, s, acts);
      }
    }
  }

  predicate DeliveredTwice(s: State) {
    (s.direct == Landed && (s.burn == Landed || s.unclear == Landed)) || (s.burn == Landed && s.unclear == Landed)
  }

  ghost predicate NeverDeliveredTwice(env: Env) {
    forall s, acts :: Init(s) && Runs(env, s, acts) ==> !DeliveredTwice(After(s, acts))
  }

  lemma DeliveredAtMostOnce(env: Env)
    ensures NeverDeliveredTwice(env) <==> !env.unclearGateway
  {
    if env.unclearGateway {
      var acts := UnclearAnswerPaysTwice(env);
      assert DeliveredTwice(After(FRESH, acts));
    } else {
      forall s, acts | Init(s) && Runs(env, s, acts) ensures !DeliveredTwice(After(s, acts)) {
        InitInv(env, s);
        RailInvRuns(env, s, acts);
      }
    }
  }

  // ── The status graph ──────────────────────────────────────────────────────

  /** Everything except the route and its poller, whose writes are unguarded. */
  predicate Guarded(a: Action) {
    a == Crash || !(ActorOf(a) in {Handler, Outcome} || a == RoutePollerSeesFailure)
  }

  function Rank(status: Status): nat {
    match status
    case Absent | Processing => 0
    case SubmittingGateway => 1
    case Delivering | NeedsReview => 2
    case Completed => 3
    case Failed | Refunded => 4
  }

  predicate Settled(s: State) { s.status in {Failed, Refunded} }

  /** How guarded actions may change a row: the status moves up or stays, a settled
      row keeps its status, and the gross amount is given back exactly on settling. */
  predicate GuardedChange(s: State, t: State) {
    var settled := Settled(t) && !Settled(s);
    && (t.status == s.status || Rank(t.status) > Rank(s.status))
    && (Settled(s) ==> t.status == s.status)
    && t.refunds == s.refunds + (if settled then 1 else 0)
    && t.balance == s.balance + (if settled then s.gross else 0)
    && t.gross == s.gross
  }

  lemma GuardedByPass(s: State, a: Action)
    requires ActorOf(a) == Pass
    ensures GuardedChange(s, Do(s, a))
  {
  }

  lemma GuardedByWriter(s: State, a: Action)
    requires ActorOf(a) == Writer && a != RoutePollerSeesFailure
    ensures GuardedChange(s, Do(s, a))
  {
  }

  lemma GuardedByOthers(s: State, a: Action)
    requires ActorOf(a) == World || a == Crash
    ensures GuardedChange(s, Do(s, a))
  {
  }

  lemma GuardedStep(s: State, a: Action)
    requires Guarded(a)
    ensures GuardedChange(s, Do(s, a))
  {
    hide Do, GuardedChange;
    match ActorOf(a)
    case Pass => GuardedByPass(s, a);
    case Writer => GuardedByWriter(s, a);
    case _ => GuardedByOthers(s, a);
  }

  /** Runs of the workers, the webhook and the admin, from any state at all: the
      status graph is acyclic, "failed" and "refunded" are never left, and any number
      of competing refunds restores the gross amount at most once. */
  lemma {:induction false} GuardedRun(env: Env, s: State, acts: seq<Action>)
    requires Runs(env, s, acts) && (forall a | a in acts :: Guarded(a))
    ensures GuardedChange(s, After(s, acts))
    decreases |acts|
  {
    hide Do, Can;
    if acts != [] {
      assert Guarded(acts[0]);
      GuardedStep(s, acts[0]);
      forall a | a in acts[1..] ensures Guarded(a) { assert a in acts; }
      GuardedRun(env, Do(s, acts[0]), acts[1..]);
    }
  }

  /** The route's last UPDATE, and its poller's, on a row that is settled otherwise. */
  predicate Overwrites(s: State, a: Action) {
    a == RecordDirect || (a == RoutePollerSeesFailure && s.status == Refunded)
  }

  /** Exactly these steps leave "failed" or "refunded". */
  lemma SettledLeftExactly(env: Env, s: State, a: Action)
    requires RailInv(env, s) && Can(env, s, a) && Settled(s)
    ensures Do(s, a).status != s.status <==> Overwrites(s, a)
  {
    hide Do;
    if Guarded(a) {
      GuardedStep(s, a);
    } else if ActorOf(a) == Handler {
      SettledAndHandler(env, s, a);
    } else {
      SettledAndOutcome(env, s, a);
    }
  }

  /** The handler is past these steps once the row is settled. */
  lemma SettledAndHandler(env: Env, s: State, a: Action)
    requires RailInv(env, s) && Settled(s) && ActorOf(a) == Handler
    ensures !Can(env, s, a)
  {
  }

  lemma SettledAndOutcome(env: Env, s: State, a: Action)
    requires RailInv(env, s) && Can(env, s, a) && Settled(s) && (ActorOf(a) == Outcome || a == RoutePollerSeesFailure)
    ensures Do(s, a).status != s.status <==> Overwrites(s, a)
  {
  }

  /** Every status "failed" or "refunded" that a run reaches lasts to its next step. */
  predicate SettledStays(s: State, acts: seq<Action>)
    decreases |acts|
  {
    acts == [] || ((Settled(s) ==> Do(s, acts[0]).status == s.status) && SettledStays(Do(s, acts[0]), acts[1..]))
  }

  /** No overwriting step is taken from a settled row. */
  predicate NothingOverwritten(s: State, acts: seq<Action>)
    decreases |acts|
  {
    acts == [] || ((Settled(s) ==> !Overwrites(s, acts[0])) && NothingOverwritten(Do(s, acts[0]), acts[1..]))
  }

  /** With the route taking part, settled rows stay settled over a run exactly when no
      overwriting step occurs in it. */
  lemma {:induction false} SettledStaysExactly(env: Env, s: State, acts: seq<Action>)
    requires RailInv(env, s) && Runs(env, s, acts)
    ensures SettledStays(s, acts) <==> NothingOverwritten(s, acts)
    decreases |acts|
  {
    hide RailInv, Do, Overwrites;
    if acts != [] {
      if Settled(s) { SettledLeftExactly(env, s, acts[0]); }
      RailInvStep(env, s, acts[0]);
      SettledStaysExactly(env, Do(s, acts[0]), acts[1..]);
    }
  }

  lemma TransferAnswered(env: Env) returns (acts: seq<Action>, t: State)
    ensures Runs(env, FRESH, acts) && After(FRESH, acts) == t
    ensures t == FRESH.(status := Processing, balance := 0, route := DirectAnswered, routePoller := true, direct := InFlight)
  {
    hide Runs, After;
    NoSteps(env, FRESH);
    acts, t := [], FRESH;
    acts, t := Then(env, FRESH, acts, t, Deduct);
    acts, t := Then(env, FRESH, acts, t, ChooseDirect);
    acts, t := Then(env, FRESH, acts, t, CircleTakes);
    acts, t := Then(env, FRESH, acts, t, DirectOk);
  }

  /** Such a run exists in every deployment: the poller refunds, then the route writes
      "completed", though the transfer has bounced. */
  lemma RouteOverwritesRefund(env: Env) returns (acts: seq<Action>)
    ensures Runs(env, FRESH, acts)
    ensures var t := After(FRESH, acts); t.status == Completed && t.refunds == 1 && t.direct == Bounced
  {
    hide Runs, After;
    var t;
    acts, t := TransferAnswered(env);
    acts, t := Then(env, FRESH, acts, t, CircleFails);
    acts, t := Then(env, FRESH, acts, t, RoutePollerSeesFailure);
    acts, t := Then(env, FRESH, acts, t, RecordDirect);
  }

  // ── A transfer that fails when nobody watches ─────────────────────────────

  /** Somebody can still give the amount of a bounced transfer back. */
  predicate Watched(env: Env, s: State) {
    || s.routePoller || s.reconPoller || s.posting > 0
    || s.route == DirectPost || s.status == NeedsReview || (s.status == Processing && env.reconcilers > 0)
  }

  /** The transfer has bounced, nothing was given back, and nobody watches. */
  predicate Stranded(env: Env, s: State) {
    && s.direct == Bounced && s.refunds == 0 && !Watched(env, s)
    && s.status in {Processing, Completed} && s.route in {DirectAnswered, Ended} && s.transferId != BurnId
  }

  lemma StrandedStep(env: Env, s: State, a: Action)
    requires Stranded(env, s) && Can(env, s, a)
    ensures Stranded(env, Do(s, a)) && Do(s, a).balance == s.balance
  {
  }

  /** Nothing that can still happen gives the money of such a row back. */
  lemma {:induction false} StrandedForever(env: Env, s: State, acts: seq<Action>)
    requires Stranded(env, s) && Runs(env, s, acts)
    ensures Stranded(env, After(s, acts)) && After(s, acts).balance == s.balance
    decreases |acts|
  {
    hide Stranded, Do;
    if acts != [] {
      StrandedStep(env, s, acts[0]);
      StrandedForever(env, Do(s, acts[0]), acts[1..]);
    }
  }

  /** A watched row is given back: by its poller, by the admin, or by a replay that finds
      the transfer and starts a poller of its own. */
  lemma Rescue(env: Env, s: State) returns (acts: seq<Action>)
    requires RailInv(env, s) && s.direct == Bounced && s.refunds == 0 && Watched(env, s)
    ensures Runs(env, s, acts) && After(s, acts).refunds > 0
  {
    if s.routePoller || s.route == DirectPost {
      acts := PollerRescues(env, s);
    } else if s.status == Processing {
      acts := ReplayRescues(env, s);
    } else {
      acts := WriterRescues(env, s);
    }
  }

  lemma PollerRescues(env: Env, s: State) returns (acts: seq<Action>)
    requires s.direct == Bounced && (s.routePoller || s.route == DirectPost)
    ensures Runs(env, s, acts) && After(s, acts).refunds > 0
  {
    hide Runs, After;
    NoSteps(env, s);
    var t := s;
    acts := [];
    if !s.routePoller { acts, t := Then(env, s, acts, t, DirectOk); }
    acts, t := Then(env, s, acts, t, RoutePollerSeesFailure);
  }

  lemma WriterRescues(env: Env, s: State) returns (acts: seq<Action>)
    requires RailInv(env, s) && s.direct == Bounced && s.refunds == 0 && s.status != Processing
    requires s.status == NeedsReview || s.reconPoller || s.posting > 0
    ensures Runs(env, s, acts) && After(s, acts).refunds > 0
  {
    assert DirectRail(s) && s.status in {NeedsReview, Completed};
    hide Runs, After, RailInv;
    NoSteps(env, s);
    var t := s;
    acts := [];
    if s.status == NeedsReview {
      acts, t := Then(env, s, acts, t, AdminRefund);
    } else {
      if !s.reconPoller { acts, t := Then(env, s, acts, t, ReconOk); }
      acts, t := Then(env, s, acts, t, ReconPollerSeesFailure);
    }
  }

  /** Also when the handler is still at work: the server may stop first. */
  lemma ReplayRescues(env: Env, s: State) returns (acts: seq<Action>)
    requires RailInv(env, s) && s.direct == Bounced && s.refunds == 0 && s.status == Processing && env.reconcilers > 0
    ensures Runs(env, s, acts) && After(s, acts).refunds > 0
  {
    var t := Do(s, Crash);
    var more := ReplayOfEnded(env, t);
    acts := [Crash] + more;
    assert acts[1..] == more;
  }

  lemma ReplayOfEnded(env: Env, s: State) returns (acts: seq<Action>)
    requires s.route == Ended && s.direct == Bounced && s.refunds == 0 && s.status == Processing
    requires env.reconcilers > 0 && s.posting == 0 && s.answered == 0
    ensures Runs(env, s, acts) && After(s, acts).refunds > 0
  {
    hide Runs, After;
    NoSteps(env, s);
    var t := s;
    acts := [];
    acts, t := Then(env, s, acts, t, ReconPost);
    acts, t := Then(env, s, acts, t, ReconOk);
    acts, t := Then(env, s, acts, t, ReconRecord);
    acts, t := Then(env, s, acts, t, ReconPollerSeesFailure);
  }

  /** After any run, a transfer that has bounced without a refund can still be given back
      exactly if somebody watches. For a completed row whose handler has ended this means
      that one of its pollers is alive or a replay is outstanding. */
  lemma BouncedGivenBackExactly(env: Env, s: State, acts: seq<Action>)
    requires Init(s) && Runs(env, s, acts) && After(s, acts).direct == Bounced && After(s, acts).refunds == 0
    ensures var t := After(s, acts);
      (exists more :: Runs(env, t, more) && After(t, more).refunds > 0) <==> Watched(env, t)
  {
    hide Init, Do, Can, Watched;
    var t := After(s, acts);
    InitInv(env, s);
    RailInvRuns(env, s, acts);
    if Watched(env, t) {
      var more := Rescue(env, t);
    } else {
      UnwatchedIsStranded(env, t);
      forall more | Runs(env, t, more) ensures After(t, more).refunds == 0 {
        StrandedForever(env, t, more);
      }
    }
  }

  lemma UnwatchedIsStranded(env: Env, s: State)
    requires RailInv(env, s) && s.direct == Bounced && s.refunds == 0 && !Watched(env, s)
    ensures Stranded(env, s)
  {
  }

  /** It can come to that in every deployment: the poller gives up after half an hour. */
  lemma FailureAfterPoller(env: Env) returns (acts: seq<Action>)
    ensures Runs(env, FRESH, acts) && Stranded(env, After(FRESH, acts)) && After(FRESH, acts).status == Completed
  {
    hide Runs, After;
    var t;
    acts, t := TransferAnswered(env);
    acts, t := Then(env, FRESH, acts, t, RecordDirect);
    acts, t := Then(env, FRESH, acts, t, RoutePollerStops);
    acts, t := Then(env, FRESH, acts, t, CircleFails);
  }
}
