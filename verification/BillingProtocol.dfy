/** One subscription through activation, renewal, failure, worker retry, manual retry
    and cancellation.

    A billing pass fixes its `now` at the start, then goes through three sections. Each
    section first selects the rows that are due and later works on what it selected, so
    other requests may change the row in between. The charge and the row update of one
    attempt are one step.
 */
module BillingProtocol {
  import opened Wrappers
  import opened Calendar
  import opened BillingDates

  const MAX_RETRIES := 7

  datatype Status = Trialing | Active | PastDue | Cancelled | Failed

  datatype Billing = Billing(
    status: Status,
    interval: Interval,
    trialEndsAt: Option<int>,
    nextBillingAt: int,
    retryCount: nat,
    lastRetryAt: Option<int>)

  datatype Section = Trials | Renewals | Retries

  /** How an attempt to charge ends. `Threw`: any other error; nothing was charged. */
  datatype Outcome = Paid | Insufficient | Threw

  /** The WHERE clause of each section's SELECT. */
  predicate Due(b: Billing, section: Section, now: int) {
    match section
    case Trials => b.status == Trialing && b.trialEndsAt.Some? && b.trialEndsAt.value <= now
    case Renewals => b.status == Active && b.nextBillingAt <= now
    case Retries =>
      b.status == PastDue && b.lastRetryAt.Some? && b.lastRetryAt.value <= now - DAY && b.retryCount < MAX_RETRIES
  }

  /** The row update after an attempt: `seen` is the row as selected, `b` as it is now. */
  function Attempted(b: Billing, seen: Billing, section: Section, now: int, outcome: Outcome): Billing {
    match (outcome, section)
    case (Threw, _) => b
    case (Paid, Trials) => b.(status := Active, nextBillingAt := Advance(now, seen.interval), retryCount := 0)
    case (Paid, Renewals) => b.(nextBillingAt := Advance(now, seen.interval), retryCount := 0)
    case (Paid, Retries) =>
      b.(status := Active, nextBillingAt := Advance(now, seen.interval), retryCount := 0, lastRetryAt := None)
    case (Insufficient, Retries) =>
      b.(status := if seen.retryCount + 1 >= MAX_RETRIES then Failed else PastDue,
         retryCount := seen.retryCount + 1, lastRetryAt := Some(now))
    case (Insufficient, _) => b.(status := PastDue, retryCount := 1, lastRetryAt := Some(now))
  }

  /** The subscriber paid a past-due subscription themselves. */
  function Retried(b: Billing, now: int): Billing {
    b.(status := Active, nextBillingAt := Advance(now, b.interval), retryCount := 0, lastRetryAt := None)
  }

  /** A new subscription, charged at once or on trial. */
  function Activated(interval: Interval, trialDays: Option<nat>, now: int): Billing {
    if trialDays.Some? && trialDays.value > 0
    then Billing(Trialing, interval, Some(now + trialDays.value * DAY), now + trialDays.value * DAY, 0, None)
    else Billing(Active, interval, None, Advance(now, interval), 0, None)
  }

  // ── The transition system ─────────────────────────────────────────────────

  /** Where the worker is. `attempts` counts its attempts on this row in this pass. */
  datatype Pass =
    | NoPass
    | Before(now: int, section: Section, attempts: nat)
    | Selected(now: int, section: Section, attempts: nat, seen: Billing)

  /** `from`: the instant the paid period is counted from. `at`: when it committed. */
  datatype Charge = Charge(from: int, at: int)

  datatype State = State(
    billing: Billing,
    pass: Pass,
    clock: int,
    charges: seq<Charge>,
    failures: seq<int>,        // instants of all the worker's failed attempts
    sinceCharge: nat,          // how many of them came after the last charge
    chargedDead: bool)         // some charge found the row cancelled or failed

  datatype Action =
    | Wait(ms: nat)
    | StartPass | Select | Attempt(outcome: Outcome) | CancelSelf | Crash
    | ManualRetry | Cancel | Replace

  /** What other requests may do to a row between a section's SELECT and the attempt:
      `retryBetween`: the subscriber pays it; `cancelBetween`: it is cancelled or replaced. */
  datatype Env = Env(retryBetween: bool, cancelBetween: bool)

  ghost predicate Init(s: State) {
    && s.pass == NoPass && s.failures == [] && s.sinceCharge == 0 && !s.chargedDead
    && exists interval, trial :: StartsAs(s, interval, trial)
  }

  predicate StartsAs(s: State, interval: Interval, trial: Option<nat>) {
    && s.billing == Activated(interval, trial, s.clock)
    && s.charges == if s.billing.status == Active then [Charge(s.clock, s.clock)] else []
  }

  predicate Can(env: Env, s: State, a: Action) {
    match a
    case Wait(_) => true
    case StartPass => s.pass == NoPass
    case Select => s.pass.Before?
    case Attempt(_) => s.pass.Selected?
    case CancelSelf => s.pass.Selected?
    case Crash => s.pass != NoPass
    case ManualRetry => s.billing.status == PastDue && (s.pass.Selected? ==> env.retryBetween)
    case Cancel => s.billing.status !in {Cancelled, Failed} && (s.pass.Selected? ==> env.cancelBetween)
    case Replace => s.pass.Selected? ==> env.cancelBetween
  }

  function NextSection(now: int, section: Section, attempts: nat): Pass {
    match section
    case Trials => Before(now, Renewals, attempts)
    case Renewals => Before(now, Retries, attempts)
    case Retries => NoPass
  }

  function ChargeTo(s: State, from: int): State {
    s.(charges := s.charges + [Charge(from, s.clock)], sinceCharge := 0,
       chargedDead := s.chargedDead || s.billing.status in {Cancelled, Failed})
  }

  function Do(s: State, a: Action): State {
    match a
    case Wait(ms) => s.(clock := s.clock + ms)
    case StartPass => s.(pass := Before(s.clock, Trials, 0))
    case Select =>
      if !s.pass.Before? then s
      else if Due(s.billing, s.pass.section, s.pass.now)
      then s.(pass := Selected(s.pass.now, s.pass.section, s.pass.attempts, s.billing))
      else s.(pass := NextSection(s.pass.now, s.pass.section, s.pass.attempts))
    case Attempt(outcome) =>
      if !s.pass.Selected? then s else
        var p := s.pass;
        var t := match outcome
          case Paid => ChargeTo(s, p.now)
          case Insufficient => s.(failures := s.failures + [p.now], sinceCharge := s.sinceCharge + 1)
          case Threw => s;
        t.(billing := Attempted(s.billing, p.seen, p.section, p.now, outcome),
           pass := NextSection(p.now, p.section, p.attempts + 1))
    case CancelSelf =>
      if !s.pass.Selected? then s
      else s.(billing := s.billing.(status := Cancelled), pass := NextSection(s.pass.now, s.pass.section, s.pass.attempts))
    case Crash => s.(pass := NoPass)
    case ManualRetry => ChargeTo(s, s.clock).(billing := Retried(s.billing, s.clock))
    case Cancel => s.(billing := s.billing.(status := Cancelled))
    case Replace => s.(billing := s.billing.(status := Cancelled))
  }

  predicate Runs(env: Env, s: State, acts: seq<Action>)
    decreases |acts|
  {
    acts == [] || (Can(env, s, acts[0]) && Runs(env, Do(s, acts[0]), acts[1..]))
  }

  function After(s: State, acts: seq<Action>): State
    decreases |acts|
  {
    if acts == [] then s else After(Do(s, acts[0]), acts[1..])
  }

  // ── What holds under every interleaving ───────────────────────────────────

  /** Retry counters by status. */
  predicate Counters(b: Billing) {
    match b.status
    case Trialing | Active => b.retryCount == 0
    case PastDue => 1 <= b.retryCount < MAX_RETRIES && b.lastRetryAt.Some?
    case Failed => b.retryCount == MAX_RETRIES
    case Cancelled => true
  }

  /** What the row can have become since a section selected it. */
  predicate SinceSelect(b: Billing, seen: Billing, section: Section) {
    && b.interval == seen.interval && Counters(seen)
    && match section
       case Trials => b.status in {Trialing, Cancelled}
       case Renewals => b.status in {Active, Cancelled}
       case Retries => b.status in {PastDue, Active, Cancelled}
  }

  /** After an attempt, no later section of the same pass finds the row due. */
  predicate DoneForNow(b: Billing, section: Section, now: int) {
    && (b.status == PastDue ==> b.lastRetryAt.Some? && b.lastRetryAt.value > now - DAY)
    && (section == Renewals ==> b.status == Active ==> b.nextBillingAt > now)
  }

  predicate PassInv(s: State) {
    && Counters(s.billing)
    && (s.pass != NoPass ==> s.pass.now <= s.clock)
    && (s.pass.Selected? ==>
          && s.pass.attempts == 0 && SinceSelect(s.billing, s.pass.seen, s.pass.section)
          && Due(s.pass.seen, s.pass.section, s.pass.now))
    && (s.pass.Before? ==> s.pass.attempts <= 1)
    && (s.pass.Before? && s.pass.attempts == 1 ==>
          s.pass.section != Trials && DoneForNow(s.billing, s.pass.section, s.pass.now))
  }

  lemma PassInvStep(env: Env, s: State, a: Action)
    requires PassInv(s) && Can(env, s, a)
    ensures PassInv(Do(s, a))
  {
    hide Advance;
    AdvanceAdds(s.clock, s.billing.interval);
    if s.pass != NoPass { AdvanceAdds(s.pass.now, s.billing.interval); }
  }

  /** In every run, however stale the selections: the retry counters fit the status, and
      within one pass the subscription is attempted at most once, although its status
      may change between the sections. */
  lemma {:induction false} OneAttemptPerPass(env: Env, s: State, acts: seq<Action>)
    requires PassInv(s) && Runs(env, s, acts)
    ensures PassInv(After(s, acts)) && Counters(After(s, acts).billing)
    ensures After(s, acts).pass.Selected? ==> After(s, acts).pass.attempts == 0
    decreases |acts|
  {
    if acts != [] {
      PassInvStep(env, s, acts[0]);
      OneAttemptPerPass(env, Do(s, acts[0]), acts[1..]);
    }
  }

  // ── Giving up ─────────────────────────────────────────────────────────────

  ghost predicate DayApart(failures: seq<int>) {
    forall i :: 0 < i < |failures| ==> failures[i - 1] + DAY <= failures[i]
  }

  /** The last n failures are a day apart, and the last of them was at `last`. */
  ghost predicate EndsApart(failures: seq<int>, n: nat, last: Option<int>) {
    1 <= n <= |failures| && last == Some(failures[|failures| - 1]) && DayApart(failures[|failures| - n..])
  }

  /** The retry count counts failures that are a day apart, in the row and in what a
      section has selected, whatever has become of the row since. */
  ghost predicate RetryInv(s: State) {
    && PassInv(s)
    && (s.billing.status in {PastDue, Failed} ==>
          EndsApart(s.failures, s.billing.retryCount, s.billing.lastRetryAt) && s.billing.lastRetryAt.value <= s.clock)
    && (s.pass.Selected? && s.pass.section == Retries ==>
          EndsApart(s.failures, s.pass.seen.retryCount, s.pass.seen.lastRetryAt))
  }

  lemma OneMoreFailure(failures: seq<int>, n: nat, last: int, now: int)
    requires EndsApart(failures, n, Some(last)) && last + DAY <= now
    ensures EndsApart(failures + [now], n + 1, Some(now))
  {
    var ends, ends' := failures[|failures| - n..], (failures + [now])[|failures| - n..];
    assert ends' == ends + [now];
  }

  lemma FirstFailure(failures: seq<int>, now: int)
    ensures EndsApart(failures + [now], 1, Some(now))
  {
  }

  lemma RetryInvStep(env: Env, s: State, a: Action)
    requires RetryInv(s) && Can(env, s, a)
    ensures RetryInv(Do(s, a))
  {
    hide Advance, EndsApart;
    PassInvStep(env, s, a);
    if a == Attempt(Insufficient) {
      FirstFailure(s.failures, s.pass.now);
      if s.pass.section == Retries {
        OneMoreFailure(s.failures, s.pass.seen.retryCount, s.pass.seen.lastRetryAt.value, s.pass.now);
      }
    }
  }

  lemma {:induction false} RetryInvRuns(env: Env, s: State, acts: seq<Action>)
    requires RetryInv(s) && Runs(env, s, acts)
    ensures RetryInv(After(s, acts))
    decreases |acts|
  {
    hide RetryInv, Do;
    if acts != [] {
      RetryInvStep(env, s, acts[0]);
      RetryInvRuns(env, Do(s, acts[0]), acts[1..]);
    }
  }

  lemma {:induction false} FailuresApart(failures: seq<int>, i: nat, j: nat)
    requires DayApart(failures) && i <= j < |failures|
    ensures failures[j] >= failures[i] + (j - i) * DAY
    decreases j - i
  {
    if i < j { FailuresApart(failures, i, j - 1); }
  }

  /** In every run, stale selections included: when the worker has given up, the last seven
      of its failed attempts lie at least a day apart, so the first of them is at least
      six days old. */
  lemma {:induction false} GivingUpTakesSixDays(env: Env, s: State, acts: seq<Action>)
    requires Init(s) && Runs(env, s, acts) && After(s, acts).billing.status == Failed
    ensures var t := After(s, acts);
      var first := |t.failures| - MAX_RETRIES;
      first >= 0 && DayApart(t.failures[first..]) && t.clock >= t.failures[first] + 6 * DAY
  {
    InitIsSpaced(s);
    RetryInvRuns(env, s, acts);
    var t := After(s, acts);
    FailuresApart(t.failures[|t.failures| - MAX_RETRIES..], 0, MAX_RETRIES - 1);
  }

  // ── The selections, told from the history ─────────────────────────────────

  /** The row's dates are those of what happened: the last charge, the last failure. */
  predicate DatesInv(s: State) {
    && PassInv(s)
    && (s.billing.status == Active ==>
          s.charges != [] && s.billing.nextBillingAt == Advance(s.charges[|s.charges| - 1].from, s.billing.interval))
    && (s.billing.status == PastDue ==> s.failures != [] && s.billing.lastRetryAt == Some(s.failures[|s.failures| - 1]))
  }

  lemma DatesInvStep(env: Env, s: State, a: Action)
    requires DatesInv(s) && Can(env, s, a)
    ensures DatesInv(Do(s, a))
  {
    hide Advance;
    PassInvStep(env, s, a);
  }

  /** Until the trial is over, nothing but a cancellation happens. */
  predicate TrialInv(s: State, until: int) {
    && (s.billing.status == Trialing ==> s.billing.trialEndsAt == Some(until))
    && (s.billing.status !in {Trialing, Cancelled} ==> s.clock >= until)
    && (s.pass != NoPass && s.pass.now < until ==> !s.pass.Selected? && s.billing.status in {Trialing, Cancelled})
    && (forall i :: 0 <= i < |s.charges| ==> s.charges[i].from >= until)
  }

  lemma TrialInvStep(env: Env, s: State, a: Action, until: int)
    requires TrialInv(s, until) && PassInv(s) && Can(env, s, a)
    ensures TrialInv(Do(s, a), until)
  {
    hide Advance;
  }

  lemma {:induction false} HistoryRuns(env: Env, s: State, acts: seq<Action>, until: int)
    requires DatesInv(s) && TrialInv(s, until) && Runs(env, s, acts)
    ensures DatesInv(After(s, acts)) && TrialInv(After(s, acts), until)
    decreases |acts|
  {
    hide TrialInv, Do;
    if acts != [] {
      DatesInvStep(env, s, acts[0]);
      TrialInvStep(env, s, acts[0], until);
      HistoryRuns(env, Do(s, acts[0]), acts[1..], until);
    }
  }

  function TrialDays(trial: Option<nat>): nat { if trial.Some? then trial.value else 0 }

  lemma StartsHistory(s: State, interval: Interval, trial: Option<nat>)
    requires Init(s) && StartsAs(s, interval, trial)
    ensures DatesInv(s) && TrialInv(s, s.clock + TrialDays(trial) * DAY)
  {
    hide Advance;
  }

  /** In every run of a subscription, no charge counts from before the end of its trial. */
  lemma {:induction false} NoChargeOnTrial(env: Env, s: State, acts: seq<Action>, interval: Interval, trial: Option<nat>, i: nat)
    requires Init(s) && StartsAs(s, interval, trial) && Runs(env, s, acts) && i < |After(s, acts).charges|
    ensures After(s, acts).charges[i].from >= s.clock + TrialDays(trial) * DAY
  {
    StartsHistory(s, interval, trial);
    HistoryRuns(env, s, acts, s.clock + TrialDays(trial) * DAY);
  }

  /** In every run, a section selects the row exactly if by then the trial is over, a period
      has passed since the instant of the last charge, or a day since the last failure. */
  lemma {:induction false} SelectsExactly(env: Env, s: State, acts: seq<Action>, interval: Interval, trial: Option<nat>)
    requires Init(s) && StartsAs(s, interval, trial) && Runs(env, s, acts) && After(s, acts).pass.Before?
    ensures var t := After(s, acts);
            Do(t, Select).pass.Selected? <==>
              match t.pass.section
              case Trials => t.billing.status == Trialing && s.clock + TrialDays(trial) * DAY <= t.pass.now
              case Renewals =>
                && t.billing.status == Active && t.charges != []
                && Advance(t.charges[|t.charges| - 1].from, t.billing.interval) <= t.pass.now
              case Retries =>
                t.billing.status == PastDue && t.failures != [] && t.failures[|t.failures| - 1] + DAY <= t.pass.now
  {
    hide Advance;
    StartsHistory(s, interval, trial);
    HistoryRuns(env, s, acts, s.clock + TrialDays(trial) * DAY);
  }

  // ── Giving up, told from the history ──────────────────────────────────────

  /** Holds when nobody pays a row that a section has selected: the retry count is the
      number of failures since the last charge. */
  predicate CountInv(s: State) {
    && PassInv(s)
    && (s.billing.status in {Trialing, Active} ==> s.sinceCharge == 0)
    && (s.billing.status in {PastDue, Failed} ==> s.sinceCharge == s.billing.retryCount)
    && (s.pass.Selected? ==> s.sinceCharge == if s.pass.section == Retries then s.pass.seen.retryCount else 0)
  }

  lemma CountInvStep(env: Env, s: State, a: Action)
    requires !env.retryBetween && CountInv(s) && Can(env, s, a)
    ensures CountInv(Do(s, a))
  {
    hide Advance;
    PassInvStep(env, s, a);
  }

  lemma {:induction false} CountInvRuns(env: Env, s: State, acts: seq<Action>)
    requires !env.retryBetween && CountInv(s) && Runs(env, s, acts)
    ensures CountInv(After(s, acts))
    decreases |acts|
  {
    hide Do;
    if acts != [] {
      CountInvStep(env, s, acts[0]);
      CountInvRuns(env, Do(s, acts[0]), acts[1..]);
    }
  }

  /** A subscription that is not cancelled is given up at the seventh failure since the last
      charge, not before and not after. */
  predicate CountsRight(s: State) {
    s.billing.status != Cancelled ==> s.sinceCharge <= 7 && (s.billing.status == Failed <==> s.sinceCharge == 7)
  }

  ghost predicate GivesUpAtSeven(env: Env) {
    forall s, acts :: Init(s) && Runs(env, s, acts) ==> CountsRight(After(s, acts))
  }

  /** Past due with k failures, and no pass at work. */
  predicate FailedTimes(t: State, k: nat) {
    && t.billing.status == PastDue && t.billing.retryCount == k < MAX_RETRIES
    && t.pass == NoPass && t.billing.lastRetryAt == Some(t.clock)
  }

  /** A day later the retry section has selected the row. */
  lemma SelectedAgain(env: Env, s: State, acts: seq<Action>, t: State, k: nat) returns (acts': seq<Action>, t': State)
    requires Runs(env, s, acts) && After(s, acts) == t && FailedTimes(t, k)
    ensures Runs(env, s, acts') && After(s, acts') == t'
    ensures t' == t.(clock := t.clock + DAY, pass := Selected(t.clock + DAY, Retries, 0, t.billing))
  {
    hide Runs, After;
    acts', t' := Then(env, s, acts, t, Wait(DAY));
    acts', t' := Then(env, s, acts', t', StartPass);
    acts', t' := Then(env, s, acts', t', Select);
    acts', t' := Then(env, s, acts', t', Select);
    acts', t' := Then(env, s, acts', t', Select);
  }

  lemma FailsAgain(env: Env, s: State, acts: seq<Action>, t: State, k: nat) returns (acts': seq<Action>, t': State)
    requires Runs(env, s, acts) && After(s, acts) == t && FailedTimes(t, k) && k + 1 < MAX_RETRIES
    ensures Runs(env, s, acts') && After(s, acts') == t' && FailedTimes(t', k + 1)
  {
    hide Runs, After, Advance;
    acts', t' := SelectedAgain(env, s, acts, t, k);
    acts', t' := Then(env, s, acts', t', Attempt(Insufficient));
  }

  /** Six failures; the subscriber then pays between the worker's SELECT and its attempt,
      which fails and gives the subscription up, with one failure since that payment. */
  lemma StaleRetryGivesUp(env: Env) returns (acts: seq<Action>)
    requires env.retryBetween
    ensures Init(Weekly0()) && Runs(env, Weekly0(), acts)
    ensures After(Weekly0(), acts).billing.status == Failed && After(Weekly0(), acts).sinceCharge == 1
  {
    hide Runs, After, Advance;
    var s := Weekly0();
    assert StartsAs(s, Weekly, None);
    var t;
    acts, t := FirstRenewalFails(env);
    for k := 1 to 6
      invariant Runs(env, s, acts) && After(s, acts) == t && FailedTimes(t, k)
    {
      acts, t := FailsAgain(env, s, acts, t, k);
    }
    acts, t := SelectedAgain(env, s, acts, t, 6);
    acts, t := Then(env, s, acts, t, ManualRetry);
    acts, t := Then(env, s, acts, t, Attempt(Insufficient));
  }

  /** The worker gives up at exactly the seventh failure since the last charge, in every
      run, exactly if the subscriber cannot pay between a SELECT and its attempt. */
  lemma GivesUpAtSevenExactly(env: Env)
    ensures GivesUpAtSeven(env) <==> !env.retryBetween
  {
    if env.retryBetween {
      var acts := StaleRetryGivesUp(env);
      assert !CountsRight(After(Weekly0(), acts));
    } else {
      forall s, acts | Init(s) && Runs(env, s, acts) ensures CountsRight(After(s, acts)) {
        InitIsSpaced(s);
        CountInvRuns(env, s, acts);
      }
    }
  }

  // ── The distance between charges ──────────────────────────────────────────

  /** The next charge comes a full period later: both the instant it counts from and
      its commit lie at or after the date the charge before it paid up to. */
  predicate Follows(before: Charge, next: Charge, interval: Interval) {
    Advance(before.from, interval) <= next.from <= next.at
  }

  ghost predicate Spaced(charges: seq<Charge>, interval: Interval) {
    forall i :: 0 < i < |charges| ==> Follows(charges[i - 1], charges[i], interval)
  }

  /** The date up to which the charges so far have paid is not after `t`. */
  predicate PaidBy(s: State, t: int) {
    s.charges != [] ==> Advance(s.charges[|s.charges| - 1].from, s.billing.interval) <= t
  }

  /** Holds when nobody pays a row that a section has selected, even if it is cancelled. */
  ghost predicate SpacedInv(s: State) {
    && PassInv(s) && Spaced(s.charges, s.billing.interval)
    && (s.billing.status == Trialing ==> s.charges == [])
    && (s.billing.status == Active ==> PaidBy(s, s.billing.nextBillingAt))
    && (s.billing.status == PastDue ==> PaidBy(s, s.billing.lastRetryAt.value) && s.billing.lastRetryAt.value <= s.clock)
    && (s.pass.Selected? ==> PaidBy(s, s.pass.now))
  }

  lemma ChargeSpaced(charges: seq<Charge>, c: Charge, interval: Interval)
    requires Spaced(charges, interval) && (charges != [] ==> Follows(charges[|charges| - 1], c, interval))
    ensures Spaced(charges + [c], interval)
  {
    hide Follows;
  }

  lemma SpacedAttempt(env: Env, s: State, outcome: Outcome)
    requires SpacedInv(s) && Can(env, s, Attempt(outcome))
    ensures SpacedInv(Do(s, Attempt(outcome)))
  {
    hide Advance, Spaced;
    PassInvStep(env, s, Attempt(outcome));
    if outcome == Paid { ChargeSpaced(s.charges, Charge(s.pass.now, s.clock), s.billing.interval); }
  }

  lemma SpacedManualRetry(env: Env, s: State)
    requires !env.retryBetween && SpacedInv(s) && Can(env, s, ManualRetry)
    ensures SpacedInv(Do(s, ManualRetry))
  {
    hide Advance, Spaced;
    PassInvStep(env, s, ManualRetry);
    ChargeSpaced(s.charges, Charge(s.clock, s.clock), s.billing.interval);
  }

  lemma SpacedInvStep(env: Env, s: State, a: Action)
    requires !env.retryBetween && SpacedInv(s) && Can(env, s, a)
    ensures SpacedInv(Do(s, a))
  {
    hide Advance, Spaced;
    if a.Attempt? {
      SpacedAttempt(env, s, a.outcome);
    } else if a == ManualRetry {
      SpacedManualRetry(env, s);
    } else {
      PassInvStep(env, s, a);
    }
  }

  lemma {:induction false} SpacedInvRuns(env: Env, s: State, acts: seq<Action>)
    requires !env.retryBetween && SpacedInv(s) && Runs(env, s, acts)
    ensures SpacedInv(After(s, acts))
    decreases |acts|
  {
    hide SpacedInv, Do;
    if acts != [] {
      SpacedInvStep(env, s, acts[0]);
      SpacedInvRuns(env, Do(s, acts[0]), acts[1..]);
    }
  }

  lemma InitIsSpaced(s: State)
    requires Init(s)
    ensures SpacedInv(s) && RetryInv(s) && CountInv(s)
  {
    hide Advance;
    var interval, trial :| StartsAs(s, interval, trial);
  }

  /** Successive charges are at least 7, 28 or 365 days apart, and so on for further ones. */
  lemma {:induction false} ChargesApart(charges: seq<Charge>, interval: Interval, i: nat, j: nat)
    requires Spaced(charges, interval) && i < j < |charges|
    ensures charges[j].from >= charges[i].from + (j - i) * ShortestDays(interval) * DAY
    decreases j - i
  {
    hide Advance;
    assert Follows(charges[j - 1], charges[j], interval);
    AdvanceAdds(charges[j - 1].from, interval);
    if i < j - 1 {
      ChargesApart(charges, interval, i, j - 1);
    }
    assert (j - i) * ShortestDays(interval) * DAY == (j - 1 - i) * ShortestDays(interval) * DAY + ShortestDays(interval) * DAY by {
      match interval case Weekly => case Monthly => case Yearly =>
    }
  }

  ghost predicate AlwaysSpaced(env: Env) {
    forall s, acts :: Init(s) && Runs(env, s, acts) ==> Spaced(After(s, acts).charges, After(s, acts).billing.interval)
  }

  ghost predicate NeverChargesDead(env: Env) {
    forall s, acts :: Init(s) && Runs(env, s, acts) ==> !After(s, acts).chargedDead
  }

  lemma {:induction false} Prolong(env: Env, s: State, acts: seq<Action>, a: Action)
    requires Runs(env, s, acts) && Can(env, After(s, acts), a)
    ensures Runs(env, s, acts + [a]) && After(s, acts + [a]) == Do(After(s, acts), a)
    decreases |acts|
  {
    hide Do;
    if acts == [] {
      assert [a][1..] == [];
    } else {
      Prolong(env, Do(s, acts[0]), acts[1..], a);
      assert (acts + [a])[1..] == acts[1..] + [a];
    }
  }

  lemma Then(env: Env, s: State, acts: seq<Action>, t: State, a: Action) returns (acts': seq<Action>, t': State)
    requires Runs(env, s, acts) && After(s, acts) == t && Can(env, t, a)
    ensures Runs(env, s, acts') && After(s, acts') == t' == Do(t, a)
  {
    Prolong(env, s, acts, a);
    acts', t' := acts + [a], Do(t, a);
  }

  /** A weekly subscription, paid at instant 0. */
  function Weekly0(): State {
    State(Activated(Weekly, None, 0), NoPass, 0, [Charge(0, 0)], [], 0, false)
  }

  /** It is past due after a week, and a day later the retry section has selected it. */
  lemma RetrySelected(env: Env) returns (acts: seq<Action>, t: State)
    ensures Init(Weekly0()) && Runs(env, Weekly0(), acts) && After(Weekly0(), acts) == t
    ensures t.pass == Selected(8 * DAY, Retries, 0, t.billing) && t.clock == 8 * DAY
    ensures t.billing.status == PastDue && t.billing.interval == Weekly
    ensures t.charges == [Charge(0, 0)] && !t.chargedDead
  {
    hide Advance;
    var s := Weekly0();
    assert StartsAs(s, Weekly, None);
    AdvanceAdds(0, Weekly);
    acts, t := FirstRenewalFails(env);
    acts, t := Then(env, s, acts, t, Wait(DAY));
    acts, t := Then(env, s, acts, t, StartPass);
    acts, t := Then(env, s, acts, t, Select);
    acts, t := Then(env, s, acts, t, Select);
    acts, t := Then(env, s, acts, t, Select);
  }

  lemma FirstRenewalFails(env: Env) returns (acts: seq<Action>, t: State)
    ensures Runs(env, Weekly0(), acts) && After(Weekly0(), acts) == t
    ensures t == Weekly0().(billing := Billing(PastDue, Weekly, None, 7 * DAY, 1, Some(7 * DAY)), clock := 7 * DAY,
                           failures := [7 * DAY], sinceCharge := 1)
  {
    hide Advance;
    var s := Weekly0();
    AdvanceAdds(0, Weekly);
    acts, t := [], s;
    acts, t := Then(env, s, acts, t, Wait(7 * DAY));
    acts, t := Then(env, s, acts, t, StartPass);
    acts, t := Then(env, s, acts, t, Select);
    acts, t := Then(env, s, acts, t, Select);
    acts, t := Then(env, s, acts, t, Attempt(Insufficient));
    acts, t := Then(env, s, acts, t, Select);
  }

  /** The subscriber pays between the worker's SELECT and its attempt: both charges go
      through at the same instant. */
  lemma StaleRetryChargesTwice(env: Env) returns (acts: seq<Action>)
    requires env.retryBetween
    ensures Init(Weekly0()) && Runs(env, Weekly0(), acts)
    ensures After(Weekly0(), acts).charges == [Charge(0, 0), Charge(8 * DAY, 8 * DAY), Charge(8 * DAY, 8 * DAY)]
    ensures After(Weekly0(), acts).billing.interval == Weekly
  {
    hide Advance;
    var s, t := Weekly0(), Weekly0();
    acts, t := RetrySelected(env);
    acts, t := Then(env, s, acts, t, ManualRetry);
    acts, t := Then(env, s, acts, t, Attempt(Paid));
  }

  /** The subscriber cancels there: the charge goes through and the subscription is
      active again. */
  lemma StaleRetryRevives(env: Env) returns (acts: seq<Action>)
    requires env.cancelBetween
    ensures Init(Weekly0()) && Runs(env, Weekly0(), acts)
    ensures After(Weekly0(), acts).chargedDead && After(Weekly0(), acts).billing.status == Active
  {
    hide Advance;
    var s, t := Weekly0(), Weekly0();
    acts, t := RetrySelected(env);
    acts, t := Then(env, s, acts, t, Cancel);
    acts, t := Then(env, s, acts, t, Attempt(Paid));
  }

  /** The worker does not look at the row again before charging. So charges keep a full
      period's distance in every run exactly if the subscriber cannot pay a row between a
      section's SELECT and its attempt; cancellations there do no harm to it. */
  lemma SpacedExactly(env: Env)
    ensures AlwaysSpaced(env) <==> !env.retryBetween
  {
    hide Advance, Spaced;
    if env.retryBetween {
      var acts := StaleRetryChargesTwice(env);
      TwiceIsNotSpaced(After(Weekly0(), acts).charges);
    } else {
      forall s, acts | Init(s) && Runs(env, s, acts)
        ensures Spaced(After(s, acts).charges, After(s, acts).billing.interval)
      {
        InitIsSpaced(s);
        SpacedInvRuns(env, s, acts);
      }
    }
  }

  lemma TwiceIsNotSpaced(charges: seq<Charge>)
    requires |charges| == 3 && charges[1].from == charges[2].from
    ensures !Spaced(charges, Weekly)
  {
    if Spaced(charges, Weekly) {
      ChargesApart(charges, Weekly, 1, 2);
    }
  }

  // ── Charging what is over ─────────────────────────────────────────────────

  /** Holds when nothing is cancelled between a SELECT and its attempt. */
  predicate AliveInv(s: State) {
    !s.chargedDead && (s.pass.Selected? ==> s.billing.status !in {Cancelled, Failed})
  }

  lemma {:induction false} AliveInvRuns(env: Env, s: State, acts: seq<Action>)
    requires !env.cancelBetween && AliveInv(s) && Runs(env, s, acts)
    ensures AliveInv(After(s, acts))
    decreases |acts|
  {
    hide Advance, Retried;
    if acts != [] {
      AliveInvStep(env, s, acts[0]);
      AliveInvRuns(env, Do(s, acts[0]), acts[1..]);
    }
  }

  lemma AliveInvStep(env: Env, s: State, a: Action)
    requires !env.cancelBetween && AliveInv(s) && Can(env, s, a)
    ensures AliveInv(Do(s, a))
  {
    hide Advance;
  }

  /** A cancelled or failed subscription is never charged exactly if none is cancelled or
      replaced between a section's SELECT and its attempt; manual payments do no harm. */
  lemma NeverChargesDeadExactly(env: Env)
    ensures NeverChargesDead(env) <==> !env.cancelBetween
  {
    if env.cancelBetween {
      var acts := StaleRetryRevives(env);
    } else {
      forall s, acts | Init(s) && Runs(env, s, acts) ensures !After(s, acts).chargedDead {
        AliveInvRuns(env, s, acts);
      }
    }
  }
}
