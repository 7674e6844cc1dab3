/** The billing worker's pass over all subscriptions, and the routes that start and
    retry them, run without interruption on top of the ledger. */
module BillingWorker {
  import opened Wrappers
  import opened Calendar
  import opened BillingDates
  import opened BillingProtocol
  import LB = LedgerBook
  import Ledger

  datatype Subscription = Subscription(subscriber: nat, creator: nat, payout: nat, merchant: nat, amount: int, billing: Billing)

  /** The subscriber would be paying themselves. */
  predicate PaysSelf(s: Subscription, emails: map<nat, nat>) {
    s.subscriber == s.creator || (s.subscriber in emails && emails[s.subscriber] == s.payout)
  }

  predicate Attemptable(s: Subscription, emails: map<nat, nat>) {
    s.subscriber in emails && !PaysSelf(s, emails)
  }

  /** A due row after its section: skipped when the subscriber is gone, cancelled when they
      would pay themselves, else updated to fit the outcome of the charge. */
  predicate SectionDone(s: Subscription, s': Subscription, emails: map<nat, nat>, section: Section, now: int,
                        outcome: Option<Outcome>) {
    && (outcome.Some? <==> Due(s.billing, section, now) && Attemptable(s, emails))
    && s' == s.(billing :=
         if !Due(s.billing, section, now) || s.subscriber !in emails then s.billing
         else if PaysSelf(s, emails) then s.billing.(status := Cancelled)
         else if outcome.Some? then Attempted(s.billing, s.billing, section, now, outcome.value)
         else s.billing)
  }

  /** A row attempted in one section is not due in a later section of the same pass. */
  lemma NotDueAgain(s: Subscription, s': Subscription, emails: map<nat, nat>, section: Section, later: Section, now: int,
                    outcome: Option<Outcome>)
    requires SectionDone(s, s', emails, section, now, outcome) && outcome.Some?
    requires (section == Trials && later != Trials) || (section == Renewals && later == Retries)
    ensures !Due(s'.billing, later, now)
  {
    hide Advance;
    AdvanceAdds(now, s.billing.interval);
  }

  /** How a charge ends, given the ledger. */
  ghost function ChargeOutcome(b: LB.Book, hash: nat -> nat, s: Subscription): Outcome {
    match LB.Apply(b, hash, ChargeOp(s))
    case Ok(_) => Paid
    case Err(InsufficientBalance) => Insufficient
    case Err(_) => Threw
  }

  /** The subscriber pays whoever has the payout email, or else into an escrow for it. */
  ghost predicate PaysFor(b: LB.Book, b': LB.Book, hash: nat -> nat, s: Subscription) {
    LB.Pays(b, b', s.subscriber, hash(s.payout), LB.Owner(b, s.payout), s.amount, LB.Pending)
  }

  /** A charge is paid exactly if it can be, and then that money moves and no other; it ends
      as insufficient exactly if only the money is missing. */
  lemma ChargeMeans(b: LB.Book, hash: nat -> nat, s: Subscription)
    requires LB.Valid(b)
    ensures var o, b' := ChargeOutcome(b, hash, s), LB.Commit(b, hash, ChargeOp(s));
            && (o == Paid <==>
                  && s.amount > 0 && !PaysSelf(s, b.emails)
                  && s.subscriber in b.balances && b.balances[s.subscriber] >= s.amount)
            && (o == Insufficient <==>
                  && s.amount > 0 && !PaysSelf(s, b.emails)
                  && !(s.subscriber in b.balances && b.balances[s.subscriber] >= s.amount))
            && (if o == Paid then PaysFor(b, b', hash, s) else b' == b)
  {
    LB.ChargePaysExactly(b, hash, s.subscriber, s.creator, s.payout, s.amount);
    hide LB.Pays;
  }

  function ChargeOp(s: Subscription): LB.Op {
    LB.Charge(s.subscriber, s.creator, s.payout, s.amount)
  }

  function Lookup(outcomes: map<nat, Outcome>, id: nat): Option<Outcome> {
    if id in outcomes then Some(outcomes[id]) else None
  }

  /** The charges of the attempted rows, in order. */
  function OpsOf(subs: map<nat, Subscription>, order: seq<nat>): seq<LB.Op>
    requires forall id :: id in order ==> id in subs
  {
    seq(|order|, i requires 0 <= i < |order| => ChargeOp(subs[order[i]]))
  }

  /** The i-th attempt's outcome is the one that the ledger gives at its turn. */
  ghost predicate TriedAt(b: LB.Book, hash: nat -> nat, subs: map<nat, Subscription>,
                          order: seq<nat>, outcomes: map<nat, Outcome>, i: nat) {
    && i < |order| && (forall id :: id in order ==> id in subs) && order[i] in outcomes
    && outcomes[order[i]] == ChargeOutcome(LB.Run(b, hash, OpsOf(subs, order[..i])), hash, subs[order[i]])
  }

  /** Each row is attempted once, with the outcome that the ledger gives at its turn, and
      the ledger ends as those charges leave it. */
  ghost predicate Charged(b: LB.Book, b': LB.Book, hash: nat -> nat, subs: map<nat, Subscription>,
                          order: seq<nat>, outcomes: map<nat, Outcome>) {
    && (forall id :: id in order ==> id in subs)
    && (forall id :: id in order <==> id in outcomes)
    && (forall i, j :: 0 <= i < j < |order| ==> order[i] != order[j])
    && (forall i: nat :: i < |order| ==> TriedAt(b, hash, subs, order, outcomes, i))
    && b' == LB.Run(b, hash, OpsOf(subs, order))
  }

  lemma NoneCharged(b: LB.Book, hash: nat -> nat, subs: map<nat, Subscription>)
    ensures Charged(b, b, hash, subs, [], map[])
  {
  }

  lemma OneMoreOp(subs: map<nat, Subscription>, order: seq<nat>, id: nat)
    requires (forall i :: i in order ==> i in subs) && id in subs
    ensures OpsOf(subs, order + [id]) == OpsOf(subs, order) + [ChargeOp(subs[id])]
  {
  }

  lemma EarlierTry(b: LB.Book, hash: nat -> nat, subs: map<nat, Subscription>,
                   first: seq<nat>, outcomes: map<nat, Outcome>, second: seq<nat>, more: map<nat, Outcome>, i: nat)
    requires TriedAt(b, hash, subs, first, outcomes, i) && first[i] !in more
    requires forall id :: id in second ==> id in subs
    ensures TriedAt(b, hash, subs, first + second, outcomes + more, i)
  {
    hide LB.Run, ChargeOutcome, OpsOf;
    assert (first + second)[..i] == first[..i];
  }

  lemma OneCharged(b: LB.Book, b': LB.Book, hash: nat -> nat, subs: map<nat, Subscription>,
                   order: seq<nat>, outcomes: map<nat, Outcome>, id: nat)
    requires Charged(b, b', hash, subs, order, outcomes) && id in subs && id !in outcomes
    ensures Charged(b, LB.Commit(b', hash, ChargeOp(subs[id])), hash, subs,
                    order + [id], outcomes[id := ChargeOutcome(b', hash, subs[id])])
  {
    hide LB.Run, LB.Commit, ChargeOutcome, OpsOf;
    var order', last := order + [id], map[id := ChargeOutcome(b', hash, subs[id])];
    assert outcomes[id := ChargeOutcome(b', hash, subs[id])] == outcomes + last;
    OneMoreOp(subs, order, id);
    LB.RunThen(b, hash, OpsOf(subs, order), ChargeOp(subs[id]));
    assert TriedAt(b, hash, subs, order', outcomes + last, |order|) by { assert order'[..|order|] == order; }
    hide TriedAt;
    forall i: nat | i < |order| ensures TriedAt(b, hash, subs, order', outcomes + last, i) && order[i] != id {
      assert order[i] in order;
      EarlierTry(b, hash, subs, order, outcomes, [id], last, i);
    }
  }

  /** The i-th attempt of a pass moves the money of its subscription if it ended as paid,
      and nothing otherwise. */
  lemma PaidInPass(b: LB.Book, b': LB.Book, hash: nat -> nat, subs: map<nat, Subscription>,
                   order: seq<nat>, outcomes: map<nat, Outcome>, i: nat)
    requires LB.Valid(b) && Charged(b, b', hash, subs, order, outcomes) && i < |order|
    ensures order[i] in subs && order[i] in outcomes
    ensures var b1, b2 := LB.Run(b, hash, OpsOf(subs, order[..i])), LB.Run(b, hash, OpsOf(subs, order[..i + 1]));
            if outcomes[order[i]] == Paid then PaysFor(b1, b2, hash, subs[order[i]]) else b2 == b1
  {
    hide LB.Run, LB.Commit, LB.Valid, LB.Worth, OpsOf, PaysFor, ChargeOutcome, PaysSelf;
    assert TriedAt(b, hash, subs, order, outcomes, i);
    var id := order[i];
    assert order[..i + 1] == order[..i] + [id];
    OneMoreOp(subs, order[..i], id);
    LB.RunThen(b, hash, OpsOf(subs, order[..i]), ChargeOp(subs[id]));
    LB.Conservation(b, hash, OpsOf(subs, order[..i]));
    ChargeMeans(LB.Run(b, hash, OpsOf(subs, order[..i])), hash, subs[id]);
  }

  /** A pass changes billing rows, never who pays whom or how much. */
  predicate SamePayers(subs: map<nat, Subscription>, subs': map<nat, Subscription>) {
    subs'.Keys == subs.Keys && forall i :: i in subs ==> subs'[i] == subs[i].(billing := subs'[i].billing)
  }

  lemma SameOps(subs: map<nat, Subscription>, subs': map<nat, Subscription>, first: seq<nat>, second: seq<nat>)
    requires SamePayers(subs, subs') && forall id :: id in first || id in second ==> id in subs
    ensures OpsOf(subs, first + second) == OpsOf(subs, first) + OpsOf(subs', second)
  {
    forall i | 0 <= i < |second| ensures ChargeOp(subs'[second[i]]) == ChargeOp(subs[second[i]]) {
      assert second[i] in second;
    }
  }

  lemma ChargedTogether(b: LB.Book, b1: LB.Book, b2: LB.Book, hash: nat -> nat,
                        subs: map<nat, Subscription>, subs': map<nat, Subscription>,
                        first: seq<nat>, outcomes: map<nat, Outcome>, second: seq<nat>, more: map<nat, Outcome>)
    requires SamePayers(subs, subs') && outcomes.Keys !! more.Keys
    requires Charged(b, b1, hash, subs, first, outcomes) && Charged(b1, b2, hash, subs', second, more)
    ensures Charged(b, b2, hash, subs, first + second, outcomes + more)
  {
    EndsTogether(b, b1, b2, hash, subs, subs', first, outcomes, second, more);
    hide LB.Run, ChargeOutcome, OpsOf, SamePayers, TriedAt;
    var order := first + second;
    forall i: nat | i < |order| ensures TriedAt(b, hash, subs, order, outcomes + more, i) {
      if i < |first| {
        assert first[i] in first;
        EarlierTry(b, hash, subs, first, outcomes, second, more, i);
      } else {
        assert second[i - |first|] in second;
        LaterTry(b, b1, b2, hash, subs, subs', first, outcomes, second, more, i - |first|);
      }
    }
    NoneTwice(first, outcomes, second, more);
  }

  lemma NoneTwice(first: seq<nat>, outcomes: map<nat, Outcome>, second: seq<nat>, more: map<nat, Outcome>)
    requires outcomes.Keys !! more.Keys
    requires (forall id :: id in first <==> id in outcomes) && (forall id :: id in second <==> id in more)
    requires (forall i, j :: 0 <= i < j < |first| ==> first[i] != first[j])
    requires (forall i, j :: 0 <= i < j < |second| ==> second[i] != second[j])
    ensures forall i, j :: 0 <= i < j < |first + second| ==> (first + second)[i] != (first + second)[j]
    ensures forall id :: id in first + second <==> id in outcomes + more
  {
    forall i, j | 0 <= i < |first| && 0 <= j < |second| ensures first[i] != second[j] {
      assert first[i] in first && second[j] in second;
    }
  }

  /** The k-th charge of the second part sees the ledger that the first part left. */
  lemma LaterTry(b: LB.Book, b1: LB.Book, b2: LB.Book, hash: nat -> nat,
                 subs: map<nat, Subscription>, subs': map<nat, Subscription>,
                 first: seq<nat>, outcomes: map<nat, Outcome>, second: seq<nat>, more: map<nat, Outcome>, k: nat)
    requires SamePayers(subs, subs') && k < |second| && TriedAt(b1, hash, subs', second, more, k)
    requires Charged(b, b1, hash, subs, first, outcomes)
    ensures TriedAt(b, hash, subs, first + second, outcomes + more, |first| + k)
  {
    hide LB.Run, ChargeOutcome, OpsOf;
    assert (first + second)[..|first| + k] == first + second[..k];
    SameOps(subs, subs', first, second[..k]);
    LB.RunAppend(b, hash, OpsOf(subs, first), OpsOf(subs', second[..k]));
    assert second[k] in second;
    SameOutcome(LB.Run(b1, hash, OpsOf(subs', second[..k])), hash, subs[second[k]], subs'[second[k]]);
  }

  lemma EndsTogether(b: LB.Book, b1: LB.Book, b2: LB.Book, hash: nat -> nat,
                     subs: map<nat, Subscription>, subs': map<nat, Subscription>,
                     first: seq<nat>, outcomes: map<nat, Outcome>, second: seq<nat>, more: map<nat, Outcome>)
    requires SamePayers(subs, subs')
    requires Charged(b, b1, hash, subs, first, outcomes) && Charged(b1, b2, hash, subs', second, more)
    ensures (forall id :: id in first + second ==> id in subs) && b2 == LB.Run(b, hash, OpsOf(subs, first + second))
  {
    hide LB.Run, ChargeOutcome, OpsOf;
    SameOps(subs, subs', first, second);
    LB.RunAppend(b, hash, OpsOf(subs, first), OpsOf(subs', second));
  }

  lemma SameOutcome(b: LB.Book, hash: nat -> nat, s: Subscription, s': Subscription)
    requires s' == s.(billing := s'.billing)
    ensures ChargeOutcome(b, hash, s') == ChargeOutcome(b, hash, s)
  {
  }

  lemma NotDueStays(s: Subscription, emails: map<nat, nat>, section: Section, now: int)
    requires !Due(s.billing, section, now)
    ensures SectionDone(s, s, emails, section, now, None)
  {
  }

  lemma Outcomes(b: LB.Book, b': LB.Book, hash: nat -> nat, subs: map<nat, Subscription>, order: seq<nat>,
                 outcomes: map<nat, Outcome>)
    requires Charged(b, b', hash, subs, order, outcomes)
    ensures forall id :: id in outcomes ==> id in subs
  {
  }

  /** The three sections of a pass attempt different rows, and change billing rows only. */
  lemma OnceOnly(s0: map<nat, Subscription>, s1: map<nat, Subscription>, s2: map<nat, Subscription>, s3: map<nat, Subscription>,
                 emails: map<nat, nat>, now: int,
                 trials: map<nat, Outcome>, renewals: map<nat, Outcome>, retries: map<nat, Outcome>)
    requires s0.Keys == s1.Keys == s2.Keys == s3.Keys
    requires forall i :: i in s0 ==> SectionDone(s0[i], s1[i], emails, Trials, now, Lookup(trials, i))
    requires forall i :: i in s0 ==> SectionDone(s1[i], s2[i], emails, Renewals, now, Lookup(renewals, i))
    requires forall i :: i in s0 ==> SectionDone(s2[i], s3[i], emails, Retries, now, Lookup(retries, i))
    ensures SamePayers(s0, s1) && SamePayers(s0, s2)
    ensures forall i :: i in s0 ==> i !in trials || (i !in renewals && i !in retries)
    ensures forall i :: i in s0 ==> i !in renewals || i !in retries
  {
    hide Due, SectionDone;
    forall i | i in s0
      ensures s1[i] == s0[i].(billing := s1[i].billing) && s2[i] == s0[i].(billing := s2[i].billing)
      ensures i !in trials || (i !in renewals && i !in retries)
      ensures i !in renewals || i !in retries
    {
      RowOnce(s0[i], s1[i], s2[i], s3[i], emails, now, Lookup(trials, i), Lookup(renewals, i), Lookup(retries, i));
    }
  }

  lemma RowOnce(s0: Subscription, s1: Subscription, s2: Subscription, s3: Subscription, emails: map<nat, nat>, now: int,
                trial: Option<Outcome>, renewal: Option<Outcome>, retry: Option<Outcome>)
    requires SectionDone(s0, s1, emails, Trials, now, trial) && SectionDone(s1, s2, emails, Renewals, now, renewal)
    requires SectionDone(s2, s3, emails, Retries, now, retry)
    ensures s1 == s0.(billing := s1.billing) && s2 == s0.(billing := s2.billing)
    ensures trial.Some? ==> renewal.None? && retry.None?
    ensures renewal.Some? ==> retry.None?
  {
    hide Attempted;
    if trial.Some? {
      NotDueAgain(s0, s1, emails, Trials, Renewals, now, trial);
      NotDueAgain(s0, s1, emails, Trials, Retries, now, trial);
    }
    if renewal.Some? { NotDueAgain(s1, s2, emails, Renewals, Retries, now, renewal); }
  }

  /** A trial that is over, a renewal date that has come, or a failure a day old. */
  predicate Overdue(b: Billing, now: int) {
    match b.status
    case Trialing => b.trialEndsAt.Some? && b.trialEndsAt.value <= now
    case Active => b.nextBillingAt <= now
    case PastDue => b.retryCount < 7 && b.lastRetryAt.Some? && b.lastRetryAt.value + 24 * 3_600_000 <= now
    case Cancelled | Failed => false
  }

  lemma OverdueIsDue(b: Billing, now: int)
    ensures Overdue(b, now) <==> Due(b, Trials, now) || Due(b, Renewals, now) || Due(b, Retries, now)
    ensures Due(b, Trials, now) ==> !Due(b, Renewals, now) && !Due(b, Retries, now)
    ensures Due(b, Renewals, now) ==> !Due(b, Retries, now)
  {
  }

  /** How the attempt on a row ended, in whichever section it was. */
  function TriedIn(trials: map<nat, Outcome>, renewals: map<nat, Outcome>, retries: map<nat, Outcome>, id: nat): Option<Outcome> {
    Lookup(trials + renewals + retries, id)
  }

  /** One row over a whole pass: what was overdue is attempted, or cancelled if the
      subscriber would pay themselves, or skipped if they are gone; nothing else changes, and
      nothing that was attempted is still overdue unless the charge threw. */
  ghost predicate PassDone(s: Subscription, s': Subscription, emails: map<nat, nat>, now: int, outcome: Option<Outcome>) {
    && (outcome.Some? <==> Overdue(s.billing, now) && Attemptable(s, emails))
    && (!Overdue(s.billing, now) || s.subscriber !in emails ==> s' == s)
    && (Overdue(s.billing, now) && s.subscriber in emails && PaysSelf(s, emails) ==>
          s' == s.(billing := s.billing.(status := Cancelled)))
    && (outcome == Some(Threw) ==> s' == s)
    && (outcome == Some(Paid) ==>
          s'.billing.status == Active && s'.billing.retryCount == 0
          && s'.billing.nextBillingAt == Advance(now, s.billing.interval) > now)
    && (outcome == Some(Insufficient) ==>
          && s'.billing.lastRetryAt == Some(now)
          && s'.billing.retryCount == (if s.billing.status == PastDue then s.billing.retryCount + 1 else 1)
          && s'.billing.status == if s'.billing.retryCount >= 7 then Failed else PastDue)
    && (outcome in {Some(Paid), Some(Insufficient)} ==> !Overdue(s'.billing, now))
  }

  lemma RowPass(s0: Subscription, s1: Subscription, s2: Subscription, s3: Subscription, emails: map<nat, nat>, now: int,
                trial: Option<Outcome>, renewal: Option<Outcome>, retry: Option<Outcome>)
    requires SectionDone(s0, s1, emails, Trials, now, trial) && SectionDone(s1, s2, emails, Renewals, now, renewal)
    requires SectionDone(s2, s3, emails, Retries, now, retry)
    ensures PassDone(s0, s3, emails, now, if retry.Some? then retry else if renewal.Some? then renewal else trial)
  {
    hide Advance;
    OverdueIsDue(s0.billing, now);
    AdvanceAdds(now, s0.billing.interval);
  }

  lemma AllRowsPass(s0: map<nat, Subscription>, s1: map<nat, Subscription>, s2: map<nat, Subscription>, s3: map<nat, Subscription>,
                    emails: map<nat, nat>, now: int,
                    trials: map<nat, Outcome>, renewals: map<nat, Outcome>, retries: map<nat, Outcome>)
    requires s0.Keys == s1.Keys == s2.Keys == s3.Keys
    requires forall i :: i in s0 ==> SectionDone(s0[i], s1[i], emails, Trials, now, Lookup(trials, i))
    requires forall i :: i in s0 ==> SectionDone(s1[i], s2[i], emails, Renewals, now, Lookup(renewals, i))
    requires forall i :: i in s0 ==> SectionDone(s2[i], s3[i], emails, Retries, now, Lookup(retries, i))
    ensures forall i :: i in s0 ==> PassDone(s0[i], s3[i], emails, now, TriedIn(trials, renewals, retries, i))
  {
    hide SectionDone, PassDone;
    forall i | i in s0 ensures PassDone(s0[i], s3[i], emails, now, TriedIn(trials, renewals, retries, i)) {
      RowPass(s0[i], s1[i], s2[i], s3[i], emails, now, Lookup(trials, i), Lookup(renewals, i), Lookup(retries, i));
    }
  }

  /** Cancels every subscription of this user to this merchant, whatever its status. */
  function AllCancelled(subs: map<nat, Subscription>, subscriber: nat, merchant: nat): map<nat, Subscription> {
    map i | i in subs ::
      if subs[i].subscriber == subscriber && subs[i].merchant == merchant
      then subs[i].(billing := subs[i].billing.(status := Cancelled)) else subs[i]
  }

  predicate OnTrial(trialDays: Option<nat>) { trialDays.Some? && trialDays.value > 0 }

  /** The new subscription in place of the old ones. */
  function Replaced(subs: map<nat, Subscription>, id: nat, s: Subscription, trialDays: Option<nat>, now: int)
    : map<nat, Subscription>
  {
    AllCancelled(subs, s.subscriber, s.merchant)[id := s.(billing := Activated(s.billing.interval, trialDays, now))]
  }

  /** What starting a subscription does to the table: the earlier ones of this user to this
      merchant are cancelled, every other row stays, and the new row is on trial until the
      days are over, or active until the next date. */
  ghost predicate StartedAs(subs: map<nat, Subscription>, subs': map<nat, Subscription>, id: nat, s: Subscription,
                            trialDays: Option<nat>, now: int) {
    && subs'.Keys == subs.Keys + {id} && id !in subs
    && (forall i :: i in subs ==>
          if subs[i].subscriber == s.subscriber && subs[i].merchant == s.merchant
          then subs'[i] == subs[i].(billing := subs'[i].billing) && subs'[i].billing.status == Cancelled
          else subs'[i] == subs[i])
    && subs'[id] == s.(billing := subs'[id].billing)
    && var b := subs'[id].billing;
       && b.interval == s.billing.interval && b.retryCount == 0
       && (if trialDays.Some? && trialDays.value > 0
           then b.status == Trialing && b.trialEndsAt == Some(now + trialDays.value * 24 * 3_600_000)
           else b.status == Active && b.nextBillingAt == Advance(now, s.billing.interval))
  }

  lemma ReplacedMeans(subs: map<nat, Subscription>, id: nat, s: Subscription, trialDays: Option<nat>, now: int)
    requires id !in subs
    ensures StartedAs(subs, Replaced(subs, id, s, trialDays, now), id, s, trialDays, now)
  {
    hide Advance;
    assert trialDays.Some? ==> trialDays.value * 24 * 3_600_000 == trialDays.value * DAY;
  }

  class Worker {
    const db: Ledger.Database
    var subs: map<nat, Subscription>
    var nextId: nat

    constructor (db: Ledger.Database)
      ensures this.db == db && subs == map[]
    {
      this.db := db;
      subs, nextId := map[], 0;
    }

    ghost predicate Ready()
      reads this, db
    {
      LB.Valid(db.Contents()) && forall i :: i in subs ==> i < nextId
    }

    /** Money only moves inside the ledger, and no row but `ids` changes. */
    twostate predicate OnlyTouches(ids: set<nat>)
      reads this, db
    {
      && Ready() && LB.Worth(db.Contents()) == old(LB.Worth(db.Contents()))
      && db.balances.Keys == old(db.balances.Keys) && db.emails == old(db.emails)
      && subs.Keys == old(subs.Keys) && nextId == old(nextId)
      && forall i :: i in subs && i !in ids ==> subs[i] == old(subs[i])
    }

    /** `attemptBilling`: `chargeSubscription` in its own transaction. */
    method Charge(s: Subscription) returns (outcome: Outcome)
      requires Ready()
      modifies db
      ensures Ready() && LB.Worth(db.Contents()) == old(LB.Worth(db.Contents()))
      ensures db.balances.Keys == old(db.balances.Keys) && db.emails == old(db.emails)
      ensures outcome == old(ChargeOutcome(db.Contents(), db.hashEmail, s))
      ensures db.Contents() == old(LB.Commit(db.Contents(), db.hashEmail, ChargeOp(s)))
      ensures if outcome == Paid then PaysFor(old(db.Contents()), db.Contents(), db.hashEmail, s)
              else db.Contents() == old(db.Contents())
    {
      hide PaysFor;
      ChargeMeans(db.Contents(), db.hashEmail, s);
      LB.CommitWorth(db.Contents(), db.hashEmail, ChargeOp(s));
      var error := db.ChargeSubscription(s.subscriber, s.creator, s.payout, s.amount);
      outcome := match error
        case None => Paid
        case Some(InsufficientBalance) => Insufficient
        case Some(_) => Threw;
    }

    /** The loop body of a section, for a row it selected. */
    method BillOne(id: nat, section: Section, now: int) returns (outcome: Option<Outcome>)
      requires Ready() && id in subs && Due(subs[id].billing, section, now)
      modifies this, db
      ensures OnlyTouches({id})
      ensures SectionDone(old(subs[id]), subs[id], old(db.emails), section, now, outcome)
      ensures outcome.Some? ==> outcome.value == old(ChargeOutcome(db.Contents(), db.hashEmail, subs[id]))
      ensures db.Contents() == if outcome.None? then old(db.Contents())
                               else old(LB.Commit(db.Contents(), db.hashEmail, ChargeOp(subs[id])))
    {
      var sub := subs[id];
      if sub.subscriber !in db.emails { return None; }
      if PaysSelf(sub, db.emails) {
        subs := subs[id := sub.(billing := sub.billing.(status := Cancelled))];
        return None;
      }
      var o := Charge(sub);
      var billing := Attempted(sub.billing, sub.billing, section, now, o);
      subs := subs[id := sub.(billing := billing)];
      return Some(o);
    }

    /** One section: select what is due, then work through it. `order` and `outcomes` tell
        which rows were attempted and how that ended. */
    method RunSection(section: Section, now: int) returns (ghost order: seq<nat>, ghost outcomes: map<nat, Outcome>)
      requires Ready()
      modifies this, db
      ensures OnlyTouches(old(subs.Keys))
      ensures forall i :: i in old(subs) ==>
                SectionDone(old(subs)[i], subs[i], old(db.emails), section, now, Lookup(outcomes, i))
      ensures Charged(old(db.Contents()), db.Contents(), db.hashEmail, old(subs), order, outcomes)
    {
      hide SectionDone, Due, Charged, LB.Valid, LB.Worth, LB.Commit, ChargeOutcome;
      var due := set i | i in subs && Due(subs[i].billing, section, now);
      ghost var all, subs0, b0, emails := due, subs, db.Contents(), db.emails;
      order, outcomes := [], map[];
      NoneCharged(b0, db.hashEmail, subs0);
      while due != {}
        invariant due <= all && outcomes.Keys <= all - due && OnlyTouches(all)
        invariant forall i :: i in due ==> subs[i] == subs0[i]
        invariant forall i :: i in all - due ==>
                    SectionDone(subs0[i], subs[i], emails, section, now, Lookup(outcomes, i))
        invariant Charged(b0, db.Contents(), db.hashEmail, subs0, order, outcomes)
        decreases |due|
      {
        var id :| id in due;
        due := due - {id};
        ghost var before := db.Contents();
        var outcome := BillOne(id, section, now);
        if outcome.Some? {
          OneCharged(b0, before, db.hashEmail, subs0, order, outcomes, id);
          order, outcomes := order + [id], outcomes[id := outcome.value];
        }
      }
      forall i | i in subs0 && i !in all
        ensures SectionDone(subs0[i], subs[i], emails, section, now, Lookup(outcomes, i))
      {
        NotDueStays(subs0[i], emails, section, now);
      }
    }

    /** One pass: trials that ended, then renewals, then retries. The charges of the three
        sections together are made in `order`, and no subscription is attempted twice. */
    method ProcessSubscriptionBilling(now: int)
      returns (ghost order: seq<nat>, ghost trials: map<nat, Outcome>, ghost renewals: map<nat, Outcome>,
               ghost retries: map<nat, Outcome>, ghost subs1: map<nat, Subscription>, ghost subs2: map<nat, Subscription>)
      requires Ready()
      modifies this, db
      ensures OnlyTouches(old(subs.Keys)) && subs1.Keys == subs2.Keys == subs.Keys
      ensures forall i :: i in old(subs) ==>
                && SectionDone(old(subs)[i], subs1[i], old(db.emails), Trials, now, Lookup(trials, i))
                && SectionDone(subs1[i], subs2[i], old(db.emails), Renewals, now, Lookup(renewals, i))
                && SectionDone(subs2[i], subs[i], old(db.emails), Retries, now, Lookup(retries, i))
      ensures trials.Keys !! renewals.Keys && trials.Keys !! retries.Keys && renewals.Keys !! retries.Keys
      ensures Charged(old(db.Contents()), db.Contents(), db.hashEmail, old(subs), order, trials + renewals + retries)
      ensures forall i :: i in old(subs) ==>
                PassDone(old(subs)[i], subs[i], old(db.emails), now, TriedIn(trials, renewals, retries, i))
    {
      hide LB.Valid, LB.Worth, Charged, SectionDone, Due, PassDone, TriedIn;
      ghost var s0, b0 := subs, db.Contents();
      ghost var first, second, third;
      first, trials := RunSection(Trials, now);
      subs1 := subs;
      ghost var b1 := db.Contents();
      second, renewals := RunSection(Renewals, now);
      subs2 := subs;
      ghost var b2 := db.Contents();
      third, retries := RunSection(Retries, now);
      OnceOnly(s0, subs1, subs2, subs, db.emails, now, trials, renewals, retries);
      AllRowsPass(s0, subs1, subs2, subs, db.emails, now, trials, renewals, retries);
      Outcomes(b0, b1, db.hashEmail, s0, first, trials);
      Outcomes(b1, b2, db.hashEmail, subs1, second, renewals);
      Outcomes(b2, db.Contents(), db.hashEmail, subs2, third, retries);
      ChargedTogether(b0, b1, b2, db.hashEmail, s0, subs1, first, trials, second, renewals);
      ChargedTogether(b0, b2, db.Contents(), db.hashEmail, s0, subs2, first + second, trials + renewals, third, retries);
      order := first + second + third;
    }

    /** `POST /:id/retry`: claim the row while it is past due, then charge, in one
        transaction that rolls back if the charge fails. */
    method RetryPastDue(id: nat, now: int) returns (paid: bool)
      requires Ready()
      modifies this, db
      ensures OnlyTouches({id})
      ensures paid ==> id in subs && old(subs)[id].billing.status == PastDue
                       && subs[id] == old(subs)[id].(billing := Retried(old(subs)[id].billing, now))
      ensures !paid ==> subs == old(subs) && db.Contents() == old(db.Contents())
      ensures paid <==> id in old(subs) && old(subs)[id].billing.status == PastDue
                        && old(ChargeOutcome(db.Contents(), db.hashEmail, subs[id])) == Paid
      ensures paid ==> db.Contents() == old(LB.Commit(db.Contents(), db.hashEmail, ChargeOp(subs[id])))
      ensures paid ==>
                && PaysFor(old(db.Contents()), db.Contents(), db.hashEmail, old(subs)[id])
                && subs[id].billing.status == Active && subs[id].billing.retryCount == 0
                && subs[id].billing.nextBillingAt == Advance(now, subs[id].billing.interval)
    {
      hide LB.Pays, LB.Owner, LB.Valid, LB.Worth, LB.Apply, LB.Commit, Advance;
      if id !in subs || subs[id].billing.status != PastDue { return false; }
      var before := subs;
      subs := subs[id := subs[id].(billing := Retried(subs[id].billing, now))];
      var outcome := Charge(subs[id]);
      if outcome != Paid {
        subs := before;
        return false;
      }
      return true;
    }

    /** `startSubscription`: cancel, charge unless on trial, insert; all or nothing. */
    method StartSubscription(s: Subscription, trialDays: Option<nat>, now: int) returns (started: bool)
      requires Ready()
      modifies this, db
      ensures Ready() && LB.Worth(db.Contents()) == old(LB.Worth(db.Contents()))
      ensures started <==> OnTrial(trialDays) || old(ChargeOutcome(db.Contents(), db.hashEmail, s)) == Paid
      ensures subs == if started then Replaced(old(subs), old(nextId), s, trialDays, now) else old(subs)
      ensures db.Contents() == if started && !OnTrial(trialDays) then old(LB.Commit(db.Contents(), db.hashEmail, ChargeOp(s)))
                               else old(db.Contents())
      ensures started ==> StartedAs(old(subs), subs, old(nextId), s, trialDays, now)
      ensures started && (trialDays.None? || trialDays.value == 0) ==>
                PaysFor(old(db.Contents()), db.Contents(), db.hashEmail, s)
    {
      hide StartedAs, PaysFor, Advance, LB.Valid, LB.Worth, LB.Commit, ChargeOutcome;
      ReplacedMeans(subs, nextId, s, trialDays, now);
      var billing := Activated(s.billing.interval, trialDays, now);
      if billing.status != Trialing {
        var outcome := Charge(s);
        if outcome != Paid { return false; }
      }
      subs := AllCancelled(subs, s.subscriber, s.merchant)[nextId := s.(billing := billing)];
      nextId := nextId + 1;
      return true;
    }

    /** The checkout page's variant cancels first, outside the transaction: when the
        charge then fails, the old subscription is gone and there is no new one. */
    method Checkout(s: Subscription, trialDays: Option<nat>, now: int) returns (started: bool)
      requires Ready()
      modifies this, db
      ensures Ready() && LB.Worth(db.Contents()) == old(LB.Worth(db.Contents()))
      ensures started <==> old(!PaysSelf(s, db.emails)
                             && (OnTrial(trialDays) || ChargeOutcome(db.Contents(), db.hashEmail, s) == Paid))
      ensures subs == if started then Replaced(old(subs), old(nextId), s, trialDays, now)
                      else if old(PaysSelf(s, db.emails)) then old(subs)
                      else AllCancelled(old(subs), s.subscriber, s.merchant)
      ensures db.Contents() == if started && !OnTrial(trialDays) then old(LB.Commit(db.Contents(), db.hashEmail, ChargeOp(s)))
                               else old(db.Contents())
      ensures started ==> StartedAs(old(subs), subs, old(nextId), s, trialDays, now)
      ensures started && (trialDays.None? || trialDays.value == 0) ==>
                PaysFor(old(db.Contents()), db.Contents(), db.hashEmail, s)
    {
      hide StartedAs, PaysFor, Advance, LB.Valid, LB.Worth, LB.Commit, ChargeOutcome;
      ReplacedMeans(subs, nextId, s, trialDays, now);
      if PaysSelf(s, db.emails) { return false; }
      subs := AllCancelled(subs, s.subscriber, s.merchant);
      var billing := Activated(s.billing.interval, trialDays, now);
      if billing.status != Trialing {
        var outcome := Charge(s);
        if outcome != Paid { return false; }
      }
      subs := subs[nextId := s.(billing := billing)];
      nextId := nextId + 1;
      return true;
    }
  }
}
