/** Email one-time codes: throttled issuing, a limit on wrong guesses, single use, and
    the daily clean-up. The throttle and failure counters are in memory. */
module Otp {
  import opened Wrappers
  import opened JsStrings

  const TTL_MS := 300_000
  const MAX_FAILURES := 5
  const MIN_GAP_MS := 30_000
  const MAX_ISSUES := 10
  const HOUR_MS := 3_600_000

  /** An account and a purpose. */
  datatype Key = Key(userId: nat, kind: string)

  datatype Row = Row(key: Key, code: string, used: bool, expiresAt: int)

  datatype Store = Store(rows: map<nat, Row>, nextId: nat, failures: map<Key, nat>, issued: map<Key, seq<int>>)

  datatype IssueAnswer = Issued(id: nat) | Throttled(retryAfterSec: int)

  datatype FindAnswer = Found(id: nat) | Wrong | Locked

  function Failures(s: Store, key: Key): nat { if key in s.failures then s.failures[key] else 0 }

  function IssuedTo(s: Store, key: Key): seq<int> { if key in s.issued then s.issued[key] else [] }

  /** `times.filter((t) => now - t < 60 * 60 * 1000)` */
  function Recent(times: seq<int>, now: int): (r: seq<int>)
    ensures forall t :: t in r <==> t in times && now - t < HOUR_MS
  {
    if times == [] then []
    else (if now - times[0] < HOUR_MS then [times[0]] else []) + Recent(times[1..], now)
  }

  function CeilDiv(a: int, b: int): int
    requires b > 0
  {
    -((-a) / b)
  }

  /** `UPDATE otp_codes SET used = true WHERE …` for every row of a key. */
  function Voided(rows: map<nat, Row>, key: Key): map<nat, Row> {
    map id | id in rows :: if rows[id].key == key then rows[id].(used := true) else rows[id]
  }

  /** Why a new code is refused. */
  function Throttle(s: Store, key: Key, now: int): Option<int> {
    var recent := Recent(IssuedTo(s, key), now);
    if recent != [] && now - recent[|recent| - 1] < MIN_GAP_MS
    then Some(CeilDiv(MIN_GAP_MS - (now - recent[|recent| - 1]), 1000))
    else if |recent| >= MAX_ISSUES then Some(CeilDiv(recent[0] + HOUR_MS - now, 1000))
    else None
  }

  function IssueEffect(s: Store, key: Key, code: string, now: int): Store {
    if Throttle(s, key, now).Some? then s
    else Store(Voided(s.rows, key)[s.nextId := Row(key, code, false, now + TTL_MS)], s.nextId + 1,
               s.failures - {key}, s.issued[key := Recent(IssuedTo(s, key), now) + [now]])
  }

  predicate Matches(s: Store, id: nat, key: Key, code: string, now: int) {
    id in s.rows && s.rows[id].key == key && s.rows[id].code == code && !s.rows[id].used && s.rows[id].expiresAt > now
  }

  predicate Right(s: Store, key: Key, code: string, now: int) {
    Failures(s, key) < MAX_FAILURES && exists id :: id in s.rows && Matches(s, id, key, code, now)
  }

  /** A guess that was looked up and did not match. */
  predicate WrongGuess(s: Store, key: Key, code: string, now: int) {
    Failures(s, key) < MAX_FAILURES && !Right(s, key, code, now)
  }

  function FindEffect(s: Store, key: Key, code: string, now: int): Store {
    if Right(s, key, code, now) then s.(failures := s.failures - {key}, issued := s.issued - {key})
    else if WrongGuess(s, key, code, now) then
      var n := Failures(s, key) + 1;
      s.(failures := s.failures[key := n], rows := if n >= MAX_FAILURES then Voided(s.rows, key) else s.rows)
    else s
  }

  predicate Usable(s: Store, id: nat) { id in s.rows && !s.rows[id].used }

  function ConsumeEffect(s: Store, id: nat): Store {
    if Usable(s, id) then s.(rows := s.rows[id := s.rows[id].(used := true)]) else s
  }

  function CleanEffect(s: Store, now: int): Store {
    s.(rows := map id | id in s.rows && s.rows[id].expiresAt >= now && !s.rows[id].used :: s.rows[id])
  }

  // ── otp.ts and otpCleanupWorker.ts ────────────────────────────────────────

  class OtpCodes {
    var rows: map<nat, Row>
    var nextId: nat
    var failures: map<Key, nat>
    var issued: map<Key, seq<int>>

    function View(): Store
      reads this
    {
      Store(rows, nextId, failures, issued)
    }

    /** `code` is the random code drawn for this call. */
    method IssueOtp(key: Key, code: string, now: int) returns (r: IssueAnswer)
      modifies this
      ensures View() == IssueEffect(old(View()), key, code, now)
      ensures match Throttle(old(View()), key, now)
              case Some(sec) => r == Throttled(sec)
              case None => r == Issued(old(nextId)) && View().rows[old(nextId)].code == code
    {
      var recent := Recent(if key in issued then issued[key] else [], now);
      if recent != [] {
        var last := recent[|recent| - 1];
        if now - last < MIN_GAP_MS {
          return Throttled(CeilDiv(MIN_GAP_MS - (now - last), 1000));
        }
      }
      if |recent| >= MAX_ISSUES {
        return Throttled(CeilDiv(recent[0] + HOUR_MS - now, 1000));
      }
      rows := Voided(rows, key);
      r := Issued(nextId);
      rows := rows[nextId := Row(key, code, false, now + TTL_MS)];
      nextId := nextId + 1;
      issued := issued[key := recent + [now]];
      failures := failures - {key};
    }

    method FindOtp(key: Key, code: string, now: int) returns (r: FindAnswer)
      modifies this
      ensures View() == FindEffect(old(View()), key, Trim(code), now)
      ensures match r
              case Found(id) => Right(old(View()), key, Trim(code), now) && Matches(old(View()), id, key, Trim(code), now)
              case Wrong => WrongGuess(old(View()), key, Trim(code), now) && Failures(View(), key) < MAX_FAILURES
              case Locked => !Right(old(View()), key, Trim(code), now) && Failures(View(), key) >= MAX_FAILURES
    {
      if key in failures && failures[key] >= MAX_FAILURES {
        return Locked;
      }
      if id :| id in rows && Matches(View(), id, key, Trim(code), now) {
        failures := failures - {key};
        issued := issued - {key};
        return Found(id);
      }
      var n := (if key in failures then failures[key] else 0) + 1;
      failures := failures[key := n];
      if n >= MAX_FAILURES {
        rows := Voided(rows, key);
        return Locked;
      }
      r := Wrong;
    }

    method ConsumeOtp(id: nat) returns (ok: bool)
      modifies this
      ensures View() == ConsumeEffect(old(View()), id)
      ensures ok == Usable(old(View()), id)
    {
      ok := id in rows && !rows[id].used;
      if ok {
        rows := rows[id := rows[id].(used := true)];
      }
    }

    /** True exactly when the code was right; the code is then used up. */
    method VerifyOtp(key: Key, code: string, now: int) returns (r: Option<bool>)
      modifies this
      ensures r == Some(true) <==> Right(old(View()), key, Trim(code), now)
      ensures r != Some(true) ==> View() == FindEffect(old(View()), key, Trim(code), now)
      ensures r == None <==> !Right(old(View()), key, Trim(code), now) && Failures(View(), key) >= MAX_FAILURES
      ensures r == Some(true) ==>
                exists id :: Matches(old(View()), id, key, Trim(code), now)
                  && View() == ConsumeEffect(FindEffect(old(View()), key, Trim(code), now), id)
    {
      var found := FindOtp(key, code, now);
      match found
      case Locked => return None;
      case Wrong => return Some(false);
      case Found(id) =>
        var ok := ConsumeOtp(id);
        return Some(ok);
    }

    method RunCleanup(now: int)
      modifies this
      ensures View() == CleanEffect(old(View()), now)
    {
      rows := map id | id in rows && rows[id].expiresAt >= now && !rows[id].used :: rows[id];
    }
  }

  // ── Runs ──────────────────────────────────────────────────────────────────

  datatype Call = Issue(key: Key, code: string) | Find(key: Key, code: string) | Consume(id: nat) | Clean

  /** `wait`: how far the clock has moved on since the previous call. */
  datatype Event = Event(wait: nat, call: Call)

  /** `uses`: how often each code was consumed successfully. */
  datatype State = State(clock: int, store: Store, uses: map<nat, nat>)

  function Uses(s: State, id: nat): nat { if id in s.uses then s.uses[id] else 0 }

  function Effect(store: Store, call: Call, now: int): Store {
    match call
    case Issue(key, code) => IssueEffect(store, key, code, now)
    case Find(key, code) => FindEffect(store, key, code, now)
    case Consume(id) => ConsumeEffect(store, id)
    case Clean => CleanEffect(store, now)
  }

  function Do(s: State, e: Event): State {
    var now := s.clock + e.wait;
    State(now, Effect(s.store, e.call, now),
          if e.call.Consume? && Usable(s.store, e.call.id) then s.uses[e.call.id := Uses(s, e.call.id) + 1] else s.uses)
  }

  function After(clock: int, run: seq<Event>): State {
    if run == [] then State(clock, Store(map[], 0, map[], map[]), map[])
    else Do(After(clock, run[..|run| - 1]), run[|run| - 1])
  }

  ghost predicate OneUnused(rows: map<nat, Row>) {
    forall a, b :: a in rows && b in rows && !rows[a].used && !rows[b].used && rows[a].key == rows[b].key ==> a == b
  }

  ghost predicate Counted(s: Store, key: Key) {
    && Failures(s, key) <= MAX_FAILURES
    && |IssuedTo(s, key)| <= MAX_ISSUES
    && (Failures(s, key) == MAX_FAILURES ==> forall id :: Usable(s, id) ==> s.rows[id].key != key)
  }

  ghost predicate UsedOnce(s: State) {
    && (forall id :: id in s.store.rows || id in s.uses ==> id < s.store.nextId)
    && (forall id :: Uses(s, id) <= 1)
    && (forall id :: Usable(s.store, id) ==> Uses(s, id) == 0)
  }

  ghost predicate Inv(s: State) {
    OneUnused(s.store.rows) && UsedOnce(s) && forall key :: Counted(s.store, key)
  }

  lemma {:induction false} RecentShorter(times: seq<int>, now: int)
    ensures |Recent(times, now)| <= |times|
  {
    if times != [] { RecentShorter(times[1..], now); }
  }

  lemma CountedStep(s: Store, call: Call, now: int, key: Key)
    requires Counted(s, key)
    ensures Counted(Effect(s, call, now), key)
  {
    hide Recent, Right;
    if call.Issue? { RecentShorter(IssuedTo(s, key), now); }
  }

  lemma OneUnusedStep(s: State, e: Event)
    requires OneUnused(s.store.rows) && UsedOnce(s)
    ensures OneUnused(Do(s, e).store.rows)
  {
    hide Throttle, Right, WrongGuess;
  }

  lemma UsedOnceStep(s: State, e: Event)
    requires UsedOnce(s)
    ensures UsedOnce(Do(s, e))
  {
    hide Throttle, Right, WrongGuess;
    var t := Do(s, e);
    forall id ensures Uses(t, id) <= 1 && (Usable(t.store, id) ==> Uses(t, id) == 0) {
      assert Uses(s, id) <= 1 && (Usable(s.store, id) ==> Uses(s, id) == 0);
      if e.call.Issue? && id == s.store.nextId { assert id !in s.uses; }
    }
  }

  lemma {:induction false} InvRuns(clock: int, run: seq<Event>)
    ensures Inv(After(clock, run))
  {
    hide Do, OneUnused, UsedOnce, Counted;
    if run == [] {
      InvAtFirst(clock);
    } else {
      var s, e := After(clock, run[..|run| - 1]), run[|run| - 1];
      InvRuns(clock, run[..|run| - 1]);
      OneUnusedStep(s, e);
      UsedOnceStep(s, e);
      forall key ensures Counted(Do(s, e).store, key) {
        CountedStep(s.store, e.call, s.clock + e.wait, key);
        StoreAfter(s, e);
      }
    }
  }

  lemma StoreAfter(s: State, e: Event)
    ensures Do(s, e).store == Effect(s.store, e.call, s.clock + e.wait)
  {
  }

  lemma InvAtFirst(clock: int)
    ensures Inv(State(clock, Store(map[], 0, map[], map[]), map[]))
  {
  }

  /** For each account and purpose there is never more than one unused code. */
  lemma {:induction false} AtMostOneUnusedCode(clock: int, run: seq<Event>, a: nat, b: nat)
    requires var s := After(clock, run).store;
             Usable(s, a) && Usable(s, b) && s.rows[a].key == s.rows[b].key
    ensures a == b
  {
    InvRuns(clock, run);
  }

  /** No code is used up twice, whatever is issued, cleaned up and consumed. */
  lemma {:induction false} ConsumedAtMostOnce(clock: int, run: seq<Event>, id: nat)
    ensures Uses(After(clock, run), id) <= 1
  {
    InvRuns(clock, run);
  }

  /** Once guesses are locked there is no code left that could match. */
  lemma {:induction false} LockedMeansVoid(clock: int, run: seq<Event>, key: Key, id: nat)
    requires var s := After(clock, run).store;
             Failures(s, key) >= MAX_FAILURES && Usable(s, id)
    ensures After(clock, run).store.rows[id].key != key
  {
    InvRuns(clock, run);
    assert Counted(After(clock, run).store, key);
  }

  // ── The life of a code ────────────────────────────────────────────────────

  /** The i-th call of the run sent this code, at that instant. */
  ghost predicate SentAt(clock: int, run: seq<Event>, i: nat, key: Key, code: string, at: int) {
    i < |run| && run[i].call == Issue(key, code) && After(clock, run[..i + 1]).clock == at
  }

  ghost predicate Born(clock: int, run: seq<Event>, row: Row) {
    exists i, at :: SentAt(clock, run, i, row.key, row.code, at) && row.expiresAt == at + 300_000
  }

  lemma BornBefore(clock: int, run: seq<Event>, row: Row)
    requires run != [] && Born(clock, run[..|run| - 1], row)
    ensures Born(clock, run, row)
  {
    hide After;
    var before := run[..|run| - 1];
    var i, at :| SentAt(clock, before, i, row.key, row.code, at) && row.expiresAt == at + 300_000;
    assert before[..i + 1] == run[..i + 1];
    assert SentAt(clock, run, i, row.key, row.code, at);
  }

  lemma BornNow(clock: int, run: seq<Event>, key: Key, code: string)
    requires run != [] && run[|run| - 1].call == Issue(key, code)
    ensures Born(clock, run, Row(key, code, false, After(clock, run).clock + TTL_MS))
  {
    assert run[..|run|] == run;
    assert SentAt(clock, run, |run| - 1, key, code, After(clock, run).clock);
  }

  /** Where the rows come from in one call. */
  lemma RowsStep(s: Store, call: Call, now: int, id: nat)
    requires id in Effect(s, call, now).rows
    ensures var row := Effect(s, call, now).rows[id];
            || (id in s.rows && s.rows[id] == row.(used := s.rows[id].used))
            || (call == Issue(row.key, row.code) && row == Row(row.key, row.code, false, now + TTL_MS))
  {
    hide Throttle, Right, WrongGuess;
  }

  lemma BornUsed(clock: int, run: seq<Event>, row: Row, used: bool)
    requires Born(clock, run, row)
    ensures Born(clock, run, row.(used := used))
  {
  }

  lemma {:induction false} AllBorn(clock: int, run: seq<Event>, id: nat)
    requires id in After(clock, run).store.rows
    ensures Born(clock, run, After(clock, run).store.rows[id])
  {
    hide Effect, Born;
    if run != [] {
      var s, e := After(clock, run[..|run| - 1]), run[|run| - 1];
      var row := After(clock, run).store.rows[id];
      RowsStep(s.store, e.call, s.clock + e.wait, id);
      if id in s.store.rows && s.store.rows[id] == row.(used := s.store.rows[id].used) {
        AllBorn(clock, run[..|run| - 1], id);
        BornBefore(clock, run, s.store.rows[id]);
        BornUsed(clock, run, s.store.rows[id], row.used);
      } else {
        BornNow(clock, run, row.key, row.code);
      }
    }
  }

  /** In every run, a guess is right only if that code was sent to this account for this
      purpose, less than five minutes ago. */
  lemma {:induction false} RightMeansSent(clock: int, run: seq<Event>, key: Key, code: string, now: int)
    requires Right(After(clock, run).store, key, code, now)
    ensures exists i, at :: SentAt(clock, run, i, key, code, at) && now < at + 300_000
    ensures forall id :: Matches(After(clock, run).store, id, key, code, now) ==> Uses(After(clock, run), id) == 0
  {
    InvRuns(clock, run);
    hide After, SentAt;
    var s := After(clock, run).store;
    var id :| id in s.rows && Matches(s, id, key, code, now);
    AllBorn(clock, run, id);
  }

  /** The right code lifts both limits: guesses count from zero, and a new code can be sent. */
  lemma RightLiftsLimits(s: Store, key: Key, code: string, now: int, later: int)
    requires Right(s, key, code, now)
    ensures var t := FindEffect(s, key, code, now);
            && Failures(t, key) == 0 && Throttle(t, key, later).None? && t.rows == s.rows
            && forall other :: other != key ==> Failures(t, other) == Failures(s, other) && IssuedTo(t, other) == IssuedTo(s, other)
  {
    hide Right;
  }

  /** The code is there, unused, and not locked by more than `tries` wrong guesses. */
  predicate Live(s: Store, id: nat, row: Row, tries: nat) {
    id in s.rows && s.rows[id] == row && !row.used && Failures(s, row.key) <= tries
  }

  /** Neither replaced nor consumed. */
  predicate Spares(call: Call, key: Key, id: nat) {
    (call.Issue? ==> call.key != key) && (call.Consume? ==> call.id != id)
  }

  predicate Tries(call: Call, key: Key) { call.Find? && call.key == key }

  function TriesIn(calls: seq<Event>, key: Key): nat {
    if calls == [] then 0 else TriesIn(calls[..|calls| - 1], key) + if Tries(calls[|calls| - 1].call, key) then 1 else 0
  }

  lemma LiveStep(s: Store, call: Call, now: int, id: nat, row: Row, tries: nat)
    requires Live(s, id, row, tries) && Spares(call, row.key, id) && id < s.nextId && now < row.expiresAt
    requires Tries(call, row.key) ==> tries + 1 < MAX_FAILURES
    ensures Live(Effect(s, call, now), id, row, tries + if Tries(call, row.key) then 1 else 0)
    ensures id < Effect(s, call, now).nextId
  {
    hide Throttle, Right;
  }

  lemma LiveAtFirst(s: Store, key: Key, code: string, now: int)
    requires Throttle(s, key, now).None?
    ensures Live(IssueEffect(s, key, code, now), s.nextId, Row(key, code, false, now + TTL_MS), 0)
    ensures s.nextId < IssueEffect(s, key, code, now).nextId
  {
    hide Recent;
  }

  lemma LiveIsRight(s: Store, id: nat, row: Row, tries: nat, now: int)
    requires Live(s, id, row, tries) && tries < MAX_FAILURES && now < row.expiresAt
    ensures Right(s, row.key, row.code, now)
  {
    assert Matches(s, id, row.key, row.code, now);
  }

  lemma {:induction false} LiveRuns(clock: int, run: seq<Event>, more: seq<Event>, id: nat, row: Row)
    requires Live(After(clock, run).store, id, row, 0) && id < After(clock, run).store.nextId
    requires forall k :: 0 <= k < |more| ==> Spares(more[k].call, row.key, id)
    requires TriesIn(more, row.key) < MAX_FAILURES && After(clock, run + more).clock < row.expiresAt
    ensures Live(After(clock, run + more).store, id, row, TriesIn(more, row.key)) && id < After(clock, run + more).store.nextId
    decreases |more|
  {
    hide Live, Effect, Spares, Tries;
    if more == [] {
      assert run + more == run;
    } else {
      var fewer, e := more[..|more| - 1], more[|more| - 1];
      assert (run + more)[..|run + more| - 1] == run + fewer;
      LiveRuns(clock, run, fewer, id, row);
      var s := After(clock, run + fewer);
      LiveStep(s.store, e.call, s.clock + e.wait, id, row, TriesIn(fewer, row.key));
    }
  }

  /** A code that was sent stays right for five minutes, until it is replaced, consumed, or
      guessed at five times; clean-ups and everything else in between do not matter. */
  lemma {:induction false} SentIsRight(clock: int, run: seq<Event>, issue: Event, more: seq<Event>, now: int)
    requires issue.call.Issue?
    requires var s, at := After(clock, run), After(clock, run).clock + issue.wait;
             && Throttle(s.store, issue.call.key, at).None?
             && (forall k :: 0 <= k < |more| ==> Spares(more[k].call, issue.call.key, s.store.nextId))
             && After(clock, run + [issue] + more).clock <= now < at + 300_000
    requires TriesIn(more, issue.call.key) < 5
    ensures Right(After(clock, run + [issue] + more).store, issue.call.key, issue.call.code, now)
  {
    hide Throttle, Live, Right, Spares, IssueEffect;
    var s, at, key, code := After(clock, run), After(clock, run).clock + issue.wait, issue.call.key, issue.call.code;
    LiveAtFirst(s.store, key, code, at);
    assert (run + [issue])[..|run|] == run;
    var row := Row(key, code, false, at + TTL_MS);
    LiveRuns(clock, run + [issue], more, s.store.nextId, row);
    LiveIsRight(After(clock, run + [issue] + more).store, s.store.nextId, row, TriesIn(more, key), now);
  }

  // ── Guesses within an hour ────────────────────────────────────────────────

  /** The k-th call of a run is a guess at `key`, and it is right. */
  ghost predicate RightAt(clock: int, run: seq<Event>, k: nat, key: Key)
    requires k < |run|
  {
    var s := After(clock, run[..k]);
    run[k].call.Find? && run[k].call.key == key && Right(s.store, key, run[k].call.code, s.clock + run[k].wait)
  }

  ghost predicate WrongAt(clock: int, run: seq<Event>, k: nat, key: Key)
    requires k < |run|
  {
    var s := After(clock, run[..k]);
    run[k].call.Find? && run[k].call.key == key && WrongGuess(s.store, key, run[k].call.code, s.clock + run[k].wait)
  }

  /** How many of the calls from the i-th up to the j-th are wrong guesses at `key`. */
  ghost function WrongGuesses(clock: int, run: seq<Event>, i: nat, j: nat, key: Key): nat
    requires i <= j <= |run|
    decreases j - i
  {
    if i == j then 0
    else WrongGuesses(clock, run, i, j - 1, key) + if WrongAt(clock, run, j - 1, key) then 1 else 0
  }

  /** The issue times from `start` on. */
  function Since(times: seq<int>, start: int): nat {
    if times == [] then 0 else (if times[0] >= start then 1 else 0) + Since(times[1..], start)
  }

  lemma {:induction false} SinceBounded(times: seq<int>, start: int)
    ensures Since(times, start) <= |times|
  {
    if times != [] { SinceBounded(times[1..], start); }
  }

  /** Nothing of the last hour is forgotten. */
  lemma {:induction false} SinceRecent(times: seq<int>, start: int, now: int)
    requires now < start + HOUR_MS
    ensures Since(Recent(times, now), start) == Since(times, start)
  {
    if times != [] {
      SinceRecent(times[1..], start, now);
      var rest := Recent(times[1..], now);
      assert ([times[0]] + rest)[1..] == rest;
      assert [] + rest == rest;
    }
  }

  lemma {:induction false} SinceAppend(times: seq<int>, start: int, now: int)
    requires now >= start
    ensures Since(times + [now], start) == Since(times, start) + 1
  {
    if times == [] {
      assert times + [now] == [now];
    } else {
      assert (times + [now])[1..] == times[1..] + [now];
      SinceAppend(times[1..], start, now);
    }
  }

  /** Guesses are paid for by the code carried in and the codes issued since. */
  ghost predicate Paid(s: Store, key: Key, start: int, wrong: nat) {
    wrong + (MAX_FAILURES - Failures(s, key)) <= MAX_FAILURES + MAX_FAILURES * Since(IssuedTo(s, key), start)
  }

  lemma PaidStep(s: Store, call: Call, now: int, key: Key, start: int, wrong: nat)
    requires start <= now < start + HOUR_MS
    requires Counted(s, key) && Paid(s, key, start, wrong)
    requires call.Find? && call.key == key ==> !Right(s, key, call.code, now)
    ensures var counts := call.Find? && call.key == key && WrongGuess(s, key, call.code, now);
            Paid(Effect(s, call, now), key, start, wrong + if counts then 1 else 0)
  {
    hide Recent, Since, Right;
    if call.Issue? && call.key == key && Throttle(s, key, now).None? {
      var recent := Recent(IssuedTo(s, key), now);
      SinceRecent(IssuedTo(s, key), start, now);
      SinceAppend(recent, start, now);
    }
  }

  lemma {:induction false} PaidRuns(clock: int, run: seq<Event>, i: nat, j: nat, key: Key, start: int)
    requires i <= j <= |run|
    requires i < j ==> start <= After(clock, run[..i + 1]).clock && After(clock, run[..j]).clock < start + HOUR_MS
    requires forall k :: i <= k < j ==> !RightAt(clock, run, k, key)
    ensures Paid(After(clock, run[..j]).store, key, start, WrongGuesses(clock, run, i, j, key))
    decreases j - i
  {
    hide Do, Paid, Right, WrongGuess;
    InvRuns(clock, run[..j]);
    if i == j {
      PaidAtFirst(After(clock, run[..j]).store, key, start);
    } else {
      var s, e := After(clock, run[..j - 1]), run[j - 1];
      assert run[..j][..j - 1] == run[..j - 1];
      ClockMoves(s, e);
      if i < j - 1 { Monotone(clock, run, i + 1, j - 1); }
      PaidRuns(clock, run, i, j - 1, key, start);
      InvRuns(clock, run[..j - 1]);
      assert Counted(s.store, key);
      assert !RightAt(clock, run, j - 1, key);
      PaidStep(s.store, e.call, s.clock + e.wait, key, start, WrongGuesses(clock, run, i, j - 1, key));
      StoreAfter(s, e);
    }
  }

  lemma PaidAtFirst(s: Store, key: Key, start: int)
    ensures Paid(s, key, start, 0)
  {
  }

  lemma ClockMoves(s: State, e: Event)
    ensures Do(s, e).clock == s.clock + e.wait
  {
  }

  lemma {:induction false} Monotone(clock: int, run: seq<Event>, i: nat, j: nat)
    requires i <= j <= |run|
    ensures After(clock, run[..i]).clock <= After(clock, run[..j]).clock
    decreases j
  {
    hide Do;
    if i < j {
      Monotone(clock, run, i, j - 1);
      assert run[..j][..j - 1] == run[..j - 1];
      ClockMoves(After(clock, run[..j - 1]), run[j - 1]);
    }
  }

  /** With no right guess, any hour sees at most 55 wrong guesses: ten codes issued and the
      one carried in, five guesses each. Calls i up to j of the run happen within an hour. */
  lemma AtMost55WrongGuesses(clock: int, run: seq<Event>, i: nat, j: nat, key: Key)
    requires i < j <= |run|
    requires After(clock, run[..j]).clock < After(clock, run[..i + 1]).clock + HOUR_MS
    requires forall k :: i <= k < j ==> !RightAt(clock, run, k, key)
    ensures WrongGuesses(clock, run, i, j, key) <= 55
  {
    hide Do, RightAt, WrongAt;
    var start := After(clock, run[..i + 1]).clock;
    PaidRuns(clock, run, i, j, key, start);
    InvRuns(clock, run[..j]);
    var s := After(clock, run[..j]).store;
    assert Counted(s, key);
    SinceBounded(IssuedTo(s, key), start);
  }

  // ── How often codes are sent ──────────────────────────────────────────────

  /** The k-th call of the run sends a code for `key`. */
  ghost predicate SendsAt(clock: int, run: seq<Event>, k: nat, key: Key)
    requires k < |run|
  {
    var s := After(clock, run[..k]);
    run[k].call.Issue? && run[k].call.key == key && Throttle(s.store, key, s.clock + run[k].wait).None?
  }

  ghost function Sends(clock: int, run: seq<Event>, i: nat, j: nat, key: Key): nat
    requires i <= j <= |run|
    decreases j - i
  {
    if i == j then 0 else Sends(clock, run, i, j - 1, key) + if SendsAt(clock, run, j - 1, key) then 1 else 0
  }

  lemma SinceStep(s: Store, call: Call, now: int, key: Key, start: int)
    requires start <= now < start + HOUR_MS && (call.Find? && call.key == key ==> !Right(s, key, call.code, now))
    ensures var sends := call.Issue? && call.key == key && Throttle(s, key, now).None?;
            Since(IssuedTo(Effect(s, call, now), key), start)
              == Since(IssuedTo(s, key), start) + if sends then 1 else 0
  {
    hide Recent, Since, Right;
    if call.Issue? && call.key == key && Throttle(s, key, now).None? {
      SinceRecent(IssuedTo(s, key), start, now);
      SinceAppend(Recent(IssuedTo(s, key), now), start, now);
    }
  }

  lemma {:induction false} SendsRun(clock: int, run: seq<Event>, i: nat, j: nat, key: Key, start: int)
    requires i <= j <= |run|
    requires i < j ==> start <= After(clock, run[..i + 1]).clock && After(clock, run[..j]).clock < start + HOUR_MS
    requires forall k :: i <= k < j ==> !RightAt(clock, run, k, key)
    ensures Sends(clock, run, i, j, key) <= Since(IssuedTo(After(clock, run[..j]).store, key), start)
    decreases j - i
  {
    hide Do, Right, Throttle, Since;
    if i < j {
      var s, e := After(clock, run[..j - 1]), run[j - 1];
      assert run[..j][..j - 1] == run[..j - 1];
      ClockMoves(s, e);
      if i < j - 1 { Monotone(clock, run, i + 1, j - 1); }
      SendsRun(clock, run, i, j - 1, key, start);
      assert !RightAt(clock, run, j - 1, key);
      SinceStep(s.store, e.call, s.clock + e.wait, key, start);
      StoreAfter(s, e);
    }
  }

  /** With no right guess, any hour sees at most ten codes. */
  lemma {:induction false} AtMostTenCodes(clock: int, run: seq<Event>, i: nat, j: nat, key: Key)
    requires i < j <= |run|
    requires After(clock, run[..j]).clock < After(clock, run[..i + 1]).clock + HOUR_MS
    requires forall k :: i <= k < j ==> !RightAt(clock, run, k, key)
    ensures Sends(clock, run, i, j, key) <= 10
  {
    hide Do, RightAt;
    var start := After(clock, run[..i + 1]).clock;
    SendsRun(clock, run, i, j, key, start);
    InvRuns(clock, run[..j]);
    var s := After(clock, run[..j]).store;
    assert Counted(s, key);
    SinceBounded(IssuedTo(s, key), start);
  }

  /** The last code was sent at `at` or later. */
  predicate SentSince(s: Store, key: Key, at: int) {
    var times := IssuedTo(s, key);
    times != [] && times[|times| - 1] >= at
  }

  lemma {:induction false} LastIsRecent(times: seq<int>, now: int)
    requires times != [] && now - times[|times| - 1] < HOUR_MS
    ensures var r := Recent(times, now); r != [] && r[|r| - 1] == times[|times| - 1]
  {
    if |times| > 1 {
      LastIsRecent(times[1..], now);
    }
  }

  lemma SentSinceStep(s: Store, call: Call, now: int, key: Key, at: int)
    requires SentSince(s, key, at) && at <= now && (call.Find? && call.key == key ==> !Right(s, key, call.code, now))
    ensures SentSince(Effect(s, call, now), key, at)
    ensures call.Issue? && call.key == key && Throttle(s, key, now).None? ==> now >= at + 30_000
  {
    hide Recent, Right;
    var times := IssuedTo(s, key);
    if now - times[|times| - 1] < HOUR_MS { LastIsRecent(times, now); }
  }

  lemma {:induction false} SentSinceRuns(clock: int, run: seq<Event>, i: nat, j: nat, key: Key)
    requires i < j <= |run| && SendsAt(clock, run, i, key)
    requires forall k :: i < k < j ==> !RightAt(clock, run, k, key)
    ensures SentSince(After(clock, run[..j]).store, key, After(clock, run[..i + 1]).clock)
    decreases j
  {
    hide Do, Right, Effect, SentSince, Throttle;
    var s, e := After(clock, run[..j - 1]), run[j - 1];
    assert run[..j][..j - 1] == run[..j - 1];
    ClockMoves(s, e);
    StoreAfter(s, e);
    if i == j - 1 {
      JustSent(s.store, e.call, s.clock + e.wait);
    } else {
      SentSinceRuns(clock, run, i, j - 1, key);
      Monotone(clock, run, i + 1, j - 1);
      assert !RightAt(clock, run, j - 1, key);
      SentSinceStep(s.store, e.call, s.clock + e.wait, key, After(clock, run[..i + 1]).clock);
    }
  }

  lemma JustSent(s: Store, call: Call, now: int)
    requires call.Issue? && Throttle(s, call.key, now).None?
    ensures SentSince(Effect(s, call, now), call.key, now)
  {
  }

  /** With no right guess in between, two codes are sent at least half a minute apart. */
  lemma {:induction false} CodesApart(clock: int, run: seq<Event>, i: nat, j: nat, key: Key)
    requires i < j < |run| && SendsAt(clock, run, i, key) && SendsAt(clock, run, j, key)
    requires forall k :: i < k < j ==> !RightAt(clock, run, k, key)
    ensures After(clock, run[..j + 1]).clock >= After(clock, run[..i + 1]).clock + 30_000
  {
    hide Do, Right, Effect, SentSince, Throttle, RightAt;
    SentSinceRuns(clock, run, i, j, key);
    Monotone(clock, run, i + 1, j + 1);
    var s, e := After(clock, run[..j]), run[j];
    assert run[..j + 1][..j] == run[..j];
    ClockMoves(s, e);
    SentSinceStep(s.store, e.call, s.clock + e.wait, key, After(clock, run[..i + 1]).clock);
  }

  // ── How long to wait ──────────────────────────────────────────────────────

  predicate Ascending(times: seq<int>) {
    forall i, j :: 0 <= i < j < |times| ==> times[i] <= times[j]
  }

  /** The times of a key's codes are in order and not after `now`. */
  predicate Ordered(s: Store, key: Key, now: int) {
    Ascending(IssuedTo(s, key)) && forall t :: t in IssuedTo(s, key) ==> t <= now
  }

  lemma {:induction false} RecentAscends(times: seq<int>, now: int)
    requires Ascending(times)
    ensures Ascending(Recent(times, now))
  {
    if times != [] {
      RecentAscends(times[1..], now);
      var rest := Recent(times[1..], now);
      forall k | 0 <= k < |rest| ensures times[0] <= rest[k] {
        assert rest[k] in rest;
        assert rest[k] in times[1..];
      }
    }
  }

  lemma NothingAscends()
    ensures Ascending([])
  {
  }

  lemma RecentOrdered(times: seq<int>, now: int)
    requires Ascending(times) && forall t :: t in times ==> t <= now
    ensures Ascending(Recent(times, now) + [now]) && forall t :: t in Recent(times, now) + [now] ==> t <= now
  {
    RecentAscends(times, now);
    var r := Recent(times, now);
    forall i | 0 <= i < |r| ensures r[i] <= now {
      assert r[i] in r;
      assert r[i] in times;
    }
  }

  lemma OrderedStep(s: Store, call: Call, clock: int, now: int, key: Key)
    requires Ordered(s, key, clock) && clock <= now
    ensures Ordered(Effect(s, call, now), key, now)
  {
    hide Recent, Right, Ascending, Throttle, Voided;
    NothingAscends();
    if call.Issue? && call.key == key { RecentOrdered(IssuedTo(s, key), now); }
  }

  lemma {:induction false} OrderedRuns(clock: int, run: seq<Event>, key: Key)
    ensures Ordered(After(clock, run).store, key, After(clock, run).clock)
  {
    hide Effect, Ordered;
    if run == [] {
      assert Ordered(After(clock, run).store, key, clock) by { OrderedAtFirst(clock, key); }
    } else {
      var s, e := After(clock, run[..|run| - 1]), run[|run| - 1];
      OrderedRuns(clock, run[..|run| - 1], key);
      OrderedStep(s.store, e.call, s.clock, s.clock + e.wait, key);
    }
  }

  lemma OrderedAtFirst(clock: int, key: Key)
    ensures Ordered(Store(map[], 0, map[], map[]), key, clock)
  {
  }

  /** Another code must wait: one was sent in the last half minute, or ten in the hour. */
  predicate TooSoon(times: seq<int>, now: int) {
    times != [] && (now - times[|times| - 1] < 30_000 || TenInTheHour(times, now))
  }

  predicate TenInTheHour(times: seq<int>, now: int) {
    |times| == 10 && now - times[0] < 3_600_000
  }

  lemma HasMember(times: seq<int>)
    ensures times == [] || exists t :: t in times
  {
    if times != [] {
      var t := times[0];
      assert t in times;
    }
  }

  lemma RecentEnds(times: seq<int>, now: int)
    requires Ascending(times) && times != []
    ensures if now - times[0] < HOUR_MS then Recent(times, now) == times else |Recent(times, now)| < |times|
    ensures now - times[|times| - 1] >= HOUR_MS ==> Recent(times, now) == []
    ensures now - times[|times| - 1] < HOUR_MS ==>
              var r := Recent(times, now); r != [] && r[|r| - 1] == times[|times| - 1]
  {
    if now - times[0] < HOUR_MS { AllRecent(times, now); } else { RecentShorter(times[1..], now); }
    if now - times[|times| - 1] < HOUR_MS {
      LastIsRecent(times, now);
    } else {
      HasMember(Recent(times, now));
    }
  }

  lemma ThrottledExactly(s: Store, key: Key, now: int)
    requires Ascending(IssuedTo(s, key)) && |IssuedTo(s, key)| <= MAX_ISSUES
    ensures Throttle(s, key, now).Some? <==> TooSoon(IssuedTo(s, key), now)
    ensures TooSoon(IssuedTo(s, key), now) ==>
              var times := IssuedTo(s, key);
              var until := if now - times[|times| - 1] < 30_000 then times[|times| - 1] + 30_000 else times[0] + 3_600_000;
              Throttle(s, key, now) == Some(CeilDiv(until - now, 1000))
  {
    hide Recent;
    var times := IssuedTo(s, key);
    if times == [] { NoneRecent(now); } else { RecentEnds(times, now); }
  }

  lemma NoneRecent(now: int)
    ensures Recent([], now) == []
  {
  }

  /** After any run, a request that is refused is told to wait until it could be accepted:
      any full second earlier it would be refused again, and then it is accepted exactly
      unless ten codes were sent within the hour before. */
  lemma {:induction false} RetryAfterExactly(clock: int, run: seq<Event>, key: Key, wait: nat)
    ensures var s, now := After(clock, run).store, After(clock, run).clock + wait;
            var times := IssuedTo(s, key);
            match Throttle(s, key, now)
            case None => !TooSoon(times, now)
            case Some(sec) =>
              && TooSoon(times, now) && sec >= 1
              && (forall w: int :: 0 <= w < sec ==> TooSoon(times, now + w * 1000))
              && (Throttle(s, key, now + sec * 1000).None? <==> !TenInTheHour(times, now + sec * 1000))
  {
    hide After, Throttle;
    var s, now := After(clock, run).store, After(clock, run).clock + wait;
    InvRuns(clock, run);
    assert Counted(s, key);
    OrderedRuns(clock, run, key);
    ThrottledExactly(s, key, now);
    if Throttle(s, key, now).Some? {
      ThrottledExactly(s, key, now + Throttle(s, key, now).value * 1000);
    }
  }

  // ── The bound is reached ──────────────────────────────────────────────────

  const KEY := Key(1, "login")

  /** Only codes other than the guess "0" were issued. */
  ghost predicate OtherCodes(s: Store) {
    forall id :: id in s.rows ==> s.rows[id].code != "0"
  }

  /** ... and no guess was right so far. */
  ghost predicate Guessing(run: seq<Event>) {
    OtherCodes(After(0, run).store) && forall k: nat :: k < |run| ==> !RightAt(0, run, k, KEY)
  }

  /** Calls before the last one count as they did without it. */
  lemma {:induction false} SamePrefix(run: seq<Event>, e: Event, j: nat)
    requires j <= |run|
    ensures WrongGuesses(0, run + [e], 0, j, KEY) == WrongGuesses(0, run, 0, j, KEY)
    decreases j
  {
    hide After, WrongGuess;
    if j > 0 {
      SamePrefix(run, e, j - 1);
      assert (run + [e])[..j - 1] == run[..j - 1];
    }
  }

  lemma OtherCodesStay(s: Store, call: Call, now: int)
    requires OtherCodes(s) && (call.Issue? ==> call.code != "0")
    ensures OtherCodes(Effect(s, call, now))
    ensures !Right(s, KEY, "0", now)
  {
    hide Throttle;
  }

  predicate Guess(e: Event) { e.call == Find(KEY, "0") }

  lemma LastCall(run: seq<Event>, e: Event)
    ensures After(0, run + [e]) == Do(After(0, run), e)
    ensures var s := After(0, run);
      && (RightAt(0, run + [e], |run|, KEY) <==>
            e.call.Find? && e.call.key == KEY && Right(s.store, KEY, e.call.code, s.clock + e.wait))
      && (WrongAt(0, run + [e], |run|, KEY) <==>
            e.call.Find? && e.call.key == KEY && WrongGuess(s.store, KEY, e.call.code, s.clock + e.wait))
  {
    hide Do, Right, WrongGuess;
    assert (run + [e])[..|run|] == run;
  }

  lemma EarlierCall(run: seq<Event>, e: Event, k: nat)
    requires k < |run|
    ensures RightAt(0, run + [e], k, KEY) <==> RightAt(0, run, k, KEY)
  {
    hide After, Right;
    assert (run + [e])[..k] == run[..k];
  }

  lemma OneCall(run: seq<Event>, e: Event)
    requires Guessing(run) && (Guess(e) || (e.call.Issue? && e.call.code != "0"))
    ensures After(0, run + [e]) == Do(After(0, run), e) && Guessing(run + [e])
    ensures WrongGuesses(0, run + [e], 0, |run| + 1, KEY)
              == WrongGuesses(0, run, 0, |run|, KEY)
                 + if Guess(e) && Failures(After(0, run).store, KEY) < MAX_FAILURES then 1 else 0
  {
    hide Right, OtherCodes, After, Effect, Do, RightAt, WrongAt;
    var run', s := run + [e], After(0, run);
    LastCall(run, e);
    OtherCodesStay(s.store, e.call, s.clock + e.wait);
    StoreAfter(s, e);
    forall k: nat | k < |run'| ensures !RightAt(0, run', k, KEY) {
      if k < |run| { EarlierCall(run, e, k); }
    }
    SamePrefix(run, e, |run|);
  }

  /** Five wrong guesses at once. */
  lemma FiveGuesses(run: seq<Event>) returns (run': seq<Event>)
    requires Guessing(run) && Failures(After(0, run).store, KEY) == 0
    ensures Guessing(run') && |run'| == |run| + 5 && run <= run'
    ensures After(0, run').clock == After(0, run).clock
    ensures After(0, run').store.issued == After(0, run).store.issued
    ensures WrongGuesses(0, run', 0, |run'|, KEY) == WrongGuesses(0, run, 0, |run|, KEY) + 5
  {
    hide After, WrongGuesses, Guessing;
    run' := run;
    var n := 0;
    while n < 5
      invariant 0 <= n <= 5 && Guessing(run') && |run'| == |run| + n && run <= run'
      invariant Failures(After(0, run').store, KEY) == n
      invariant After(0, run').clock == After(0, run).clock
      invariant After(0, run').store.issued == After(0, run).store.issued
      invariant WrongGuesses(0, run', 0, |run'|, KEY) == WrongGuesses(0, run, 0, |run|, KEY) + n
    {
      var e := Event(0, Find(KEY, "0"));
      OneCall(run', e);
      NotRight(run', n);
      run' := run' + [e];
      n := n + 1;
    }
  }

  lemma NotRight(run: seq<Event>, n: nat)
    requires Guessing(run) && Failures(After(0, run).store, KEY) == n < MAX_FAILURES
    ensures var s, t := After(0, run), Do(After(0, run), Event(0, Find(KEY, "0")));
            Failures(t.store, KEY) == n + 1 && t.clock == s.clock && t.store.issued == s.store.issued
  {
    hide Right, OtherCodes, After, FindEffect;
    var s := After(0, run);
    OtherCodesStay(s.store, Clean, s.clock);
    WrongEffect(s.store, s.clock);
  }

  lemma WrongEffect(s: Store, now: int)
    requires WrongGuess(s, KEY, "0", now)
    ensures var t := FindEffect(s, KEY, "0", now);
            Failures(t, KEY) == Failures(s, KEY) + 1 && t.issued == s.issued
  {
    hide Right;
  }

  /** Half a minute later a new code. */
  lemma NewCode(run: seq<Event>, n: nat) returns (run': seq<Event>)
    requires Guessing(run) && n < MAX_ISSUES && After(0, run).clock == n * MIN_GAP_MS
    requires IssuedTo(After(0, run).store, KEY) == seq(n, i => (i + 1) * MIN_GAP_MS)
    ensures Guessing(run') && |run'| == |run| + 1 && run <= run' && Failures(After(0, run').store, KEY) == 0
    ensures After(0, run').clock == (n + 1) * MIN_GAP_MS
    ensures IssuedTo(After(0, run').store, KEY) == seq(n + 1, i => (i + 1) * MIN_GAP_MS)
    ensures WrongGuesses(0, run', 0, |run'|, KEY) == WrongGuesses(0, run, 0, |run|, KEY)
  {
    hide After, WrongGuesses, Guessing;
    var e := Event(MIN_GAP_MS, Issue(KEY, "1"));
    OneCall(run, e);
    run' := run + [e];
    var s, times := After(0, run), seq(n, i => (i + 1) * MIN_GAP_MS);
    AllRecent(times, (n + 1) * MIN_GAP_MS);
    assert seq(n + 1, i => (i + 1) * MIN_GAP_MS) == times + [(n + 1) * MIN_GAP_MS];
  }

  lemma {:induction false} AllRecent(times: seq<int>, now: int)
    requires forall i :: 0 <= i < |times| ==> now - times[i] < HOUR_MS
    ensures Recent(times, now) == times
  {
    if times != [] { AllRecent(times[1..], now); }
  }

  /** Five guesses without a code, then ten codes with five guesses each, within five
      minutes: the bound of 55 is reached. */
  lemma FiftyFiveAreReached() returns (run: seq<Event>)
    ensures |run| == 65 && After(0, run).clock < After(0, run[..1]).clock + HOUR_MS
    ensures forall k: nat :: k < |run| ==> !RightAt(0, run, k, KEY)
    ensures WrongGuesses(0, run, 0, |run|, KEY) == 55
  {
    hide WrongGuesses, Do, RightAt;
    StartGuessing();
    run := FiveGuesses([]);
    var n := 0;
    while n < MAX_ISSUES
      invariant 0 <= n <= MAX_ISSUES && Guessing(run) && |run| == 5 + 6 * n
      invariant After(0, run).clock == n * MIN_GAP_MS
      invariant IssuedTo(After(0, run).store, KEY) == seq(n, i => (i + 1) * MIN_GAP_MS)
      invariant WrongGuesses(0, run, 0, |run|, KEY) == 5 + 5 * n
    {
      hide After, Guessing;
      run := NewCode(run, n);
      run := FiveGuesses(run);
      n := n + 1;
    }
    Monotone(0, run, 0, 1);
    assert run[..0] == [];
  }

  lemma StartGuessing()
    ensures Guessing([]) && After(0, []).clock == 0 && Failures(After(0, []).store, KEY) == 0
    ensures IssuedTo(After(0, []).store, KEY) == [] && WrongGuesses(0, [], 0, 0, KEY) == 0
  {
  }
}
