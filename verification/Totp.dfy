/** Authenticator codes (RFC 6238) and their replay protection (section 5.2 of RFC 6238).

    HOTP is an unknown function of the secret's bytes and the time step. A request reads
    the user's row, later verifies its code against what it read, and then writes; other
    requests may write in between.
 */
module Totp {
  import opened Wrappers
  import opened Base32
  import opened JsStrings

  const STEP_MS := 30_000

  type Hotp = (seq<Byte>, int) -> string

  predicate SixDigits(s: string) {
    |s| == 6 && forall c :: c in s ==> '0' <= c <= '9'
  }

  function CurrentStep(nowMs: int): int { nowMs / STEP_MS }

  predicate Matches(hotp: Hotp, secret: string, digits: string, lastStep: Option<int>, step: int) {
    (lastStep.Some? ==> step > lastStep.value) && hotp(Decoded(secret), step) == digits
  }

  /** The first step from `step` to `last` that matches. */
  function FirstMatch(hotp: Hotp, secret: string, digits: string, lastStep: Option<int>, step: int, last: int): (r: Option<int>)
    ensures r.Some? ==> step <= r.value <= last && Matches(hotp, secret, digits, lastStep, r.value)
    ensures forall t :: step <= t <= last && (r.Some? ==> t < r.value) ==> !Matches(hotp, secret, digits, lastStep, t)
    decreases last - step
  {
    if step > last then None
    else if Matches(hotp, secret, digits, lastStep, step) then Some(step)
    else FirstMatch(hotp, secret, digits, lastStep, step + 1, last)
  }

  /** The time steps for which a code is accepted: one before the clock's to one after. */
  predicate InWindow(step: int, nowMs: int) {
    nowMs / 30_000 - 1 <= step <= nowMs / 30_000 + 1
  }

  /** The typed six digits are the code of the earliest step in the window that is not used
      up and has this code. */
  ghost predicate IsFirstMatch(hotp: Hotp, secret: string, code: string, lastStep: Option<int>, nowMs: int, step: int) {
    && SixDigits(WithoutSpaces(code)) && hotp(Decoded(secret), step) == WithoutSpaces(code)
    && InWindow(step, nowMs) && (lastStep.Some? ==> lastStep.value < step)
    && (forall t :: InWindow(t, nowMs) && t < step && (lastStep.Some? ==> lastStep.value < t)
          ==> hotp(Decoded(secret), t) != WithoutSpaces(code))
  }

  function Verified(hotp: Hotp, secret: string, code: string, lastStep: Option<int>, nowMs: int): (r: Option<int>)
    ensures r.Some? ==> IsFirstMatch(hotp, secret, code, lastStep, nowMs, r.value)
  {
    var digits, now := WithoutSpaces(code), CurrentStep(nowMs);
    if !SixDigits(digits) then None
    else
      var r := FirstMatch(hotp, secret, digits, lastStep, now - 1, now + 1);
      assert forall t :: InWindow(t, nowMs) && (r.Some? ==> t < r.value) ==> !Matches(hotp, secret, digits, lastStep, t);
      r
  }

  /** A code is accepted, for a step, exactly if it is that step's and no earlier one's. */
  lemma VerifiedExactly(hotp: Hotp, secret: string, code: string, lastStep: Option<int>, nowMs: int, step: int)
    ensures Verified(hotp, secret, code, lastStep, nowMs) == Some(step)
            <==> IsFirstMatch(hotp, secret, code, lastStep, nowMs, step)
    ensures Verified(hotp, secret, code, lastStep, nowMs).None? && SixDigits(WithoutSpaces(code)) ==>
              !(InWindow(step, nowMs) && (lastStep.Some? ==> lastStep.value < step)
                && hotp(Decoded(secret), step) == WithoutSpaces(code))
  {
    hide Decoded, WithoutSpaces, SixDigits;
    var r := Verified(hotp, secret, code, lastStep, nowMs);
    if SixDigits(WithoutSpaces(code)) && r.None? {
      assert InWindow(step, nowMs) ==> !Matches(hotp, secret, WithoutSpaces(code), lastStep, step);
    }
    if IsFirstMatch(hotp, secret, code, lastStep, nowMs, step) {
      assert Matches(hotp, secret, WithoutSpaces(code), lastStep, step);
    }
  }

  /** White space in what was typed makes no difference. */
  lemma SpacesIgnored(hotp: Hotp, secret: string, a: string, c: char, b: string, lastStep: Option<int>, nowMs: int)
    requires IsSpace(c)
    ensures Verified(hotp, secret, a + [c] + b, lastStep, nowMs) == Verified(hotp, secret, a + b, lastStep, nowMs)
  {
    hide IsSpace, Decoded, SixDigits;
    SpaceStripped(a, c, b);
  }

  /** The earliest unused step within one of the clock whose code was typed, if any. */
  method VerifyTotp(hotp: Hotp, secret: string, code: string, lastStep: Option<int>, nowMs: int) returns (r: Option<int>)
    ensures r == Verified(hotp, secret, code, lastStep, nowMs)
    ensures r.Some? ==> IsFirstMatch(hotp, secret, code, lastStep, nowMs, r.value)
    ensures r.None? && SixDigits(WithoutSpaces(code)) ==>
              forall t :: InWindow(t, nowMs) && (lastStep.Some? ==> lastStep.value < t)
                          ==> hotp(Decoded(secret), t) != WithoutSpaces(code)
  {
    hide Decoded, WithoutSpaces, SixDigits, IsFirstMatch;
    forall step { VerifiedExactly(hotp, secret, code, lastStep, nowMs, step); }
    var digits := WithoutSpaces(code);
    if !SixDigits(digits) {
      return None;
    }
    var bytes := Base32Decode(secret);
    var now := CurrentStep(nowMs);
    for d := -1 to 2
      invariant FirstMatch(hotp, secret, digits, lastStep, now - 1, now + 1)
             == FirstMatch(hotp, secret, digits, lastStep, now + d, now + 1)
    {
      var step := now + d;
      if lastStep.Some? && step <= lastStep.value {
        continue;
      }
      if hotp(bytes, step) == digits {
        return Some(step);
      }
    }
    r := None;
  }

  // ── Requests that race on one user's row ──────────────────────────────────

  datatype Row = Row(secret: Option<string>, pending: Option<string>, lastStep: Option<int>)

  datatype Accepted = Accepted(step: int, at: int)

  /** `log`: the codes accepted since the present enrolment began (or ended). */
  datatype State = State(row: Row, seen: map<nat, Row>, log: seq<Accepted>)

  datatype Action =
    | Setup(secret: string)                      // a new pending secret
    | Read(request: nat)                         // SELECT of the user's row
    | Claim(request: nat, code: string, at: int) // checkUserTotp's verification and guarded UPDATE
    | Enable(request: nat, code: string, at: int)
    | Disable(request: nat)

  /** `late`: an enable request may write although another one has written since it read. */
  function Do(hotp: Hotp, late: bool, s: State, a: Action): State {
    match a
    case Setup(secret) => s.(row := s.row.(pending := Some(secret)))
    case Read(q) => s.(seen := s.seen[q := s.row])
    case Claim(q, code, at) =>
      if q !in s.seen || s.seen[q].secret.None? then s
      else (match Verified(hotp, s.seen[q].secret.value, code, s.seen[q].lastStep, at)
            case None => s
            case Some(step) => Claimed(s, step, at))
    case Enable(q, code, at) =>
      if q !in s.seen || s.seen[q].secret.Some? || s.seen[q].pending.None? then s
      else if !late && s.row.secret.Some? then s
      else (match Verified(hotp, s.seen[q].pending.value, code, None, at)
            case None => s
            case Some(step) => Enabled(s, s.seen[q].pending, step, at))
    case Disable(q) =>
      if q !in s.seen || s.seen[q].secret.None? then s
      else s.(row := Row(None, None, None), log := [])
  }

  /** `UPDATE … WHERE totp_last_step IS NULL OR totp_last_step < step` */
  function Claimed(s: State, step: int, at: int): State {
    if s.row.lastStep.None? || s.row.lastStep.value < step
    then s.(row := s.row.(lastStep := Some(step)), log := s.log + [Accepted(step, at)])
    else s
  }

  /** The enable request's unguarded UPDATE. */
  function Enabled(s: State, secret: Option<string>, step: int, at: int): State {
    State(Row(secret, None, Some(step)), s.seen,
          (if s.row.secret == secret then s.log else []) + [Accepted(step, at)])
  }

  function After(hotp: Hotp, late: bool, s: State, run: seq<Action>): State
    decreases |run|
  {
    if run == [] then s
    else Do(hotp, late, After(hotp, late, s, run[..|run| - 1]), run[|run| - 1])
  }

  /** The users table, one row of it. `user` is the row as the request read it earlier. */
  class UserTable {
    var row: Row

    method CheckUserTotp(hotp: Hotp, user: Row, code: string, nowMs: int) returns (ok: bool)
      modifies this
      ensures forall s: State, q: nat, late: bool :: s.row == old(row) && q in s.seen && s.seen[q] == user ==>
                var t := Do(hotp, late, s, Claim(q, code, nowMs));
                t.row == row && (ok <==> |t.log| == |s.log| + 1)
      ensures ok ==>
                && user.secret.Some? && row.lastStep.Some?
                && IsFirstMatch(hotp, user.secret.value, code, user.lastStep, nowMs, row.lastStep.value)
                && (old(row.lastStep).Some? ==> old(row.lastStep).value < row.lastStep.value)
      ensures row == if ok then old(row).(lastStep := row.lastStep) else old(row)
      ensures !ok && user.secret.Some? && SixDigits(WithoutSpaces(code)) ==>
                forall step :: IsFirstMatch(hotp, user.secret.value, code, user.lastStep, nowMs, step)
                               ==> old(row.lastStep).Some? && step <= old(row.lastStep).value
    {
      hide IsFirstMatch, Decoded, WithoutSpaces, SixDigits;
      if user.secret.None? {
        return false;
      }
      forall step { VerifiedExactly(hotp, user.secret.value, code, user.lastStep, nowMs, step); }
      var step := VerifyTotp(hotp, user.secret.value, code, user.lastStep, nowMs);
      if step.None? {
        return false;
      }
      ok := row.lastStep.None? || row.lastStep.value < step.value;
      if ok {
        row := row.(lastStep := step);
      }
    }
  }

  predicate Increasing(log: seq<Accepted>) {
    forall i, j :: 0 <= i < j < |log| ==> log[i].step < log[j].step
  }

  predicate NearClock(log: seq<Accepted>) {
    forall i :: 0 <= i < |log| ==> CurrentStep(log[i].at) - 1 <= log[i].step <= CurrentStep(log[i].at) + 1
  }

  predicate Inv(s: State) {
    && Increasing(s.log) && NearClock(s.log)
    && (s.log != [] ==> s.row.lastStep == Some(s.log[|s.log| - 1].step))
  }

  lemma InvStep(hotp: Hotp, s: State, a: Action)
    requires Inv(s)
    ensures Inv(Do(hotp, false, s, a))
  {
    hide Decoded, WithoutSpaces, SixDigits, FirstMatch;
  }

  lemma {:induction false} InvRuns(hotp: Hotp, s: State, run: seq<Action>)
    requires Inv(s)
    ensures Inv(After(hotp, false, s, run))
    decreases |run|
  {
    hide Inv, Do;
    if run != [] {
      InvRuns(hotp, s, run[..|run| - 1]);
      InvStep(hotp, After(hotp, false, s, run[..|run| - 1]), run[|run| - 1]);
    }
  }

  /** While an enrolment lasts, accepted steps strictly increase, so no code is accepted
      twice, and each lies within one step of the clock that was read. */
  lemma StepsIncrease(hotp: Hotp, row: Row, run: seq<Action>)
    ensures Increasing(After(hotp, false, State(row, map[], []), run).log)
    ensures NearClock(After(hotp, false, State(row, map[], []), run).log)
  {
    InvRuns(hotp, State(row, map[], []), run);
  }

  // ── A late enable ─────────────────────────────────────────────────────────

  function Repeated(c: char): string { [c, c, c, c, c, c] }

  /** Any function will do for HOTP; this one is easy to follow. */
  function LastDigit(secret: seq<Byte>, step: int): string {
    Repeated(('0' as int + step % 10) as char)
  }

  const OFF := Row(None, Some("SECRET"), None)

  /** Two enable requests read the row while the second factor is off. The second one
      writes after a code was accepted and puts the step counter back, so the same code
      is accepted again. */
  const REPLAY := [
    Read(0), Read(1), Enable(0, Repeated('0'), 300_000), Read(2), Claim(2, Repeated('1'), 330_000),
    Enable(1, Repeated('0'), 330_000), Read(3), Claim(3, Repeated('1'), 330_000)]

  /** A code of LastDigit is read as the one step near the clock that ends in its digit. */
  lemma DigitRead(d: nat, lastStep: Option<int>, at: int, step: int)
    requires d == step % 10 && CurrentStep(at) - 1 <= step <= CurrentStep(at) + 1
    requires lastStep.Some? ==> lastStep.value < step
    ensures Verified(LastDigit, "SECRET", Repeated(('0' as int + d) as char), lastStep, at) == Some(step)
  {
    hide Decoded, WithoutSpaces, FirstMatch;
    var code := Repeated(('0' as int + d) as char);
    NothingToStrip(code);
    var r := FirstMatch(LastDigit, "SECRET", code, lastStep, CurrentStep(at) - 1, CurrentStep(at) + 1);
    assert Matches(LastDigit, "SECRET", code, lastStep, step);
    var bytes := Decoded("SECRET");
    assert r.Some?;
    assert LastDigit(bytes, r.value)[0] == code[0];
    assert r.value % 10 == step % 10;
  }

  /** Step 10's code is read as step 10 and step 11's as step 11, at either instant. */
  lemma CodesRead(at: int)
    requires at in {300_000, 330_000}
    ensures Verified(LastDigit, "SECRET", Repeated('0'), None, at) == Some(10)
    ensures at == 330_000 ==> Verified(LastDigit, "SECRET", Repeated('1'), Some(10), at) == Some(11)
  {
    hide Verified;
    DigitRead(0, None, at, 10);
    if at == 330_000 { DigitRead(1, Some(10), at, 11); }
  }

  lemma Then(hotp: Hotp, late: bool, s: State, run: seq<Action>, a: Action)
    ensures After(hotp, late, s, run + [a]) == Do(hotp, late, After(hotp, late, s, run), a)
  {
    assert (run + [a])[..|run|] == run;
  }

  lemma FirstHalf()
    ensures var s := After(LastDigit, true, State(OFF, map[], []), REPLAY[..5]);
            && s.row == Row(Some("SECRET"), None, Some(11)) && 1 in s.seen && s.seen[1] == OFF
            && s.log == [Accepted(10, 300_000), Accepted(11, 330_000)]
  {
    hide Verified, IsFirstMatch;
    CodesRead(300_000);
    CodesRead(330_000);
    var s := State(OFF, map[], []);
    forall n: nat | n < 5 ensures After(LastDigit, true, s, REPLAY[..n + 1])
                               == Do(LastDigit, true, After(LastDigit, true, s, REPLAY[..n]), REPLAY[n]) {
      assert REPLAY[..n + 1] == REPLAY[..n] + [REPLAY[n]];
    }
    var on := Row(Some("SECRET"), None, Some(10));
    assert After(LastDigit, true, s, REPLAY[..0]) == s;
    assert After(LastDigit, true, s, REPLAY[..1]).seen == map[0 := OFF];
    assert After(LastDigit, true, s, REPLAY[..2]).seen == map[0 := OFF, 1 := OFF];
    assert After(LastDigit, true, s, REPLAY[..3]).row == on;
    assert After(LastDigit, true, s, REPLAY[..4]).seen[2] == on;
  }

  lemma LateEnableReplays()
    ensures After(LastDigit, true, State(OFF, map[], []), REPLAY).log
         == [Accepted(10, 300_000), Accepted(11, 330_000), Accepted(10, 330_000), Accepted(11, 330_000)]
  {
    hide Verified, IsFirstMatch;
    CodesRead(330_000);
    FirstHalf();
    var s := State(OFF, map[], []);
    forall n: nat | 5 <= n < 8 ensures After(LastDigit, true, s, REPLAY[..n + 1])
                                    == Do(LastDigit, true, After(LastDigit, true, s, REPLAY[..n]), REPLAY[n]) {
      assert REPLAY[..n + 1] == REPLAY[..n] + [REPLAY[n]];
    }
    assert REPLAY[..8] == REPLAY;
    assert After(LastDigit, true, s, REPLAY[..6]).row == Row(Some("SECRET"), None, Some(10));
    assert After(LastDigit, true, s, REPLAY[..7]).seen[3] == Row(Some("SECRET"), None, Some(10));
  }

  /** Replay protection holds over every run exactly when no enable request writes late. */
  lemma NoReplayExactlyWithoutLateEnables(late: bool)
    ensures (forall hotp: Hotp, row: Row, run: seq<Action> ::
               Increasing(After(hotp, late, State(row, map[], []), run).log)) <==> !late
  {
    if late {
      LateEnableReplays();
      var log := After(LastDigit, late, State(OFF, map[], []), REPLAY).log;
      assert log[1].step > log[2].step;
      assert !Increasing(log);
    } else {
      forall hotp: Hotp, row: Row, run: seq<Action>
        ensures Increasing(After(hotp, late, State(row, map[], []), run).log)
      {
        StepsIncrease(hotp, row, run);
      }
    }
  }
}
