/** The challenge between a Google sign-in and its second factor: a signed token that
    lives five minutes, and an in-memory count of the attempts made with it, which is
    pruned as it goes. */
module LoginChallenge {
  const MAX_ATTEMPTS := 5
  const LIFE_MS := 300_000

  type Jti = nat

  /** What a signed token says; its issue time is kept in whole seconds. */
  datatype Token = Token(userId: nat, issuedAt: int)

  datatype Attempt = Attempt(count: int, expiresAt: int)

  datatype Answer = BadToken | TooMany | Granted(userId: nat)

  /** The tokens the server has signed or will sign. */
  type Signed = map<Jti, Token>

  /** `jwt.verify`: the token was signed, and the clock's second is before its expiry. */
  predicate Live(signed: Signed, jti: Jti, now: int) {
    jti in signed && signed[jti].issuedAt <= now && now / 1000 < signed[jti].issuedAt / 1000 + LIFE_MS / 1000
  }

  /** A token lives from its issue to its last full second before five minutes are over. */
  lemma LivesFiveMinutes(signed: Signed, jti: Jti, now: int)
    requires jti in signed
    ensures signed[jti].issuedAt <= now <= signed[jti].issuedAt + 299_000 ==> Live(signed, jti, now)
    ensures Live(signed, jti, now) ==> signed[jti].issuedAt <= now < signed[jti].issuedAt + 300_000
  {
  }

  function Pruned(attempts: map<Jti, Attempt>, now: int): map<Jti, Attempt> {
    map k | k in attempts && attempts[k].expiresAt >= now :: attempts[k]
  }

  function Entry(attempts: map<Jti, Attempt>, jti: Jti, now: int): Attempt {
    if jti in attempts then attempts[jti] else Attempt(0, now + LIFE_MS)
  }

  function ReadAnswer(signed: Signed, attempts: map<Jti, Attempt>, jti: Jti, now: int): Answer {
    if !Live(signed, jti, now) then BadToken
    else if Entry(Pruned(attempts, now), jti, now).count >= MAX_ATTEMPTS then TooMany
    else Granted(signed[jti].userId)
  }

  function ReadEffect(signed: Signed, attempts: map<Jti, Attempt>, jti: Jti, now: int): map<Jti, Attempt> {
    var entry := Entry(Pruned(attempts, now), jti, now);
    match ReadAnswer(signed, attempts, jti, now)
    case BadToken => attempts
    case TooMany => Pruned(attempts, now)
    case Granted(_) => Pruned(attempts, now)[jti := Attempt(entry.count + 1, entry.expiresAt)]
  }

  function PeekAnswer(signed: Signed, attempts: map<Jti, Attempt>, jti: Jti, now: int): Answer {
    if !Live(signed, jti, now) then BadToken
    else if jti in attempts && attempts[jti].count >= MAX_ATTEMPTS then TooMany
    else Granted(signed[jti].userId)
  }

  function ConsumeEffect(attempts: map<Jti, Attempt>, jti: Jti, now: int): map<Jti, Attempt> {
    attempts[jti := Attempt(MAX_ATTEMPTS, now + LIFE_MS)]
  }

  class Challenges {
    const signed: Signed
    var attempts: map<Jti, Attempt>

    constructor (signed: Signed)
      ensures this.signed == signed && attempts == map[]
    {
      this.signed := signed;
      attempts := map[];
    }

    method ReadLoginChallenge(jti: Jti, now: int) returns (answer: Answer)
      modifies this
      ensures answer == ReadAnswer(signed, old(attempts), jti, now)
      ensures attempts == ReadEffect(signed, old(attempts), jti, now)
    {
      if !Live(signed, jti, now) {
        return BadToken;
      }
      var all := attempts;
      var keys := all.Keys;
      while keys != {}
        invariant keys <= all.Keys
        invariant attempts == map k | k in all && (k in keys || all[k].expiresAt >= now) :: all[k]
        decreases |keys|
      {
        var k :| k in keys;
        keys := keys - {k};
        if all[k].expiresAt < now {
          attempts := attempts - {k};
        }
      }
      assert attempts == Pruned(all, now);
      var entry := if jti in attempts then attempts[jti] else Attempt(0, now + LIFE_MS);
      if entry.count >= MAX_ATTEMPTS {
        return TooMany;
      }
      attempts := attempts[jti := entry.(count := entry.count + 1)];
      answer := Granted(signed[jti].userId);
    }

    method PeekLoginChallenge(jti: Jti, now: int) returns (answer: Answer)
      ensures answer == PeekAnswer(signed, attempts, jti, now)
    {
      if !Live(signed, jti, now) {
        return BadToken;
      }
      if jti in attempts && attempts[jti].count >= MAX_ATTEMPTS {
        return TooMany;
      }
      answer := Granted(signed[jti].userId);
    }

    method ConsumeLoginChallenge(jti: Jti, now: int)
      modifies this
      ensures attempts == ConsumeEffect(old(attempts), jti, now)
    {
      attempts := attempts[jti := Attempt(MAX_ATTEMPTS, now + LIFE_MS)];
    }
  }

  // ── Runs ──────────────────────────────────────────────────────────────────

  datatype Call = Read(jti: Jti) | Peek(jti: Jti) | Consume(jti: Jti)

  /** `wait`: how far the clock has moved on since the previous call. */
  datatype Event = Event(wait: nat, call: Call)

  /** `granted` counts the successful reads of each challenge; `consumed` holds the
      challenges that completed a sign-in. Neither is ever pruned. */
  datatype State = State(clock: int, attempts: map<Jti, Attempt>, granted: map<Jti, nat>, consumed: set<Jti>)

  function GrantedTo(s: State, jti: Jti): nat {
    if jti in s.granted then s.granted[jti] else 0
  }

  function Do(signed: Signed, s: State, e: Event): State {
    var now := s.clock + e.wait;
    match e.call
    case Read(jti) =>
      State(now, ReadEffect(signed, s.attempts, jti, now),
            if ReadAnswer(signed, s.attempts, jti, now).Granted? then s.granted[jti := GrantedTo(s, jti) + 1] else s.granted,
            s.consumed)
    case Peek(_) => s.(clock := now)
    case Consume(jti) =>
      // the caller got the jti from a token it was shown
      if jti !in signed || now < signed[jti].issuedAt then s.(clock := now)
      else State(now, ConsumeEffect(s.attempts, jti, now), s.granted, s.consumed + {jti})
  }

  function After(signed: Signed, clock: int, run: seq<Event>): State {
    if run == [] then State(clock, map[], map[], {})
    else Do(signed, After(signed, clock, run[..|run| - 1]), run[|run| - 1])
  }

  /** While a challenge's token lives, its record is there and cannot expire first. */
  predicate Remembered(signed: Signed, s: State, jti: Jti) {
    && GrantedTo(s, jti) <= MAX_ATTEMPTS
    && (Live(signed, jti, s.clock) && (GrantedTo(s, jti) > 0 || jti in s.consumed) ==>
          && jti in s.attempts
          && s.attempts[jti].expiresAt >= signed[jti].issuedAt + LIFE_MS
          && s.attempts[jti].count == if jti in s.consumed then MAX_ATTEMPTS else GrantedTo(s, jti))
    && (GrantedTo(s, jti) == 0 && jti !in s.consumed ==> jti !in s.attempts)
  }

  lemma LiveEarlier(signed: Signed, jti: Jti, clock: int, now: int)
    requires clock <= now && Live(signed, jti, now)
    ensures signed[jti].issuedAt <= clock ==> Live(signed, jti, clock)
    ensures now < signed[jti].issuedAt + LIFE_MS
  {
  }

  /** Nothing is granted or recorded before the token is issued. */
  predicate Issued(signed: Signed, s: State, jti: Jti) {
    GrantedTo(s, jti) > 0 || jti in s.consumed ==> jti in signed && signed[jti].issuedAt <= s.clock
  }

  lemma ReadKeeps(signed: Signed, s: State, wait: nat, read: Jti, jti: Jti)
    requires Remembered(signed, s, jti) && Issued(signed, s, jti)
    ensures Remembered(signed, Do(signed, s, Event(wait, Read(read))), jti)
    ensures Issued(signed, Do(signed, s, Event(wait, Read(read))), jti)
  {
    var now := s.clock + wait;
    if Live(signed, jti, now) { LiveEarlier(signed, jti, s.clock, now); }
  }

  lemma OtherKeeps(signed: Signed, s: State, e: Event, jti: Jti)
    requires !e.call.Read? && Remembered(signed, s, jti) && Issued(signed, s, jti)
    ensures Remembered(signed, Do(signed, s, e), jti) && Issued(signed, Do(signed, s, e), jti)
  {
    var now := s.clock + e.wait;
    if Live(signed, jti, now) { LiveEarlier(signed, jti, s.clock, now); }
  }

  lemma {:induction false} RememberedRuns(signed: Signed, clock: int, run: seq<Event>, jti: Jti)
    ensures Remembered(signed, After(signed, clock, run), jti) && Issued(signed, After(signed, clock, run), jti)
  {
    hide Do, Live, Remembered, Issued;
    if run == [] {
      RememberedAtFirst(signed, clock, jti);
    } else {
      RememberedRuns(signed, clock, run[..|run| - 1], jti);
      var s, e := After(signed, clock, run[..|run| - 1]), run[|run| - 1];
      if e.call.Read? { ReadKeeps(signed, s, e.wait, e.call.jti, jti); } else { OtherKeeps(signed, s, e, jti); }
    }
  }

  lemma RememberedAtFirst(signed: Signed, clock: int, jti: Jti)
    ensures Remembered(signed, State(clock, map[], map[], {}), jti)
    ensures Issued(signed, State(clock, map[], map[], {}), jti)
  {
  }

  /** However calls interleave and records are pruned, a live challenge is readable exactly
      while it has been granted fewer than five times and has not completed a sign-in. */
  lemma ReadableExactly(signed: Signed, clock: int, run: seq<Event>, jti: Jti, wait: nat)
    ensures var s := After(signed, clock, run);
            var now := s.clock + wait;
            var answer := if !Live(signed, jti, now) then BadToken
                          else if jti in s.consumed || GrantedTo(s, jti) == 5 then TooMany
                          else Granted(signed[jti].userId);
            && ReadAnswer(signed, s.attempts, jti, now) == answer
            && PeekAnswer(signed, s.attempts, jti, now) == answer
  {
    RememberedRuns(signed, clock, run, jti);
    var s := After(signed, clock, run);
    var now := s.clock + wait;
    if Live(signed, jti, now) { LiveEarlier(signed, jti, s.clock, now); }
  }

  /** At most five attempts over the life of a challenge. */
  lemma AtMostFiveAttempts(signed: Signed, clock: int, run: seq<Event>, jti: Jti)
    ensures GrantedTo(After(signed, clock, run), jti) <= 5
  {
    RememberedRuns(signed, clock, run, jti);
  }

  /** Once a challenge has completed a sign-in, no later call is granted another attempt. */
  lemma {:induction false} NoneOnceConsumed(signed: Signed, clock: int, run: seq<Event>, later: seq<Event>, jti: Jti)
    requires jti in After(signed, clock, run).consumed
    ensures jti in After(signed, clock, run + later).consumed
    ensures GrantedTo(After(signed, clock, run + later), jti) == GrantedTo(After(signed, clock, run), jti)
    decreases |later|
  {
    hide Live, ReadEffect, PeekAnswer, ReadAnswer;
    if later == [] {
      assert run + later == run;
    } else {
      var before, e := later[..|later| - 1], later[|later| - 1];
      NoneOnceConsumed(signed, clock, run, before, jti);
      assert (run + later)[..|run + later| - 1] == run + before;
      ReadableExactly(signed, clock, run + before, jti, e.wait);
    }
  }
}
