/** One recurring transfer under worker passes that may overlap.

    A pass selects the task while it is due and works on what it selected later: it computes
    the next run from the run it saw, and sends and writes that next run in one transaction.
 */
module RecurringProtocol {
  import opened Wrappers
  import opened Schedule

  /** Sent and advanced; skipped for lack of funds and advanced; or failed otherwise. */
  datatype Outcome = Sent | Skipped | Threw

  /** `seen`: for each pass, the run it has selected. `sent`: the runs that were sent. */
  datatype State = State(nextRunAt: int, clock: int, seen: seq<Option<int>>, sent: seq<int>)

  datatype Action = Wait(ms: nat) | Select(pass: nat) | Process(pass: nat, advances: nat, outcome: Outcome) | Crash

  predicate Init(passes: nat, s: State) {
    |s.seen| == passes && s.sent == [] && forall p :: 0 <= p < passes ==> s.seen[p] == None
  }

  /** The catch-up loop stops after k advances. */
  ghost predicate StopsAfter(interval: Interval, run: int, now: int, k: nat) {
    k >= 1 && Nth(interval, run, k) > now && forall j :: 1 <= j < k ==> Nth(interval, run, j) <= now
  }

  ghost predicate Can(interval: Interval, s: State, a: Action) {
    match a
    case Wait(_) => true
    case Select(p) => p < |s.seen| && s.seen[p] == None && s.nextRunAt <= s.clock
    case Process(p, k, _) => p < |s.seen| && s.seen[p].Some? && StopsAfter(interval, s.seen[p].value, s.clock, k)
    case Crash => true
  }

  function Do(interval: Interval, s: State, a: Action): State {
    match a
    case Wait(ms) => s.(clock := s.clock + ms)
    case Select(p) => if p < |s.seen| then s.(seen := s.seen[p := Some(s.nextRunAt)]) else s
    case Process(p, k, outcome) =>
      if p >= |s.seen| || s.seen[p].None? then s
      else
        var run := s.seen[p].value;
        State(if outcome == Threw then s.nextRunAt else Nth(interval, run, k), s.clock, s.seen[p := None],
              if outcome == Sent then s.sent + [run] else s.sent)
    case Crash => s.(seen := seq(|s.seen|, i => None))
  }

  ghost predicate Runs(interval: Interval, s: State, acts: seq<Action>)
    decreases |acts|
  {
    acts == [] || (Can(interval, s, acts[0]) && Runs(interval, Do(interval, s, acts[0]), acts[1..]))
  }

  function After(interval: Interval, s: State, acts: seq<Action>): State
    decreases |acts|
  {
    if acts == [] then s else After(interval, Do(interval, s, acts[0]), acts[1..])
  }

  /** Each scheduled run is sent at most once, and they are sent in order. */
  ghost predicate Increasing(sent: seq<int>) {
    forall i, j :: 0 <= i < j < |sent| ==> sent[i] < sent[j]
  }

  /** Holds when passes do not overlap. */
  ghost predicate Inv(s: State) {
    && |s.seen| <= 1 && Increasing(s.sent)
    && (forall i :: 0 <= i < |s.sent| ==> s.sent[i] < s.nextRunAt)
    && (|s.seen| == 1 && s.seen[0].Some? ==> s.seen[0].value == s.nextRunAt <= s.clock)
  }

  lemma InvStep(interval: Interval, s: State, a: Action)
    requires Inv(s) && Can(interval, s, a)
    ensures Inv(Do(interval, s, a))
  {
    hide Nth;
  }

  lemma {:induction false} InvRuns(interval: Interval, s: State, acts: seq<Action>)
    requires Inv(s) && Runs(interval, s, acts)
    ensures Inv(After(interval, s, acts))
    decreases |acts|
  {
    hide Inv, Do, Can;
    if acts != [] {
      InvStep(interval, s, acts[0]);
      InvRuns(interval, Do(interval, s, acts[0]), acts[1..]);
    }
  }

  ghost predicate AlwaysOnce(interval: Interval, passes: nat) {
    forall s, acts :: Init(passes, s) && Runs(interval, s, acts) ==> Increasing(After(interval, s, acts).sent)
  }

  /** Two passes select the same run, and both send it. */
  lemma OverlappingPassesSendTwice(interval: Interval, passes: nat) returns (s: State, acts: seq<Action>)
    requires passes > 1
    ensures Init(passes, s) && Runs(interval, s, acts) && After(interval, s, acts).sent == [0, 0]
  {
    hide Advance;
    s := State(0, 0, seq(passes, i => None), []);
    AdvanceAdds(interval, 0);
    assert Nth(interval, 0, 0) == 0;
    assert StopsAfter(interval, 0, 0, 1);
    acts := [Select(0), Select(1), Process(0, 1, Sent), Process(1, 1, Sent)];
    var s1 := Do(interval, s, acts[0]);
    var s2 := Do(interval, s1, acts[1]);
    var s3 := Do(interval, s2, acts[2]);
    var s4 := Do(interval, s3, acts[3]);
    assert s3.seen[1] == Some(0) && s4.sent == [0, 0];
    assert acts[3..] == [acts[3]] && acts[3..][1..] == [];
    assert Runs(interval, s3, acts[3..]) && After(interval, s3, acts[3..]) == s4;
    assert acts[2..][1..] == acts[3..];
    assert Runs(interval, s2, acts[2..]) && After(interval, s2, acts[2..]) == s4;
    assert acts[1..][1..] == acts[2..];
    assert Runs(interval, s1, acts[1..]) && After(interval, s1, acts[1..]) == s4;
  }

  /** Each scheduled run is sent at most once in every run of the worker exactly if its
      passes do not overlap; nothing in the code keeps them apart. */
  lemma SentOnceExactly(interval: Interval, passes: nat)
    ensures AlwaysOnce(interval, passes) <==> passes <= 1
  {
    if passes > 1 {
      var s, acts := OverlappingPassesSendTwice(interval, passes);
      var sent := After(interval, s, acts).sent;
      assert sent[0] == sent[1];
    } else {
      forall s, acts | Init(passes, s) && Runs(interval, s, acts) ensures Increasing(After(interval, s, acts).sent) {
        InvRuns(interval, s, acts);
      }
    }
  }
}
