/** Which burn intents one Gateway withdrawal posts, for every sequence of answers. */
module GatewayPosts {
  import opened Wrappers
  import opened Chains
  import opened GreedySplit

  /** How one attempt to post a batch ends. `avail` is the balance named by an error
      message of the form "… available X". Whether Gateway took the burn is certain
      only for SignFailed and HttpError (it did not) and OkWithId (it did). */
  datatype Answer =
    | SignFailed(avail: Option<nat>)  // no request was sent
    | NoResponse                      // network error or time-out
    | BodyLost(avail: Option<nat>)    // a response began, its body could not be read
    | HttpError(avail: Option<nat>)   // an error status
    | OkNoId                          // a success status without a transfer id
    | OkWithId(id: nat)

  datatype Attempt = Attempt(batch: seq<Intent>, answer: Answer)

  datatype Outcome = Submitted(id: nat) | Inconclusive | Failed

  const SOURCE_PRIORITY := [
    ArcTestnet, BaseSepolia, ArbSepolia, OpSepolia, MaticAmoy, AvaxFuji, EthSepolia, UnichainSepolia, HyperEvmTestnet]

  function Without(chains: seq<ChainKey>, chain: ChainKey): seq<ChainKey> {
    if chains == [] then []
    else (if chains[0] == chain then [] else [chains[0]]) + Without(chains[1..], chain)
  }

  function Having(chains: seq<ChainKey>, wallets: set<ChainKey>): seq<ChainKey> {
    if chains == [] then []
    else (if chains[0] in wallets then [chains[0]] else []) + Having(chains[1..], wallets)
  }

  /** The source chains in the order they are tried: those with a treasury wallet. */
  function Sources(destination: ChainKey, wallets: set<ChainKey>): seq<ChainKey> {
    Having([destination] + Without(SOURCE_PRIORITY, destination), wallets)
  }

  function Named(answer: Answer): Option<nat> {
    if answer.SignFailed? || answer.BodyLost? || answer.HttpError? then answer.avail else None
  }

  /** The balances learnt from the first answers. */
  function AvailsOf(sources: seq<ChainKey>, answers: nat -> Answer): seq<Avail> {
    if sources == [] then []
    else var k := |sources| - 1;
         AvailsOf(sources[..k], answers)
         + (if Named(answers(k)).Some? then [Avail(sources[k], Named(answers(k)).value)] else [])
  }

  /** After these nothing more may be posted. */
  predicate Final(a: Answer) { a.OkWithId? || a.NoResponse? }

  /** The burn may have been accepted. */
  predicate MayPay(a: Answer) { a.OkWithId? || a.NoResponse? || a.BodyLost? || a.OkNoId? }

  /** What one call does: the attempts it makes and how it ends. */
  ghost predicate IsCall(sources: seq<ChainKey>, net: nat, answers: nat -> Answer, attempts: seq<Attempt>, outcome: Outcome) {
    var plan := Plan(AvailsOf(sources, answers), net);
    && |attempts| <= |sources| + 1
    && (forall i :: 0 <= i < |attempts| ==> attempts[i].answer == answers(i))
    && (forall i :: 0 <= i < |attempts| && i < |sources| ==> attempts[i].batch == [Intent(sources[i], net)])
    && (|attempts| == |sources| + 1 ==> plan == Some(attempts[|sources|].batch))
    && (forall i :: 0 <= i < |attempts| - 1 ==> !Final(attempts[i].answer))
    && (match outcome
        case Submitted(id) => attempts != [] && attempts[|attempts| - 1].answer == OkWithId(id)
        case Inconclusive => attempts != [] && attempts[|attempts| - 1].answer == NoResponse
        case Failed => && |attempts| == |sources| + (if plan.Some? then 1 else 0)
                       && (attempts != [] ==> !Final(attempts[|attempts| - 1].answer)))
  }

  /** Phase 1 so far: one attempt per chain with the full amount, none of them final. */
  predicate Tried(sources: seq<ChainKey>, net: nat, answers: nat -> Answer, attempts: seq<Attempt>) {
    |attempts| <= |sources|
    && forall j :: 0 <= j < |attempts| ==> attempts[j] == Attempt([Intent(sources[j], net)], answers(j)) && !Final(answers(j))
  }

  function OutcomeOf(answer: Answer): Outcome {
    match answer
    case OkWithId(id) => Submitted(id)
    case NoResponse => Inconclusive
    case _ => Failed
  }

  lemma EndsInPhase1(sources: seq<ChainKey>, net: nat, answers: nat -> Answer, attempts: seq<Attempt>)
    requires Tried(sources, net, answers, attempts) && |attempts| < |sources| && Final(answers(|attempts|))
    ensures var last := Attempt([Intent(sources[|attempts|], net)], answers(|attempts|));
            IsCall(sources, net, answers, attempts + [last], OutcomeOf(last.answer))
  {
  }

  lemma EndsInPhase2(sources: seq<ChainKey>, net: nat, answers: nat -> Answer, attempts: seq<Attempt>)
    requires Tried(sources, net, answers, attempts) && |attempts| == |sources|
    ensures match Plan(AvailsOf(sources, answers), net)
            case None => IsCall(sources, net, answers, attempts, Failed)
            case Some(batch) =>
              var answer := answers(|attempts|);
              IsCall(sources, net, answers, attempts + [Attempt(batch, answer)], OutcomeOf(answer))
  {
  }

  lemma NextSource(sources: seq<ChainKey>, n: nat, rest: seq<ChainKey>, wallets: set<ChainKey>)
    requires rest != [] && n <= |sources| && sources == sources[..n] + Having(rest, wallets)
    ensures rest[0] !in wallets ==> sources == sources[..n] + Having(rest[1..], wallets)
    ensures rest[0] in wallets ==>
              n < |sources| && sources[n] == rest[0] && sources == sources[..n + 1] + Having(rest[1..], wallets)
  {
    var tail := Having(rest[1..], wallets);
    assert Having(rest, wallets) == if rest[0] in wallets then [rest[0]] + tail else tail;
    hide Having;
    if rest[0] in wallets { Advance(sources, sources[..n], rest[0], tail); }
  }

  lemma Advance(s: seq<ChainKey>, before: seq<ChainKey>, x: ChainKey, after: seq<ChainKey>)
    requires s == before + ([x] + after)
    ensures s[|before|] == x && s[..|before| + 1] == before + [x] && s == s[..|before| + 1] + after
  {
  }

  lemma NoSource(sources: seq<ChainKey>, n: nat, rest: seq<ChainKey>, wallets: set<ChainKey>)
    requires n <= |sources| && sources == sources[..n] + Having(rest, wallets) && rest == []
    ensures n == |sources| && sources[..n] == sources
  {
  }

  lemma NothingTried(sources: seq<ChainKey>, net: nat, answers: nat -> Answer)
    ensures Tried(sources, net, answers, []) && AvailsOf(sources[..0], answers) == []
  {
  }

  lemma NextAvail(sources: seq<ChainKey>, n: nat, answers: nat -> Answer)
    requires n < |sources|
    ensures AvailsOf(sources[..n + 1], answers)
         == AvailsOf(sources[..n], answers)
            + (if Named(answers(n)).Some? then [Avail(sources[n], Named(answers(n)).value)] else [])
  {
    assert sources[..n + 1][..n] == sources[..n];
  }

  lemma TriedNext(sources: seq<ChainKey>, net: nat, answers: nat -> Answer, attempts: seq<Attempt>)
    requires Tried(sources, net, answers, attempts) && |attempts| < |sources| && !Final(answers(|attempts|))
    ensures Tried(sources, net, answers, attempts + [Attempt([Intent(sources[|attempts|], net)], answers(|attempts|))])
  {
  }

  /** Phase 1: `answers(k)` is how the k-th attempt ends. Failed: no chain took it. */
  method TryEachChain(candidates: seq<ChainKey>, wallets: set<ChainKey>, net: nat, answers: nat -> Answer)
    returns (attempts: seq<Attempt>, sourceAvails: seq<Avail>, outcome: Outcome)
    ensures var sources := Having(candidates, wallets);
            if outcome.Failed? then
              && Tried(sources, net, answers, attempts) && |attempts| == |sources|
              && sourceAvails == AvailsOf(sources, answers)
            else IsCall(sources, net, answers, attempts, outcome)
  {
    hide IsCall, Having, AvailsOf, Tried;
    ghost var sources := Having(candidates, wallets);
    attempts, sourceAvails := [], [];
    NothingTried(sources, net, answers);
    assert candidates[0..] == candidates;
    for i := 0 to |candidates|
      invariant |attempts| <= |sources| && Tried(sources, net, answers, attempts)
      invariant sources == sources[..|attempts|] + Having(candidates[i..], wallets)
      invariant sourceAvails == AvailsOf(sources[..|attempts|], answers)
    {
      var chain := candidates[i];
      assert candidates[i..][1..] == candidates[i + 1..];
      NextSource(sources, |attempts|, candidates[i..], wallets);
      if chain !in wallets {
        continue;
      }
      NextAvail(sources, |attempts|, answers);
      var answer := answers(|attempts|);
      if Final(answer) {
        EndsInPhase1(sources, net, answers, attempts);
        return attempts + [Attempt([Intent(chain, net)], answer)], sourceAvails, OutcomeOf(answer);
      }
      TriedNext(sources, net, answers, attempts);
      attempts := attempts + [Attempt([Intent(chain, net)], answer)];
      if Named(answer).Some? {
        sourceAvails := sourceAvails + [Avail(chain, Named(answer).value)];
      }
    }
    NoSource(sources, |attempts|, candidates[|candidates|..], wallets);
    outcome := Failed;
  }

  method GatewayWithdrawal(destination: ChainKey, wallets: set<ChainKey>, net: nat, answers: nat -> Answer)
    returns (attempts: seq<Attempt>, outcome: Outcome)
    ensures IsCall(Sources(destination, wallets), net, answers, attempts, outcome)
  {
    hide IsCall, Having, AvailsOf, Tried, Without, Plan;
    var sourceAvails: seq<Avail>;
    attempts, sourceAvails, outcome := TryEachChain([destination] + Without(SOURCE_PRIORITY, destination), wallets, net, answers);
    if !outcome.Failed? {
      return;
    }
    EndsInPhase2(Sources(destination, wallets), net, answers, attempts);
    var plan := PlanSplit(sourceAvails, net);
    if plan.Some? {
      var answer := answers(|attempts|);
      attempts := attempts + [Attempt(plan.value, answer)];
      outcome := OutcomeOf(answer);
    }
  }

  // ── What a call promises ──────────────────────────────────────────────────

  /** A failed call leaves nothing behind that could pay, and otherwise one batch can. */
  ghost predicate PaysAtMostOnce(attempts: seq<Attempt>, outcome: Outcome) {
    && (forall i, j :: 0 <= i < j < |attempts| ==> !(MayPay(attempts[i].answer) && MayPay(attempts[j].answer)))
    && (outcome.Failed? ==> forall i :: 0 <= i < |attempts| ==> !MayPay(attempts[i].answer))
  }

  /** The call goes on after these, although the burn may have been accepted. */
  predicate Unclear(a: Answer) { a.BodyLost? || a.OkNoId? }

  /** No further post follows an accepted or unanswered one, in either phase. */
  lemma NothingAfterFinal(sources: seq<ChainKey>, net: nat, answers: nat -> Answer,
                          attempts: seq<Attempt>, outcome: Outcome, i: nat)
    requires IsCall(sources, net, answers, attempts, outcome)
    requires i < |attempts| && (attempts[i].answer.OkWithId? || attempts[i].answer.NoResponse?)
    ensures i == |attempts| - 1
    ensures outcome == if attempts[i].answer.OkWithId? then Submitted(attempts[i].answer.id) else Inconclusive
  {
  }

  /** At most one batch can ever pay out, and none after a failure, exactly when no answer
      that leaves it open whether the burn was taken is treated as a failure. */
  lemma PaysAtMostOnceExactly(sources: seq<ChainKey>, net: nat, answers: nat -> Answer, attempts: seq<Attempt>, outcome: Outcome)
    requires IsCall(sources, net, answers, attempts, outcome)
    ensures PaysAtMostOnce(attempts, outcome) <==> forall i :: 0 <= i < |attempts| ==> !Unclear(attempts[i].answer)
  {
    if i :| 0 <= i < |attempts| && Unclear(attempts[i].answer) {
      assert MayPay(attempts[i].answer);
      var last := |attempts| - 1;
      if !outcome.Failed? {
        assert MayPay(attempts[last].answer) && i < last;
      }
    }
  }

  /** An accepted burn whose answer names no transfer id is posted again on the next chain. */
  lemma AcceptedWithoutIdIsPostedAgain(sources: seq<ChainKey>, net: nat)
    requires |sources| >= 2
    ensures exists answers: nat -> Answer, attempts: seq<Attempt> ::
              && IsCall(sources, net, answers, attempts, Submitted(1))
              && attempts[0].answer == OkNoId && attempts[1].answer == OkWithId(1)
  {
    var answers := (k: nat) => if k == 0 then OkNoId else OkWithId(1);
    var attempts := [Attempt([Intent(sources[0], net)], OkNoId), Attempt([Intent(sources[1], net)], OkWithId(1))];
    assert IsCall(sources, net, answers, attempts, Submitted(1));
  }

  // ── What a batch pays ─────────────────────────────────────────────────────

  predicate NoneTwice(chains: seq<ChainKey>) {
    forall i, j :: 0 <= i < j < |chains| ==> chains[i] != chains[j]
  }

  lemma {:induction false} WithoutKeeps(chains: seq<ChainKey>, chain: ChainKey)
    requires NoneTwice(chains)
    ensures NoneTwice(Without(chains, chain))
    ensures forall c :: c in Without(chains, chain) <==> c in chains && c != chain
  {
    if chains != [] {
      WithoutKeeps(chains[1..], chain);
      assert chains[0] !in chains[1..];
      var rest := Without(chains[1..], chain);
      forall k | 0 <= k < |rest| ensures rest[k] != chains[0] {
        assert rest[k] in rest;
      }
    }
  }

  lemma {:induction false} HavingKeeps(chains: seq<ChainKey>, wallets: set<ChainKey>)
    requires NoneTwice(chains)
    ensures NoneTwice(Having(chains, wallets))
    ensures forall c :: c in Having(chains, wallets) <==> c in chains && c in wallets
  {
    if chains != [] { HavingKeeps(chains[1..], wallets); }
  }

  /** Each source chain is tried once in phase 1: the destination first, if it has a wallet. */
  lemma {:induction false} SourcesOnce(destination: ChainKey, wallets: set<ChainKey>)
    ensures var sources := Sources(destination, wallets);
            && NoneTwice(sources)
            && (forall c :: c in sources <==> c in wallets && (c == destination || c != SolDevnet))
            && (destination in wallets ==> sources != [] && sources[0] == destination)
  {
    hide Without, Having;
    PriorityOnce();
    var others := Without(SOURCE_PRIORITY, destination);
    WithoutKeeps(SOURCE_PRIORITY, destination);
    forall k | 0 <= k < |others| ensures others[k] != destination {
      assert others[k] in others;
    }
    HavingKeeps([destination] + others, wallets);
    if destination in wallets { HavingFirst(destination, others, wallets); }
  }

  lemma HavingFirst(chain: ChainKey, chains: seq<ChainKey>, wallets: set<ChainKey>)
    requires chain in wallets
    ensures Having([chain] + chains, wallets) == [chain] + Having(chains, wallets)
  {
    assert ([chain] + chains)[1..] == chains;
  }

  lemma PriorityOnce()
    ensures NoneTwice(SOURCE_PRIORITY) && forall c :: c in SOURCE_PRIORITY <==> c != SolDevnet
  {
    assert SOURCE_PRIORITY[0] == ArcTestnet && SOURCE_PRIORITY[1] == BaseSepolia && SOURCE_PRIORITY[2] == ArbSepolia;
    assert SOURCE_PRIORITY[3] == OpSepolia && SOURCE_PRIORITY[4] == MaticAmoy && SOURCE_PRIORITY[5] == AvaxFuji;
    assert SOURCE_PRIORITY[6] == EthSepolia && SOURCE_PRIORITY[7] == UnichainSepolia;
    assert SOURCE_PRIORITY[8] == HyperEvmTestnet;
  }

  lemma {:induction false} AvailsOnce(sources: seq<ChainKey>, answers: nat -> Answer)
    requires NoneTwice(sources)
    ensures OncePerChain(AvailsOf(sources, answers))
    ensures forall a :: a in AvailsOf(sources, answers) ==> a.chain in sources
    decreases |sources|
  {
    if sources != [] {
      var k := |sources| - 1;
      AvailsOnce(sources[..k], answers);
      assert sources == sources[..k] + [sources[k]];
    }
  }

  /** A signing error, an error status, or a response whose body was lost names a balance. */
  predicate Names(answer: Answer, balance: nat) {
    answer in {SignFailed(Some(balance)), BodyLost(Some(balance)), HttpError(Some(balance))}
  }

  /** Phase 2 knows a chain's balance exactly if phase 1's answer for that chain named it. */
  lemma {:induction false} LearntExactly(sources: seq<ChainKey>, answers: nat -> Answer, a: Avail)
    ensures a in AvailsOf(sources, answers) <==>
              exists k: nat :: k < |sources| && sources[k] == a.chain && Names(answers(k), a.available)
    decreases |sources|
  {
    if sources != [] {
      var n := |sources| - 1;
      LearntExactly(sources[..n], answers, a);
      assert forall k: nat :: k < n ==> sources[..n][k] == sources[k];
    }
  }

  /** Every batch burns on distinct chains and pays the amount, or in phase 2 the amount
      less a residue below 0.001 USDC. */
  lemma EveryBatchPaysTheAmount(destination: ChainKey, wallets: set<ChainKey>, net: nat, answers: nat -> Answer,
                                attempts: seq<Attempt>, outcome: Outcome, i: nat)
    requires IsCall(Sources(destination, wallets), net, answers, attempts, outcome) && i < |attempts|
    ensures var batch := attempts[i].batch;
            && (forall j, k :: 0 <= j < k < |batch| ==> batch[j].chain != batch[k].chain)
            && net - DUST < TotalValue(batch) <= net
            && (|batch| == 1 && i < |Sources(destination, wallets)| ==> TotalValue(batch) == net)
  {
    hide IsCall, Sources, AvailsOf, Plan, OncePerChain;
    var sources := Sources(destination, wallets);
    BatchAt(sources, net, answers, attempts, outcome, i);
    if i >= |sources| {
      SourcesOnce(destination, wallets);
      AvailsOnce(sources, answers);
      SplitIsSound(AvailsOf(sources, answers), net);
    }
  }

  lemma BatchAt(sources: seq<ChainKey>, net: nat, answers: nat -> Answer, attempts: seq<Attempt>, outcome: Outcome, i: nat)
    requires IsCall(sources, net, answers, attempts, outcome) && i < |attempts|
    ensures if i < |sources| then attempts[i].batch == [Intent(sources[i], net)] && TotalValue(attempts[i].batch) == net
            else Plan(AvailsOf(sources, answers), net) == Some(attempts[i].batch)
  {
    hide Plan, AvailsOf;
  }
}
