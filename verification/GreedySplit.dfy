/** Splitting one Gateway withdrawal over several source chains. Amounts in micro-USDC. */
module GreedySplit {
  import opened Wrappers
  import opened Chains
  import opened MapSums

  const FEE_HEADROOM := 250_000
  const DUST := 1_000

  /** What Gateway said is available on a chain. */
  datatype Avail = Avail(chain: ChainKey, available: nat)

  datatype Usable = Usable(chain: ChainKey, usable: nat)

  datatype Intent = Intent(chain: ChainKey, value: nat)

  function Headroom(available: nat): nat {
    if available >= FEE_HEADROOM then available - FEE_HEADROOM else 0
  }

  /** The chains with more than dust to give. */
  function UsableOf(avails: seq<Avail>): seq<Usable> {
    if avails == [] then []
    else (var u := Headroom(avails[0].available);
          (if u > DUST then [Usable(avails[0].chain, u)] else []) + UsableOf(avails[1..]))
  }

  function Insert(x: Usable, s: seq<Usable>): seq<Usable> {
    if s == [] || x.usable >= s[0].usable then [x] + s else [s[0]] + Insert(x, s[1..])
  }

  /** `sort((a, b) => b.usable - a.usable)`: largest first, ties in their old order. */
  function Sorted(s: seq<Usable>): seq<Usable> {
    if s == [] then [] else Insert(s[0], Sorted(s[1..]))
  }

  function TotalUsable(s: seq<Usable>): nat {
    if s == [] then 0 else s[0].usable + TotalUsable(s[1..])
  }

  function TotalValue(s: seq<Intent>): nat {
    if s == [] then 0 else s[0].value + TotalValue(s[1..])
  }

  function Min(a: nat, b: nat): nat { if a <= b then a else b }

  /** Drain the chains in turn until less than dust remains. */
  function Greedy(remaining: nat, s: seq<Usable>): seq<Intent> {
    if s == [] || remaining < DUST then []
    else var v := Min(remaining, s[0].usable);
         [Intent(s[0].chain, v)] + Greedy(remaining - v, s[1..])
  }

  /** The batch to post in phase 2, if the chains together cover the amount. */
  method PlanSplit(avails: seq<Avail>, net: nat) returns (batch: Option<seq<Intent>>)
    ensures batch == Plan(avails, net)
  {
    var usableChains := Sorted(UsableOf(avails));
    if |usableChains| < 2 || TotalUsable(usableChains) < net {
      return None;
    }
    var remaining: nat := net;
    var intents: seq<Intent> := [];
    for i := 0 to |usableChains|
      invariant intents + Greedy(remaining, usableChains[i..]) == Greedy(net, usableChains)
    {
      if remaining < DUST {
        assert intents + [] == intents;
        return Some(intents);
      }
      var value := Min(remaining, usableChains[i].usable);
      remaining := remaining - value;
      intents := intents + [Intent(usableChains[i].chain, value)];
      assert usableChains[i..][1..] == usableChains[i + 1..];
    }
    assert intents + [] == intents;
    batch := Some(intents);
  }

  function Plan(avails: seq<Avail>, net: nat): Option<seq<Intent>> {
    var s := Sorted(UsableOf(avails));
    if |s| < 2 || TotalUsable(s) < net then None else Some(Greedy(net, s))
  }

  // ── Sorting ───────────────────────────────────────────────────────────────

  predicate Descending(s: seq<Usable>) {
    forall i, j :: 0 <= i < j < |s| ==> s[i].usable >= s[j].usable
  }

  predicate Distinct(s: seq<Usable>) {
    forall i, j :: 0 <= i < j < |s| ==> s[i].chain != s[j].chain
  }

  lemma {:induction false} InsertedAt(x: Usable, s: seq<Usable>) returns (i: nat)
    ensures i <= |s| && Insert(x, s) == s[..i] + [x] + s[i..]
    ensures forall k :: 0 <= k < i ==> s[k].usable > x.usable
    ensures i < |s| ==> x.usable >= s[i].usable
    ensures TotalUsable(Insert(x, s)) == x.usable + TotalUsable(s)
  {
    if s == [] || x.usable >= s[0].usable {
      i := 0;
      assert ([x] + s)[1..] == s;
    } else {
      var j := InsertedAt(x, s[1..]);
      i := j + 1;
      assert ([s[0]] + Insert(x, s[1..]))[1..] == Insert(x, s[1..]);
      assert s[1..][..j] == s[1..i] && [s[0]] + s[1..i] == s[..i] && s[1..][j..] == s[i..];
    }
  }

  lemma Spliced(t: seq<Usable>, i: nat, x: Usable)
    requires i <= |t|
    ensures multiset(t[..i] + [x] + t[i..]) == multiset(t) + multiset{x}
    ensures forall u :: u in t[..i] + [x] + t[i..] <==> u == x || u in t
  {
    assert t == t[..i] + t[i..];
  }

  lemma SplicedDescends(t: seq<Usable>, i: nat, x: Usable)
    requires i <= |t| && Descending(t)
    requires (forall k :: 0 <= k < i ==> t[k].usable > x.usable) && (i < |t| ==> x.usable >= t[i].usable)
    ensures Descending(t[..i] + [x] + t[i..])
  {
  }

  lemma SplicedDistinct(t: seq<Usable>, i: nat, x: Usable)
    requires i <= |t| && Distinct(t) && forall k :: 0 <= k < |t| ==> t[k].chain != x.chain
    ensures Distinct(t[..i] + [x] + t[i..])
  {
  }

  lemma {:induction false} SortedSorts(s: seq<Usable>)
    ensures Descending(Sorted(s)) && multiset(Sorted(s)) == multiset(s)
    ensures TotalUsable(Sorted(s)) == TotalUsable(s)
  {
    hide Descending, Insert;
    if s == [] {
      NothingDescends();
    } else {
      SortedSorts(s[1..]);
      var i := InsertedAt(s[0], Sorted(s[1..]));
      Spliced(Sorted(s[1..]), i, s[0]);
      SplicedDescends(Sorted(s[1..]), i, s[0]);
      assert s == [s[0]] + s[1..];
    }
  }

  lemma NothingDescends()
    ensures Descending([]) && Distinct([])
  {
  }

  lemma SameMembers(s: seq<Usable>, t: seq<Usable>)
    requires multiset(s) == multiset(t)
    ensures forall u :: u in s <==> u in t
  {
    forall u ensures u in s <==> u in t {
      assert u in multiset(s) <==> u in multiset(t);
    }
  }

  lemma TailDistinct(s: seq<Usable>)
    requires s != [] && Distinct(s)
    ensures Distinct(s[1..]) && forall u :: u in s[1..] ==> u.chain != s[0].chain
  {
  }

  lemma {:induction false} SortedDistinct(s: seq<Usable>)
    requires Distinct(s)
    ensures Distinct(Sorted(s))
    ensures forall u :: u in Sorted(s) <==> u in s
  {
    hide Insert, Distinct, Descending;
    SortedSorts(s);
    SameMembers(Sorted(s), s);
    if s != [] {
      var t := Sorted(s[1..]);
      TailDistinct(s);
      SortedDistinct(s[1..]);
      var i := InsertedAt(s[0], t);
      SplicedDistinct(t, i, s[0]);
    } else {
      NothingDescends();
    }
  }

  // ── When there is a split ─────────────────────────────────────────────────

  /** The chain has more than a quarter of a USDC and dust. */
  predicate Gives(a: Avail) { a.available > 251_000 }

  /** What those chains have beyond a quarter of a USDC each. */
  function Spare(avails: seq<Avail>): nat {
    if avails == [] then 0
    else (if Gives(avails[0]) then avails[0].available - 250_000 else 0) + Spare(avails[1..])
  }

  lemma {:induction false} UsableCount(avails: seq<Avail>)
    ensures TotalUsable(UsableOf(avails)) == Spare(avails)
    ensures |UsableOf(avails)| >= 1 <==> exists i :: 0 <= i < |avails| && Gives(avails[i])
    ensures |UsableOf(avails)| >= 2 <==> exists i, j :: 0 <= i < j < |avails| && Gives(avails[i]) && Gives(avails[j])
  {
    if avails != [] {
      var rest := avails[1..];
      UsableCount(rest);
      assert Gives(avails[0]) ==>
          ([Usable(avails[0].chain, Headroom(avails[0].available))] + UsableOf(rest))[1..] == UsableOf(rest);
      assert [] + UsableOf(rest) == UsableOf(rest);
      assert forall i :: 0 <= i < |rest| ==> rest[i] == avails[i + 1];
      assert forall i :: 0 < i < |avails| ==> avails[i] == rest[i - 1];
    }
  }

  /** The amount is split exactly if at least two chains can give something, and all that
      can give together cover it. */
  lemma SplitsExactly(avails: seq<Avail>, net: nat)
    ensures Plan(avails, net).Some? <==>
              && (exists i, j :: 0 <= i < j < |avails| && Gives(avails[i]) && Gives(avails[j]))
              && Spare(avails) >= net
  {
    hide UsableOf, Sorted, Greedy, TotalUsable, Spare, Gives;
    var u := UsableOf(avails);
    UsableCount(avails);
    SortedSorts(u);
    assert |Sorted(u)| == |multiset(Sorted(u))| == |multiset(u)| == |u|;
  }

  // ── What the split promises ───────────────────────────────────────────────

  predicate OncePerChain(avails: seq<Avail>) {
    forall i, j :: 0 <= i < j < |avails| ==> avails[i].chain != avails[j].chain
  }

  lemma {:induction false} UsableKept(avails: seq<Avail>)
    requires OncePerChain(avails)
    ensures Distinct(UsableOf(avails))
    ensures forall u :: u in UsableOf(avails) ==> u.usable > DUST && Avail(u.chain, u.usable + FEE_HEADROOM) in avails
  {
    if avails != [] {
      UsableKept(avails[1..]);
      assert avails == [avails[0]] + avails[1..];
      forall u | u in UsableOf(avails[1..]) ensures u.chain != avails[0].chain {
        assert Avail(u.chain, u.usable + FEE_HEADROOM) in avails[1..];
      }
    }
  }

  lemma {:induction false} UsableHas(avails: seq<Avail>, i: nat)
    requires i < |avails| && Headroom(avails[i].available) > DUST
    ensures Usable(avails[i].chain, Headroom(avails[i].available)) in UsableOf(avails)
  {
    if i > 0 { UsableHas(avails[1..], i - 1); }
  }

  /** The batch takes the chains in order, and from none more than it has. */
  lemma {:induction false} GreedyShape(remaining: nat, s: seq<Usable>)
    ensures var g := Greedy(remaining, s);
            && |g| <= |s|
            && (forall i :: 0 <= i < |g| ==> g[i].chain == s[i].chain && g[i].value <= s[i].usable)
            && (forall i :: 0 <= i < |g| && s[i].usable > DUST ==> g[i].value >= DUST)
  {
    if s != [] && remaining >= DUST {
      GreedyShape(remaining - Min(remaining, s[0].usable), s[1..]);
    }
  }

  lemma {:induction false} GreedyTotal(remaining: nat, s: seq<Usable>)
    requires TotalUsable(s) >= remaining
    ensures remaining - DUST < TotalValue(Greedy(remaining, s)) <= remaining
  {
    if s != [] && remaining >= DUST {
      var v := Min(remaining, s[0].usable);
      GreedyTotal(remaining - v, s[1..]);
      var rest := Greedy(remaining - v, s[1..]);
      assert ([Intent(s[0].chain, v)] + rest)[1..] == rest;
    }
  }

  /** All chains but the last together leave more than dust to cover. */
  lemma {:induction false} LastWasNeeded(remaining: nat, s: seq<Usable>)
    requires Greedy(remaining, s) != []
    ensures var m := |Greedy(remaining, s)|;
            m <= |s| && TotalUsable(s[..m - 1]) <= remaining - DUST
  {
    GreedyShape(remaining, s);
    var v := Min(remaining, s[0].usable);
    var rest := Greedy(remaining - v, s[1..]);
    if rest != [] {
      LastWasNeeded(remaining - v, s[1..]);
      var m := |rest|;
      assert s[..m][1..] == s[1..][..m - 1];
    }
  }

  /** What each chain gives beyond a threshold. */
  function Excess(s: seq<Usable>, threshold: nat): nat {
    if s == [] then 0
    else (if s[0].usable > threshold then s[0].usable - threshold else 0) + Excess(s[1..], threshold)
  }

  predicate Within(choice: map<ChainKey, int>, s: seq<Usable>, threshold: nat) {
    forall c :: c in choice ==>
      choice[c] <= threshold || exists i :: 0 <= i < |s| && s[i].chain == c && choice[c] <= s[i].usable
  }

  lemma OneLess(choice: map<ChainKey, int>, c: ChainKey, threshold: nat)
    requires c in choice
    ensures Sum(choice) == choice[c] + Sum(choice - {c})
    ensures |choice - {c}| == |choice| - 1
    ensures |choice| * threshold == threshold + |choice - {c}| * threshold
  {
    SumRemove(choice, c);
    assert (choice - {c}).Keys == choice.Keys - {c};
  }

  lemma {:induction false} AtMostThreshold(choice: map<ChainKey, int>, threshold: nat)
    requires forall c :: c in choice ==> choice[c] <= threshold
    ensures Sum(choice) <= |choice| * threshold
    decreases |choice|
  {
    hide Sum;
    if choice == map[] {
      EmptySum(choice);
    } else {
      var c :| c in choice;
      OneLess(choice, c, threshold);
      AtMostThreshold(choice - {c}, threshold);
    }
  }

  lemma WithinTail(choice: map<ChainKey, int>, rest: map<ChainKey, int>, s: seq<Usable>, threshold: nat)
    requires s != [] && Within(choice, s, threshold)
    requires forall c :: c in rest ==> c in choice && rest[c] == choice[c]
    requires forall c :: c in rest && c == s[0].chain ==> rest[c] > s[0].usable
    ensures Within(rest, s[1..], threshold)
  {
    forall c | c in rest && rest[c] > threshold
      ensures exists i :: 0 <= i < |s[1..]| && s[1..][i].chain == c && rest[c] <= s[1..][i].usable
    {
      var i :| 0 <= i < |s| && s[i].chain == c && choice[c] <= s[i].usable;
      assert s[1..][i - 1] == s[i];
    }
  }

  lemma {:induction false} ChoiceBound(choice: map<ChainKey, int>, s: seq<Usable>, threshold: nat)
    requires Within(choice, s, threshold)
    ensures Sum(choice) <= |choice| * threshold + Excess(s, threshold)
    decreases |s|
  {
    hide Sum;
    if s == [] {
      AtMostThreshold(choice, threshold);
    } else {
      var c := s[0].chain;
      var taken := c in choice && choice[c] <= s[0].usable;
      var rest := if taken then choice - {c} else choice;
      if taken { OneLess(choice, c, threshold); }
      WithinTail(choice, rest, s, threshold);
      ChoiceBound(rest, s[1..], threshold);
    }
  }

  lemma {:induction false} NoExcess(s: seq<Usable>, threshold: nat)
    requires forall u :: u in s ==> u.usable <= threshold
    ensures Excess(s, threshold) == 0
  {
    if s != [] { NoExcess(s[1..], threshold); }
  }

  /** In descending order only the first chains exceed the usable amount of the n-th. */
  lemma {:induction false} ExcessOfFirst(s: seq<Usable>, n: nat, threshold: nat)
    requires n <= |s| && Descending(s)
    requires (forall i :: 0 <= i < n ==> s[i].usable >= threshold) && (forall i :: n <= i < |s| ==> s[i].usable <= threshold)
    ensures Excess(s, threshold) + n * threshold == TotalUsable(s[..n])
  {
    if n == 0 {
      NoExcess(s, threshold);
    } else {
      ExcessOfFirst(s[1..], n - 1, threshold);
      assert s[..n][1..] == s[1..][..n - 1];
      assert n * threshold == threshold + (n - 1) * threshold;
    }
  }

  /** The batch uses each chain once, takes from each at least dust and at most what it
      has beyond the fee headroom, and adds up to the amount less a residue below dust. */
  lemma SplitIsSound(avails: seq<Avail>, net: nat)
    requires OncePerChain(avails) && Plan(avails, net).Some?
    ensures var batch := Plan(avails, net).value;
            && (forall i, j :: 0 <= i < j < |batch| ==> batch[i].chain != batch[j].chain)
            && (forall i :: 0 <= i < |batch| ==> Covered(batch[i], avails))
            && net - DUST < TotalValue(batch) <= net
  {
    hide UsableOf, Sorted, Greedy, TotalUsable, TotalValue, OncePerChain, Descending, Covered;
    var u := UsableOf(avails);
    var s := Sorted(u);
    UsableKept(avails);
    SortedSorts(u);
    SortedDistinct(u);
    GreedyShape(net, s);
    GreedyTotal(net, s);
    var batch := Greedy(net, s);
    forall i | 0 <= i < |batch| ensures Covered(batch[i], avails) {
      assert s[i] in u;
      CoveredBy(batch[i], avails, s[i]);
    }
    forall i, j | 0 <= i < j < |batch| ensures batch[i].chain != batch[j].chain {
      assert s[i].chain != s[j].chain;
    }
  }

  /** At least dust is taken, and at most what the chain has beyond the fee headroom. */
  predicate Covered(intent: Intent, avails: seq<Avail>) {
    DUST <= intent.value && exists a :: a in avails && a.chain == intent.chain && intent.value <= a.available - FEE_HEADROOM
  }

  lemma CoveredBy(intent: Intent, avails: seq<Avail>, u: Usable)
    requires Avail(u.chain, u.usable + FEE_HEADROOM) in avails
    requires intent.chain == u.chain && DUST <= intent.value <= u.usable
    ensures Covered(intent, avails)
  {
    var a := Avail(u.chain, u.usable + FEE_HEADROOM);
    assert intent.value <= a.available - FEE_HEADROOM;
  }

  /** Amounts that the chains could give. */
  predicate Affordable(choice: map<ChainKey, int>, avails: seq<Avail>) {
    forall c :: c in choice ==>
      exists i :: 0 <= i < |avails| && avails[i].chain == c && (choice[c] <= 0 || choice[c] <= avails[i].available - FEE_HEADROOM)
  }

  lemma AffordableWithin(avails: seq<Avail>, choice: map<ChainKey, int>, threshold: nat)
    requires OncePerChain(avails) && Affordable(choice, avails) && threshold >= DUST
    ensures Within(choice, Sorted(UsableOf(avails)), threshold)
  {
    hide Sorted, UsableOf, OncePerChain, Distinct;
    var s := Sorted(UsableOf(avails));
    UsableKept(avails);
    SortedDistinct(UsableOf(avails));
    forall c | c in choice && choice[c] > threshold
      ensures exists i :: 0 <= i < |s| && s[i].chain == c && choice[c] <= s[i].usable
    {
      var i :| 0 <= i < |avails| && avails[i].chain == c && choice[c] <= avails[i].available - FEE_HEADROOM;
      UsableHas(avails, i);
      assert Usable(c, Headroom(avails[i].available)) in s;
    }
  }

  /** The chains that the batch drains exceed the last one's usable amount; no others do. */
  lemma LastIsThreshold(avails: seq<Avail>, net: nat, n: nat)
    requires OncePerChain(avails) && |Greedy(net, Sorted(UsableOf(avails)))| == n + 1
    ensures var s := Sorted(UsableOf(avails));
            && n < |s| && s[n].usable > DUST
            && Excess(s, s[n].usable) + n * s[n].usable == TotalUsable(s[..n])
  {
    hide Sorted, UsableOf, OncePerChain, Distinct, Excess, TotalUsable, Greedy;
    var s := Sorted(UsableOf(avails));
    UsableKept(avails);
    SortedSorts(UsableOf(avails));
    SortedDistinct(UsableOf(avails));
    GreedyShape(net, s);
    assert s[n] in UsableOf(avails);
    ExcessOfFirst(s, n, s[n].usable);
  }

  /** No choice of fewer chains than the batch comes within dust of the amount. */
  lemma NoFewerChains(avails: seq<Avail>, net: nat, choice: map<ChainKey, int>)
    requires OncePerChain(avails) && Plan(avails, net).Some?
    requires Affordable(choice, avails) && |choice| < |Plan(avails, net).value|
    ensures Sum(choice) <= net - DUST
  {
    hide Sum, Excess, TotalUsable, Greedy, Sorted, UsableOf, Within, Affordable, OncePerChain;
    var s := Sorted(UsableOf(avails));
    var n := |Greedy(net, s)| - 1;
    LastIsThreshold(avails, net, n);
    LastWasNeeded(net, s);
    var threshold := s[n].usable;
    AffordableWithin(avails, choice, threshold);
    ChoiceBound(choice, s, threshold);
    Fewer(|choice|, n, threshold);
  }

  lemma Fewer(k: nat, n: nat, threshold: nat)
    requires k <= n
    ensures k * threshold <= n * threshold
  {
    assert n * threshold == k * threshold + (n - k) * threshold;
  }
}
