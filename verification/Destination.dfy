/** How a withdrawal's request is stored in its row and read back for recovery. */
module Destination {
  import opened Wrappers
  import opened JsStrings
  import opened Chains

  // ── gatewayConfig.ts ──────────────────────────────────────────────────────

  datatype Refusal = UnsupportedChain | NotAvailable | BelowMinimum | NotAboveFee

  /** Why a request is refused; `chain` is None for a key that is not in the table. */
  function ValidateWithdrawal(chain: Option<ChainKey>, amount: int): Option<Refusal> {
    match chain
    case None => Some(UnsupportedChain)
    case Some(key) =>
      if !Config(key).withdrawalsEnabled then Some(NotAvailable)
      else if amount < Config(key).minWithdrawal then Some(BelowMinimum)
      else if amount <= Config(key).platformFee then Some(NotAboveFee)
      else None
  }

  function NetWithdrawalAmount(chain: ChainKey, gross: int): nat {
    if gross - Config(chain).platformFee > 0 then gross - Config(chain).platformFee else 0
  }

  /** A validated withdrawal pays out something, and payout and fee make up the gross. */
  lemma NetAndFeeMakeGross(chain: ChainKey, gross: int)
    requires ValidateWithdrawal(Some(chain), gross).None?
    ensures 0 < NetWithdrawalAmount(chain, gross) < gross
    ensures NetWithdrawalAmount(chain, gross) + Config(chain).platformFee == gross
  {
  }

  /** Every chain's minimum exceeds its fee, so the fee never refuses a request: what is
      accepted is a known chain that is switched on and an amount from its minimum up. */
  lemma MinimumCoversFee(chain: Option<ChainKey>, amount: int)
    ensures ValidateWithdrawal(chain, amount) != Some(NotAboveFee)
    ensures ValidateWithdrawal(chain, amount).None? <==>
              chain.Some? && Config(chain.value).withdrawalsEnabled && amount >= Config(chain.value).minWithdrawal
  {
  }

  // ── The stored destination ────────────────────────────────────────────────

  /** `${walletAddress} (${chain.label})` */
  function Stored(address: string, chain: ChainKey): string {
    address + " (" + Config(chain).display + ")"
  }

  predicate IsLineEnd(c: char) {
    c as int in {0x0A, 0x0D, 0x2028, 0x2029}
  }

  predicate OneLine(s: string) {
    forall c :: c in s ==> !IsLineEnd(c)
  }

  predicate OpensAt(s: string, i: nat) {
    i + 2 <= |s| && s[i] == ' ' && s[i + 1] == '('
  }

  /** `/^(.+?) \(([^)]+)\)$/` can match with i characters in its first group. */
  predicate MatchesAt(s: string, i: nat) {
    && 1 <= i && OpensAt(s, i) && i + 3 < |s| && OneLine(s[..i])
    && s[|s| - 1] == ')' && ')' !in s[i + 2..|s| - 1]
  }

  /** The first group is lazy: the least such i. */
  function FirstMatch(s: string, i: nat): (r: Option<nat>)
    ensures r.Some? ==> MatchesAt(s, r.value) && i <= r.value
    ensures forall j :: i <= j && (r.Some? ==> j < r.value) ==> !MatchesAt(s, j)
    decreases |s| - i
  {
    if i >= |s| then None else if MatchesAt(s, i) then Some(i) else FirstMatch(s, i + 1)
  }

  function ChainLabelled(name: string, chains: seq<ChainKey>): Option<ChainKey> {
    if chains == [] then None
    else if Config(chains[0]).display == name then Some(chains[0])
    else ChainLabelled(name, chains[1..])
  }

  datatype Target = Target(address: string, chain: ChainKey)

  function ParseDestination(destination: string): Option<Target> {
    Parse(Trim(destination))
  }

  function Parse(s: string): Option<Target> {
    match FirstMatch(s, 1)
    case None => None
    case Some(i) =>
      match ChainLabelled(s[i + 2..|s| - 1], ALL_CHAINS)
      case None => None
      case Some(chain) => Some(Target(Trim(s[..i]), chain))
  }

  /** Some " (" is never closed. */
  predicate LeftOpen(address: string) {
    exists i :: 0 <= i < |address| && OpensAt(address, i) && ')' !in address[i + 2..]
  }

  /** What is appended to the address. */
  function Tail(chain: ChainKey): string { " (" + Config(chain).display + ")" }

  lemma DisplayIsPlain(chain: ChainKey)
    ensures Config(chain).display != "" && forall c :: c in Config(chain).display ==> 'A' <= c <= 'z'
  {
  }

  lemma TailShape(chain: ChainKey)
    ensures var t, n := Tail(chain), |Config(chain).display|;
            && |t| == n + 3 && n > 0 && t[0] == ' ' && t[1] == '(' && t[n + 2] == ')'
            && t[2..n + 2] == Config(chain).display
            && (forall k :: 2 <= k < n + 2 ==> 'A' <= t[k] <= 'z')
  {
    DisplayIsPlain(chain);
    var t, d := Tail(chain), Config(chain).display;
    assert t[2..|d| + 2] == d;
    forall k | 2 <= k < |d| + 2 ensures 'A' <= t[k] <= 'z' {
      assert t[k] == d[k - 2] && t[k] in d;
    }
  }

  lemma DisplayOnce(a: ChainKey, b: ChainKey)
    requires Config(a).display == Config(b).display
    ensures a == b
  {
    assert Config(a).display[0] == Config(b).display[0];
  }

  lemma {:induction false} LabelIn(chain: ChainKey, chains: seq<ChainKey>)
    requires chain in chains
    ensures ChainLabelled(Config(chain).display, chains) == Some(chain)
  {
    hide Config;
    if Config(chains[0]).display == Config(chain).display {
      DisplayOnce(chains[0], chain);
    } else {
      LabelIn(chain, chains[1..]);
    }
  }

  lemma LabelFound(chain: ChainKey)
    ensures ChainLabelled(Config(chain).display, ALL_CHAINS) == Some(chain)
  {
    hide Config;
    assert ALL_CHAINS[0] == ArcTestnet && ALL_CHAINS[1] == BaseSepolia && ALL_CHAINS[2] == ArbSepolia;
    assert ALL_CHAINS[3] == OpSepolia && ALL_CHAINS[4] == MaticAmoy && ALL_CHAINS[5] == AvaxFuji;
    assert ALL_CHAINS[6] == UnichainSepolia && ALL_CHAINS[7] == HyperEvmTestnet && ALL_CHAINS[8] == EthSepolia;
    assert ALL_CHAINS[9] == SolDevnet;
    LabelIn(chain, ALL_CHAINS);
  }

  lemma {:induction false} LabelUnknown(name: string, chains: seq<ChainKey>)
    requires '(' in name
    ensures ChainLabelled(name, chains) == None
  {
    if chains != [] {
      DisplayIsPlain(chains[0]);
      LabelUnknown(name, chains[1..]);
    }
  }

  lemma StoredTrimmed(address: string, chain: ChainKey)
    ensures |Tail(chain)| > 0
    ensures Trim(Stored(address, chain))
         == if TrimLeft(address) == "" then Tail(chain)[1..] else TrimLeft(address) + Tail(chain)
  {
    hide Config, Tail, TrimRight;
    TailShape(chain);
    StoredTail(address, chain);
    TrimEnclosed(address, Tail(chain));
  }

  lemma StoredTail(address: string, chain: ChainKey)
    ensures Stored(address, chain) == address + Tail(chain)
  {
  }

  lemma TrimEnclosed(s: string, t: string)
    requires |t| >= 2 && t[0] == ' ' && t[1] == '(' && t[|t| - 1] == ')'
    ensures Trim(s + t) == if TrimLeft(s) == "" then t[1..] else TrimLeft(s) + t
  {
    assert IsSpace(' ') && !IsSpace('(') && !IsSpace(')');
    hide IsSpace, TrimLeft, TrimRight;
    TrimLeftPrefix(s, t);
    OneSpace(t);
    var u := if TrimLeft(s) == "" then t[1..] else TrimLeft(s) + t;
    assert u[|u| - 1] == t[|t| - 1];
    KeptRight(u);
  }

  lemma OneSpace(t: string)
    requires |t| >= 2 && IsSpace(t[0]) && !IsSpace(t[1])
    ensures TrimLeft(t) == t[1..]
  {
  }

  lemma KeptRight(s: string)
    requires s != "" && !IsSpace(s[|s| - 1])
    ensures TrimRight(s) == s
  {
  }

  /** Without an address there is nothing for the first group to match. */
  lemma NoAddress(chain: ChainKey)
    ensures FirstMatch(Tail(chain)[1..], 1) == None
  {
    hide Config;
    TailShape(chain);
    var s := Tail(chain)[1..];
    forall i: nat ensures !OpensAt(s, i) {
    }
  }

  /** After an address the pattern matches where the tail begins, or where the address
      itself leaves a parenthesis open. */
  lemma MatchPlaces(address: string, chain: ChainKey, i: nat)
    requires address != "" && !IsSpace(address[0])
    ensures var s := address + Tail(chain);
            MatchesAt(s, i) <==>
              && i <= |address| && OneLine(address[..i])
              && (i < |address| ==> OpensAt(address, i) && ')' !in address[i + 2..])
  {
    hide Config, OneLine;
    TailShape(chain);
    var t, b := Tail(chain), |address|;
    var s := address + t;
    if i <= b {
      assert s[..i] == address[..i];
    }
    if i == b {
      assert s[b + 2..|s| - 1] == t[2..|t| - 1];
    } else if i < b && OpensAt(s, i) {
      assert i + 2 <= b;
      assert s[i + 2..|s| - 1] == address[i + 2..] + t[..|t| - 1];
      assert ')' !in t[..|t| - 1];
    }
  }

  lemma MatchAtTail(a: string, chain: ChainKey)
    requires a != "" && !IsSpace(a[0]) && OneLine(a) && !LeftOpen(a)
    ensures FirstMatch(a + Tail(chain), 1) == Some(|a|)
  {
    hide Config, Tail, OneLine, MatchesAt, OpensAt;
    assert a[..|a|] == a;
    MatchPlaces(a, chain, |a|);
    var r := FirstMatch(a + Tail(chain), 1);
    assert r.Some?;
    MatchPlaces(a, chain, r.value);
  }

  lemma MatchInside(a: string, chain: ChainKey)
    requires a != "" && !IsSpace(a[0]) && (!OneLine(a) || LeftOpen(a))
    ensures var r := FirstMatch(a + Tail(chain), 1);
            r.Some? ==> r.value + 2 <= |a|
  {
    hide Config, Tail, MatchesAt;
    var r := FirstMatch(a + Tail(chain), 1);
    if r.Some? {
      MatchPlaces(a, chain, r.value);
      if r.value == |a| {
        assert a[..|a|] == a;
        var j: nat :| j < |a| && OpensAt(a, j) && ')' !in a[j + 2..];
        MatchPlaces(a, chain, j);
      }
    }
  }

  lemma ParsedAtTail(a: string, chain: ChainKey)
    requires FirstMatch(a + Tail(chain), 1) == Some(|a|)
    ensures Parse(a + Tail(chain)) == Some(Target(Trim(a), chain))
  {
    hide Config, Tail, MatchesAt, ChainLabelled, Trim, FirstMatch;
    TailShape(chain);
    Halves(a, Tail(chain));
    LabelFound(chain);
  }

  lemma Halves(a: string, t: string)
    requires |t| >= 3
    ensures (a + t)[..|a|] == a && (a + t)[|a| + 2..|a + t| - 1] == t[2..|t| - 1]
  {
  }

  lemma ParsedInside(a: string, chain: ChainKey)
    requires var r := FirstMatch(a + Tail(chain), 1);
             r.Some? ==> r.value + 2 <= |a|
    ensures Parse(a + Tail(chain)) == None
  {
    hide Config, Tail, MatchesAt, ChainLabelled, Trim, FirstMatch;
    TailShape(chain);
    var r := FirstMatch(a + Tail(chain), 1);
    if r.Some? {
      var i, s := r.value, a + Tail(chain);
      var name := s[i + 2..|s| - 1];
      assert name[|a| - 1 - i] == s[|a| + 1];
      LabelUnknown(name, ALL_CHAINS);
    }
  }

  /** What recovery reads back, for every address and chain. */
  lemma {:induction false} ParsedExactly(address: string, chain: ChainKey)
    ensures var a := TrimLeft(address);
            ParseDestination(Stored(address, chain))
              == if a == "" || !OneLine(a) || LeftOpen(a) then None else Some(Target(Trim(address), chain))
  {
    hide Config, OneLine, LeftOpen, FirstMatch, Parse, Trim, TrimLeft, Tail, Stored;
    var a := TrimLeft(address);
    StoredTrimmed(address, chain);
    TrimTrimmed(address);
    if a == "" {
      NothingParsed(chain);
    } else if OneLine(a) && !LeftOpen(a) {
      MatchAtTail(a, chain);
      ParsedAtTail(a, chain);
    } else {
      MatchInside(a, chain);
      ParsedInside(a, chain);
    }
  }

  lemma NothingParsed(chain: ChainKey)
    ensures |Tail(chain)| > 0 && Parse(Tail(chain)[1..]) == None
  {
    NoAddress(chain);
  }

  /** The stored text gives back the same address and chain exactly for addresses that are
      trimmed, on one line, and close every parenthesis that follows a space. */
  lemma ParseGivesBackExactly(address: string, chain: ChainKey)
    ensures ParseDestination(Stored(address, chain)) == Some(Target(address, chain))
       <==> address != "" && Trimmed(address) && OneLine(address) && !LeftOpen(address)
  {
    hide Config, OneLine, ParseDestination, LeftOpen;
    ParsedExactly(address, chain);
    TrimTrimmed(address);
  }

  /** Nothing is ever read back as another chain, nor as another address. */
  lemma NeverAnotherTarget(address: string, chain: ChainKey)
    ensures var r := ParseDestination(Stored(address, chain));
            r.Some? ==> r.value == Target(Trim(address), chain)
  {
    ParsedExactly(address, chain);
  }

  /** A space and an open parenthesis lose the destination: the row goes to review. */
  lemma OpenParenthesisLost(chain: ChainKey)
    ensures ParseDestination(Stored("0xA (home", chain)) == None
  {
    hide ParseDestination, Stored, OneLine, Trim, Config;
    var a := "0xA (home";
    ParsedExactly(a, chain);
    assert TrimLeft(a) == a;
    assert OpensAt(a, 3) && a[5..] == "home";
    assert LeftOpen(a);
  }

  /** Recovery asks Circle for what the route asked for: same address, chain and amount. */
  lemma RecoveryRepeatsTheRequest(address: string, chain: ChainKey, gross: int)
    requires ValidateWithdrawal(Some(chain), gross).None?
    requires address != "" && forall c :: c in address ==> !IsSpace(c)
    ensures var r := ParseDestination(Stored(address, chain));
            && r == Some(Target(address, chain))
            && NetWithdrawalAmount(r.value.chain, gross) == gross - Config(chain).platformFee > 0
  {
    hide ParseDestination, OpensAt;
    NetAndFeeMakeGross(chain, gross);
    assert Trimmed(address) by { assert address[0] in address && address[|address| - 1] in address; }
    assert OneLine(address);
    assert !LeftOpen(address) by { SpacelessOpensNothing(address); }
    ParseGivesBackExactly(address, chain);
  }

  lemma SpacelessOpensNothing(address: string)
    requires forall c :: c in address ==> !IsSpace(c)
    ensures !LeftOpen(address)
  {
    forall i: nat | i < |address| ensures !OpensAt(address, i) {
      assert address[i] in address;
    }
  }
}
