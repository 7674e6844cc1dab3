/** The loop that watches a direct transfer after it was submitted, for half an hour. */
module TransferPoller {
  /** What one look at Circle shows; Other covers pending states and errors. */
  datatype Seen = Confirmed | Complete | Failed | Other

  datatype Call = OnDelivered | OnFailure

  /** The loop ends here. */
  predicate Terminal(s: Seen) { s == Complete || s == Failed }

  /** The loop gets to look `t` times before it ends. */
  predicate Reaches(seen: seq<Seen>, t: nat) {
    t < |seen| && forall i :: 0 <= i < t ==> !Terminal(seen[i])
  }

  ghost predicate SawDelivery(seen: seq<Seen>) {
    exists t: nat :: Reaches(seen, t) && seen[t] in {Confirmed, Complete}
  }

  ghost predicate SawFailure(seen: seq<Seen>) {
    exists t: nat :: Reaches(seen, t) && seen[t] == Failed
  }

  /** `seen` has one entry for each look that fits before the deadline. Each callback runs
      at most once, delivery before failure. */
  method PollTransferStatus(seen: seq<Seen>, hasOnDelivered: bool) returns (calls: seq<Call>)
    ensures calls == (if hasOnDelivered && SawDelivery(seen) then [OnDelivered] else [])
                     + (if SawFailure(seen) then [OnFailure] else [])
  {
    calls := [];
    var delivered := false;
    var k := 0;
    while k < |seen|
      invariant 0 <= k <= |seen| && forall i :: 0 <= i < k ==> !Terminal(seen[i])
      invariant delivered <==> hasOnDelivered && exists i :: 0 <= i < k && seen[i] == Confirmed
      invariant calls == if delivered then [OnDelivered] else []
    {
      assert Reaches(seen, k);
      var state := seen[k];
      if (state == Confirmed || state == Complete) && hasOnDelivered && !delivered {
        delivered := true;
        calls := calls + [OnDelivered];
      }
      if state == Complete {
        ReachedEnd(seen, k);
        return;
      }
      if state == Failed {
        ReachedEnd(seen, k);
        return calls + [OnFailure];
      }
      k := k + 1;
    }
    assert !SawFailure(seen);
    if !delivered && hasOnDelivered { assert !SawDelivery(seen); }
    if i :| 0 <= i < k && seen[i] == Confirmed { assert Reaches(seen, i); }
  }

  lemma ReachedEnd(seen: seq<Seen>, k: nat)
    requires Reaches(seen, k) && Terminal(seen[k])
    ensures SawFailure(seen) <==> seen[k] == Failed
    ensures SawDelivery(seen) <==> seen[k] == Complete || exists i :: 0 <= i < k && seen[i] == Confirmed
  {
    if i :| 0 <= i < k && seen[i] == Confirmed { assert Reaches(seen, i); }
  }
}
