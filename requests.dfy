/** The withdraw-request registry: an append-only sequence of requests
    indexed by ID, each moving Pending -> Ready -> Done, the collateral the
    Ready ones hold locked, and the batch acceptance performed by the
    balancer. */
module Requests {
  import opened FixedPoint
  import opened Errors

  type Address = nat

  datatype Status = Pending | Ready | Done

  datatype WithdrawRequest = WithdrawRequest(
    receiver: Address,   // fixed when the request is made; the claim pays it
    amount: nat,         // in collateral precision
    status: Status,
    paybackRatio: nat)   // 18-decimal fixed point; 0 until accepted

  /** A request as `requestWithdraw` creates it. */
  function NewRequest(receiver: Address, amount: nat): (r: WithdrawRequest)
  {
    WithdrawRequest(receiver, amount, Pending, 0)
  }

  /** A Pending request accepted at `ratio`. */
  function Accepted(r: WithdrawRequest, ratio: nat): (accepted: WithdrawRequest)
  {
    r.(status := Ready, paybackRatio := ratio)
  }

  /** A Ready request after its claim. */
  function Claimed(r: WithdrawRequest): (claimed: WithdrawRequest)
  {
    r.(status := Done)
  }

  /** What a request's claim pays its receiver. */
  function ClaimAmount(r: WithdrawRequest): (paid: nat)
  {
    Payout(r.amount, r.paybackRatio)
  }

  /** Collateral a request holds locked: its claim amount while Ready. */
  function Locked(r: WithdrawRequest): (locked: nat)
  {
    if r.status == Ready then ClaimAmount(r) else 0
  }

  /** Collateral locked by all Ready requests of the registry. */
  function ReadyLocked(reqs: seq<WithdrawRequest>): (r: nat)
  {
    if reqs == [] then 0 else ReadyLocked(reqs[..|reqs| - 1]) + Locked(reqs[|reqs| - 1])
  }

  // ---------------------------------------------------------------------
  // Lifecycle: every change to a request is one forward step.

  function Rank(s: Status): (r: nat)
  {
    match s
    case Pending => 0
    case Ready => 1
    case Done => 2
  }

  /** `after` is `before` unchanged, or accepted from Pending, or claimed
      from Ready. Receiver and amount never change. */
  predicate Step(before: WithdrawRequest, after: WithdrawRequest)
  {
    after == before
    || (before.status == Pending && after == Accepted(before, after.paybackRatio))
    || (before.status == Ready && after == Claimed(before))
  }

  /** The registry after an operation: existing requests kept in place, each
      at most one step further, new ones only appended. */
  predicate Advances(before: seq<WithdrawRequest>, after: seq<WithdrawRequest>)
  {
    |before| <= |after| && forall i :: 0 <= i < |before| ==> Step(before[i], after[i])
  }

  /** A step never moves a status backwards, never skips Ready, and leaves a
      Done request as it is. */
  lemma StepIsForward(before: WithdrawRequest, after: WithdrawRequest)
    requires Step(before, after)
    ensures Rank(before.status) <= Rank(after.status) <= Rank(before.status) + 1
    ensures before.status == Done ==> after == before
    ensures after.receiver == before.receiver && after.amount == before.amount
  {
  }

  // ---------------------------------------------------------------------
  // The locked sum under appends and in-place updates

  lemma ReadyLockedAppend(reqs: seq<WithdrawRequest>, r: WithdrawRequest)
    ensures ReadyLocked(reqs + [r]) == ReadyLocked(reqs) + Locked(r)
  {
    assert (reqs + [r])[..|reqs|] == reqs;
  }

  /** Replacing request `i` by `r` changes the locked sum by exactly the
      difference of what the two lock. */
  lemma {:induction false} ReadyLockedUpdate(reqs: seq<WithdrawRequest>, i: nat, r: WithdrawRequest)
    requires i < |reqs|
    ensures ReadyLocked(reqs[i := r]) + Locked(reqs[i]) == ReadyLocked(reqs) + Locked(r)
  {
    var n := |reqs| - 1;
    if i == n {
      assert reqs[i := r][..n] == reqs[..n];
    } else {
      ReadyLockedUpdate(reqs[..n], i, r);
      assert reqs[i := r][..n] == reqs[..n][i := r];
    }
  }

  // ---------------------------------------------------------------------
  // Batch acceptance

  datatype BatchOutcome =
    | BatchAccepted(requests: seq<WithdrawRequest>, locked: nat)
    | BatchRejected(error: Error)

  /** The balancer's pass over `ids` in order, starting from `locked`: an
      out-of-range ID fails with InvalidRequestID, a request that is not
      (or no longer) Pending with InvalidAcceptedRequest; otherwise the
      request becomes Ready at `ratio` and its claim amount is added. */
  function AcceptBatch(reqs: seq<WithdrawRequest>, ids: seq<nat>, ratio: nat, locked: nat): (r: BatchOutcome)
    ensures r.BatchAccepted? ==> |r.requests| == |reqs| && r.locked >= locked
    decreases |ids|
  {
    if ids == [] then BatchAccepted(reqs, locked)
    else if ids[0] >= |reqs| then BatchRejected(InvalidRequestID)
    else if reqs[ids[0]].status != Pending then BatchRejected(InvalidAcceptedRequest)
    else
      AcceptBatch(reqs[ids[0] := Accepted(reqs[ids[0]], ratio)], ids[1..], ratio,
                  locked + Payout(reqs[ids[0]].amount, ratio))
  }

  /** The balancer's loop over the batch, on a working copy of the registry
      that is handed back only if every ID passes. */
  method RunBatch(reqs: seq<WithdrawRequest>, ids: seq<nat>, ratio: nat, locked: nat)
    returns (outcome: BatchOutcome)
    ensures outcome == AcceptBatch(reqs, ids, ratio, locked)
  {
    var current := reqs;
    var total: nat := locked;
    var i := 0;
    while i < |ids|
      invariant 0 <= i <= |ids|
      invariant AcceptBatch(current, ids[i..], ratio, total) == AcceptBatch(reqs, ids, ratio, locked)
    {
      var id := ids[i];
      if id >= |current| {
        return BatchRejected(InvalidRequestID);
      }
      if current[id].status != Pending {
        return BatchRejected(InvalidAcceptedRequest);
      }
      total := total + Payout(current[id].amount, ratio);
      current := current[id := Accepted(current[id], ratio)];
      assert ids[i..][1..] == ids[i + 1..];
      i := i + 1;
    }
    assert ids[i..] == [];
    outcome := BatchAccepted(current, total);
  }

  /** The k-th ID of the batch names an existing Pending request not named
      earlier in the batch. */
  predicate Acceptable(reqs: seq<WithdrawRequest>, ids: seq<nat>, k: nat)
    requires k < |ids|
  {
    ids[k] < |reqs| && reqs[ids[k]].status == Pending && ids[k] !in ids[..k]
  }

  /** Sum of the claim amounts, at `ratio`, of the requests `ids` names. */
  function BatchPayout(reqs: seq<WithdrawRequest>, ids: seq<nat>, ratio: nat): (r: nat)
    requires forall k :: 0 <= k < |ids| ==> ids[k] < |reqs|
  {
    if ids == [] then 0 else Payout(reqs[ids[0]].amount, ratio) + BatchPayout(reqs, ids[1..], ratio)
  }

  lemma {:induction false} BatchPayoutFrame(reqs: seq<WithdrawRequest>, other: seq<WithdrawRequest>, ids: seq<nat>, ratio: nat)
    requires |reqs| == |other|
    requires forall i :: 0 <= i < |reqs| ==> reqs[i].amount == other[i].amount
    requires forall k :: 0 <= k < |ids| ==> ids[k] < |reqs|
    ensures BatchPayout(reqs, ids, ratio) == BatchPayout(other, ids, ratio)
  {
    if ids != [] {
      BatchPayoutFrame(reqs, other, ids[1..], ratio);
    }
  }

  /** After the first ID is accepted, the remaining IDs are acceptable in
      the updated registry exactly when they were in the whole batch. */
  lemma AcceptableShift(reqs: seq<WithdrawRequest>, ids: seq<nat>, ratio: nat, j: nat)
    requires |ids| > 0 && Acceptable(reqs, ids, 0) && j + 1 < |ids|
    ensures Acceptable(reqs[ids[0] := Accepted(reqs[ids[0]], ratio)], ids[1..], j)
            <==> Acceptable(reqs, ids, j + 1)
  {
    assert ids[1..][j] == ids[j + 1];
    assert ids[1..][..j] == ids[1..j + 1];
    assert ids[..j + 1] == [ids[0]] + ids[1..j + 1];
  }

  /** After the first ID of an acceptable batch is accepted, the rest of
      the batch is acceptable against the updated registry and does not name
      that ID again. */
  lemma AcceptableTail(reqs: seq<WithdrawRequest>, ids: seq<nat>, ratio: nat,
                       reqs1: seq<WithdrawRequest>, rest: seq<nat>)
    requires |ids| > 0
    requires forall k :: 0 <= k < |ids| ==> Acceptable(reqs, ids, k)
    requires ids[0] < |reqs| && reqs1 == reqs[ids[0] := Accepted(reqs[ids[0]], ratio)] && rest == ids[1..]
    ensures reqs[ids[0]].status == Pending
    ensures forall j :: 0 <= j < |rest| ==> Acceptable(reqs1, rest, j)
    ensures ids[0] !in rest
    ensures forall i :: i in ids <==> i == ids[0] || i in rest
  {
    assert Acceptable(reqs, ids, 0);
    forall j | 0 <= j < |rest|
      ensures Acceptable(reqs1, rest, j)
    {
      assert Acceptable(reqs, ids, j + 1);
      AcceptableShift(reqs, ids, ratio, j);
    }
    forall k | 0 <= k < |rest| ensures rest[k] != ids[0] {
      assert Acceptable(reqs, ids, k + 1);
      assert ids[..k + 1][0] == ids[0];
    }
    assert ids == [ids[0]] + rest;
  }

  /** A batch whose every ID is acceptable is accepted: the named requests
      become Ready at `ratio`, all others are untouched, and the locked total
      grows by the batch's payout. */
  lemma {:induction false} BatchSucceeds(reqs: seq<WithdrawRequest>, ids: seq<nat>, ratio: nat, locked: nat)
    requires forall k :: 0 <= k < |ids| ==> Acceptable(reqs, ids, k)
    ensures forall k :: 0 <= k < |ids| ==> ids[k] < |reqs|
    ensures AcceptBatch(reqs, ids, ratio, locked).BatchAccepted?
    ensures var after := AcceptBatch(reqs, ids, ratio, locked).requests;
            && |after| == |reqs|
            && (forall i :: 0 <= i < |reqs| ==>
                  after[i] == if i in ids then Accepted(reqs[i], ratio) else reqs[i])
            && AcceptBatch(reqs, ids, ratio, locked).locked == locked + BatchPayout(reqs, ids, ratio)
            && Advances(reqs, after)
    decreases |ids|
  {
    assert forall k :: 0 <= k < |ids| ==> ids[k] < |reqs| by {
      forall k | 0 <= k < |ids| ensures ids[k] < |reqs| {
        assert Acceptable(reqs, ids, k);
      }
    }
    if ids != [] {
      var id := ids[0];
      var rest := ids[1..];
      var reqs1 := reqs[id := Accepted(reqs[id], ratio)];
      var p := Payout(reqs[id].amount, ratio);
      AcceptableTail(reqs, ids, ratio, reqs1, rest);
      BatchSucceeds(reqs1, rest, ratio, locked + p);
      assert AcceptBatch(reqs, ids, ratio, locked) == AcceptBatch(reqs1, rest, ratio, locked + p);
      BatchPayoutFrame(reqs1, reqs, rest, ratio);
    }
  }

  /** Accepting an acceptable batch grows the registry's locked sum by
      exactly the batch's payout. */
  lemma {:induction false} BatchLockedSum(reqs: seq<WithdrawRequest>, ids: seq<nat>, ratio: nat, locked: nat)
    requires forall k :: 0 <= k < |ids| ==> Acceptable(reqs, ids, k)
    ensures forall k :: 0 <= k < |ids| ==> ids[k] < |reqs|
    ensures AcceptBatch(reqs, ids, ratio, locked).BatchAccepted?
    ensures ReadyLocked(AcceptBatch(reqs, ids, ratio, locked).requests)
            == ReadyLocked(reqs) + BatchPayout(reqs, ids, ratio)
    decreases |ids|
  {
    if ids != [] {
      assert Acceptable(reqs, ids, 0);
      var id := ids[0];
      var rest := ids[1..];
      var reqs1 := reqs[id := Accepted(reqs[id], ratio)];
      var p := Payout(reqs[id].amount, ratio);
      AcceptableTail(reqs, ids, ratio, reqs1, rest);
      BatchLockedSum(reqs1, rest, ratio, locked + p);
      assert AcceptBatch(reqs, ids, ratio, locked) == AcceptBatch(reqs1, rest, ratio, locked + p);
      BatchPayoutFrame(reqs1, reqs, rest, ratio);
      assert BatchPayout(reqs, ids, ratio) == p + BatchPayout(reqs, rest, ratio);
      ReadyLockedUpdate(reqs, id, Accepted(reqs[id], ratio));
      assert ReadyLocked(reqs1) == ReadyLocked(reqs) + p;
    }
  }

  /** An accepted batch names only acceptable IDs. */
  lemma {:induction false} BatchAcceptedOnlyIfAcceptable(reqs: seq<WithdrawRequest>, ids: seq<nat>, ratio: nat, locked: nat)
    requires AcceptBatch(reqs, ids, ratio, locked).BatchAccepted?
    ensures forall k :: 0 <= k < |ids| ==> Acceptable(reqs, ids, k)
    decreases |ids|
  {
    if ids != [] {
      var id := ids[0];
      var reqs1 := reqs[id := Accepted(reqs[id], ratio)];
      BatchAcceptedOnlyIfAcceptable(reqs1, ids[1..], ratio, locked + Payout(reqs[id].amount, ratio));
      assert Acceptable(reqs, ids, 0);
      forall k | 0 < k < |ids| ensures Acceptable(reqs, ids, k) {
        assert Acceptable(reqs1, ids[1..], k - 1);
        AcceptableShift(reqs, ids, ratio, k - 1);
      }
    }
  }

  /** The first unacceptable ID decides the error: InvalidRequestID when it
      is out of range, InvalidAcceptedRequest when it names a request that is
      not Pending or was already named earlier in the batch. */
  lemma {:induction false} BatchFirstError(reqs: seq<WithdrawRequest>, ids: seq<nat>, ratio: nat, locked: nat, k: nat)
    requires k < |ids|
    requires forall j :: 0 <= j < k ==> Acceptable(reqs, ids, j)
    requires !Acceptable(reqs, ids, k)
    ensures AcceptBatch(reqs, ids, ratio, locked)
            == BatchRejected(if ids[k] >= |reqs| then InvalidRequestID else InvalidAcceptedRequest)
    decreases k
  {
    if k > 0 {
      assert Acceptable(reqs, ids, 0);
      var id := ids[0];
      var reqs1 := reqs[id := Accepted(reqs[id], ratio)];
      forall j | 0 <= j < k - 1 ensures Acceptable(reqs1, ids[1..], j) {
        assert Acceptable(reqs, ids, j + 1);
        AcceptableShift(reqs, ids, ratio, j);
      }
      AcceptableShift(reqs, ids, ratio, k - 1);
      BatchFirstError(reqs1, ids[1..], ratio, locked + Payout(reqs[id].amount, ratio), k - 1);
    }
  }

  /** Acceptance of a batch in both directions. */
  lemma BatchAcceptedIff(reqs: seq<WithdrawRequest>, ids: seq<nat>, ratio: nat, locked: nat)
    ensures AcceptBatch(reqs, ids, ratio, locked).BatchAccepted?
            <==> forall k :: 0 <= k < |ids| ==> Acceptable(reqs, ids, k)
  {
    if AcceptBatch(reqs, ids, ratio, locked).BatchAccepted? {
      BatchAcceptedOnlyIfAcceptable(reqs, ids, ratio, locked);
    } else if forall k :: 0 <= k < |ids| ==> Acceptable(reqs, ids, k) {
      BatchSucceeds(reqs, ids, ratio, locked);
    }
  }
}
