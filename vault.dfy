/** The SolverVault contract as a sequential state machine: users deposit
    collateral and receive vault tokens, a depositor forwards unlocked
    collateral to Symmio for the solver, users turn vault tokens into
    withdraw requests, a balancer accepts batches of requests at a payback
    ratio (locking their payout), and anyone claims a Ready request for its
    stored receiver. Every operation either succeeds in full or fails with
    an error and changes nothing. */
module Vault {
  import opened FixedPoint
  import opened Errors
  import opened Access
  import opened Requests

  datatype Event =
    | DepositEvent(user: Address, amount: nat)
    | DepositToSymmioEvent(caller: Address, solver: Address, amount: nat)
    | WithdrawRequestEvent(id: nat, receiver: Address, amount: nat)
    | WithdrawRequestAcceptedEvent(depositAmount: nat, ids: seq<nat>, ratio: nat)
    | WithdrawClaimedEvent(id: nat, receiver: Address)

  /** An external token ledger's `balanceOf`. */
  function BalanceOf(ledger: map<Address, nat>, a: Address): (balance: nat)
  {
    if a in ledger then ledger[a] else 0
  }

  function Credit(ledger: map<Address, nat>, a: Address, x: nat): (credited: map<Address, nat>)
  {
    ledger[a := BalanceOf(ledger, a) + x]
  }

  function Debit(ledger: map<Address, nat>, a: Address, x: nat): (debited: map<Address, nat>)
    requires x <= BalanceOf(ledger, a)
  {
    ledger[a := BalanceOf(ledger, a) - x]
  }

  /** A Pending request carries no ratio yet; an accepted one carries a
      ratio at or above the floor. */
  predicate RatioRecorded(r: WithdrawRequest, floor: nat)
  {
    (r.status == Pending ==> r.paybackRatio == 0)
    && (r.status != Pending ==> r.paybackRatio >= floor)
  }

  /** Appending a request with a recorded ratio keeps every ratio recorded,
      only extends the registry, and adds what it locks to the locked sum. */
  lemma RegistryAppend(reqs: seq<WithdrawRequest>, r: WithdrawRequest, floor: nat)
    requires forall i :: 0 <= i < |reqs| ==> RatioRecorded(reqs[i], floor)
    requires RatioRecorded(r, floor)
    ensures forall i :: 0 <= i < |reqs + [r]| ==> RatioRecorded((reqs + [r])[i], floor)
    ensures Advances(reqs, reqs + [r])
    ensures ReadyLocked(reqs + [r]) == ReadyLocked(reqs) + Locked(r)
  {
    ReadyLockedAppend(reqs, r);
    assert forall i :: 0 <= i < |reqs| ==> (reqs + [r])[i] == reqs[i];
  }

  /** Claiming a Ready request keeps every ratio recorded, moves only that
      request one step, and releases exactly its payout from the locked sum. */
  lemma RegistryClaim(reqs: seq<WithdrawRequest>, id: nat, after: seq<WithdrawRequest>, floor: nat)
    requires id < |reqs| && reqs[id].status == Ready
    requires after == reqs[id := Claimed(reqs[id])]
    requires forall i :: 0 <= i < |reqs| ==> RatioRecorded(reqs[i], floor)
    ensures forall i :: 0 <= i < |after| ==> RatioRecorded(after[i], floor)
    ensures Advances(reqs, after)
    ensures ReadyLocked(after) + ClaimAmount(reqs[id]) == ReadyLocked(reqs)
  {
    ReadyLockedUpdate(reqs, id, Claimed(reqs[id]));
  }

  /** Accepting a batch keeps every ratio recorded, moves each named
      request from Pending to Ready and leaves the registry's locked sum equal
      to the batch's locked total. */
  lemma RegistryAccept(reqs: seq<WithdrawRequest>, ids: seq<nat>, ratio: nat, locked: nat, floor: nat)
    requires AcceptBatch(reqs, ids, ratio, locked).BatchAccepted?
    requires ratio >= floor && locked == ReadyLocked(reqs)
    requires forall i :: 0 <= i < |reqs| ==> RatioRecorded(reqs[i], floor)
    ensures var after := AcceptBatch(reqs, ids, ratio, locked).requests;
            && (forall i :: 0 <= i < |after| ==> RatioRecorded(after[i], floor))
            && ReadyLocked(after) == AcceptBatch(reqs, ids, ratio, locked).locked
            && Advances(reqs, after)
            && forall k :: 0 <= k < |ids| ==>
                 ids[k] < |reqs| == |after|
                 && reqs[ids[k]].status == Pending
                 && after[ids[k]] == Accepted(reqs[ids[k]], ratio)
  {
    BatchAcceptedIff(reqs, ids, ratio, locked);
    BatchSucceeds(reqs, ids, ratio, locked);
    BatchLockedSum(reqs, ids, ratio, locked);
    forall k | 0 <= k < |ids|
      ensures reqs[ids[k]].status == Pending
    {
      assert Acceptable(reqs, ids, k);
    }
    forall k | 0 <= k < |ids|
      ensures ids[k] in ids
    {
    }
  }

  /** Snapshot of everything an operation may change. */
  datatype VaultState = VaultState(
    collateralBalance: nat,
    currentDeposit: nat,
    lockedBalance: nat,
    depositLimit: nat,
    paused: bool,
    withdrawRequests: seq<WithdrawRequest>,
    collateralOf: map<Address, nat>,
    vaultTokenOf: map<Address, nat>,
    symmioBalance: map<Address, nat>,
    events: seq<Event>)

  class SolverVault {
    const collateralDecimals: nat
    const vaultDecimals: nat
    const solver: Address
    const minimumPaybackRatio: nat     // 18-decimal fixed point
    const roles: map<Address, set<Role>>

    var collateralBalance: nat          // the vault's own collateral-token balance
    var currentDeposit: nat
    var lockedBalance: nat
    var depositLimit: nat
    var paused: bool
    var withdrawRequests: seq<WithdrawRequest>
    var collateralOf: map<Address, nat> // collateral-token balances of everyone else
    var vaultTokenOf: map<Address, nat> // vault-token balances
    var symmioBalance: map<Address, nat>
    var events: seq<Event>

    ghost function State(): (snapshot: VaultState)
      reads this
    {
      VaultState(collateralBalance, currentDeposit, lockedBalance, depositLimit, paused,
                 withdrawRequests, collateralOf, vaultTokenOf, symmioBalance, events)
    }

    /** The locked balance is exactly what the Ready requests will pay, and
        never more than the collateral on hand. */
    ghost predicate Valid()
      reads this
    {
      lockedBalance == ReadyLocked(withdrawRequests)
      && lockedBalance <= collateralBalance
      && forall i :: 0 <= i < |withdrawRequests| ==> RatioRecorded(withdrawRequests[i], minimumPaybackRatio)
    }

    function RolesOf(a: Address): (held: set<Role>)
      reads this
    {
      if a in roles then roles[a] else {}
    }

    /** `initialize`, with the role grants of the deployment already made. */
    constructor (collateralDecimals: nat, vaultDecimals: nat, solver: Address,
                 minimumPaybackRatio: nat, depositLimit: nat,
                 roles: map<Address, set<Role>>, collateralOf: map<Address, nat>)
      ensures Valid()
      ensures this.collateralDecimals == collateralDecimals && this.vaultDecimals == vaultDecimals
      ensures this.solver == solver && this.minimumPaybackRatio == minimumPaybackRatio
      ensures this.roles == roles
      ensures State() == VaultState(0, 0, 0, depositLimit, false, [], collateralOf, map[], map[], [])
    {
      this.collateralDecimals := collateralDecimals;
      this.vaultDecimals := vaultDecimals;
      this.solver := solver;
      this.minimumPaybackRatio := minimumPaybackRatio;
      this.roles := roles;
      this.depositLimit := depositLimit;
      this.collateralOf := collateralOf;
      collateralBalance, currentDeposit, lockedBalance := 0, 0, 0;
      paused := false;
      withdrawRequests := [];
      vaultTokenOf, symmioBalance := map[], map[];
      events := [];
    }

    /** `deposit(amount)`: checked against the limit, then pulls the
        collateral from the caller and mints its vault-precision amount. */
    method Deposit(caller: Address, amount: nat) returns (r: Outcome)
      requires Valid()
      modifies this
      ensures Valid()
      ensures old(paused) ==> r == Fail(Paused)
      ensures !old(paused) && old(currentDeposit) + amount > old(depositLimit)
              ==> r == Fail(DepositLimitReached)
      ensures !old(paused) && old(currentDeposit) + amount <= old(depositLimit)
              && BalanceOf(old(collateralOf), caller) < amount
              ==> r == Fail(TransferFailed)
      ensures r.Ok? <==> !old(paused) && old(currentDeposit) + amount <= old(depositLimit)
                         && amount <= BalanceOf(old(collateralOf), caller)
      ensures r.Fail? ==> State() == old(State())
      ensures r.Ok? ==> currentDeposit <= depositLimit
      ensures r.Ok? ==> State() == old(State()).(
                collateralBalance := old(collateralBalance) + amount,
                currentDeposit := old(currentDeposit) + amount,
                collateralOf := Debit(old(collateralOf), caller, amount),
                vaultTokenOf := Credit(old(vaultTokenOf), caller,
                                       ToVaultDecimals(amount, collateralDecimals, vaultDecimals)),
                events := old(events) + [DepositEvent(caller, amount)])
    {
      if paused {
        return Fail(Paused);
      }
      if currentDeposit + amount > depositLimit {
        return Fail(DepositLimitReached);
      }
      if BalanceOf(collateralOf, caller) < amount {
        return Fail(TransferFailed);
      }
      collateralOf := Debit(collateralOf, caller, amount);
      collateralBalance := collateralBalance + amount;
      vaultTokenOf := Credit(vaultTokenOf, caller, ToVaultDecimals(amount, collateralDecimals, vaultDecimals));
      currentDeposit := currentDeposit + amount;
      events := events + [DepositEvent(caller, amount)];
      r := Ok;
    }

    /** `depositToSymmio(amount)`: forwards collateral to Symmio for the
        solver, never from the locked part. */
    method DepositToSymmio(caller: Address, amount: nat) returns (r: Outcome)
      requires Valid()
      modifies this
      ensures Valid()
      ensures !Authorized(RolesOf(caller), Operation.DepositToSymmio) ==> r == Fail(Unauthorized)
      ensures Authorized(RolesOf(caller), Operation.DepositToSymmio) && old(paused) ==> r == Fail(Paused)
      ensures Authorized(RolesOf(caller), Operation.DepositToSymmio) && !old(paused)
              && old(lockedBalance) + amount > old(collateralBalance)
              ==> r == Fail(InsufficientContractBalance)
      ensures r.Ok? <==> Authorized(RolesOf(caller), Operation.DepositToSymmio) && !old(paused)
                         && amount <= old(collateralBalance) - old(lockedBalance)
      ensures r.Fail? ==> State() == old(State())
      ensures r.Ok? ==> State() == old(State()).(
                collateralBalance := old(collateralBalance) - amount,
                symmioBalance := Credit(old(symmioBalance), solver, amount),
                events := old(events) + [DepositToSymmioEvent(caller, solver, amount)])
    {
      if !Authorized(RolesOf(caller), Operation.DepositToSymmio) {
        return Fail(Unauthorized);
      }
      if paused {
        return Fail(Paused);
      }
      if amount > collateralBalance - lockedBalance {
        return Fail(InsufficientContractBalance);
      }
      collateralBalance := collateralBalance - amount;
      symmioBalance := Credit(symmioBalance, solver, amount);
      events := events + [DepositToSymmioEvent(caller, solver, amount)];
      r := Ok;
    }

    /** `requestWithdraw(amount, receiver)`: burns `amount` vault tokens,
        frees their collateral value of deposit headroom and appends a
        Pending request for that value at the next ID. */
    method RequestWithdraw(caller: Address, amount: nat, receiver: Address) returns (r: Result<nat>)
      requires Valid()
      modifies this
      ensures Valid()
      ensures old(paused) ==> r == Failure(Paused)
      ensures !old(paused) && BalanceOf(old(vaultTokenOf), caller) < amount
              ==> r == Failure(InsufficientTokenBalance)
      ensures !old(paused) && amount <= BalanceOf(old(vaultTokenOf), caller)
              && ToCollateralDecimals(amount, collateralDecimals, vaultDecimals) > old(currentDeposit)
              ==> r == Failure(ArithmeticUnderflow)
      ensures r.Success? <==> !old(paused) && amount <= BalanceOf(old(vaultTokenOf), caller)
                              && ToCollateralDecimals(amount, collateralDecimals, vaultDecimals) <= old(currentDeposit)
      ensures r.Failure? ==> State() == old(State())
      ensures r.Success? ==>
                var value := ToCollateralDecimals(amount, collateralDecimals, vaultDecimals);
                && r.value == |old(withdrawRequests)|
                && State() == old(State()).(
                     currentDeposit := old(currentDeposit) - value,
                     vaultTokenOf := Debit(old(vaultTokenOf), caller, amount),
                     withdrawRequests := old(withdrawRequests) + [NewRequest(receiver, value)],
                     events := old(events) + [WithdrawRequestEvent(r.value, receiver, value)])
                && withdrawRequests[r.value] == NewRequest(receiver, value)
                && Advances(old(withdrawRequests), withdrawRequests)
    {
      if paused {
        return Failure(Paused);
      }
      if BalanceOf(vaultTokenOf, caller) < amount {
        return Failure(InsufficientTokenBalance);
      }
      var value := ToCollateralDecimals(amount, collateralDecimals, vaultDecimals);
      if value > currentDeposit {
        return Failure(ArithmeticUnderflow);
      }
      Burn(caller, amount, value);
      var id := Record(receiver, value);
      r := Success(id);
    }

    /** The ledger part of a successful withdrawal request: the vault tokens
        are burnt and their collateral value of headroom is freed. */
    method Burn(caller: Address, amount: nat, value: nat)
      requires Valid()
      requires amount <= BalanceOf(vaultTokenOf, caller) && value <= currentDeposit
      modifies this
      ensures Valid()
      ensures State() == old(State()).(
                currentDeposit := old(currentDeposit) - value,
                vaultTokenOf := Debit(old(vaultTokenOf), caller, amount))
    {
      vaultTokenOf := Debit(vaultTokenOf, caller, amount);
      currentDeposit := currentDeposit - value;
    }

    /** The registry part of a successful withdrawal request: a Pending
        request for `value` is appended at the next ID, which is returned. */
    method Record(receiver: Address, value: nat) returns (id: nat)
      requires Valid()
      modifies this
      ensures Valid()
      ensures id == |old(withdrawRequests)|
      ensures State() == old(State()).(
                withdrawRequests := old(withdrawRequests) + [NewRequest(receiver, value)],
                events := old(events) + [WithdrawRequestEvent(id, receiver, value)])
      ensures withdrawRequests[id] == NewRequest(receiver, value)
      ensures Advances(old(withdrawRequests), withdrawRequests)
    {
      id := |withdrawRequests|;
      var reqs := withdrawRequests + [NewRequest(receiver, value)];
      RegistryAppend(withdrawRequests, NewRequest(receiver, value), minimumPaybackRatio);
      assert ReadyLocked(reqs) == lockedBalance;
      withdrawRequests := reqs;
      events := events + [WithdrawRequestEvent(id, receiver, value)];
      assert ReadyLocked(withdrawRequests) == lockedBalance <= collateralBalance;
      assert forall i :: 0 <= i < |withdrawRequests| ==> RatioRecorded(withdrawRequests[i], minimumPaybackRatio);
      assert Valid();
    }

    /** `acceptWithdrawRequest(depositAmount, ids, ratio)`: validates every
        ID of the batch in order, checks the ratio against the floor, pulls
        the optional top-up from the balancer, and checks that the collateral
        then on hand covers everything locked; on success the batch's
        requests become Ready at `ratio` and their payouts are locked. */
    method AcceptWithdrawRequest(caller: Address, depositAmount: nat, ids: seq<nat>, ratio: nat)
      returns (r: Outcome)
      requires Valid()
      modifies this
      ensures Valid()
      ensures !Authorized(RolesOf(caller), Operation.AcceptWithdrawRequest) ==> r == Fail(Unauthorized)
      ensures Authorized(RolesOf(caller), Operation.AcceptWithdrawRequest) && old(paused)
              ==> r == Fail(Paused)
      ensures var batch := AcceptBatch(old(withdrawRequests), ids, ratio, old(lockedBalance));
              Authorized(RolesOf(caller), Operation.AcceptWithdrawRequest) && !old(paused)
              && batch.BatchRejected?
              ==> r == Fail(batch.error)
      ensures var batch := AcceptBatch(old(withdrawRequests), ids, ratio, old(lockedBalance));
              Authorized(RolesOf(caller), Operation.AcceptWithdrawRequest) && !old(paused)
              && batch.BatchAccepted? && ratio < minimumPaybackRatio
              ==> r == Fail(PaybackRatioTooLow)
      ensures var batch := AcceptBatch(old(withdrawRequests), ids, ratio, old(lockedBalance));
              Authorized(RolesOf(caller), Operation.AcceptWithdrawRequest) && !old(paused)
              && batch.BatchAccepted? && ratio >= minimumPaybackRatio
              && BalanceOf(old(collateralOf), caller) < depositAmount
              ==> r == Fail(TransferFailed)
      ensures var batch := AcceptBatch(old(withdrawRequests), ids, ratio, old(lockedBalance));
              Authorized(RolesOf(caller), Operation.AcceptWithdrawRequest) && !old(paused)
              && batch.BatchAccepted? && ratio >= minimumPaybackRatio
              && depositAmount <= BalanceOf(old(collateralOf), caller)
              && old(collateralBalance) + depositAmount < batch.locked
              ==> r == Fail(InsufficientContractBalance)
      ensures var batch := AcceptBatch(old(withdrawRequests), ids, ratio, old(lockedBalance));
              r.Ok? <==> Authorized(RolesOf(caller), Operation.AcceptWithdrawRequest) && !old(paused)
                         && batch.BatchAccepted? && ratio >= minimumPaybackRatio
                         && depositAmount <= BalanceOf(old(collateralOf), caller)
                         && batch.locked <= old(collateralBalance) + depositAmount
      ensures r.Fail? ==> State() == old(State())
      ensures r.Ok? ==>
                var batch := AcceptBatch(old(withdrawRequests), ids, ratio, old(lockedBalance));
                State() == old(State()).(
                  collateralBalance := old(collateralBalance) + depositAmount,
                  collateralOf := Debit(old(collateralOf), caller, depositAmount),
                  withdrawRequests := batch.requests,
                  lockedBalance := batch.locked,
                  events := old(events) + [WithdrawRequestAcceptedEvent(depositAmount, ids, ratio)])
      ensures r.Ok? ==> Advances(old(withdrawRequests), withdrawRequests)
      ensures r.Ok? ==> forall k :: 0 <= k < |ids| ==>
                ids[k] < |old(withdrawRequests)| == |withdrawRequests|
                && old(withdrawRequests)[ids[k]].status == Pending
                && withdrawRequests[ids[k]] == Accepted(old(withdrawRequests)[ids[k]], ratio)
    {
      if !Authorized(RolesOf(caller), Operation.AcceptWithdrawRequest) {
        return Fail(Unauthorized);
      }
      if paused {
        return Fail(Paused);
      }
      var batch := RunBatch(withdrawRequests, ids, ratio, lockedBalance);
      if batch.BatchRejected? {
        return Fail(batch.error);
      }
      if ratio < minimumPaybackRatio {
        return Fail(PaybackRatioTooLow);
      }
      if BalanceOf(collateralOf, caller) < depositAmount {
        return Fail(TransferFailed);
      }
      if collateralBalance + depositAmount < batch.locked {
        return Fail(InsufficientContractBalance);
      }
      Commit(caller, depositAmount, ids, ratio, batch);
      r := Ok;
    }

    /** The successful part of an acceptance: the top-up moves into the
        vault and the accepted batch replaces the registry and the locked
        balance. */
    method Commit(caller: Address, depositAmount: nat, ids: seq<nat>, ratio: nat, batch: BatchOutcome)
      requires Valid()
      requires batch == AcceptBatch(withdrawRequests, ids, ratio, lockedBalance) && batch.BatchAccepted?
      requires ratio >= minimumPaybackRatio
      requires depositAmount <= BalanceOf(collateralOf, caller)
      requires batch.locked <= collateralBalance + depositAmount
      modifies this
      ensures Valid()
      ensures State() == old(State()).(
                collateralBalance := old(collateralBalance) + depositAmount,
                collateralOf := Debit(old(collateralOf), caller, depositAmount),
                withdrawRequests := batch.requests,
                lockedBalance := batch.locked,
                events := old(events) + [WithdrawRequestAcceptedEvent(depositAmount, ids, ratio)])
      ensures Advances(old(withdrawRequests), withdrawRequests)
      ensures forall k :: 0 <= k < |ids| ==>
                ids[k] < |old(withdrawRequests)| == |withdrawRequests|
                && old(withdrawRequests)[ids[k]].status == Pending
                && withdrawRequests[ids[k]] == Accepted(old(withdrawRequests)[ids[k]], ratio)
    {
      RegistryAccept(withdrawRequests, ids, ratio, lockedBalance, minimumPaybackRatio);
      var reqs := batch.requests;
      collateralOf := Debit(collateralOf, caller, depositAmount);
      collateralBalance := collateralBalance + depositAmount;
      withdrawRequests := reqs;
      lockedBalance := batch.locked;
      events := events + [WithdrawRequestAcceptedEvent(depositAmount, ids, ratio)];
      assert Valid();
    }

    /** `claimForWithdrawRequest(id)`: anyone may call it; a Ready request
        becomes Done, its payout leaves the locked balance and is paid to
        the receiver stored in the request. */
    method ClaimForWithdrawRequest(id: nat) returns (r: Outcome)
      requires Valid()
      modifies this
      ensures Valid()
      ensures old(paused) ==> r == Fail(Paused)
      ensures !old(paused) && id >= |old(withdrawRequests)| ==> r == Fail(InvalidRequestID)
      ensures !old(paused) && id < |old(withdrawRequests)| && old(withdrawRequests)[id].status != Ready
              ==> r == Fail(RequestNotReady)
      ensures r.Ok? <==> !old(paused) && id < |old(withdrawRequests)|
                         && old(withdrawRequests)[id].status == Ready
      ensures r.Fail? ==> State() == old(State())
      ensures r.Ok? ==>
                var req := old(withdrawRequests)[id];
                var paid := ClaimAmount(req);
                && paid <= old(lockedBalance) <= old(collateralBalance)
                && State() == old(State()).(
                     collateralBalance := old(collateralBalance) - paid,
                     lockedBalance := old(lockedBalance) - paid,
                     withdrawRequests := old(withdrawRequests)[id := Claimed(req)],
                     collateralOf := Credit(old(collateralOf), req.receiver, paid),
                     events := old(events) + [WithdrawClaimedEvent(id, req.receiver)])
      ensures r.Ok? ==> Advances(old(withdrawRequests), withdrawRequests)
    {
      if paused {
        return Fail(Paused);
      }
      if id >= |withdrawRequests| {
        return Fail(InvalidRequestID);
      }
      if withdrawRequests[id].status != Ready {
        return Fail(RequestNotReady);
      }
      Settle(id);
      r := Ok;
    }

    /** The successful part of a claim: request `id` becomes Done and its
        payout leaves the vault for the receiver. */
    method Settle(id: nat)
      requires Valid()
      requires id < |withdrawRequests| && withdrawRequests[id].status == Ready
      modifies this
      ensures Valid()
      ensures var req := old(withdrawRequests)[id];
              var paid := ClaimAmount(req);
              && paid <= old(lockedBalance) <= old(collateralBalance)
              && State() == old(State()).(
                   collateralBalance := old(collateralBalance) - paid,
                   lockedBalance := old(lockedBalance) - paid,
                   withdrawRequests := old(withdrawRequests)[id := Claimed(req)],
                   collateralOf := Credit(old(collateralOf), req.receiver, paid),
                   events := old(events) + [WithdrawClaimedEvent(id, req.receiver)])
      ensures Advances(old(withdrawRequests), withdrawRequests)
    {
      var req := withdrawRequests[id];
      var paid := Payout(req.amount, req.paybackRatio);
      RegistryClaim(withdrawRequests, id, withdrawRequests[id := Claimed(req)], minimumPaybackRatio);
      assert paid == ClaimAmount(req) <= lockedBalance;
      withdrawRequests := withdrawRequests[id := Claimed(req)];
      lockedBalance := lockedBalance - paid;
      collateralBalance := collateralBalance - paid;
      collateralOf := Credit(collateralOf, req.receiver, paid);
      events := events + [WithdrawClaimedEvent(id, req.receiver)];
      assert Valid();
    }

    /** `setDepositLimit(limit)`, for the setter role. */
    method SetDepositLimit(caller: Address, limit: nat) returns (r: Outcome)
      requires Valid()
      modifies this
      ensures Valid()
      ensures r.Ok? <==> Authorized(RolesOf(caller), Operation.SetDepositLimit)
      ensures r.Fail? ==> r.error == Unauthorized && State() == old(State())
      ensures r.Ok? ==> State() == old(State()).(depositLimit := limit)
    {
      if !Authorized(RolesOf(caller), Operation.SetDepositLimit) {
        return Fail(Unauthorized);
      }
      depositLimit := limit;
      r := Ok;
    }

    /** `pause()`, for the pauser role; pausing twice fails. */
    method Pause(caller: Address) returns (r: Outcome)
      requires Valid()
      modifies this
      ensures Valid()
      ensures !Authorized(RolesOf(caller), Operation.Pause) ==> r == Fail(Unauthorized)
      ensures Authorized(RolesOf(caller), Operation.Pause) && old(paused) ==> r == Fail(Paused)
      ensures r.Ok? <==> Authorized(RolesOf(caller), Operation.Pause) && !old(paused)
      ensures r.Fail? ==> State() == old(State())
      ensures r.Ok? ==> State() == old(State()).(paused := true)
    {
      if !Authorized(RolesOf(caller), Operation.Pause) {
        return Fail(Unauthorized);
      }
      if paused {
        return Fail(Paused);
      }
      paused := true;
      r := Ok;
    }

    /** `unpause()`, for the unpauser role; unpausing a running vault fails. */
    method Unpause(caller: Address) returns (r: Outcome)
      requires Valid()
      modifies this
      ensures Valid()
      ensures !Authorized(RolesOf(caller), Operation.Unpause) ==> r == Fail(Unauthorized)
      ensures Authorized(RolesOf(caller), Operation.Unpause) && !old(paused) ==> r == Fail(NotPaused)
      ensures r.Ok? <==> Authorized(RolesOf(caller), Operation.Unpause) && old(paused)
      ensures r.Fail? ==> State() == old(State())
      ensures r.Ok? ==> State() == old(State()).(paused := false)
    {
      if !Authorized(RolesOf(caller), Operation.Unpause) {
        return Fail(Unauthorized);
      }
      if !paused {
        return Fail(NotPaused);
      }
      paused := false;
      r := Ok;
    }
  }
}
