/** The test suite's scenarios replayed against the vault's contracts:
    6-decimal collateral, 8-decimal vault token, a deposit limit of 100000
    whole units and a payback-ratio floor of 0.5. Each method's
    postcondition is what the corresponding test expects. */
module Scenarios {
  import opened FixedPoint
  import opened Errors
  import opened Access
  import opened Requests
  import opened Vault

  const OwnerAccount: Address := 1
  const UserAccount: Address := 2
  const DepositorAccount: Address := 3
  const BalancerAccount: Address := 4
  const ReceiverAccount: Address := 5
  const SetterAccount: Address := 6
  const PauserAccount: Address := 7
  const UnpauserAccount: Address := 8
  const SolverAccount: Address := 9
  const OtherAccount: Address := 10

  const DepositLimit: nat := 100_000_000_000_000_000_000_000  // 100000 whole units at 18 decimals
  const PaybackFloor: nat := 500_000_000_000_000_000   // 0.5
  const SeventyPercent: nat := 700_000_000_000_000_000 // 0.70

  function TestRoles(): map<Address, set<Role>>
  {
    map[DepositorAccount := {Depositor}, BalancerAccount := {Balancer},
        SetterAccount := {Setter}, PauserAccount := {Pauser}, UnpauserAccount := {Unpauser}]
  }

  /** 500 units of 6-decimal collateral are 500 whole vault tokens at 8
      decimals, and back. */
  lemma FiveHundredUnits()
    ensures ToVaultDecimals(500_000_000, 6, 8) == 50_000_000_000
    ensures ToCollateralDecimals(50_000_000_000, 6, 8) == 500_000_000
    ensures ToVaultDecimals(1_000_000, 6, 8) == 100_000_000
    ensures ToCollateralDecimals(100_000_000, 6, 8) == 1_000_000
  {
    assert Pow10(2) == 100;
  }

  /** The test's single-request batch `[0]` at ratio 0.70. */
  lemma SingleBatch(reqs: seq<WithdrawRequest>, locked: nat)
    requires |reqs| >= 1 && reqs[0] == NewRequest(ReceiverAccount, 500_000_000)
    ensures AcceptBatch(reqs, [0], SeventyPercent, locked)
            == BatchAccepted(reqs[0 := Accepted(reqs[0], SeventyPercent)], locked + 350_000_000)
  {
    assert Payout(500_000_000, SeventyPercent) == 350_000_000;
    assert [0][1..] == [];
  }

  /** The deployment of the test suite's `beforeEach`, with `collateral`
      already minted to each account. */
  method Deploy(collateral: map<Address, nat>) returns (v: SolverVault)
    ensures fresh(v) && v.Valid()
    ensures v.collateralDecimals == 6 && v.vaultDecimals == 8
    ensures v.solver == SolverAccount && v.minimumPaybackRatio == PaybackFloor
    ensures v.roles == TestRoles()
    ensures v.State() == VaultState(0, 0, 0, DepositLimit, false, [], collateral, map[], map[], [])
  {
    v := new SolverVault(6, 8, SolverAccount, PaybackFloor, DepositLimit, TestRoles(), collateral);
  }

  /** The pauser pauses and the unpauser unpauses; a caller without those
      roles is refused both. */
  method PauseRoles() returns (pause: Outcome, unpause: Outcome, otherPause: Outcome,
                               otherUnpause: Outcome)
    ensures pause == Ok && unpause == Ok
    ensures otherPause == Fail(Unauthorized) && otherUnpause == Fail(Unauthorized)
  {
    var v := Deploy(map[]);
    pause := v.Pause(PauserAccount);
    unpause := v.Unpause(UnpauserAccount);
    otherPause := v.Pause(OtherAccount);
    otherUnpause := v.Unpause(OtherAccount);
  }

  /** The setter changes the deposit limit; another caller is refused. */
  method DepositLimitRole() returns (setLimit: Outcome, otherLimit: Outcome)
    ensures setLimit == Ok && otherLimit == Fail(Unauthorized)
  {
    var v := Deploy(map[]);
    setLimit := v.SetDepositLimit(SetterAccount, 1000);
    otherLimit := v.SetDepositLimit(OtherAccount, 1000);
  }

  /** Depositing one whole unit emits the Deposit event for the user and the
      unit, mints one whole vault token, and the vault holds the unit and
      counts it as deposited. */
  method DepositOneUnit() returns (r: Outcome, event: Event, minted: nat, held: nat, deposited: nat)
    ensures r == Ok && event == DepositEvent(UserAccount, 1_000_000)
    ensures minted == 100_000_000 && held == 1_000_000 && deposited == 1_000_000
  {
    var v := Deploy(map[UserAccount := 1_000_000]);
    r := v.Deposit(UserAccount, 1_000_000);
    event := v.events[|v.events| - 1];
    minted := BalanceOf(v.vaultTokenOf, UserAccount);
    held := v.collateralBalance;
    deposited := v.currentDeposit;
  }

  /** Deposits fail while paused, for a caller without collateral, and above
      the limit (before any transfer is attempted). */
  method DepositFailures() returns (whilePaused: Outcome, noFunds: Outcome, overLimit: Outcome)
    ensures whilePaused == Fail(Paused)
    ensures noFunds == Fail(TransferFailed)
    ensures overLimit == Fail(DepositLimitReached)
  {
    var v := Deploy(map[UserAccount := 1_000_000]);
    overLimit := v.Deposit(UserAccount, DepositLimit + 1);
    noFunds := v.Deposit(OtherAccount, 1_000_000);
    var p := v.Pause(PauserAccount);
    whilePaused := v.Deposit(UserAccount, 1_000_000);
  }

  /** Headroom is released by the withdraw request itself: a deposit that
      would overshoot the limit by one base unit fails, and succeeds once the
      earlier depositor has requested the withdrawal of everything. */
  method HeadroomFreedByRequest() returns (before: Outcome, request: Result<nat>, after: Outcome)
    ensures before == Fail(DepositLimitReached)
    ensures request == Success(0)
    ensures after == Ok
  {
    var amount := DepositLimit - 1_000_000 + 1;
    FiveHundredUnits();
    var v := Deploy(map[UserAccount := 1_000_000 + amount]);
    var first := v.Deposit(UserAccount, 1_000_000);
    assert first == Ok;
    assert v.currentDeposit == 1_000_000 && v.depositLimit == DepositLimit;
    assert BalanceOf(v.vaultTokenOf, UserAccount) == 100_000_000;
    assert BalanceOf(v.collateralOf, UserAccount) == amount;
    before := v.Deposit(OtherAccount, amount);
    assert v.currentDeposit == 1_000_000 && !v.paused;
    request := v.RequestWithdraw(UserAccount, 100_000_000, OwnerAccount);
    assert v.currentDeposit == 0 && v.depositLimit == DepositLimit && !v.paused;
    assert BalanceOf(v.collateralOf, UserAccount) == amount;
    after := v.Deposit(UserAccount, amount);
  }

  /** Forwarding to Symmio is refused while paused. */
  method ForwardWhilePaused() returns (r: Outcome)
    ensures r == Fail(Paused)
  {
    var v := Deploy(map[UserAccount := 500_000_000]);
    var d := v.Deposit(UserAccount, 500_000_000);
    var p := v.Pause(PauserAccount);
    r := v.DepositToSymmio(DepositorAccount, 500_000_000);
  }

  /** A withdrawal request is refused while paused, and for a caller who
      holds no vault tokens. */
  method RequestRefusals() returns (whilePaused: Result<nat>, noTokens: Result<nat>)
    ensures whilePaused == Failure(Paused)
    ensures noTokens == Failure(InsufficientTokenBalance)
  {
    FiveHundredUnits();
    var v := Deploy(map[UserAccount := 500_000_000]);
    var d := v.Deposit(UserAccount, 500_000_000);
    noTokens := v.RequestWithdraw(OtherAccount, 50_000_000_000, ReceiverAccount);
    var p := v.Pause(PauserAccount);
    whilePaused := v.RequestWithdraw(UserAccount, 50_000_000_000, ReceiverAccount);
  }

  /** Any amount within the limit, deposited and then redeemed with exactly
      the vault tokens it minted, comes back as a request for the same
      collateral amount (the vault token has more decimals than the
      collateral, so nothing is truncated). */
  method DepositThenRequestAll(amount: nat) returns (r: Result<nat>, request: WithdrawRequest)
    requires amount <= DepositLimit
    ensures r == Success(0)
    ensures request == NewRequest(ReceiverAccount, amount)
  {
    var v := Deploy(map[UserAccount := amount]);
    var d := v.Deposit(UserAccount, amount);
    var minted := ToVaultDecimals(amount, 6, 8);
    ScaleUpRoundTrip(amount, 6, 8);
    r := v.RequestWithdraw(UserAccount, minted, ReceiverAccount);
    request := v.withdrawRequests[0];
  }

  /** Forwarding the whole deposit to Symmio emits the DepositToSymmio event
      naming the depositor, the solver and the amount, and credits the solver
      with it; a caller without the depositor role is refused. */
  method ForwardDeposit() returns (refused: Outcome, r: Outcome, event: Event, credited: nat)
    ensures refused == Fail(Unauthorized)
    ensures r == Ok && event == DepositToSymmioEvent(DepositorAccount, SolverAccount, 500_000_000)
    ensures credited == 500_000_000
  {
    var v := Deploy(map[UserAccount := 500_000_000]);
    var d := v.Deposit(UserAccount, 500_000_000);
    refused := v.DepositToSymmio(OtherAccount, 500_000_000);
    r := v.DepositToSymmio(DepositorAccount, 500_000_000);
    event := v.events[|v.events| - 1];
    credited := BalanceOf(v.symmioBalance, SolverAccount);
  }

  /** A request for all 500 units' vault tokens emits the request event for
      ID 0, the receiver and 500 units, and is request 0, for the receiver, of
      500 units, Pending with no ratio. */
  method RequestAll() returns (r: Result<nat>, event: Event, request: WithdrawRequest)
    ensures r == Success(0) && event == WithdrawRequestEvent(0, ReceiverAccount, 500_000_000)
    ensures request == WithdrawRequest(ReceiverAccount, 500_000_000, Pending, 0)
  {
    var v := Deploy(map[UserAccount := 500_000_000]);
    var d := v.Deposit(UserAccount, 500_000_000);
    r := v.RequestWithdraw(UserAccount, 50_000_000_000, ReceiverAccount);
    event := v.events[|v.events| - 1];
    request := v.withdrawRequests[0];
  }

  /** The `beforeEach` of the acceptance tests: 500 units deposited by the
      user and all of their vault tokens turned into request 0. */
  method DepositAndRequest(collateral: map<Address, nat>) returns (v: SolverVault)
    requires BalanceOf(collateral, UserAccount) >= 500_000_000
    ensures fresh(v) && v.Valid()
    ensures v.minimumPaybackRatio == PaybackFloor && v.roles == TestRoles()
    ensures v.collateralDecimals == 6 && v.vaultDecimals == 8
    ensures v.solver == SolverAccount && !v.paused && v.depositLimit == DepositLimit
    ensures v.withdrawRequests == [NewRequest(ReceiverAccount, 500_000_000)]
    ensures v.collateralBalance == 500_000_000 && v.lockedBalance == 0 && v.currentDeposit == 0
    ensures BalanceOf(v.vaultTokenOf, UserAccount) == 0
    ensures v.collateralOf == Debit(collateral, UserAccount, 500_000_000)
  {
    FiveHundredUnits();
    v := Deploy(collateral);
    var d := v.Deposit(UserAccount, 500_000_000);
    var q := v.RequestWithdraw(UserAccount, 50_000_000_000, ReceiverAccount);
  }

  /** The state the claim tests start from: request 0 accepted at 0.70, so
      350 of the 500 units held are locked for the receiver. */
  method DepositRequestAccept(collateral: map<Address, nat>) returns (v: SolverVault)
    requires BalanceOf(collateral, UserAccount) >= 500_000_000
    ensures fresh(v) && v.Valid()
    ensures v.minimumPaybackRatio == PaybackFloor && v.roles == TestRoles()
    ensures v.collateralDecimals == 6 && v.vaultDecimals == 8
    ensures v.solver == SolverAccount && !v.paused && v.depositLimit == DepositLimit
    ensures v.withdrawRequests == [Accepted(NewRequest(ReceiverAccount, 500_000_000), SeventyPercent)]
    ensures v.collateralBalance == 500_000_000 && v.lockedBalance == 350_000_000
    ensures v.currentDeposit == 0 && BalanceOf(v.vaultTokenOf, UserAccount) == 0
    ensures BalanceOf(v.collateralOf, UserAccount) == BalanceOf(collateral, UserAccount) - 500_000_000
    ensures BalanceOf(v.collateralOf, ReceiverAccount) == BalanceOf(collateral, ReceiverAccount)
  {
    v := DepositAndRequest(collateral);
    var pending := NewRequest(ReceiverAccount, 500_000_000);
    SingleBatch(v.withdrawRequests, v.lockedBalance);
    assert [pending][0 := Accepted(pending, SeventyPercent)] == [Accepted(pending, SeventyPercent)];
    var a := v.AcceptWithdrawRequest(BalancerAccount, 0, [0], SeventyPercent);
    assert a == Ok;
  }

  /** Accepting request 0 at 0.70 emits the acceptance event with no top-up,
      the batch and the ratio, makes the request Ready and locks 350 units. */
  method AcceptAtSeventyPercent() returns (r: Outcome, event: Event, status: Status, locked: nat)
    ensures r == Ok && event == WithdrawRequestAcceptedEvent(0, [0], SeventyPercent)
    ensures status == Ready && locked == 350_000_000
  {
    var v := DepositAndRequest(map[UserAccount := 500_000_000]);
    SingleBatch(v.withdrawRequests, v.lockedBalance);
    r := v.AcceptWithdrawRequest(BalancerAccount, 0, [0], SeventyPercent);
    event := v.events[|v.events| - 1];
    status := v.withdrawRequests[0].status;
    locked := v.lockedBalance;
  }

  /** With the collateral already forwarded to Symmio, a top-up of 500 units
      from the balancer lets the same acceptance through, and the acceptance
      event carries the top-up. */
  method AcceptWithTopUp() returns (forward: Outcome, r: Outcome, event: Event, status: Status, locked: nat)
    ensures forward == Ok
    ensures r == Ok && event == WithdrawRequestAcceptedEvent(500_000_000, [0], SeventyPercent)
    ensures status == Ready && locked == 350_000_000
  {
    var v := DepositAndRequest(map[UserAccount := 500_000_000, BalancerAccount := 500_000_000]);
    forward := v.DepositToSymmio(DepositorAccount, 500_000_000);
    SingleBatch(v.withdrawRequests, v.lockedBalance);
    r := v.AcceptWithdrawRequest(BalancerAccount, 500_000_000, [0], SeventyPercent);
    event := v.events[|v.events| - 1];
    status := v.withdrawRequests[0].status;
    locked := v.lockedBalance;
  }

  /** Acceptance is refused for an unknown ID, for a ratio of 0.40 under the
      0.5 floor, and once the collateral has been forwarded without a
      top-up; each refusal leaves request 0 Pending. */
  method AcceptRefusals() returns (badId: Outcome, tooLow: Outcome, forwarded: Outcome,
                                   stillPending: bool)
    ensures badId == Fail(InvalidRequestID)
    ensures tooLow == Fail(PaybackRatioTooLow)
    ensures forwarded == Fail(InsufficientContractBalance)
    ensures stillPending
  {
    var v := DepositAndRequest(map[UserAccount := 500_000_000]);
    assert [5][1..] == [];
    badId := v.AcceptWithdrawRequest(BalancerAccount, 0, [5], SeventyPercent);
    assert AcceptBatch(v.withdrawRequests, [0], 400_000_000_000_000_000, 0).BatchAccepted? by {
      assert [0][1..] == [];
    }
    tooLow := v.AcceptWithdrawRequest(BalancerAccount, 0, [0], 400_000_000_000_000_000);
    var f := v.DepositToSymmio(DepositorAccount, 500_000_000);
    SingleBatch(v.withdrawRequests, v.lockedBalance);
    forwarded := v.AcceptWithdrawRequest(BalancerAccount, 0, [0], SeventyPercent);
    stillPending := v.withdrawRequests[0].status == Pending;
  }

  /** Acceptance is refused to a caller without the balancer role, and to
      the balancer while paused. */
  method AcceptGateRefusals() returns (wrongRole: Outcome, whilePaused: Outcome)
    ensures wrongRole == Fail(Unauthorized)
    ensures whilePaused == Fail(Paused)
  {
    var v := DepositAndRequest(map[UserAccount := 500_000_000]);
    wrongRole := v.AcceptWithdrawRequest(OtherAccount, 0, [0], SeventyPercent);
    var p := v.Pause(PauserAccount);
    whilePaused := v.AcceptWithdrawRequest(BalancerAccount, 0, [0], SeventyPercent);
  }

  /** An accepted request cannot be accepted again. */
  method AcceptTwice() returns (first: Outcome, second: Outcome)
    ensures first == Ok && second == Fail(InvalidAcceptedRequest)
  {
    var v := DepositAndRequest(map[UserAccount := 500_000_000]);
    SingleBatch(v.withdrawRequests, v.lockedBalance);
    first := v.AcceptWithdrawRequest(BalancerAccount, 0, [0], SeventyPercent);
    second := v.AcceptWithdrawRequest(BalancerAccount, 0, [0], SeventyPercent);
  }

  /** After acceptance at 0.70, forwarding one base unit more than the unlocked
      150 units fails, exactly 150 succeed; the claim then emits the claim
      event for request 0 and the receiver, pays the stored receiver 350
      units, marks the request Done and unlocks everything. */
  method ForwardThenClaim() returns (over: Outcome, exact: Outcome, claim: Outcome, event: Event,
                                     status: Status, paid: nat, locked: nat, left: nat)
    ensures over == Fail(InsufficientContractBalance) && exact == Ok
    ensures claim == Ok && event == WithdrawClaimedEvent(0, ReceiverAccount)
    ensures status == Done
    ensures paid == 350_000_000 && locked == 0 && left == 0
  {
    var v := DepositRequestAccept(map[UserAccount := 500_000_000]);
    assert BalanceOf(v.collateralOf, ReceiverAccount) == 0;
    over := v.DepositToSymmio(DepositorAccount, 500_000_000 - 350_000_000 + 1);
    exact := v.DepositToSymmio(DepositorAccount, 500_000_000 - 350_000_000);
    assert v.lockedBalance == 350_000_000 && v.collateralBalance == 350_000_000 && !v.paused;
    assert v.withdrawRequests[0] == Accepted(NewRequest(ReceiverAccount, 500_000_000), SeventyPercent);
    assert BalanceOf(v.collateralOf, ReceiverAccount) == 0;
    assert Payout(500_000_000, SeventyPercent) == 350_000_000;
    claim := v.ClaimForWithdrawRequest(0);
    event := v.events[|v.events| - 1];
    status := v.withdrawRequests[0].status;
    paid := BalanceOf(v.collateralOf, ReceiverAccount);
    locked := v.lockedBalance;
    left := v.collateralBalance;
  }

  /** Claims fail for an unknown ID and while paused. */
  method ClaimRefusals() returns (badId: Outcome, whilePaused: Outcome)
    ensures badId == Fail(InvalidRequestID)
    ensures whilePaused == Fail(Paused)
  {
    var v := DepositRequestAccept(map[UserAccount := 500_000_000]);
    badId := v.ClaimForWithdrawRequest(1);
    var p := v.Pause(PauserAccount);
    whilePaused := v.ClaimForWithdrawRequest(0);
  }

  /** With request 0 accepted, a second deposit and request create request
      1, which cannot be claimed while Pending. */
  method ClaimNotReady() returns (second: Result<nat>, notReady: Outcome)
    ensures second == Success(1)
    ensures notReady == Fail(RequestNotReady)
  {
    FiveHundredUnits();
    var v := DepositRequestAccept(map[UserAccount := 1_000_000_000]);
    assert BalanceOf(v.collateralOf, UserAccount) == 500_000_000;
    var d := v.Deposit(UserAccount, 500_000_000);
    assert d == Ok && v.currentDeposit == 500_000_000 && !v.paused && |v.withdrawRequests| == 1;
    assert BalanceOf(v.vaultTokenOf, UserAccount) == 50_000_000_000;
    second := v.RequestWithdraw(UserAccount, 50_000_000_000, ReceiverAccount);
    notReady := v.ClaimForWithdrawRequest(1);
  }
}
