# SolverVault accounting model

A Dafny model of the accounting core of Symmio's `SolverVault`. The model is
built from the behaviour the Hardhat suite `solver-vaults/test/SolverVault.test.ts`
fixes. The contract's Solidity source is not part of this model.

The vault takes a collateral token from users and mints a vault token in
return, possibly at a different number of decimals. A depositor role forwards
unlocked collateral to Symmio for a fixed solver. Users turn vault tokens back
into withdraw requests. A balancer accepts batches of Pending requests at a
payback ratio (18-decimal fixed point, at least the floor). Accepting locks
each request's `amount * ratio / 10^18`. Anyone may then claim a Ready request
for the receiver stored in it.

Modules:

- `FixedPoint` (`fixed_point.dfy`): `decimal`, the conversion to vault-token
  precision and its mirror back to collateral precision, and the truncating
  ratio payout.
- `Errors` (`errors.dfy`): the revert reasons as one `Error` datatype, and
  the `Outcome`/`Result` types every operation returns.
- `Access` (`access.dfy`): the role an operation needs, as a pure table.
- `Requests` (`requests.dfy`): the append-only request registry. It has the
  Pending → Ready → Done lifecycle, the locked sum of Ready requests, and
  `AcceptBatch`, the specification of the balancer's loop over a batch of
  IDs, with `RunBatch`, the loop itself, proved to compute it.
- `Vault` (`vault.dfy`): the `SolverVault` class. Its fields are the ledger,
  the request sequence and the external token ledgers. It has one method per
  contract operation. `Valid()` states three invariants:
  - `lockedBalance` equals the sum of what the Ready requests will pay.
  - `lockedBalance` never exceeds the collateral on hand.
  - A Pending request carries ratio 0, and an accepted or claimed one
    carries a ratio at or above the floor.

  `currentDeposit <= depositLimit` is not an invariant. `SetDepositLimit`
  may lower the limit below the current deposit, so only `Deposit`
  promises the cap, and only for the state it leaves.

  Every method keeps `Valid()`. On any error it leaves the whole state
  unchanged.
- `Scenarios` (`scenarios.dfy`): the cases of the test suite replayed
  against the method contracts, with what each test expects as the
  method's postcondition, including the emitted event and its arguments
  where the test checks one. Two groups are not replayed:
  - the address getters `symmio()` and `solverVaultTokenAddress()`
    (`SolverVault.test.ts:78-81`);
  - the collateral, solver and Symmio-address configuration cases
    (`SolverVault.test.ts:83-98`).

  Neither is modelled (see "## Left out").

Decisions the tests settle:

- Deposit headroom is released by `requestWithdraw`. It is not released by
  acceptance. After a full withdrawal request, a deposit that overshot the
  limit by one base unit succeeds (`SolverVault.test.ts:147-163`).
- `deposit` checks the limit before pulling collateral. A caller holding
  only one whole unit who deposits `limit + 1` base units gets "Deposit limit reached"
  (`SolverVault.test.ts:142-145`).
- The locked amount of a one-request batch is `amount * ratio / 10^18`,
  truncated (`SolverVault.test.ts:245`, `295`). Both tests accept a single
  request, so they do not say how a larger batch is summed.

## Model

| member | source | states |
|---|---|---|
| `FixedPoint.Decimal` | solver-vaults/test/SolverVault.test.ts:5-7 | `decimal(n, d)` is `n` whole units at `d` decimals: never below `n`, and at least 10^d when `n` is positive; `WadIsDecimalOne` and `OneUnitSixToEight` pin its values |
| `FixedPoint.ToVaultDecimals` | solver-vaults/test/SolverVault.test.ts:28-32 | scales an amount up or down by the difference of decimals: never smaller when the vault token has at least the collateral's precision, never larger when it has at most; its round trip, truncation bound and monotonicity are `ScaleUpRoundTrip`, `ScaleDownTruncates` and `ConversionsMonotone` |
| `FixedPoint.ToCollateralDecimals` | solver-vaults/test/SolverVault.test.ts:192-194 | the mirror conversion back to collateral decimals, used by the withdrawal request (`SolverVault.test.ts:208-210`): never larger when the vault token has at least the collateral's precision, never smaller when it has at most; characterised by the same three lemmas |
| `FixedPoint.Payout` | solver-vaults/test/SolverVault.test.ts:245 | `amount * ratio / 10^18`, truncated: a ratio of at most 1.0 never pays more than the amount; `PayoutBounds` and `SeventyPercentOfFiveHundred` characterise it |
| `FixedPoint.WadIsDecimalOne` | solver-vaults/test/SolverVault.test.ts:5-7 | `decimal(1)` with 18 decimals is the fixed-point one, 10^18, that divides every ratio product |
| `FixedPoint.ScaleUpRoundTrip` | solver-vaults/test/SolverVault.test.ts:28-32 | when vault decimals ≥ collateral decimals, conversion multiplies by 10^(vault−collateral) and converting back recovers the amount exactly |
| `FixedPoint.ScaleDownTruncates` | solver-vaults/test/SolverVault.test.ts:28-32 | when vault decimals < collateral decimals, conversion divides with truncation: the recovered amount is ≤ the original and short of it by less than 10^(collateral−vault); vault amounts round-trip exactly |
| `FixedPoint.ConversionsMonotone` | solver-vaults/test/SolverVault.test.ts:28-32 | both conversions preserve order |
| `FixedPoint.OneUnitSixToEight` | solver-vaults/test/SolverVault.test.ts:122-127 | with 6-decimal collateral and an 8-decimal vault token, `10^6` converts to `10^8` |
| `FixedPoint.PayoutBounds` | solver-vaults/test/SolverVault.test.ts:245 | `amount*ratio/10^18` grows with the ratio, never exceeds the amount for a ratio ≤ 1.0, and equals it at 1.0 |
| `FixedPoint.SeventyPercentOfFiveHundred` | solver-vaults/test/SolverVault.test.ts:228-246 | 500 units at ratio 0.70 lock exactly 350 units |
| `Access.SingleRoleScope` | solver-vaults/test/SolverVault.test.ts:100-110 | the role table (`RequiredRole`, `Authorized`): a holder of one role may perform the operations open to everyone and exactly the one operation that role gates. Depositor forwards to Symmio (`SolverVault.test.ts:186-188`), balancer accepts (`SolverVault.test.ts:248-251`), setter sets the limit, pauser pauses, unpauser unpauses |
| `Access.NoRoleCallerScope` | solver-vaults/test/SolverVault.test.ts:186-188 | a caller with no role may deposit, request and claim, and may do nothing else |
| `Requests.StepIsForward` | solver-vaults/test/SolverVault.test.ts:9-13 | a request's status moves one step forward or stays; Done is final; receiver and amount never change |
| `Requests.ReadyLockedAppend` | solver-vaults/test/SolverVault.test.ts:208-212 | appending a request adds what it locks to the locked sum (nothing for a new Pending request) |
| `Requests.ReadyLockedUpdate` | solver-vaults/test/SolverVault.test.ts:243-245 | replacing one request changes the locked sum by exactly the difference of what the old and new request lock |
| `Requests.BatchSucceeds` | solver-vaults/test/SolverVault.test.ts:239-246 | a batch of in-range, Pending, distinct IDs is accepted: exactly the named requests become Ready at the ratio, the lock grows by the sum of their payouts, and the registry advances |
| `Requests.BatchLockedSum` | solver-vaults/test/SolverVault.test.ts:239-246 | accepting such a batch grows the registry's locked sum (what the Ready requests will pay) by exactly the batch's payout |
| `Requests.AcceptableTail` | solver-vaults/test/SolverVault.test.ts:259-263 | once the first ID of an acceptable batch is accepted, the rest is acceptable against the updated registry and never names that ID again |
| `Requests.AcceptBatch` | solver-vaults/test/SolverVault.test.ts:234-263 | the specification of one acceptance pass over the batch: the first bad ID's error, or the registry with every named request Ready and the lock grown by each payout; an accepted batch keeps the registry's length and never lowers the lock. `BatchAcceptedIff`, `BatchFirstError`, `BatchSucceeds`, `BatchLockedSum` and `BatchAcceptedOnlyIfAcceptable` characterise it |
| `Requests.BatchAcceptedOnlyIfAcceptable` | solver-vaults/test/SolverVault.test.ts:259-263 | an accepted batch named only in-range, Pending requests, each once, so an already accepted request is never accepted again |
| `Requests.BatchFirstError` | solver-vaults/test/SolverVault.test.ts:234-237 | the first bad ID decides the error: out of range gives InvalidRequestID; not Pending or repeated gives InvalidAcceptedRequest |
| `Requests.BatchAcceptedIff` | solver-vaults/test/SolverVault.test.ts:234-263 | a batch is accepted if and only if every ID is in range, Pending and not repeated |
| `Requests.RunBatch` | solver-vaults/test/SolverVault.test.ts:234-263 | the loop over a batch of IDs, on a working copy of the registry, produces exactly the outcome `AcceptBatch` specifies: the first bad ID's error, or the accepted registry and lock |
| `Vault.RegistryAppend` | solver-vaults/test/SolverVault.test.ts:208-212 | appending a request keeps every recorded ratio consistent with its status, only extends the registry, and adds what the new request locks to the locked sum |
| `Vault.RegistryAccept` | solver-vaults/test/SolverVault.test.ts:239-246 | after an accepted batch at a ratio at or above the floor, every ratio is recorded, each named request went from Pending to Ready, and the registry's locked sum equals the batch's locked total |
| `Vault.RegistryClaim` | solver-vaults/test/SolverVault.test.ts:303-309 | claiming a Ready request keeps every ratio recorded, advances only that request, and lowers the locked sum by exactly its payout |
| `Vault.SolverVault.Valid` | solver-vaults/test/SolverVault.test.ts:298-301 | the vault's invariant: the locked balance is the sum of what the Ready requests will pay and never exceeds the collateral on hand, and ratios are recorded as the status says. Every method keeps it; `DepositToSymmio` keeps it by refusing to forward more than `collateralBalance − lockedBalance` |
| `Vault.SolverVault.constructor` | solver-vaults/test/SolverVault.test.ts:53-59 | initialisation with the given decimals, solver, ratio floor, deposit limit and roles; empty ledger and registry, not paused |
| `Vault.SolverVault.Deposit` | solver-vaults/test/SolverVault.test.ts:122-145 | fails while paused, with DepositLimitReached when `currentDeposit + amount > depositLimit`, and with TransferFailed when the caller lacks the collateral. On success the vault gains `amount`, `currentDeposit` grows by it and stays within the limit, and the caller is minted the vault-precision amount |
| `Vault.SolverVault.DepositToSymmio` | solver-vaults/test/SolverVault.test.ts:174-188 | depositor role only, not while paused; fails with InsufficientContractBalance when `amount > collateral − lockedBalance`; otherwise moves `amount` to Symmio for the solver |
| `Vault.SolverVault.RequestWithdraw` | solver-vaults/test/SolverVault.test.ts:202-224 | fails while paused or when the caller holds too few vault tokens. On success it burns them, lowers `currentDeposit` by their collateral value, and appends `{receiver, value, Pending, 0}` at the next ID, which it returns |
| `Vault.SolverVault.Burn` | solver-vaults/test/SolverVault.test.ts:147-163 | the ledger half of a successful withdrawal request: the caller's vault tokens are burnt and `currentDeposit` falls by their collateral value, nothing else changes, and the invariant holds |
| `Vault.SolverVault.Record` | solver-vaults/test/SolverVault.test.ts:202-212 | the registry half: `{receiver, value, Pending, 0}` is appended at the returned next ID, earlier requests are kept, the event is logged, and the invariant holds |
| `Vault.SolverVault.AcceptWithdrawRequest` | solver-vaults/test/SolverVault.test.ts:234-286 | balancer role, not paused. Checks the IDs in order, then the ratio floor, then pulls the top-up, then checks that balance plus top-up covers the new lock. On success the batch is Ready at the ratio and `lockedBalance` grows by its payouts. Any failure changes nothing |
| `Vault.SolverVault.Commit` | solver-vaults/test/SolverVault.test.ts:239-246 | the successful end of an acceptance: the top-up moves from the balancer into the vault, the accepted batch replaces the registry and the lock, and the invariant still holds |
| `Vault.SolverVault.ClaimForWithdrawRequest` | solver-vaults/test/SolverVault.test.ts:303-327 | fails while paused, with InvalidRequestID out of range, and with RequestNotReady unless Ready. On success the request is Done and its payout leaves both the locked and the on-hand balance for the stored receiver |
| `Vault.SolverVault.Settle` | solver-vaults/test/SolverVault.test.ts:303-309 | the successful end of a claim: the payout is at most the lock, the request becomes Done, and the payout leaves the lock and the balance for the stored receiver |
| `Vault.SolverVault.SetDepositLimit` | solver-vaults/test/SolverVault.test.ts:107-110 | setter role only; replaces the limit and nothing else |
| `Vault.SolverVault.Pause` | solver-vaults/test/SolverVault.test.ts:100-105 | pauser role only; sets the halt flag |
| `Vault.SolverVault.Unpause` | solver-vaults/test/SolverVault.test.ts:100-105 | unpauser role only; clears the halt flag |
| `Scenarios.Deploy` | solver-vaults/test/SolverVault.test.ts:34-75 | the test deployment: 6/8 decimals, floor 0.5, limit 100000·10^18, roles granted |
| `Scenarios.PauseRoles` | solver-vaults/test/SolverVault.test.ts:100-105 | the pauser pauses and the unpauser unpauses; another caller is refused both as Unauthorized |
| `Scenarios.DepositLimitRole` | solver-vaults/test/SolverVault.test.ts:107-110 | the setter sets the limit to 1000; another caller is refused as Unauthorized |
| `Scenarios.FiveHundredUnits` | solver-vaults/test/SolverVault.test.ts:192-194 | 500 collateral units are `500·10^8` vault units and back |
| `Scenarios.SingleBatch` | solver-vaults/test/SolverVault.test.ts:227-228 | batch `[0]` at 0.70 over a 500-unit request is accepted and locks 350 units |
| `Scenarios.DepositOneUnit` | solver-vaults/test/SolverVault.test.ts:122-130 | depositing `10^6` emits `Deposit(user, 10^6)`, mints `10^8`, leaves `10^6` in the vault and sets `currentDeposit` to `10^6` |
| `Scenarios.DepositFailures` | solver-vaults/test/SolverVault.test.ts:132-145 | deposit fails while paused, without funds, and above the limit |
| `Scenarios.HeadroomFreedByRequest` | solver-vaults/test/SolverVault.test.ts:147-163 | `limit − 10^6 + 1` is refused, then accepted after the first depositor requests everything back |
| `Scenarios.DepositThenRequestAll` | solver-vaults/test/SolverVault.test.ts:191-213 | for every amount within the limit, redeeming exactly the minted vault tokens creates request 0 for the same collateral amount |
| `Scenarios.ForwardDeposit` | solver-vaults/test/SolverVault.test.ts:174-188 | the depositor forwards all 500 units, `DepositToSymmio(depositor, solver, 500 units)` is emitted and the solver is credited with them; another caller is refused |
| `Scenarios.ForwardWhilePaused` | solver-vaults/test/SolverVault.test.ts:180-184 | forwarding to Symmio fails with Paused while paused |
| `Scenarios.RequestAll` | solver-vaults/test/SolverVault.test.ts:202-213 | `WithdrawRequestEvent(0, receiver, 500 units)` is emitted, and the request is ID 0, for the receiver, of 500 units, Pending, ratio 0 |
| `Scenarios.RequestRefusals` | solver-vaults/test/SolverVault.test.ts:215-224 | a withdrawal request fails with Paused while paused, and with InsufficientTokenBalance for a caller without vault tokens |
| `Scenarios.DepositAndRequest` | solver-vaults/test/SolverVault.test.ts:196-232 | the acceptance tests' setup state: one Pending 500-unit request, 500 units on hand, nothing locked |
| `Scenarios.DepositRequestAccept` | solver-vaults/test/SolverVault.test.ts:289-296 | the claim tests' setup state: request 0 Ready at 0.70, 500 units on hand, 350 locked |
| `Scenarios.AcceptAtSeventyPercent` | solver-vaults/test/SolverVault.test.ts:239-246 | acceptance at 0.70 emits `WithdrawRequestAcceptedEvent(0, [0], 0.70)`, makes request 0 Ready and locks 350 units |
| `Scenarios.AcceptWithTopUp` | solver-vaults/test/SolverVault.test.ts:265-275 | after forwarding everything, a 500-unit top-up lets the same acceptance through, emitting `WithdrawRequestAcceptedEvent(500 units, [0], 0.70)`, with request 0 Ready and 350 units locked |
| `Scenarios.AcceptRefusals` | solver-vaults/test/SolverVault.test.ts:234-286 | ID 5 is invalid, ratio 0.40 is too low, and accepting after forwarding without a top-up lacks balance; the request stays Pending |
| `Scenarios.AcceptGateRefusals` | solver-vaults/test/SolverVault.test.ts:248-257 | acceptance by a non-balancer fails with Unauthorized, and by the balancer while paused with Paused |
| `Scenarios.AcceptTwice` | solver-vaults/test/SolverVault.test.ts:259-263 | the second acceptance of request 0 is refused as InvalidAcceptedRequest |
| `Scenarios.ForwardThenClaim` | solver-vaults/test/SolverVault.test.ts:298-309 | with 350 locked, forwarding 150 units plus one base unit fails and exactly 150 units succeed; the claim emits `WithdrawClaimedEvent(0, receiver)`, pays the receiver 350, marks Done and leaves nothing locked |
| `Scenarios.ClaimRefusals` | solver-vaults/test/SolverVault.test.ts:311-319 | claiming ID 1 when only ID 0 exists fails with InvalidRequestID; claiming while paused fails |
| `Scenarios.ClaimNotReady` | solver-vaults/test/SolverVault.test.ts:321-327 | a second deposit and request create ID 1, whose claim fails with RequestNotReady |

## Left out

- Deployment, the upgradeable proxy and signer plumbing (`SolverVault.test.ts:34-75`) are test-harness I/O. The deployment is one constructor call with the role grants already made.
- Granting and revoking roles is not modelled. The role table is fixed at construction, and `Access.Authorized` is consulted by each gated operation.
- The `symmio()` and `solverVaultTokenAddress()` getters (`SolverVault.test.ts:78-81`) are not modelled. The model identifies Symmio and the vault token by their balance maps and has no contract addresses.
- `setSymmioAddress` (the unchanged-collateral and zero-address checks) and `setSolver` are not modelled. They depend on Symmio's own collateral lookup and are configuration, not accounting.
- The collateral token, the vault token and Symmio are plain balance maps. Their code is not part of this model. Allowances (`approve`) are not modelled: a `transferFrom` fails exactly when the payer's balance is short. The vault token's total supply is not tracked.
- Collateral sent to the vault by a plain token transfer, outside its operations, is not modelled.
- Events are an appended log with the arguments the tests check. Emission has no other effect.
- Vault.SolverVault.ClaimForWithdrawRequest: no test asserts the payout or the decrease of `lockedBalance`. Both are taken as `amount * paybackRatio / 10^18`, the same figure acceptance locks.
- Requests.AcceptBatch: the lock of a batch is the sum of each request's truncated `amount * ratio / 10^18`. This is the model's own choice, because the tests only accept one-request batches. Truncating the batch total instead would differ: two 1-unit requests at 0.5 lock 0 here, but 1 that way.
- Integer width: every amount is an unbounded natural number. So the reverts that 256-bit checked arithmetic would raise on overflow are not modelled. This affects:
  - `currentDeposit + amount` in `deposit`;
  - `amount * 10^(vault − collateral decimals)` in the conversion to vault decimals;
  - `amount * ratio` in the payout;
  - the running lock sum in acceptance, and `collateralBalance + depositAmount` there.

  No test reaches these bounds.
- Vault.SolverVault.RequestWithdraw: lowering `currentDeposit` below zero is taken to revert, as checked arithmetic does (ArithmeticUnderflow). No test reaches it.
- Vault.SolverVault.AcceptWithdrawRequest: the tests do not fix the order of the checks against one another. The model checks IDs, then the ratio floor, then the top-up transfer, then the balance. It checks the role before the pause flag.
- Vault.SolverVault.DepositToSymmio, Vault.SolverVault.Pause, Vault.SolverVault.Unpause: each checks the caller's role before the pause flag. The tests do not fix that order.
- Vault.SolverVault.SetDepositLimit: it is not blocked while paused, since the tests only gate the accounting operations on the pause flag.
