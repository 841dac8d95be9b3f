# Basic vault and yield vault contracts, modelled in Dafny

This project models two Elrond smart contracts and proves properties of the
models.

- **Basic vault registry** (`basic_vault.dfy`, module `BasicVault`). A global
  counter hands out vault ids. Each vault record holds its creator, a name, an
  ordered list of users and an EGLD balance. The contract's storage is the
  class `VaultRegistry`, with the counter `totalVaults`, the id→record map
  `vaults`, and a log `payments` of the `direct_egld` transfers it makes. The
  endpoints are `Init`, `CreateVault`, `AddUser`, `AddAmount` and
  `Distribute`. The payout loop of `distribute` is the method `PayEach`.
- **Yield vault** (`y_vault.dfy`, module `YVault`). One vault instance holds:
  - its base token, symbol and the management, guardian and rewards roles;
  - performance and management fees, a deposit limit and the total debt;
  - the locked profit and its degradation rate;
  - the activation and last-report times;
  - the share token's id and name.
  The class `YieldVault` has one field per storage mapper, plus logs of the
  share-token issuance requests, the role requests and the refund transfers.
  `init` is its constructor `Init`. Each owner-only setter, `createVaultToken`
  and the issuance callback are methods. The three valuations `_total_assets`,
  `_calculate_locked_profit` and `_free_funds` are pure functions
  (`TotalAssets`, `LockedProfitValue`, `FreeFunds`) over the stored scalars
  they read. The read-only methods `TotalAssetsView`, `LockedProfitView` and
  `FreeFundsView` compute them from the vault's own fields.
- `elrond.dfy` (module `Elrond`) holds the framework's value types:
  - 32-byte addresses and the zero address;
  - token identifiers as strings, with `"EGLD"` for the native coin;
  - the `Outcome`/`Result` of an endpoint that commits or aborts.

Every endpoint either aborts on a guard (`Fail`/`Err`, and then nothing it
did persists) or commits.

The blockchain oracles are parameters of the methods. These are the caller,
the owner, the block timestamp, the contract's own address, its token
balances and the call value. `BigUint` amounts are `nat`, and all arithmetic
is exact. A `BigUint` subtraction that would go negative is an abort.

Points where the code does something other than what its names, messages
and comments suggest. The model follows the code in each case:

- `distribute` decrements only an in-memory copy of the vault and never writes
  it back. The stored record, balance included, is unchanged, so the same
  vault passes the guards of `distribute` again. A repeat pays out the same
  amounts once more, out of the EGLD that the other vaults' deposits keep in
  the contract, and so it drains them. `RepeatedDistribution` shows that two
  calls leave every stored record as it was and add more to the payment log
  than the vault holds, once it holds at least one unit per user.
  `DistributeTwiceExample` pays 6 × 33 from a vault that still reads 100,
  with a second vault's 100 covering the difference. The model does not
  track the contract's balance, so it does not refuse a repeat that the
  balance cannot cover (see "Left out").
- The locked profit does not decay linearly. The ratio is divided by 10^18
  only on the branch where it is below 10^18, so the quotient is always 0.
  The value is the whole locked profit or 0 (the contract of `LockedProfitValue`). The rate
  `init` stores carries the comment `// 6 blocks` (y_vault/src/y_vault.rs:35),
  but with that rate all of the profit is released one time unit after the
  last report (`LockedProfitReleasedAfterInitialRate`).
- `_free_funds` aborts rather than clamping when the locked profit exceeds
  the total assets.
- `setLockedProfitDegradation` checks the rate already stored, not the
  argument. `init` stores 10^18 · 46 · 10^6, which is above the coefficient,
  so after `init` the setter always aborts (`DegradationSetterAfterInit`).
- The guard of `createVaultToken` looks only at the stored share-token id,
  and that id is stored only by the callback. So a second request passes the
  guard while the first one is pending (`IssuanceExample`).
- Reading a vault id that was never stored fails to decode and aborts the
  transaction. The model reports this as the error `VaultUndecodable`.

## Model

| member | source | states |
|---|---|---|
| `BasicVault.VaultRegistry.constructor` | basic-vault/src/basic-vault.rs:111-117 | storage before deployment: counter 0, no vaults, no payments; the id invariant holds |
| `BasicVault.VaultRegistry.Init` | basic-vault/src/basic-vault.rs:19-22 | `set_if_empty(0)` keeps whatever counter a reader sees (an empty u64 slot reads as 0); the vaults are untouched, and running it again changes nothing |
| `BasicVault.VaultRegistry.CreateVault` | basic-vault/src/basic-vault.rs:27-54 | aborts on a non-EGLD token or a zero amount, leaving counter and vaults unchanged. On success it returns the old counter, which was free. It stores `Vault(id, caller, name, [], initialAmount)` under that key, increments the counter by exactly one, and keeps every key below the counter and equal to its record's id |
| `BasicVault.VaultRegistry.AddUser` | basic-vault/src/basic-vault.rs:56-67 | aborts on an unstored id or a caller other than the creator; otherwise appends the user at the end (duplicates kept), with every other field and vault unchanged |
| `BasicVault.VaultRegistry.AddAmount` | basic-vault/src/basic-vault.rs:69-86 | aborts, in this order, on a non-EGLD token, a zero amount, an unstored id, or a non-creator caller; otherwise raises that vault's balance by exactly the payment and changes nothing else |
| `BasicVault.VaultRegistry.Distribute` | basic-vault/src/basic-vault.rs:88-104 | has no caller check. It aborts, with no payment, on an unstored id, then on no users, then on a zero balance. Otherwise it logs one payment of `amount / n` per user, in list order. The stored vaults and counter stay exactly as they were |
| `BasicVault.PayEach` | basic-vault/src/basic-vault.rs:93-103 | the loop emits `Payouts(users, amount / n)` (n the number of users); the in-memory balance ends at `amount % n` and together with what was paid equals `amount` |
| `BasicVault.Payouts` | basic-vault/src/basic-vault.rs:96-103 | the payments the `distribute` loop makes, in list order: exactly one per user, duplicates included |
| `BasicVault.PayoutsAt` | basic-vault/src/basic-vault.rs:96-103 | a distribution has one payment per user, the k-th to the k-th user, each of the per-user amount |
| `BasicVault.PayoutsTotal` | basic-vault/src/basic-vault.rs:94-103 | a distribution pays out the per-user amount times the number of users |
| `BasicVault.DistributionSplit` | basic-vault/src/basic-vault.rs:92-103 | floor division among the users pays at most `amount`, and what is paid plus `amount % n` is exactly `amount` |
| `BasicVault.RepeatedDistributionOverpays` | basic-vault/src/basic-vault.rs:89-103 | since the balance is not written back, two distributions of a vault holding at least one unit per user pay strictly more than the vault holds |
| `BasicVault.CreateVaultExample` | basic-vault/src/basic-vault.rs:38-53 | two successive creations return ids 0 and 1; a non-EGLD creation is refused and the counter stays at 2 |
| `BasicVault.DistributeTwiceExample` | basic-vault/src/basic-vault.rs:88-104 | with two vaults of 100 each, 100 among `[a, b, c]` pays 33 to each in order; the stored balance stays 100, and a second call pays the same again. The 198 paid in all exceed the first vault's 100 and fit within the two deposits, while both records still read 100 |
| `BasicVault.RepeatedDistribution` | basic-vault/src/basic-vault.rs:88-104 | from any registry keeping the id invariant, two `distribute` calls on a vault with at least one unit per user both commit, leave the counter and every stored vault unchanged, and raise the total of the payment log by more than that vault's balance |
| `YVault.YieldVault.Init` | y_vault/src/y_vault.rs:13-40 | stores token, symbol, management, guardian and rewards. It sets the performance fee to 10000 and activation and last report to `now`. It sets the degradation to 10^18 · 46 · 10^6, which is above the coefficient. It leaves no share token, and records the share-token name and one issuance request |
| `YVault.YieldVault.CreateVaultToken` | y_vault/src/y_vault.rs:44-76 | aborts on a non-EGLD payment, a non-owner caller, or a stored share token. Otherwise it records the name and appends exactly one issuance request, and the share-token id stays unset |
| `YVault.YieldVault.IssueCallback` | y_vault/src/y_vault.rs:176-207 | `Ok(id)`: stores `id` and requests Mint/Burn for the contract address, aborting with nothing stored when `id` is empty. `Err`: the share token and role requests are unchanged, and the owner is refunded exactly when the returned payment is EGLD and positive |
| `YVault.YieldVault.SetSymbol` | y_vault/src/y_vault.rs:78-82 | owner only; afterwards the symbol is the value just set, and a refused call leaves it unchanged |
| `YVault.YieldVault.SetManagement` | y_vault/src/y_vault.rs:84-88 | owner only; afterwards management is the address just set, and a refused call leaves it unchanged |
| `YVault.YieldVault.SetRewards` | y_vault/src/y_vault.rs:90-95 | owner only. It succeeds exactly when the address is neither the contract's own nor zero, and then stores it. Otherwise the rewards address is unchanged |
| `YVault.YieldVault.SetLockedProfitDegradation` | y_vault/src/y_vault.rs:97-102 | owner only; succeeds exactly when the stored rate is at most 10^18 and then stores any argument, unchecked |
| `YVault.YieldVault.SetDepositLimit` | y_vault/src/y_vault.rs:104-108 | owner only; afterwards the limit is the value just set, and a refused call leaves it unchanged |
| `YVault.YieldVault.SetPerformanceFee` | y_vault/src/y_vault.rs:110-115 | owner only; stores exactly the fees `<= 10000`, aborts on larger ones leaving the fee unchanged; both fee rates stay within 10000 |
| `YVault.YieldVault.SetManagementFee` | y_vault/src/y_vault.rs:117-122 | owner only; stores exactly the fees `<= 10000`, aborts on larger ones leaving the fee unchanged; both fee rates stay within 10000 |
| `YVault.YieldVault.SetGuardian` | y_vault/src/y_vault.rs:124-128 | owner only; afterwards the guardian is the address just set, and a refused call leaves it unchanged |
| `YVault.YieldVault.TotalAssetsView` | y_vault/src/y_vault.rs:136-161 | total assets are the contract's balance of the stored base token plus the total debt. At every time the free funds are defined, they are at most the total assets, and free funds plus locked profit equal it. With no locked profit stored, from the last report on the free funds are the whole total |
| `YVault.YieldVault.LockedProfitView` | y_vault/src/y_vault.rs:146-157 | the locked profit of the stored fields at block time `now`: it aborts exactly when `now` is before the last report, never exceeds the stored locked profit, and is 0 when none is stored |
| `YVault.YieldVault.FreeFundsView` | y_vault/src/y_vault.rs:159-161 | the free funds of the stored fields at block time `now`: an abort before the last report; on success at most the total assets, and together with the locked profit exactly the total assets; with no locked profit stored, the whole total from the last report on |
| `YVault.FreeFundsAfterInit` | y_vault/src/y_vault.rs:142-161 | right after `init` the total assets are the contract's base-token balance, and from the deployment time on the locked profit is 0 and the free funds equal the total assets; before it both valuations abort |
| `YVault.TotalAssets` | y_vault/src/y_vault.rs:142-144 | the total assets are the held base-token balance plus the total debt: neither part exceeds the total, and the total less the balance is exactly the debt |
| `YVault.LockedProfitValue` | y_vault/src/y_vault.rs:146-157 | the locked profit aborts if `now` is before the last report (a `BigUint` underflow). Otherwise the formula `lockedProfit * (1 - ratio / 10^18)` is the whole stored locked profit when the ratio `(now - lastReport) * degradation` is below 10^18, and it is 0 when it is not |
| `YVault.LockedProfitBounds` | y_vault/src/y_vault.rs:146-157 | the locked profit is defined exactly when `now >= lastReport`, never exceeds the stored locked profit, and equals it at `now == lastReport` |
| `YVault.LockedProfitNonIncreasing` | y_vault/src/y_vault.rs:146-157 | for fixed stored values, a later `now` never gives a larger locked profit |
| `YVault.LockedProfitReleasedAfterInitialRate` | y_vault/src/y_vault.rs:146-157 | with the rate `init` stores, any time after the last report gives locked profit 0 |
| `YVault.FreeFunds` | y_vault/src/y_vault.rs:159-161 | free funds are defined exactly when the locked profit is defined and at most the total assets (no clamping), and then free funds plus locked profit equal the total assets |
| `YVault.DegradationSetterAfterInit` | y_vault/src/y_vault.rs:97-102 | right after `init` the degradation setter aborts for the owner whatever the argument, and the rate stays 10^18 · 46 · 10^6 |
| `YVault.PerformanceFeeBoundary` | y_vault/src/y_vault.rs:110-115 | `setPerformanceFee(10001)` is refused and leaves the fee at 10000; `setPerformanceFee(10000)` succeeds |
| `YVault.IssuanceExample` | y_vault/src/y_vault.rs:44-76 | while the issuance is pending a second request passes the guard. After `Ok(id)` the id is stored and a further request is refused |

## Left out

- The ESDT system-contract calls (`register_meta_esdt`, `set_special_roles`, `async_call`, `call_and_exit`) are recorded as opaque requests in a log. The fixed token properties of the issuance request are not recorded.
- Transfers (`direct_egld`, `send().direct`) are entries in a log. Balances do not move between accounts.
- `BasicVault.VaultRegistry.Distribute`: every `direct_egld` transfer is taken to succeed. The contract's own EGLD balance is not modelled, so a distribution that the balance cannot cover, which aborts on chain, commits in the model.
- The blockchain oracles (caller, owner, block timestamp, balances, own address, call value) are method parameters. No call of theirs is modelled.
- Storage encoding (`TopEncode`/`TopDecode`) and the storage mappers are not modelled. They are plain fields and a map. Only one encoding detail is kept: a u64 zero reads the same as an empty slot.
- `CreateVault`: the counter is a u64 in the contract and unbounded here. A wrap-around after 2^64 creations, which would reuse id 0, is not modelled.
- `YVault.YieldVault.Init`: deploying with a non-EGLD payment is rejected by the framework before `init` runs. The constructor cannot abort, so it models only a deployment paid in EGLD. The `only_owner` check of the share-token request made inside `init` is taken as passed, because the deployer is the owner.
- Endpoints that are not payable reject any attached payment in the framework. Those methods take no payment parameter.
- `_issues_shares_for_amount` is a stub that returns 0, so there is no share formula to model.
- Emergency shutdown and the withdrawal queue appear only as comments in the contract.
- Nothing in the contract updates the locked profit, the last report or the total debt after `init`. No harvesting or reporting operation is modelled.
- `MANAGEMENT_FEE` (200) is declared and never used. Only the constant is kept.
- `y_vault/scripts/deploy.ts` only reads and logs two devnet account balances, so it is I/O with no contract logic.
