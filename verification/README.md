# Soroban course contracts in Dafny

This project models the three on-chain contracts of the repository:

- **Token BDB**, a fungible token. It has one-shot initialisation with name, symbol and decimals, admin `mint`, holder `burn`, `transfer`, allowances through `approve` and `transfer_from`, and getters that default to 0 or "".
- **ContadorContract**, a `u32` counter. It has `increment`, `decrement` (which panics at 0), `reset` and a checked `increment_by`.
- **HelloContract**, a greeting contract. It has a one-shot `initialize` and a `hello` call that checks the name's byte length and counts greetings.

Each entry point is a pure function from the storage it sees and its arguments to a `Call`: either `Ok(state', value)` or `Fail(failure)`. A failure is one of:

- a typed contract error (`panic_with_error!` or a returned `Err`);
- a plain panic with its message;
- a rejected `require_auth`;
- an error raised by the host itself (an invalid `Symbol`, or a TTL extension of a missing entry).

A failure reverts the whole invocation, so `Call.After(s)` gives back the old storage `s` unchanged.

`require_auth(a)` is modelled by a `signers` set: the check passes exactly when `a` is in it. It is placed at the same point in the check order as in the contract. `String::len()` is the UTF-8 byte length of the text (`Soroban.Utf8Len`). `i128` and `u32` are subset types with explicit bounds. Rust's `checked_add` and `checked_sub` are written out.

Files:

- `soroban.dfy`: shared host notions.
- `token.dfy`: the token's storage, entry points and getters.
- `token_supply.dfy`: the supply invariant, the overflow checks that cannot fire, and the inverse lemmas.
- `contador.dfy`: the counter contract.
- `hello.dfy`: the greeting contract.

The JavaScript scripts of the repository are network and SDK calls and are listed under "## Left out".

## Model

| member | source | states |
|---|---|---|
| TokenBdb.Initialize | Stellar/Entregas/Semana-3_Aplicacion/token_bdb/src/lib.rs:61-110 | The check order is: `AlreadyInitialized` before anything else, then `InvalidMetadata` (name 0 or over 100 bytes, symbol 0 or over 32 bytes), then `InvalidDecimals` (over 18), then the admin's authorisation. It succeeds exactly when all of these pass. On success the getters read back the admin, name, symbol and decimals, the supply reads 0, and balances and allowances are untouched. |
| TokenBdb.InitializeOnlyOnce | Stellar/Entregas/Semana-3_Aplicacion/token_bdb/src/lib.rs:74-76 | After a successful initialisation, any later `initialize` fails with `AlreadyInitialized`, whatever its arguments or signers. The stored metadata stays as the first call wrote it. |
| TokenBdb.GettersBeforeInitialize | Stellar/Entregas/Semana-3_Aplicacion/token_bdb/src/lib.rs:424-452 | Before initialisation, `name`, `symbol` and `decimals` read "", "" and 0. |
| TokenBdb.Admin | Stellar/Entregas/Semana-3_Aplicacion/token_bdb/src/lib.rs:461-466 | `admin` returns the stored admin exactly when one is stored, leaving storage as it was; otherwise it panics with "Admin not initialized". |
| TokenBdb.Balance | Stellar/Entregas/Semana-3_Aplicacion/token_bdb/src/lib.rs:226-229 | `balance` reads the stored amount, or 0 when the entry is absent. |
| TokenBdb.Allowance | Stellar/Entregas/Semana-3_Aplicacion/token_bdb/src/lib.rs:332-335 | `allowance` reads the stored amount for the (owner, spender) pair, or 0 when the entry is absent. |
| TokenBdb.Name | Stellar/Entregas/Semana-3_Aplicacion/token_bdb/src/lib.rs:424-433 | `name` reads "" until initialised, then the stored name. |
| TokenBdb.Symbol | Stellar/Entregas/Semana-3_Aplicacion/token_bdb/src/lib.rs:435-444 | `symbol` reads "" until initialised, then the stored symbol. |
| TokenBdb.Decimals | Stellar/Entregas/Semana-3_Aplicacion/token_bdb/src/lib.rs:446-452 | `decimals` reads 0 until initialised, then the stored decimals. |
| TokenBdb.TotalSupply | Stellar/Entregas/Semana-3_Aplicacion/token_bdb/src/lib.rs:454-459 | `total_supply` reads the stored supply, or 0 when absent. |
| TokenBdb.Put | Stellar/Entregas/Semana-3_Aplicacion/token_bdb/src/lib.rs:191-199 | Writing an amount reads it back, leaves every other key's reading unchanged, and removes the entry when the amount is 0. A removed entry reads as 0, like one never set. |
| TokenBdb.Mint | Stellar/Entregas/Semana-3_Aplicacion/token_bdb/src/lib.rs:113-169 | The check order is: `InvalidAmount` for amount ≤ 0, then a panic when no admin is stored, then the admin's authorisation, then `OverflowError` last. It succeeds exactly when the balance and the supply both stay within the i128 maximum. On success `to`'s balance and the supply each rise by exactly `amount`. No other balance changes, and nothing else in storage changes. |
| TokenBdb.Burn | Stellar/Entregas/Semana-3_Aplicacion/token_bdb/src/lib.rs:172-219 | The check order is: `InvalidAmount`, then `from`'s authorisation, then `InsufficientBalance`, then `OverflowError` when the supply's `checked_sub` fails. On success the balance and the supply each fall by exactly `amount`. A balance driven to 0 is removed. Other balances and all other storage are unchanged. |
| TokenBdb.Transfer | Stellar/Entregas/Semana-3_Aplicacion/token_bdb/src/lib.rs:232-292 | The check order is: `InvalidAmount`, then `InvalidRecipient` when `from == to`, then `from`'s authorisation, then `InsufficientBalance`, then `OverflowError` when the recipient's `checked_add` fails. On success `from` loses and `to` gains exactly `amount`. Every other balance, the supply, the allowances and the metadata are unchanged. |
| TokenBdb.Approve | Stellar/Entregas/Semana-3_Aplicacion/token_bdb/src/lib.rs:301-329 | A negative amount fails with `InvalidAmount`, then `from`'s authorisation is checked. On success `allowance(from, spender)` is exactly `amount`, and 0 removes the entry. Other pairs, the balances and everything else are unchanged. |
| TokenBdb.TransferFrom | Stellar/Entregas/Semana-3_Aplicacion/token_bdb/src/lib.rs:338-419 | The check order is: `InvalidAmount`, `InvalidRecipient`, the spender's authorisation, `InsufficientAllowance`, `InsufficientBalance`, and last `OverflowError` when the recipient's `checked_add` fails. On success `amount` moves from `from` to `to`, and `allowance(from, spender)` falls by exactly `amount`. Other balances, other allowance pairs and everything else are unchanged. |
| TokenSupply.InitializePreservesValid | Stellar/Entregas/Semana-3_Aplicacion/token_bdb/src/lib.rs:94-99 | `initialize` preserves the invariant: the supply is the sum of the balances, stored amounts are positive, and nothing is minted before initialisation. |
| TokenSupply.MintPreservesValid | Stellar/Entregas/Semana-3_Aplicacion/token_bdb/src/lib.rs:140-162 | `mint` changes one balance and the supply by the same amount, so the invariant is kept. |
| TokenSupply.BurnPreservesValid | Stellar/Entregas/Semana-3_Aplicacion/token_bdb/src/lib.rs:189-213 | `burn` lowers one balance and the supply by the same amount, so the invariant is kept. |
| TokenSupply.TransferPreservesValid | Stellar/Entregas/Semana-3_Aplicacion/token_bdb/src/lib.rs:261-286 | `transfer` conserves the sum of balances and leaves the supply alone, so the invariant is kept. |
| TokenSupply.ApprovePreservesValid | Stellar/Entregas/Semana-3_Aplicacion/token_bdb/src/lib.rs:316-323 | `approve` keeps every stored allowance positive and does not touch balances. |
| TokenSupply.TransferFromPreservesValid | Stellar/Entregas/Semana-3_Aplicacion/token_bdb/src/lib.rs:377-413 | `transfer_from` conserves the sum of balances and keeps allowances positive, so the invariant is kept. |
| TokenSupply.StepPreservesValid | Stellar/Entregas/Semana-3_Aplicacion/token_bdb/src/lib.rs:49-467 | Any single invocation keeps the invariant, whether it succeeds or is reverted. |
| TokenSupply.RunPreservesValid | Stellar/Entregas/Semana-3_Aplicacion/token_bdb/src/lib.rs:49-467 | Any sequence of invocations keeps the invariant. |
| TokenSupply.SupplyIsSumOfBalances | Stellar/Entregas/Semana-3_Aplicacion/token_bdb/src/lib.rs:140-213 | After any history from a fresh deployment, `total_supply` equals the sum of all balances, and no balance is negative. |
| TokenSupply.FreshIsValid | Stellar/Entregas/Semana-3_Aplicacion/token_bdb/src/lib.rs:226-229 | A fresh deployment satisfies the invariant: no balances, and a supply that reads 0. |
| TokenSupply.SumRemove | Stellar/Entregas/Semana-3_Aplicacion/token_bdb/src/lib.rs:191-194 | Removing any balance entry lowers the sum of balances by exactly that entry. |
| TokenSupply.ReadBoundedBySum | Stellar/Entregas/Semana-3_Aplicacion/token_bdb/src/lib.rs:226-229 | With positive stored balances, any one balance reading lies between 0 and the sum of all balances. |
| TokenSupply.TransferNeverOverflows | Stellar/Entregas/Semana-3_Aplicacion/token_bdb/src/lib.rs:279-281 | Under the invariant, the recipient's `checked_add` in `transfer` never fails. A transfer therefore succeeds exactly when the amount, recipient, authorisation and balance checks pass. |
| TokenSupply.TransferFromNeverOverflows | Stellar/Entregas/Semana-3_Aplicacion/token_bdb/src/lib.rs:395-397 | The same holds for `transfer_from`. |
| TokenSupply.BurnNeverOverflows | Stellar/Entregas/Semana-3_Aplicacion/token_bdb/src/lib.rs:207-209 | Under the invariant, the supply's `checked_sub` in `burn` never fails. |
| TokenSupply.MintOverflowIsSupplyOverflow | Stellar/Entregas/Semana-3_Aplicacion/token_bdb/src/lib.rs:140-158 | Under the invariant, `mint` overflows exactly when the supply would exceed the i128 maximum; the balance check is subsumed. |
| TokenSupply.BurnUndoesMint | Stellar/Entregas/Semana-3_Aplicacion/token_bdb/src/lib.rs:113-213 | Burning what was just minted restores the storage exactly, including removal of a balance entry that had not existed. |
| TokenSupply.TransferBackUndoesTransfer | Stellar/Entregas/Semana-3_Aplicacion/token_bdb/src/lib.rs:238-286 | Transferring the same amount back restores the storage exactly. |
| TokenSupply.ApproveOverwrites | Stellar/Entregas/Semana-3_Aplicacion/token_bdb/src/lib.rs:308-323 | A second `approve` replaces the first, as if the first had never happened: it overwrites and does not add. |
| TokenSupply.TransferFromMovesLikeTransfer | Stellar/Entregas/Semana-3_Aplicacion/token_bdb/src/lib.rs:345-402 | A successful `transfer_from` moves balances exactly as `from`'s own `transfer` of the same amount would. |
| Soroban.Utf8LenBounds | Stellar/Entregas/Semana-3_Aplicacion/token_bdb/src/lib.rs:79-84 | The byte length used by the metadata checks lies between the character count and four times it. It is 0 only for the empty string, and it equals the character count for ASCII text. |
| Soroban.CheckedAdd | Stellar/Entregas/Semana-3_Aplicacion/token_bdb/src/lib.rs:140-142 | `checked_add` gives a value exactly when the sum fits in i128, and that value is the sum. |
| Soroban.CheckedAddU32 | Stellar/Entregas/Semana-2_Soroban/hola_rust/src/lib.rs:82-83 | `u32::checked_add` gives a value exactly when the sum is at most the u32 maximum, and that value is the sum. |
| Soroban.CheckedSub | Stellar/Entregas/Semana-3_Aplicacion/token_bdb/src/lib.rs:207-209 | `checked_sub` gives a value exactly when the difference fits in i128, and that value is the difference. |
| Contador.GetCount | Stellar/Entregas/Semana-2_Soroban/hola_rust/src/lib.rs:57-62 | The count is 0 before any write, and the stored value after one. |
| Contador.Increment | Stellar/Entregas/Semana-2_Soroban/hola_rust/src/lib.rs:11-30 | `increment` stores and returns the previous count plus 1. |
| Contador.Decrement | Stellar/Entregas/Semana-2_Soroban/hola_rust/src/lib.rs:32-55 | `decrement` panics exactly when the count is 0, which leaves it at 0. Otherwise it stores and returns the count minus 1. |
| Contador.Reset | Stellar/Entregas/Semana-2_Soroban/hola_rust/src/lib.rs:64-74 | `reset` always succeeds and leaves the count at 0, whatever it was before. |
| Contador.IncrementBy | Stellar/Entregas/Semana-2_Soroban/hola_rust/src/lib.rs:76-98 | `increment_by` succeeds exactly when the sum fits in u32, and then stores and returns the previous count plus `amount`. Otherwise it panics with the overflow message. |
| Contador.ResetForgetsHistory | Stellar/Entregas/Semana-2_Soroban/hola_rust/src/lib.rs:64-74 | After `reset`, any two counters are in the same storage state, whatever their history, and the next `increment` returns 1. |
| Contador.IncrementByIsRepeatedIncrement | Stellar/Entregas/Semana-2_Soroban/hola_rust/src/lib.rs:11-98 | `increment_by(n)` leaves the same count as `n` calls of `increment`, and for `n > 0` the same storage. |
| Contador.DecrementUndoesIncrement | Stellar/Entregas/Semana-2_Soroban/hola_rust/src/lib.rs:11-54 | `decrement` right after `increment` never panics, returns the original count and restores it. |
| Contador.IncrementTest | Stellar/Entregas/Semana-2_Soroban/hola_rust/src/lib.rs:106-115 | Starting fresh, two increments return 1 and then 2, and `get_count` reads 2. |
| Contador.DecrementTest | Stellar/Entregas/Semana-2_Soroban/hola_rust/src/lib.rs:117-129 | Three increments and then a decrement return 2, and the count reads 2. |
| Contador.DecrementPanicTest | Stellar/Entregas/Semana-2_Soroban/hola_rust/src/lib.rs:131-139 | On a fresh contract, `decrement` fails and the count stays 0. |
| Contador.ResetTest | Stellar/Entregas/Semana-2_Soroban/hola_rust/src/lib.rs:141-152 | Two increments and then a reset leave the count at 0. |
| HelloTiburona.Code | Stellar/Entregas/Semana-2_Soroban/hello-tiburona/contracts/hello-world/src/lib.rs:7-15 | The error codes lie in 1..4. |
| HelloTiburona.CodeInjective | Stellar/Entregas/Semana-2_Soroban/hello-tiburona/contracts/hello-world/src/lib.rs:10-15 | Distinct errors have distinct numeric codes. The `#[repr(u32)]` values themselves are pinned by InitializeOnlyOnce (code 4) and NameLengthBoundary (codes 1 and 2). |
| HelloTiburona.Initialize | Stellar/Entregas/Semana-2_Soroban/hello-tiburona/contracts/hello-world/src/lib.rs:30-49 | When an admin is already stored, `initialize` returns `NoInicializado` (the code's own name for that case). Otherwise it stores the admin and sets `ContadorSaludos` to 0, leaving `UltimoSaludo` entries alone. |
| HelloTiburona.InitializeOnlyOnce | Stellar/Entregas/Semana-2_Soroban/hello-tiburona/contracts/hello-world/src/lib.rs:32-34 | A second `initialize` fails whatever its admin, with the error whose code is 4, and the first admin and the 0 counter remain. |
| HelloTiburona.Hello | Stellar/Entregas/Semana-2_Soroban/hello-tiburona/contracts/hello-world/src/lib.rs:51-85 | An empty name gives `NombreVacio`, checked before the length limit. A name over 32 bytes gives `NombreMuyLargo`. A call succeeds exactly when the name has 1 to 32 bytes. It then returns the greeting, raises the counter by exactly 1 (from 0 when never initialised), and leaves `Admin` and `UltimoSaludo` unchanged. This is the corrected behaviour; see Findings. |
| HelloTiburona.HelloWritesOnlyTheCounter | Stellar/Entregas/Semana-2_Soroban/hello-tiburona/contracts/hello-world/src/lib.rs:61-80 | A successful `hello` leaves every key other than `ContadorSaludos` exactly as it was. |
| HelloTiburona.CounterCountsAcceptedGreetings | Stellar/Entregas/Semana-2_Soroban/hello-tiburona/contracts/hello-world/src/lib.rs:53-71 | Over any sequence of `hello` calls whose accepted names keep the counter within u32, the counter rises by exactly the number of accepted names. Failed calls leave it unchanged, and the admin is never touched. |
| HelloTiburona.NameLengthBoundary | Stellar/Entregas/Semana-2_Soroban/hello-tiburona/contracts/hello-world/src/lib.rs:53-59 | "" is rejected as empty (code 1). A 32-byte name is accepted and a 33-byte name is rejected as too long (code 2). The limit is in bytes, so 16 'ñ' pass and 17 do not. |
| HelloTiburona.HelloAsWritten | Stellar/Entregas/Semana-2_Soroban/hello-tiburona/contracts/hello-world/src/lib.rs:51-85 | The contract as written: the same validation errors; then, for an accepted name, the host's refusal to extend the TTL of the absent `UltimoSaludo(usuario)` entry (lines 74-76), or else the host's refusal of the greeting in `Symbol::new` (line 83). |
| HelloTiburona.HelloAsWrittenAlwaysReverts | Stellar/Entregas/Semana-2_Soroban/hello-tiburona/contracts/hello-world/src/lib.rs:74-83 | As written, `hello` never succeeds, so the counter bump is always reverted. An accepted name fails with the missing-entry error when `UltimoSaludo(usuario)` is absent, which is always the case since nothing writes it, and with the invalid-symbol error otherwise. The corrected `Hello` accepts the same names. |
| Soroban.SymbolNew | Stellar/Entregas/Semana-2_Soroban/hello-tiburona/contracts/hello-world/src/lib.rs:83 | `Symbol::new` succeeds exactly on at most 32 characters from `[a-zA-Z0-9_]`. |

## Left out

- The commented-out legacy token implementation (token_bdb/src/lib.rs:473-1020) is not compiled, so it is not modelled.
- The token's `storage.rs`, `errors.rs` and `test.rs` are not part of this model. `DataKey` is replaced by the fields of `TokenState`. `TokenError` has the variants used in lib.rs, and its numeric codes are unknown.
- Event publishing is a ledger side effect that does not change what the contracts store or return.
- TTL extension (`extend_ttl`) is assumed to succeed everywhere except in HelloTiburona.HelloAsWritten. There, the extension of the never-written `UltimoSaludo(usuario)` entry is modelled as the host's missing-entry error. The corrected `Hello` assumes that extension is guarded by `has` or removed, so its `usuario` argument has no effect.
- `require_auth` internals (signature checking, nonces) are abstracted as membership in `signers`.
- Contador.Increment: requires the count to be below the u32 maximum. Whether `+= 1` wraps or panics depends on the crate's overflow-checks profile, which is not shown.
- HelloTiburona.Hello: requires the counter to be below the u32 maximum when the name is accepted, for the same reason (`contador + 1`). A rejected name returns before the addition and carries no such requirement.
- HelloTiburona.HelloAsWritten: requires the counter to be below the u32 maximum when the name is accepted, for the same reason.
- The value type of `UltimoSaludo` entries is never fixed by the contract, because nothing writes them. Text is assumed.
- The JavaScript scripts (`enviar-pagos.js`, `enviar-pagos-masivos.js`, `crear-cuenta.js`, `crear-cuentas-masiva.js`, `consultar-balance.js`) are network calls, SDK transaction building, file writes and console output. Their one pure helper, a public-key shape check, is not modelled.
- The React and TypeScript front-end files (`PathPayment.jsx`, `stellar.ts`, `WorxTokenClient.ts`, `App.tsx`, `layout.jsx`, `global.d.ts`) are wallet signing, network submission, UI and stubs. They are not modelled.

## Findings

| source | as written | input that shows it | evidently intended | confidence | as-written member | corrected member |
|---|---|---|---|---|---|---|
| Stellar/Entregas/Semana-2_Soroban/hello-tiburona/contracts/hello-world/src/lib.rs:74-83 | After counting, `hello` extends the TTL of `UltimoSaludo(usuario)` (lines 74-76). Nothing ever writes that entry, and the host refuses to extend a missing entry. It then builds its result with `Symbol::new(&env, "Hola Tiburona!")` (line 83). Host symbols allow only `[a-zA-Z0-9_]`, so the space and the '!' are refused. Either error reverts the counter increment. | Any accepted name, e.g. `hello(usuario, "Ana")` on a fresh contract. | Return the greeting, with the counter raised by 1. The corrected member assumes lines 74-76 are guarded by `has` or removed, and line 83 returns valid text. | medium (host rules as documented by the SDK); not executed | HelloTiburona.HelloAsWritten (shown by HelloTiburona.HelloAsWrittenAlwaysReverts) | HelloTiburona.Hello |
