# Ghost markets swap adapter, modelled in Dafny

The adapter is a CosmWasm contract that sits between a caller and a Kujira
GHOST debt market. It stores one `Config`: an `owner` and an ordered list of
routing rules, each a `(denom, debt_denom)` pair. It answers three execute
messages:

- `UpdateConfig`: the owner replaces the owner and/or the routing rules.
- `Swap`: phase 1. The call carries one coin. The adapter routes the coin's
  denom to a market address, namely the third '/'-separated segment of the
  first matching rule's `debt_denom`. It then emits a `Repay` (no position
  holder) to that market carrying the received funds, followed by a
  zero-fund `PostSwap` to itself carrying the callback and the original
  sender.
- `PostSwap`: phase 2. Only the adapter itself may call it. It sends the
  adapter's whole balance to `sender`, through the callback when one is
  given and by a bank transfer otherwise.

It also answers one query, `Config`, which returns the stored configuration.

Files:

- `Wrappers.dfy`: the `Option` and `Result` datatypes.
- `Types.dfy`: the configuration, coins, inbound messages, outbound
  messages (`CosmosMsg`) and errors. It also defines `Recipient`, `Funds` and
  `TotalFunds`, which describe where a message goes and which coins it moves.
- `DenomRouter.dfy`: the denom router as pure functions:
  - first-match lookup (`Find`);
  - Rust's `str::split` (`Split`) and its inverse (`Join`);
  - `Route`.
- `Contract.dfy`:
  - the two message builders `HandleSwap` and `HandlePostSwap`, as pure
    functions;
  - the contract instance, as class `Adapter`. Its field
    `config: Option<Config>` is the persisted `CONFIG` item, and
    `Instantiate` and `Execute` change it in place.

The host's inputs are parameters. The contract's own address is `Env`, the
caller and attached funds are `MessageInfo`, and the result of
`query_all_balances` is `balance`.

Design property kept as written: `PostSwap` sweeps the adapter's entire
balance, not the amount a particular swap produced. Swaps that are in flight
at the same time therefore share one balance. The model reproduces this and
proves nothing about interleaved swaps.

Two facts about the code that the model keeps:

- The callback's settlement message is addressed to `sender`, because
  `callback.to_message(&sender, ...)` is called with `sender`
  (src/contract.rs:112).
- `instantiate` overwrites any stored configuration unconditionally
  (src/contract.rs:37).

## Model

| member | source | states |
|---|---|---|
| `DenomRouter.Find` | src/contract.rs:67-70 | result is absent iff no rule has the received denom; otherwise it is the rule at the first index whose denom matches (first match wins) |
| `DenomRouter.Split` | src/contract.rs:78 | splitting on '/' yields one piece more than there are '/' in the string, and no piece contains '/'; so three pieces means exactly two '/' |
| `DenomRouter.JoinSplit` | src/contract.rs:78 | gluing the split pieces back together with '/' reproduces the original `debt_denom` (nothing is lost by the split) |
| `DenomRouter.SplitJoin` | src/contract.rs:78 | splitting '/'-free pieces joined with '/' gives back exactly those pieces (split is the inverse of join) |
| `DenomRouter.SplitLastSegment` | src/contract.rs:78-89 | when there are at least two pieces, the last piece is the text after the last '/' of the string |
| `DenomRouter.Route` | src/contract.rs:67-89 | fails only with `InvalidDenom(denom)`; fails when no rule matches; succeeds iff the first matching rule's `debt_denom` contains exactly two '/'; the routed address is then the text after the last '/' of that rule's `debt_denom` |
| `Contract.HandleSwap` | src/contract.rs:62-103 | not exactly one coin gives `InvalidFunding`; otherwise success iff the first matching rule has exactly two '/', and every failure is `InvalidDenom(received denom)`; on success exactly two messages are emitted: first a `Repay { position_holder: None }` to the last segment of the first matching rule, then a `PostSwap { callback, sender: info.sender }` to the contract itself with no funds; the funds moved are exactly `info.funds` |
| `Contract.HandlePostSwap` | src/contract.rs:104-121 | fails with `Unauthorized` iff the caller is not the contract itself; otherwise emits exactly one message to `sender` that carries the whole balance: the callback's message with an empty payload when a callback is given, a bank send otherwise |
| `Contract.SwapThenSettle` | src/contract.rs:92-120 | the `PostSwap` emitted by a successful `Swap` is addressed to the contract itself; delivered with the contract as its caller, it is authorised and settles the whole balance to the original swap sender |
| `Contract.Adapter.Instantiate` | src/contract.rs:33-39 | the stored config becomes exactly `{owner, debt_config}` from the message, and no messages are emitted |
| `Contract.Adapter.Execute` | src/contract.rs:49-122 | with nothing stored every message fails with `NotInitialized`; any failure, and every `Swap` or `PostSwap`, leaves storage unchanged; `UpdateConfig` from a non-owner fails with `Unauthorized`; from the owner it replaces each field only when that field is given, keeps the other one, and emits nothing; `Swap`/`PostSwap` respond as `HandleSwap`/`HandlePostSwap` on the stored config |
| `Contract.Adapter.Query` | src/contract.rs:126-130 | returns the stored config, or `NotInitialized` when none is stored |
| `Contract.InstantiateThenQuery` | src/contract.rs:33-37 | a query (src/contract.rs:126-130) right after instantiation returns exactly the instantiated owner and routing rules |
| `Contract.UusdSwapScenario` | src/contract.rs:85-102 | with the single rule `uusd -> factory/x/marketAddr1`, a swap funded with 100 uusd and no callback emits a `Repay` to `marketAddr1` with those 100 uusd, then a zero-fund self `PostSwap` on behalf of the caller |

## Left out

- `migrate` and `set_contract_version` (src/contract.rs:19-22, 31): these only write version metadata, which no other part of the contract reads.
- JSON encoding of messages and of the query response (`to_json_binary`, and the body serialisation inside `wasm_execute`). Messages are abstract datatypes, and `query` returns the `Config` value itself, not its JSON.
- The serialisation errors that `wasm_execute` and `callback.to_message` could raise are not modelled. Both are treated as always succeeding.
- `Contract.OneCoin`: models `cw_utils::one_coin` only as "exactly one coin, or fail with `InvalidFunding`". The library's own rejection of a zero-amount coin and its distinct error variants are not part of this model.
- `deps.querier.query_all_balances` is the parameter `balance`. A failure of that query is not modelled.
- The storage encoding of `CONFIG`, and any storage failure on `save`: storage is the single field `Adapter.config`.
- Any fields of `ExecuteMsg::Swap` other than `callback`, which the source ignores (`..`), are not part of this model.
- `instantiate`'s unused `MessageInfo` and `Env` parameters.
- Cross-invocation ordering and delivery of the two messages that `Swap` emits. The host dispatcher guarantees these, not this code. `Contract.SwapThenSettle` assumes the continuation arrives with the adapter as its caller, and nothing is proved about swaps that interleave and share the swept balance.
