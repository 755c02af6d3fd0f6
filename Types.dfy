/**
 * The values the adapter stores, receives and emits: its configuration,
 * the coins it is funded with, the messages it accepts and the messages it
 * hands to the host for dispatch. Addresses and denoms are strings.
 */
module Types {
  import opened Wrappers

  type Addr = string
  type Denom = string

  /** An amount of one asset. Amounts are unbounded naturals. */
  datatype Coin = Coin(denom: Denom, amount: nat)

  /** A routing rule: funds in `denom` repay the market named by `debtDenom`. */
  datatype DenomConfig = DenomConfig(denom: Denom, debtDenom: Denom)

  /** The persisted singleton. */
  datatype Config = Config(owner: Addr, debtConfig: seq<DenomConfig>)

  /** Opaque callback descriptor supplied by the caller of `Swap`. */
  datatype CallbackData = CallbackData(bytes: seq<bv8>)

  /** The empty payload the settlement hands to the callback. */
  datatype CallbackPayload = Empty

  /** The environment and the caller of one invocation. */
  datatype Env = Env(contractAddress: Addr)
  datatype MessageInfo = MessageInfo(sender: Addr, funds: seq<Coin>)

  datatype InstantiateMsg = InstantiateMsg(owner: Addr, debtConfig: seq<DenomConfig>)

  datatype ExecuteMsg =
    | UpdateConfig(owner: Option<Addr>, debtConfig: Option<seq<DenomConfig>>)
    | Swap(callback: Option<CallbackData>)
    | PostSwap(callback: Option<CallbackData>, sender: Addr)

  /** The body of a contract call the adapter emits. */
  datatype WasmBody =
    | MarketRepay(positionHolder: Option<Addr>)
    | PostSwapCall(callback: Option<CallbackData>, sender: Addr)

  /** An outbound instruction handed to the host for dispatch. */
  datatype CosmosMsg =
    | WasmExecute(contractAddr: Addr, body: WasmBody, funds: seq<Coin>)
    | CallbackExecute(contractAddr: Addr, data: CallbackData, payload: CallbackPayload, funds: seq<Coin>)
    | BankSend(toAddress: Addr, amount: seq<Coin>)

  datatype ContractError =
    | NotInitialized
    | Unauthorized
    | InvalidDenom(denom: Denom)
    | InvalidFunding

  /** What an execute handler produces: the messages of its response. */
  type Response = Result<seq<CosmosMsg>, ContractError>

  /** The address a message is delivered to. */
  function Recipient(m: CosmosMsg): Addr
  {
    match m
    case WasmExecute(a, _, _) => a
    case CallbackExecute(a, _, _, _) => a
    case BankSend(a, _) => a
  }

  /** The coins a message moves out of the adapter. */
  function Funds(m: CosmosMsg): seq<Coin>
  {
    match m
    case WasmExecute(_, _, f) => f
    case CallbackExecute(_, _, _, f) => f
    case BankSend(_, f) => f
  }

  /** Every coin a list of messages moves, in order. */
  function TotalFunds(msgs: seq<CosmosMsg>): seq<Coin>
  {
    if msgs == [] then [] else Funds(msgs[0]) + TotalFunds(msgs[1..])
  }
}
