/**
 * The adapter's entry points: `instantiate`, `execute` (with its
 * `UpdateConfig`, `Swap` and `PostSwap` arms) and `query`. Storage is the
 * `config` field of an `Adapter`; the host's balance query and the
 * contract's own address are parameters.
 */
module Contract {
  import opened Wrappers
  import opened Types
  import opened DenomRouter

  /** `one_coin`: the call must carry exactly one coin. */
  function OneCoin(info: MessageInfo): (r: Result<Coin, ContractError>)
    ensures r.Ok? <==> |info.funds| == 1
    ensures r.Ok? ==> r.value == info.funds[0]
    ensures r.Err? ==> r.error == InvalidFunding
  {
    if |info.funds| == 1 then Ok(info.funds[0]) else Err(InvalidFunding)
  }

  /**
   * Phase 1: forward the received funds as a `Repay` to the routed market,
   * then call the adapter itself with `PostSwap`, carrying the callback and
   * the original sender and no funds.
   */
  function HandleSwap(config: Config, env: Env, info: MessageInfo, callback: Option<CallbackData>)
    : (r: Response)
    ensures |info.funds| != 1 ==> r == Err(InvalidFunding)
    ensures |info.funds| == 1 ==>
      (r.Ok? <==> exists i :: FirstMatch(config.debtConfig, info.funds[0].denom, i)
                            && Count(config.debtConfig[i].debtDenom, Sep) == 2)
    ensures |info.funds| == 1 && r.Err? ==> r.error == InvalidDenom(info.funds[0].denom)
    ensures r.Ok? ==> |r.value| == 2
    ensures r.Ok? ==> r.value[0].WasmExecute? && r.value[0].body == MarketRepay(None)
    ensures r.Ok? ==> forall i :: FirstMatch(config.debtConfig, info.funds[0].denom, i) ==>
      LastSegment(config.debtConfig[i].debtDenom, Recipient(r.value[0]), Sep)
    ensures r.Ok? ==> r.value[1] == WasmExecute(env.contractAddress, PostSwapCall(callback, info.sender), [])
    ensures r.Ok? ==> TotalFunds(r.value) == info.funds
  {
    var received :- OneCoin(info);
    // `execute` loads the configuration a second time here; it is the same value.
    var addr :- Route(config.debtConfig, received.denom);
    var repay := WasmExecute(addr, MarketRepay(None), info.funds);
    var postSwap := WasmExecute(env.contractAddress, PostSwapCall(callback, info.sender), []);
    assert [repay, postSwap][1..] == [postSwap];
    assert TotalFunds([postSwap]) == [] + TotalFunds([]);
    Ok([repay, postSwap])
  }

  /**
   * Phase 2: only the adapter itself may settle; it sends its whole balance
   * to `sender`, through the callback when there is one, by a bank transfer
   * otherwise.
   */
  function HandlePostSwap(env: Env, info: MessageInfo, callback: Option<CallbackData>, sender: Addr,
                          balance: seq<Coin>): (r: Response)
    ensures r.Err? <==> info.sender != env.contractAddress
    ensures r.Err? ==> r.error == Unauthorized
    ensures r.Ok? ==> |r.value| == 1 && Recipient(r.value[0]) == sender
    ensures r.Ok? ==> TotalFunds(r.value) == balance
    ensures r.Ok? && callback.Some? ==> r.value[0] == CallbackExecute(sender, callback.value, Empty, balance)
    ensures r.Ok? && callback.None? ==> r.value[0] == BankSend(sender, balance)
  {
    if info.sender != env.contractAddress then Err(Unauthorized)
    else
      var settle := match callback
        case Some(cb) => CallbackExecute(sender, cb, Empty, balance)
        case None => BankSend(sender, balance);
      assert TotalFunds([settle]) == balance + [];
      Ok([settle])
  }

  /**
   * The continuation that `Swap` emits, once the host delivers it (its
   * caller is then the adapter itself), passes the authorisation check and
   * settles the whole balance to the sender of the original `Swap`.
   */
  lemma SwapThenSettle(config: Config, env: Env, info: MessageInfo, callback: Option<CallbackData>,
                       balance: seq<Coin>)
    requires HandleSwap(config, env, info, callback).Ok?
    ensures var m := HandleSwap(config, env, info, callback).value[1];
      && m.WasmExecute? && m.body.PostSwapCall?
      && m.contractAddr == env.contractAddress
      && var s := HandlePostSwap(env, MessageInfo(env.contractAddress, m.funds), m.body.callback,
                                 m.body.sender, balance);
      && s.Ok? && |s.value| == 1 && Recipient(s.value[0]) == info.sender
      && TotalFunds(s.value) == balance
  {
  }

  /** The contract instance: its persisted configuration, absent until instantiated. */
  class Adapter {
    var config: Option<Config>

    constructor ()
      ensures config == None
    {
      config := None;
    }

    /** `instantiate`: store the given owner and routing rules, emit nothing. */
    method Instantiate(msg: InstantiateMsg) returns (r: Response)
      modifies this
      ensures config == Some(Config(msg.owner, msg.debtConfig))
      ensures r == Ok([])
    {
      config := Some(Config(msg.owner, msg.debtConfig));
      r := Ok([]);
    }

    /**
     * `execute`: fail with `NotInitialized` when nothing is stored; otherwise
     * run the arm of `msg`. Only an authorised `UpdateConfig` writes storage.
     */
    method Execute(env: Env, info: MessageInfo, msg: ExecuteMsg, balance: seq<Coin>) returns (r: Response)
      modifies this
      ensures old(config).None? ==> r == Err(NotInitialized)
      ensures r.Err? || !msg.UpdateConfig? ==> config == old(config)
      ensures old(config).Some? && msg.UpdateConfig? ==>
        var c := old(config).value;
        if info.sender != c.owner then r == Err(Unauthorized)
        else
          && r == Ok([])
          && config == Some(Config(
               if msg.owner.Some? then msg.owner.value else c.owner,
               if msg.debtConfig.Some? then msg.debtConfig.value else c.debtConfig))
      ensures old(config).Some? && msg.Swap? ==>
        r == HandleSwap(old(config).value, env, info, msg.callback)
      ensures old(config).Some? && msg.PostSwap? ==>
        r == HandlePostSwap(env, info, msg.callback, msg.sender, balance)
    {
      if config.None? {
        return Err(NotInitialized);
      }
      var cfg := config.value;
      match msg
      case UpdateConfig(owner, debtConfig) =>
        if info.sender != cfg.owner {
          return Err(Unauthorized);
        }
        if owner.Some? {
          cfg := cfg.(owner := owner.value);
        }
        if debtConfig.Some? {
          cfg := cfg.(debtConfig := debtConfig.value);
        }
        config := Some(cfg);
        r := Ok([]);
      case Swap(callback) =>
        r := HandleSwap(cfg, env, info, callback);
      case PostSwap(callback, sender) =>
        r := HandlePostSwap(env, info, callback, sender, balance);
    }

    /** `query(Config {})`: the stored configuration, or `NotInitialized`. */
    function Query(): (r: Result<Config, ContractError>)
      reads this
      ensures r.Err? <==> config.None?
      ensures r.Err? ==> r.error == NotInitialized
      ensures r.Ok? ==> config == Some(r.value)
    {
      if config.None? then Err(NotInitialized) else Ok(config.value)
    }
  }

  /** Querying right after instantiating returns exactly what was instantiated. */
  method InstantiateThenQuery(owner: Addr, debtConfig: seq<DenomConfig>)
    returns (r: Result<Config, ContractError>)
    ensures r == Ok(Config(owner, debtConfig))
  {
    var adapter := new Adapter();
    var _ := adapter.Instantiate(InstantiateMsg(owner, debtConfig));
    r := adapter.Query();
  }

  /** `factory/x/marketAddr1` is its three segments joined with '/'. */
  lemma UusdDebtDenomJoin()
    ensures Join(["factory", "x", "marketAddr1"], Sep) == "factory/x/marketAddr1"
  {
  }

  /** `factory/x/marketAddr1` splits into its three segments. */
  lemma UusdDebtDenomSplit()
    ensures Split("factory/x/marketAddr1", Sep) == ["factory", "x", "marketAddr1"]
  {
    UusdDebtDenomJoin();
    var pieces := ["factory", "x", "marketAddr1"];
    assert forall i :: 0 <= i < 3 ==> Sep !in pieces[i];
    SplitJoin(pieces, Sep);
  }

  /** The rule `uusd -> factory/x/marketAddr1` routes uusd to `marketAddr1`. */
  lemma UusdRoute()
    ensures Route([DenomConfig("uusd", "factory/x/marketAddr1")], "uusd") == Ok("marketAddr1")
  {
    UusdDebtDenomSplit();
  }

  /**
   * One routing rule `uusd -> factory/x/marketAddr1`; a swap funded with
   * 100 uusd and no callback repays `marketAddr1` with those funds and then
   * calls the adapter back on behalf of the caller.
   */
  method UusdSwapScenario(self: Addr, caller: Addr, owner: Addr) returns (r: Response)
    ensures r == Ok([
      WasmExecute("marketAddr1", MarketRepay(None), [Coin("uusd", 100)]),
      WasmExecute(self, PostSwapCall(None, caller), [])])
  {
    var rules := [DenomConfig("uusd", "factory/x/marketAddr1")];
    var adapter := new Adapter();
    var _ := adapter.Instantiate(InstantiateMsg(owner, rules));
    UusdRoute();
    var info := MessageInfo(caller, [Coin("uusd", 100)]);
    assert HandleSwap(Config(owner, rules), Env(self), info, None) == Ok([
      WasmExecute("marketAddr1", MarketRepay(None), [Coin("uusd", 100)]),
      WasmExecute(self, PostSwapCall(None, caller), [])]);
    r := adapter.Execute(Env(self), info, Swap(None), []);
  }
}
