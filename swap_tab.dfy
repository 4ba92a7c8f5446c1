/** The swap page controller (src/pages/Swap/SwapTab.tsx): a component whose
    fields are the React state plus the per-symbol height cache. Each method
    is one handler of the page, and each states the whole new state as a
    function of the old one. */
module SwapPage {
  import opened JsNumbers
  import opened Text
  import opened JsObject
  import opened Catalog
  import opened ViewingKeys
  import opened Quotes
  import opened EventSync
  import opened Subscriptions

  const InitialSlippageTolerance: real := 0.005

  /** Everything the page holds, as one value. */
  datatype PageState = PageState(
    pairs: seq<Pair>,
    catalog: Catalog,
    feed: Feed,
    slippageTolerance: real,
    buttonMessage: string,
    loadingSwap: bool)

  /** The state right after construction. */
  function InitialState(): (s: PageState)
    ensures s.feed.quote.fromInput == "" && s.feed.quote.toInput == ""
    ensures !s.feed.quote.isFromEstimated && !s.feed.quote.isToEstimated
    ensures SingleAuthority(s.feed.quote)
  {
    PageState([], EmptyCatalog(),
              Feed(map[], map[], Quote("", "", "", "", false, false, Zero, Zero, Zero)),
              InitialSlippageTolerance, EnterAmount, false)
  }

  /** `Object.keys(tokens)[i]`, where a missing index reads as `undefined`. */
  function KeyAt(keys: seq<string>, i: nat): string
  {
    if i < |keys| then keys[i] else "undefined"
  }

  lemma FirstTwoKeysDiffer(tokens: Dict<TokenDisplay>)
    requires tokens.Valid()
    ensures |tokens.keys| >= 2 ==> KeyAt(tokens.keys, 1) != KeyAt(tokens.keys, 0)
  {
  }

  /** The state after mounting: the catalog from the factory's pairs, the
      second listed token on the from side and the first on the to side. */
  function Mounted(s: PageState, pairs: seq<Pair>, cat: Catalog): PageState
  {
    s.(pairs := pairs, catalog := cat,
       feed := s.feed.(quote := s.feed.quote.(fromToken := KeyAt(cat.tokens.keys, 1), toToken := KeyAt(cat.tokens.keys, 0))))
  }

  /** The component. The nine state keys of the quote (`fromToken`,
      `toToken`, `fromInput`, `toInput`, `isFromEstimated`, `isToEstimated`,
      `spread`, `commission`, `priceImpact`) are held together in `quote`. */
  class SwapTab {
    const env: Env

    var pairs: seq<Pair>
    var pairFromSymbol: Dict<Pair>
    var tokens: Dict<TokenDisplay>
    var balances: map<string, Balance>
    var quote: Quote
    var slippageTolerance: real
    var buttonMessage: string
    var loadingSwap: bool
    var symbolUpdateHeightCache: map<string, Num>

    function State(): PageState
      reads this
    {
      PageState(pairs, Catalog(tokens, pairFromSymbol),
                Feed(symbolUpdateHeightCache, balances, quote),
                slippageTolerance, buttonMessage, loadingSwap)
    }

    /** The catalog is well formed and at most one side is derived. */
    ghost predicate Valid()
      reads this
    {
      tokens.Valid() && pairFromSymbol.Valid() && SingleAuthority(quote)
    }

    constructor(env: Env)
      ensures this.env == env
      ensures State() == InitialState() && Valid()
    {
      this.env := env;
      pairs := [];
      pairFromSymbol := Empty();
      tokens := Empty();
      balances := map[];
      quote := Quote("", "", "", "", false, false, Zero, Zero, Zero);
      slippageTolerance := InitialSlippageTolerance;
      buttonMessage := EnterAmount;
      loadingSwap := false;
      symbolUpdateHeightCache := map[];
    }

    /** `componentDidMount`: the factory's pairs, the catalog and the initial selection. */
    method ComponentDidMount(factoryPairs: seq<Pair>, query: string -> TokenInfo, pre: Preloaded)
      requires Valid()
      modifies this
      ensures Valid()
      ensures Catalog(tokens, pairFromSymbol) == RegisterPairs(EmptyCatalog(), factoryPairs, query, pre)
      ensures State() == Mounted(old(State()), factoryPairs, Catalog(tokens, pairFromSymbol))
      ensures |tokens.keys| >= 2 ==> DistinctTokens(quote)
    {
      var t, p := BuildCatalog(factoryPairs, query, pre);
      Install(factoryPairs, t, p);
    }

    /** The `setState` at the end of `componentDidMount`: the catalog, and
        the second listed token on the from side, the first on the to side. */
    method Install(factoryPairs: seq<Pair>, t: Dict<TokenDisplay>, p: Dict<Pair>)
      requires Valid() && t.Valid() && p.Valid()
      modifies this
      ensures Valid()
      ensures tokens == t && pairFromSymbol == p && pairs == factoryPairs
      ensures quote == old(quote).(fromToken := KeyAt(t.keys, 1), toToken := KeyAt(t.keys, 0))
      ensures balances == old(balances) && symbolUpdateHeightCache == old(symbolUpdateHeightCache)
      ensures slippageTolerance == old(slippageTolerance) && buttonMessage == old(buttonMessage) && loadingSwap == old(loadingSwap)
      ensures |t.keys| >= 2 ==> DistinctTokens(quote)
    {
      FirstTwoKeysDiffer(t);
      var q := quote.(fromToken := KeyAt(t.keys, 1), toToken := KeyAt(t.keys, 0));
      pairs, tokens, pairFromSymbol, quote := factoryPairs, t, p, q;
    }

    /** `updateInputs`. */
    method UpdateInputs()
      requires Valid()
      modifies this
      ensures Valid()
      ensures State() == old(State()).(feed := old(State()).feed.(quote := Quotes.UpdateInputs(old(quote), balances, env)))
    {
      UpdateInputsKeepsSingleAuthority(quote, balances, env);
      quote := Quotes.UpdateInputs(quote, balances, env);
    }

    /** Everything one accepted symbol does: raise its cache entry, get a
        viewing key, fetch the user's balance and the pool reserves, merge
        them in one step, then `updateInputs`. */
    method RefreshSymbol(symbol: string, height: Num, io: Io, user: string)
      requires Valid()
      modifies this
      ensures Valid()
      ensures State() == old(State()).(feed := EventSync.RefreshSymbol(old(State()).feed, symbol, height, old(State()).catalog, io, user, env))
    {
      symbolUpdateHeightCache := symbolUpdateHeightCache[symbol := height];
      var viewingKey := FetchViewingKey(tokens.values, io, symbol);
      var userBalance := io.balance(symbol, user, viewingKey);
      var reserves := FetchReserves(symbol, PoolKeys(pairFromSymbol.keys, symbol), pairFromSymbol.values, io);
      balances := Merge(balances, symbol, userBalance, reserves);
      UpdateInputs();
    }

    /** `ws.onmessage`: the event's symbols in order; the first stale one ends the event. */
    method OnMessage(e: Event, io: Io, user: string)
      requires Valid()
      modifies this
      ensures Valid()
      ensures State() == old(State()).(feed := HandleEvent(old(State()).feed, e, old(State()).catalog, io, user, env))
    {
      var symbols := Split(e.id, Slash);
      var height := EventHeight(e, env.number);
      var i := 0;
      while i < |symbols|
        invariant 0 <= i <= |symbols|
        invariant Valid()
        invariant State() == old(State()).(feed := State().feed)
        invariant HandleSymbols(State().feed, symbols[i..], height, State().catalog, io, user, env)
               == HandleEvent(old(State()).feed, e, old(State()).catalog, io, user, env)
      {
        var symbol := symbols[i];
        if symbol in symbolUpdateHeightCache && Le(height, symbolUpdateHeightCache[symbol]) {
          return;
        }
        RefreshSymbol(symbol, height, io, user);
        assert symbols[i..][1..] == symbols[i + 1..];
        i := i + 1;
      }
    }

    /** `ws.onopen`: the subscriptions sent, in order. */
    method OnOpen(address: string) returns (sent: seq<Subscription>)
      requires Valid()
      ensures sent == Plan(tokens, pairFromSymbol, address)
    {
      sent := Subscribe(tokens, pairFromSymbol, address);
    }

    /** The from-amount field. */
    method SetFromAmount(value: string)
      requires Valid()
      modifies this
      ensures Valid()
      ensures State() == old(State()).(feed := old(State()).feed.(quote := TypeFrom(old(quote), value, balances, env)))
    {
      HandlersKeepSingleAuthority(quote, value, balances, env);
      quote := TypedFrom(quote, value, env.number);
      if IsZeroAmount(value, env.number) {
        return;
      }
      UpdateInputs();
    }

    /** The to-amount field. */
    method SetToAmount(value: string)
      requires Valid()
      modifies this
      ensures Valid()
      ensures State() == old(State()).(feed := old(State()).feed.(quote := TypeTo(old(quote), value, balances, env)))
    {
      HandlersKeepSingleAuthority(quote, value, balances, env);
      quote := TypedTo(quote, value, env.number);
      if IsZeroAmount(value, env.number) {
        return;
      }
      UpdateInputs();
    }

    /** The arrow between the two fields. */
    method FlipSides()
      requires Valid()
      modifies this
      ensures Valid()
      ensures State() == old(State()).(feed := old(State()).feed.(quote := Flip(old(quote), balances, env)))
    {
      HandlersKeepSingleAuthority(quote, "", balances, env);
      quote := Flipped(quote);
      UpdateInputs();
    }

    /** The from-side token picker. */
    method SetFromToken(value: string)
      requires Valid()
      modifies this
      ensures Valid()
      ensures State() == old(State()).(feed := old(State()).feed.(quote := PickFrom(old(quote), value)))
      ensures old(DistinctTokens(quote)) ==> DistinctTokens(quote)
    {
      HandlersKeepSingleAuthority(quote, value, balances, env);
      if DistinctTokens(quote) {
        HandlersKeepDistinctTokens(quote, value, balances, env);
      }
      quote := PickFrom(quote, value);
    }

    /** The to-side token picker. */
    method SetToToken(value: string)
      requires Valid()
      modifies this
      ensures Valid()
      ensures State() == old(State()).(feed := old(State()).feed.(quote := PickTo(old(quote), value)))
      ensures old(DistinctTokens(quote)) ==> DistinctTokens(quote)
    {
      HandlersKeepSingleAuthority(quote, value, balances, env);
      if DistinctTokens(quote) {
        HandlersKeepDistinctTokens(quote, value, balances, env);
      }
      quote := PickTo(quote, value);
    }

    method SetSlippageTolerance(tolerance: real)
      modifies this
      ensures State() == old(State()).(slippageTolerance := tolerance)
    {
      slippageTolerance := tolerance;
    }

    /** The button's click up to the transaction: a price impact of 15% or
        more goes ahead only when the user typed the confirmation; going
        ahead marks a swap as loading. */
    method BeginSwap(confirmed: bool) returns (started: bool)
      modifies this
      ensures started <==> !NeedsConfirmation(old(quote)) || confirmed
      ensures State() == if started then old(State()).(loadingSwap := true) else old(State())
    {
      if NeedsConfirmation(quote) && !confirmed {
        return false;
      }
      loadingSwap := true;
      started := true;
    }

    /** The button's click after the transaction: loading ends, and a
        successful swap empties both amount fields. */
    method FinishSwap(succeeded: bool)
      requires Valid()
      modifies this
      ensures Valid()
      ensures State() == old(State()).(loadingSwap := false,
                                       feed := old(State()).feed.(quote := AfterSwap(old(quote), succeeded)))
    {
      loadingSwap := false;
      quote := AfterSwap(quote, succeeded);
    }
  }

  // ---------------------------------------------------------------------
  // Properties of the page as a whole

  /** After mounting with at least two tokens the two sides name different
      tokens and both amount fields are still empty. */
  lemma MountedSelection(pairs: seq<Pair>, query: string -> TokenInfo, pre: Preloaded)
    requires |RegisterPairs(EmptyCatalog(), pairs, query, pre).tokens.keys| >= 2
    ensures var s := Mounted(InitialState(), pairs, RegisterPairs(EmptyCatalog(), pairs, query, pre));
      DistinctTokens(s.feed.quote) && s.feed.quote.fromInput == "" && s.feed.quote.toInput == ""
  {
    RegisterPairsValid(EmptyCatalog(), pairs, query, pre);
  }

  /** Event handling keeps at most one side derived. */
  lemma {:induction false} HandleSymbolsKeepsSingleAuthority(f: Feed, symbols: seq<string>, height: Num, cat: Catalog, io: Io, user: string, env: Env)
    requires cat.pairFromSymbol.Valid()
    requires SingleAuthority(f.quote)
    ensures SingleAuthority(HandleSymbols(f, symbols, height, cat, io, user, env).quote)
    decreases |symbols|
  {
    if symbols != [] && !Stale(height, f.cache, symbols[0]) {
      var g := EventSync.RefreshSymbol(f, symbols[0], height, cat, io, user, env);
      UpdateInputsKeepsSingleAuthority(f.quote, g.balances, env);
      HandleSymbolsKeepsSingleAuthority(g, symbols[1..], height, cat, io, user, env);
    }
  }
}
