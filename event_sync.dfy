/** The chain-event handler of the swap page (`ws.onmessage`,
    src/pages/Swap/SwapTab.tsx:185-309): a height filter per symbol, the
    viewing-key lookup, the balance fetches and the single merge into
    `balances`, followed by `updateInputs`.

    Handlers run one after the other: the interleaving of concurrent
    handlers at their `await`s is not modelled, and each merge is one
    atomic step, as the functional `setState` makes it. */
module EventSync {
  import opened JsNumbers
  import opened Text
  import opened JsObject
  import opened Catalog
  import opened ViewingKeys
  import opened Quotes

  /** A notification: the subscription id it answers (a symbol or a pair
      key) and the two places its height may be found, as strings. */
  datatype Event = Event(id: string, txHeight: Option<string>, blockHeight: Option<string>)

  /** The wallet and the chain as one event sees them: the wallet's answer
      to attempt `i` at the viewing key of a token address, and `getBalance`
      of a symbol for an owner address with a viewing key. */
  datatype Io = Io(viewingKey: (string, nat) -> KeyReply, balance: (string, string, string) -> Balance)

  /** The viewing key used for pool reserves. */
  const PoolViewingKey: string := "SecretSwap"

  /** The read model the handler updates: the height cache, the balances and the quote. */
  datatype Feed = Feed(cache: map<string, Num>, balances: map<string, Balance>, quote: Quote)

  /** `Number(txHeight || blockHeight || 0)`: the first non-empty height string, else 0. */
  function EventHeight(e: Event, number: string -> Num): Num
  {
    if e.txHeight.Some? && e.txHeight.value != "" then number(e.txHeight.value)
    else if e.blockHeight.Some? && e.blockHeight.value != "" then number(e.blockHeight.value)
    else Zero
  }

  /** `height <= symbolUpdateHeightCache[symbol]`: false for a symbol never
      seen (the comparison with `undefined` is false) and whenever NaN is
      involved. */
  predicate Stale(height: Num, cache: map<string, Num>, symbol: string)
  {
    symbol in cache && Le(height, cache[symbol])
  }

  /** The wallet's answers for `symbol`: reading `tokens[symbol].address` of
      an unlisted symbol throws inside the `try`, like a wallet error. */
  function KeyReplies(tokens: map<string, TokenDisplay>, io: Io, symbol: string): nat -> KeyReply
  {
    (i: nat) => if symbol in tokens then io.viewingKey(tokens[symbol].address, i) else Threw
  }

  /** SCRT needs no viewing key; any other symbol gets the retry loop's result. */
  function SymbolViewingKey(tokens: map<string, TokenDisplay>, io: Io, symbol: string): string
  {
    if symbol == Scrt then "" else ViewingKey(KeyReplies(tokens, io, symbol))
  }

  /** The pair keys whose reserves of `symbol` are refreshed: those starting with `symbol/`. */
  function PoolKeys(keys: seq<string>, symbol: string): (pools: seq<string>)
    ensures forall k :: k in pools ==> k in keys && StartsWith(k, symbol + "/")
  {
    if keys == [] then []
    else (if StartsWith(keys[0], symbol + "/") then [keys[0]] else []) + PoolKeys(keys[1..], symbol)
  }

  lemma {:induction false} PoolKeysComplete(keys: seq<string>, symbol: string, k: string)
    requires k in keys && StartsWith(k, symbol + "/")
    ensures k in PoolKeys(keys, symbol)
  {
    if keys[0] != k {
      PoolKeysComplete(keys[1..], symbol, k);
    }
  }

  /** After mounting, refreshing either symbol of a factory pair fetches
      that pair's reserve: its key for that symbol is among the pool keys. */
  lemma EveryPoolOfSymbolFetched(ps: seq<Pair>, i: nat, query: string -> TokenInfo, pre: Preloaded)
    requires i < |ps|
    ensures var keys := RegisterPairs(EmptyCatalog(), ps, query, pre).pairFromSymbol.keys;
      var a := SymbolOf(ps[i].asset0, query);
      var b := SymbolOf(ps[i].asset1, query);
      PairKey(a, b) in PoolKeys(keys, a) && PairKey(b, a) in PoolKeys(keys, b)
  {
    var cat := RegisterPairs(EmptyCatalog(), ps, query, pre);
    var a := SymbolOf(ps[i].asset0, query);
    var b := SymbolOf(ps[i].asset1, query);
    RegisterPairsValid(EmptyCatalog(), ps, query, pre);
    EveryPairRegistered(EmptyCatalog(), ps, query, pre);
    assert Registered(cat.pairFromSymbol, ps[i], query);
    StartsWithPairKey(a, b);
    StartsWithPairKey(b, a);
    PoolKeysComplete(cat.pairFromSymbol.keys, a, PairKey(a, b));
    PoolKeysComplete(cat.pairFromSymbol.keys, b, PairKey(b, a));
  }

  /** The reserve of `symbol` held by the pair contract behind `pairKey`. */
  function PoolBalance(pairFromSymbol: map<string, Pair>, io: Io, symbol: string, pairKey: string): Balance
    requires pairKey in pairFromSymbol
  {
    io.balance(symbol, pairFromSymbol[pairKey].contractAddr, PoolViewingKey)
  }

  /** `pairSymbolToFreshBalances`: each pool's reserve under both orientations of its key. */
  function ReserveUpdates(symbol: string, pools: seq<string>, pairFromSymbol: map<string, Pair>, io: Io): map<string, Balance>
    requires forall k :: k in pools ==> k in pairFromSymbol
  {
    if pools == [] then map[]
    else
      var k := pools[|pools| - 1];
      var v := PoolBalance(pairFromSymbol, io, symbol, k);
      ReserveUpdates(symbol, pools[..|pools| - 1], pairFromSymbol, io)[ReserveKey(symbol, k) := v][ReserveKey(symbol, Inverted(k)) := v]
  }

  /** The viewing key of one symbol: none for SCRT, the retry loop otherwise. */
  method FetchViewingKey(tokens: map<string, TokenDisplay>, io: Io, symbol: string) returns (viewingKey: string)
    ensures viewingKey == SymbolViewingKey(tokens, io, symbol)
    ensures symbol == Scrt ==> viewingKey == ""
  {
    viewingKey := "";
    if symbol != Scrt {
      var tries;
      viewingKey, tries := ResolveViewingKey(KeyReplies(tokens, io, symbol));
    }
  }

  /** The loop filling `pairSymbolToFreshBalances`, one pool at a time. */
  method FetchReserves(symbol: string, pools: seq<string>, pairFromSymbol: map<string, Pair>, io: Io) returns (reserves: map<string, Balance>)
    requires forall k :: k in pools ==> k in pairFromSymbol
    ensures reserves == ReserveUpdates(symbol, pools, pairFromSymbol, io)
  {
    reserves := map[];
    for i := 0 to |pools|
      invariant forall k :: k in pools[..i] ==> k in pairFromSymbol
      invariant reserves == ReserveUpdates(symbol, pools[..i], pairFromSymbol, io)
    {
      var k := pools[i];
      var reserve := io.balance(symbol, pairFromSymbol[k].contractAddr, PoolViewingKey);
      reserves := reserves[ReserveKey(symbol, k) := reserve][ReserveKey(symbol, Inverted(k)) := reserve];
      assert pools[..i + 1][..i] == pools[..i];
    }
    assert pools[..|pools|] == pools;
  }

  /** The `Object.assign` of the merge: the user's balance, then the reserves. */
  function Merge(balances: map<string, Balance>, symbol: string, user: Balance, reserves: map<string, Balance>): map<string, Balance>
  {
    balances[symbol := user] + reserves
  }

  /** Everything one accepted symbol does after the height filter. */
  function RefreshSymbol(f: Feed, symbol: string, height: Num, cat: Catalog, io: Io, user: string, env: Env): Feed
    requires cat.pairFromSymbol.Valid()
  {
    var key := SymbolViewingKey(cat.tokens.values, io, symbol);
    var pools := PoolKeys(cat.pairFromSymbol.keys, symbol);
    var balances := Merge(f.balances, symbol, io.balance(symbol, user, key),
                          ReserveUpdates(symbol, pools, cat.pairFromSymbol.values, io));
    Feed(f.cache[symbol := height], balances, UpdateInputs(f.quote, balances, env))
  }

  /** The `for` loop over the event's symbols; a stale symbol ends the whole event. */
  function HandleSymbols(f: Feed, symbols: seq<string>, height: Num, cat: Catalog, io: Io, user: string, env: Env): Feed
    requires cat.pairFromSymbol.Valid()
    decreases |symbols|
  {
    if symbols == [] || Stale(height, f.cache, symbols[0]) then f
    else HandleSymbols(RefreshSymbol(f, symbols[0], height, cat, io, user, env), symbols[1..], height, cat, io, user, env)
  }

  function HandleEvent(f: Feed, e: Event, cat: Catalog, io: Io, user: string, env: Env): Feed
    requires cat.pairFromSymbol.Valid()
  {
    HandleSymbols(f, Split(e.id, Slash), EventHeight(e, env.number), cat, io, user, env)
  }

  // ---------------------------------------------------------------------
  // The height filter

  /** The height cache after the event's symbols: the cache-only shadow of `HandleSymbols`. */
  function CacheAfter(cache: map<string, Num>, symbols: seq<string>, height: Num): map<string, Num>
    decreases |symbols|
  {
    if symbols == [] || Stale(height, cache, symbols[0]) then cache
    else CacheAfter(cache[symbols[0] := height], symbols[1..], height)
  }

  /** How many of the event's symbols get past the filter before the first stale one. */
  function Accepted(cache: map<string, Num>, symbols: seq<string>, height: Num): (n: nat)
    ensures n <= |symbols|
    decreases |symbols|
  {
    if symbols == [] || Stale(height, cache, symbols[0]) then 0
    else 1 + Accepted(cache[symbols[0] := height], symbols[1..], height)
  }

  /** `cache` with every symbol of `symbols` set to `height`. */
  function Raise(cache: map<string, Num>, symbols: seq<string>, height: Num): (r: map<string, Num>)
    ensures forall s :: s in r <==> s in cache || s in symbols
    ensures forall s :: s in symbols ==> r[s] == height
    ensures forall s :: s in cache && s !in symbols ==> r[s] == cache[s]
    decreases |symbols|
  {
    if symbols == [] then cache else Raise(cache[symbols[0] := height], symbols[1..], height)
  }

  /** The handler's cache is the cache-only fold. */
  lemma {:induction false} HandleSymbolsCache(f: Feed, symbols: seq<string>, height: Num, cat: Catalog, io: Io, user: string, env: Env)
    requires cat.pairFromSymbol.Valid()
    ensures HandleSymbols(f, symbols, height, cat, io, user, env).cache == CacheAfter(f.cache, symbols, height)
    decreases |symbols|
  {
    if symbols != [] && !Stale(height, f.cache, symbols[0]) {
      HandleSymbolsCache(RefreshSymbol(f, symbols[0], height, cat, io, user, env), symbols[1..], height, cat, io, user, env);
    }
  }

  /** A stale first symbol (or no symbol at all) leaves everything as it
      was: nothing is accepted and the handler returns its feed. */
  lemma StaleEventIsNoOp(f: Feed, symbols: seq<string>, height: Num, cat: Catalog, io: Io, user: string, env: Env)
    requires cat.pairFromSymbol.Valid()
    requires symbols == [] || Stale(height, f.cache, symbols[0])
    ensures Accepted(f.cache, symbols, height) == 0
    ensures HandleSymbols(f, symbols, height, cat, io, user, env) == f
    ensures HandleSymbols(f, symbols[..0], height, cat, io, user, env) == f
  {
    assert symbols[..0] == [];
  }

  /** One accepted symbol: on any two symbol lists that start with it, the
      handler continues from the same refresh `g`, whose cache holds the height. */
  lemma HandleSymbolsStep(f: Feed, symbols: seq<string>, other: seq<string>, height: Num, cat: Catalog, io: Io, user: string, env: Env) returns (g: Feed)
    requires cat.pairFromSymbol.Valid()
    requires symbols != [] && other != [] && other[0] == symbols[0] && !Stale(height, f.cache, symbols[0])
    ensures g.cache == f.cache[symbols[0] := height]
    ensures HandleSymbols(f, symbols, height, cat, io, user, env) == HandleSymbols(g, symbols[1..], height, cat, io, user, env)
    ensures HandleSymbols(f, other, height, cat, io, user, env) == HandleSymbols(g, other[1..], height, cat, io, user, env)
  {
    g := RefreshSymbol(f, symbols[0], height, cat, io, user, env);
  }

  /** A symbol that passes the filter counts towards the accepted prefix. */
  lemma AcceptedStep(cache: map<string, Num>, symbols: seq<string>, height: Num)
    requires symbols != [] && !Stale(height, cache, symbols[0])
    ensures Accepted(cache, symbols, height) == 1 + Accepted(cache[symbols[0] := height], symbols[1..], height)
  {
  }

  lemma PrefixTail(symbols: seq<string>, m: nat)
    requires m < |symbols|
    ensures symbols[..m + 1] != [] && symbols[..m + 1][0] == symbols[0]
    ensures symbols[..m + 1][1..] == symbols[1..][..m]
  {
  }

  /** The symbols after the first stale one are never looked at: the event
      does exactly what its accepted prefix does, to the cache, the balances
      and the quote alike. */
  lemma {:induction false} HandleSymbolsStopsAtStale(f: Feed, symbols: seq<string>, height: Num, cat: Catalog, io: Io, user: string, env: Env)
    requires cat.pairFromSymbol.Valid()
    ensures HandleSymbols(f, symbols, height, cat, io, user, env)
         == HandleSymbols(f, symbols[..Accepted(f.cache, symbols, height)], height, cat, io, user, env)
    decreases |symbols|
  {
    if symbols == [] || Stale(height, f.cache, symbols[0]) {
      StaleEventIsNoOp(f, symbols, height, cat, io, user, env);
    } else {
      var m := Accepted(f.cache[symbols[0] := height], symbols[1..], height);
      var pre := symbols[..m + 1];
      AcceptedStep(f.cache, symbols, height);
      PrefixTail(symbols, m);
      var g := HandleSymbolsStep(f, symbols, pre, height, cat, io, user, env);
      HandleSymbolsStopsAtStale(g, symbols[1..], height, cat, io, user, env);
    }
  }

  /** The cache after an event: the accepted symbols now hold the event's
      height, every other entry is as before, and the symbol that stopped
      the event, if any, was stale at its turn. */
  lemma {:induction false} CacheAfterEvent(cache: map<string, Num>, symbols: seq<string>, height: Num)
    ensures var n := Accepted(cache, symbols, height);
      CacheAfter(cache, symbols, height) == Raise(cache, symbols[..n], height)
    ensures var n := Accepted(cache, symbols, height);
      n < |symbols| ==> Stale(height, Raise(cache, symbols[..n], height), symbols[n])
    decreases |symbols|
  {
    if symbols == [] || Stale(height, cache, symbols[0]) {
      assert symbols[..0] == [];
    } else {
      var next := cache[symbols[0] := height];
      CacheAfterEvent(next, symbols[1..], height);
      var m := Accepted(next, symbols[1..], height);
      assert Accepted(cache, symbols, height) == m + 1;
      assert CacheAfter(cache, symbols, height) == CacheAfter(next, symbols[1..], height);
      var pre := symbols[..m + 1];
      assert pre[0] == symbols[0] && pre[1..] == symbols[1..][..m];
      assert Raise(cache, pre, height) == Raise(next, symbols[1..][..m], height);
      if m + 1 < |symbols| {
        assert symbols[m + 1] == symbols[1..][m];
      }
    }
  }

  /** With a numeric height, a cached numeric height never goes down. */
  lemma {:induction false} CacheNeverDecreases(cache: map<string, Num>, symbols: seq<string>, height: Num)
    requires !height.NaN?
    ensures var r := CacheAfter(cache, symbols, height);
      forall s :: s in cache && !cache[s].NaN? ==> s in r && Le(cache[s], r[s])
    decreases |symbols|
  {
    if symbols != [] && !Stale(height, cache, symbols[0]) {
      var next := cache[symbols[0] := height];
      CacheNeverDecreases(next, symbols[1..], height);
      var r := CacheAfter(cache, symbols, height);
      forall s | s in cache && !cache[s].NaN?
        ensures s in r && Le(cache[s], r[s])
      {
        assert s in next && !next[s].NaN? && Le(next[s], r[s]);
        if s == symbols[0] {
          LeTotal(height, cache[s]);
          LtIsStrictOrder(cache[s], height, r[s]);
        }
      }
    }
  }

  /** A symbol the cache has never seen always gets through. */
  lemma FirstSeenAccepted(f: Feed, symbols: seq<string>, height: Num, cat: Catalog, io: Io, user: string, env: Env)
    requires cat.pairFromSymbol.Valid()
    requires symbols != [] && symbols[0] !in f.cache
    ensures HandleSymbols(f, symbols, height, cat, io, user, env)
         == HandleSymbols(RefreshSymbol(f, symbols[0], height, cat, io, user, env), symbols[1..], height, cat, io, user, env)
  {
  }

  /** A NaN height is not dropped: it gets past the filter and is stored,
      and a NaN entry lets every later height through. */
  lemma NaNHeightAccepted(cache: map<string, Num>, symbol: string, height: Num)
    ensures height.NaN? ==> !Stale(height, cache, symbol)
    ensures symbol in cache && cache[symbol].NaN? ==> !Stale(height, cache, symbol)
  {
  }

  /** Concretely: after a NaN height, a height lower than the one cached
      before is accepted again. */
  lemma NaNHeightLowersCache(s: string)
    ensures var c := CacheAfter(map[s := Fin(500.0)], [s], NaN);
      s in c && c[s].NaN? && CacheAfter(c, [s], Fin(499.0)) == map[s := Fin(499.0)]
  {
  }

  /** A single symbol's cache entry ends at the larger of two numeric
      heights, whatever order the two events come in. */
  lemma HeightOrderIrrelevant(cache: map<string, Num>, s: string, h1: real, h2: real)
    requires h1 < h2 && !Stale(Fin(h2), cache, s)
    ensures var a := CacheAfter(cache, [s], Fin(h1));
      s in CacheAfter(a, [s], Fin(h2)) && CacheAfter(a, [s], Fin(h2))[s] == Fin(h2)
    ensures var b := CacheAfter(cache, [s], Fin(h2));
      s in CacheAfter(b, [s], Fin(h1)) && CacheAfter(b, [s], Fin(h1))[s] == Fin(h2)
  {
    if s in cache && !cache[s].NaN? {
      LeTotal(Fin(h2), cache[s]);
      LeTotal(Fin(h1), cache[s]);
    }
  }

  // ---------------------------------------------------------------------
  // The merge

  /** `k` is a pair key `symbol/other` with slash-free parts. */
  predicate PoolKeyOf(symbol: string, k: string)
  {
    StartsWith(k, symbol + "/") && NoSlash(symbol) && NoSlash(k[|symbol| + 1..])
  }

  lemma PoolKeyParts(symbol: string, k: string)
    requires PoolKeyOf(symbol, k)
    ensures k == PairKey(symbol, k[|symbol| + 1..])
    ensures Inverted(k) == PairKey(k[|symbol| + 1..], symbol)
  {
    assert k == k[..|symbol| + 1] + k[|symbol| + 1..];
    InvertedPairKey(symbol, k[|symbol| + 1..]);
  }

  lemma ReserveKeyInjective(symbol: string, x: string, y: string)
    requires ReserveKey(symbol, x) == ReserveKey(symbol, y)
    ensures x == y
  {
    assert ReserveKey(symbol, x)[|symbol| + 1..] == x;
    assert ReserveKey(symbol, y)[|symbol| + 1..] == y;
  }

  /** Two pool keys of one symbol that share an orientation are the same key. */
  lemma PoolKeysCollide(symbol: string, k1: string, k2: string)
    requires PoolKeyOf(symbol, k1) && PoolKeyOf(symbol, k2)
    requires || k1 == k2 || k1 == Inverted(k2) || Inverted(k1) == k2 || Inverted(k1) == Inverted(k2)
    ensures k1 == k2
  {
    var o1, o2 := k1[|symbol| + 1..], k2[|symbol| + 1..];
    PoolKeyParts(symbol, k1);
    PoolKeyParts(symbol, k2);
    if k1 == Inverted(k2) {
      PairKeyInjective(symbol, o1, o2, symbol);
    } else if Inverted(k1) == k2 {
      PairKeyInjective(o1, symbol, symbol, o2);
    } else if Inverted(k1) == Inverted(k2) {
      PairKeyInjective(o1, symbol, o2, symbol);
    }
  }

  /** In `u`, the reserve of every pool of `pools` is under both orientations of its key. */
  ghost predicate HoldsReserves(u: map<string, Balance>, symbol: string, pools: seq<string>, pairFromSymbol: map<string, Pair>, io: Io)
    requires forall k :: k in pools ==> k in pairFromSymbol
  {
    forall k :: k in pools ==>
      && ReserveKey(symbol, k) in u && ReserveKey(symbol, Inverted(k)) in u
      && u[ReserveKey(symbol, k)] == PoolBalance(pairFromSymbol, io, symbol, k)
      && u[ReserveKey(symbol, Inverted(k))] == PoolBalance(pairFromSymbol, io, symbol, k)
  }

  /** Writing one more pool keeps the earlier pools' reserves: a key they share is the same pool. */
  lemma ReserveStep(u: map<string, Balance>, symbol: string, init: seq<string>, last: string, pairFromSymbol: map<string, Pair>, io: Io)
    requires forall k :: k in init + [last] ==> k in pairFromSymbol && PoolKeyOf(symbol, k)
    requires HoldsReserves(u, symbol, init, pairFromSymbol, io)
    ensures var v := PoolBalance(pairFromSymbol, io, symbol, last);
      HoldsReserves(u[ReserveKey(symbol, last) := v][ReserveKey(symbol, Inverted(last)) := v], symbol, init + [last], pairFromSymbol, io)
  {
    var v := PoolBalance(pairFromSymbol, io, symbol, last);
    var u' := u[ReserveKey(symbol, last) := v][ReserveKey(symbol, Inverted(last)) := v];
    forall k | k in init + [last]
      ensures ReserveKey(symbol, k) in u' && ReserveKey(symbol, Inverted(k)) in u'
      ensures u'[ReserveKey(symbol, k)] == PoolBalance(pairFromSymbol, io, symbol, k)
      ensures u'[ReserveKey(symbol, Inverted(k))] == PoolBalance(pairFromSymbol, io, symbol, k)
    {
      if k != last {
        assert k in init;
        assert k in pairFromSymbol && PoolKeyOf(symbol, k) && PoolKeyOf(symbol, last);
        OtherPoolUntouched(symbol, k, last);
      }
    }
  }

  /** The two keys written for pool `last` miss both keys of a different pool `k`. */
  lemma OtherPoolUntouched(symbol: string, k: string, last: string)
    requires PoolKeyOf(symbol, k) && PoolKeyOf(symbol, last) && k != last
    ensures ReserveKey(symbol, k) != ReserveKey(symbol, last)
    ensures ReserveKey(symbol, k) != ReserveKey(symbol, Inverted(last))
    ensures ReserveKey(symbol, Inverted(k)) != ReserveKey(symbol, last)
    ensures ReserveKey(symbol, Inverted(k)) != ReserveKey(symbol, Inverted(last))
  {
    if ReserveKey(symbol, k) == ReserveKey(symbol, last) {
      ReserveKeyInjective(symbol, k, last);
    }
    if ReserveKey(symbol, k) == ReserveKey(symbol, Inverted(last)) {
      ReserveKeyInjective(symbol, k, Inverted(last));
      PoolKeysCollide(symbol, k, last);
    }
    if ReserveKey(symbol, Inverted(k)) == ReserveKey(symbol, last) {
      ReserveKeyInjective(symbol, Inverted(k), last);
      PoolKeysCollide(symbol, k, last);
    }
    if ReserveKey(symbol, Inverted(k)) == ReserveKey(symbol, Inverted(last)) {
      ReserveKeyInjective(symbol, Inverted(k), Inverted(last));
      PoolKeysCollide(symbol, k, last);
    }
  }

  /** Each pool's reserve is stored under both orientations of its key, with the same value. */
  lemma {:induction false} ReservesUnderBothKeys(symbol: string, pools: seq<string>, pairFromSymbol: map<string, Pair>, io: Io)
    requires forall k :: k in pools ==> k in pairFromSymbol && PoolKeyOf(symbol, k)
    ensures HoldsReserves(ReserveUpdates(symbol, pools, pairFromSymbol, io), symbol, pools, pairFromSymbol, io)
    decreases |pools|
  {
    if pools != [] {
      var init := pools[..|pools| - 1];
      var last := pools[|pools| - 1];
      assert pools == init + [last];
      ReservesUnderBothKeys(symbol, init, pairFromSymbol, io);
      ReserveStep(ReserveUpdates(symbol, init, pairFromSymbol, io), symbol, init, last, pairFromSymbol, io);
    }
  }

  /** Nothing but the two keys of each pool is written. */
  lemma {:induction false} ReserveUpdatesKeys(symbol: string, pools: seq<string>, pairFromSymbol: map<string, Pair>, io: Io)
    requires forall k :: k in pools ==> k in pairFromSymbol
    ensures forall key :: key in ReserveUpdates(symbol, pools, pairFromSymbol, io) ==>
      exists k :: k in pools && (key == ReserveKey(symbol, k) || key == ReserveKey(symbol, Inverted(k)))
    decreases |pools|
  {
    if pools != [] {
      var init := pools[..|pools| - 1];
      assert forall k :: k in init ==> k in pools;
      ReserveUpdatesKeys(symbol, init, pairFromSymbol, io);
    }
  }

  /** The merged balances of one accepted symbol: the user's balance under
      the symbol, each pool reserve under both orientations of its key, and
      every other balance unchanged. */
  lemma MergedBalances(balances: map<string, Balance>, symbol: string, v: Balance, pfs: Dict<Pair>, io: Io)
    requires pfs.Valid()
    requires forall k :: k in pfs.keys && StartsWith(k, symbol + "/") ==> PoolKeyOf(symbol, k)
    ensures var m := Merge(balances, symbol, v, ReserveUpdates(symbol, PoolKeys(pfs.keys, symbol), pfs.values, io));
      && symbol in m && m[symbol] == v
      && (forall k :: k in pfs.keys && StartsWith(k, symbol + "/") ==>
            && ReserveKey(symbol, k) in m && ReserveKey(symbol, Inverted(k)) in m
            && m[ReserveKey(symbol, k)] == PoolBalance(pfs.values, io, symbol, k)
            && m[ReserveKey(symbol, Inverted(k))] == m[ReserveKey(symbol, k)])
      && (forall key :: key != symbol && key in balances &&
            (forall k :: k in pfs.keys && StartsWith(k, symbol + "/") ==>
              key != ReserveKey(symbol, k) && key != ReserveKey(symbol, Inverted(k)))
            ==> key in m && m[key] == balances[key])
  {
    ReservesOfSymbol(symbol, pfs, io);
  }

  /** The reserve updates of one symbol hold, for every pool key of the
      catalog that starts with the symbol, the pool's balance under both
      orientations, and nothing else: no entry under the symbol itself. */
  lemma ReservesOfSymbol(symbol: string, pfs: Dict<Pair>, io: Io)
    requires pfs.Valid()
    requires forall k :: k in pfs.keys && StartsWith(k, symbol + "/") ==> PoolKeyOf(symbol, k)
    ensures var u := ReserveUpdates(symbol, PoolKeys(pfs.keys, symbol), pfs.values, io);
      forall k :: k in pfs.keys && StartsWith(k, symbol + "/") ==>
        && ReserveKey(symbol, k) in u && ReserveKey(symbol, Inverted(k)) in u
        && u[ReserveKey(symbol, k)] == PoolBalance(pfs.values, io, symbol, k)
        && u[ReserveKey(symbol, Inverted(k))] == PoolBalance(pfs.values, io, symbol, k)
    ensures var u := ReserveUpdates(symbol, PoolKeys(pfs.keys, symbol), pfs.values, io);
      forall key :: key in u ==> key != symbol
    ensures var u := ReserveUpdates(symbol, PoolKeys(pfs.keys, symbol), pfs.values, io);
      forall key :: key in u ==>
        exists k :: k in pfs.keys && StartsWith(k, symbol + "/") &&
          (key == ReserveKey(symbol, k) || key == ReserveKey(symbol, Inverted(k)))
  {
    var pools := PoolKeys(pfs.keys, symbol);
    ReservesUnderBothKeys(symbol, pools, pfs.values, io);
    ReserveUpdatesKeys(symbol, pools, pfs.values, io);
    forall k | k in pfs.keys && StartsWith(k, symbol + "/")
      ensures k in pools
    {
      PoolKeysComplete(pfs.keys, symbol, k);
    }
    assert |ReserveKey(symbol, "")| > |symbol|;
    forall k | k in pools
      ensures ReserveKey(symbol, k) != symbol && ReserveKey(symbol, Inverted(k)) != symbol
    {
      assert |ReserveKey(symbol, k)| > |symbol| && |ReserveKey(symbol, Inverted(k))| > |symbol|;
    }
  }

  /** The catalog the page mounts meets `RefreshSymbolEffect`'s premise
      whenever no token symbol contains '/': every key that passes a
      symbol's `startsWith` filter is that symbol joined to another
      slash-free symbol. */
  lemma MountedPoolKeys(ps: seq<Pair>, query: string -> TokenInfo, pre: Preloaded, symbol: string)
    requires SlashFreeSymbols(ps, query)
    ensures var pfs := RegisterPairs(EmptyCatalog(), ps, query, pre).pairFromSymbol;
      pfs.Valid() && forall k :: k in pfs.keys && StartsWith(k, symbol + "/") ==> PoolKeyOf(symbol, k)
  {
    var pfs := RegisterPairs(EmptyCatalog(), ps, query, pre).pairFromSymbol;
    RegisterPairsValid(EmptyCatalog(), ps, query, pre);
    RegisterPairsSlashFreeKeys(EmptyCatalog(), ps, query, pre);
    forall k | k in pfs.keys && StartsWith(k, symbol + "/")
      ensures PoolKeyOf(symbol, k)
    {
      assert k in pfs.values;
      var a, b :| NoSlash(a) && NoSlash(b) && k == PairKey(a, b);
      PairKeyPrefix(a, b, symbol);
      assert k == symbol + [Slash] + b;
      assert k[|symbol| + 1..] == b;
    }
  }

  /** One accepted symbol: the cache entry is raised to the event height
      (before any fetch), the user's balance lands under the symbol, each
      pool reserve under both orientations of its key, every other balance
      is unchanged, and the inputs are recomputed from the new balances. */
  lemma RefreshSymbolEffect(f: Feed, symbol: string, height: Num, cat: Catalog, io: Io, user: string, env: Env)
    requires cat.pairFromSymbol.Valid()
    requires forall k :: k in cat.pairFromSymbol.keys && StartsWith(k, symbol + "/") ==> PoolKeyOf(symbol, k)
    ensures var r := RefreshSymbol(f, symbol, height, cat, io, user, env);
      && r.cache == f.cache[symbol := height]
      && symbol in r.balances
      && r.balances[symbol] == io.balance(symbol, user, SymbolViewingKey(cat.tokens.values, io, symbol))
      && (forall k :: k in cat.pairFromSymbol.keys && StartsWith(k, symbol + "/") ==>
            && ReserveKey(symbol, k) in r.balances && ReserveKey(symbol, Inverted(k)) in r.balances
            && r.balances[ReserveKey(symbol, k)] == PoolBalance(cat.pairFromSymbol.values, io, symbol, k)
            && r.balances[ReserveKey(symbol, Inverted(k))] == r.balances[ReserveKey(symbol, k)])
      && (forall key :: key != symbol && key in f.balances &&
            (forall k :: k in cat.pairFromSymbol.keys && StartsWith(k, symbol + "/") ==>
              key != ReserveKey(symbol, k) && key != ReserveKey(symbol, Inverted(k)))
            ==> key in r.balances && r.balances[key] == f.balances[key])
      && r.quote == UpdateInputs(f.quote, r.balances, env)
  {
    var v := io.balance(symbol, user, SymbolViewingKey(cat.tokens.values, io, symbol));
    MergedBalances(f.balances, symbol, v, cat.pairFromSymbol, io);
  }

  /** The SCRT refresh needs no viewing key. */
  lemma ScrtNeedsNoViewingKey(tokens: map<string, TokenDisplay>, io: Io)
    ensures SymbolViewingKey(tokens, io, Scrt) == ""
  {
  }
}
