/** The token and pair catalog the swap page builds once, when it mounts,
    from the factory's list of pairs (src/pages/Swap/SwapTab.tsx:125-176). */
module Catalog {
  import opened JsObject
  import opened Text

  datatype AssetInfo =
    | NativeToken(denom: string)
    | Token(contractAddr: string, tokenCodeHash: string)

  /** A pair as the factory lists it: two assets, the pair contract and its
      liquidity token. Two pairs are the same pair when all of this agrees. */
  datatype Pair = Pair(asset0: AssetInfo, asset1: AssetInfo, contractAddr: string, liquidityToken: string)

  datatype TokenDisplay = TokenDisplay(symbol: string, decimals: int, logo: string, address: string, tokenCodeHash: string)

  /** The answer of a token contract to the `token_info` query. */
  datatype TokenInfo = TokenInfo(symbol: string, decimals: int)

  /** What the bundled token list provides: the entry for SCRT and a logo per known symbol. */
  datatype Preloaded = Preloaded(scrt: TokenDisplay, logos: map<string, string>)

  datatype Catalog = Catalog(tokens: Dict<TokenDisplay>, pairFromSymbol: Dict<Pair>)

  const Scrt: string := "SCRT"
  const UnknownLogo: string := "/unknown.png"

  function EmptyCatalog(): Catalog
  {
    Catalog(Empty(), Empty())
  }

  ghost predicate ValidCatalog(cat: Catalog)
  {
    cat.tokens.Valid() && cat.pairFromSymbol.Valid()
  }

  /** The symbol an asset is listed under: SCRT for any native asset,
      otherwise what its contract answers to `token_info`. */
  function SymbolOf(t: AssetInfo, query: string -> TokenInfo): string
  {
    if t.NativeToken? then Scrt else query(t.contractAddr).symbol
  }

  function DisplayOf(t: AssetInfo, query: string -> TokenInfo, pre: Preloaded): TokenDisplay
    requires t.Token?
  {
    var info := query(t.contractAddr);
    TokenDisplay(info.symbol, info.decimals,
                 if info.symbol in pre.logos then pre.logos[info.symbol] else UnknownLogo,
                 t.contractAddr, t.tokenCodeHash)
  }

  /** One pass of the inner loop over `pair.asset_infos`: a native asset
      always (re)writes SCRT's preloaded entry; a token is added only when
      its symbol is not listed yet. */
  function RegisterAsset(tokens: Dict<TokenDisplay>, t: AssetInfo, query: string -> TokenInfo, pre: Preloaded): Dict<TokenDisplay>
  {
    if t.NativeToken? then tokens.Put(Scrt, pre.scrt)
    else if query(t.contractAddr).symbol in tokens.values then tokens
    else tokens.Put(query(t.contractAddr).symbol, DisplayOf(t, query, pre))
  }

  /** One step of the `reduce`: both assets, then the pair under both keys. */
  function RegisterPair(cat: Catalog, p: Pair, query: string -> TokenInfo, pre: Preloaded): Catalog
  {
    var a := SymbolOf(p.asset0, query);
    var b := SymbolOf(p.asset1, query);
    var tokens := RegisterAsset(RegisterAsset(cat.tokens, p.asset0, query, pre), p.asset1, query, pre);
    Catalog(tokens, cat.pairFromSymbol.Put(PairKey(a, b), p).Put(PairKey(b, a), p))
  }

  function RegisterPairs(cat: Catalog, ps: seq<Pair>, query: string -> TokenInfo, pre: Preloaded): Catalog
    decreases |ps|
  {
    if ps == [] then cat else RegisterPairs(RegisterPair(cat, ps[0], query, pre), ps[1..], query, pre)
  }

  /** `componentDidMount`'s reduce over the factory's pairs. */
  method BuildCatalog(pairs: seq<Pair>, query: string -> TokenInfo, pre: Preloaded) returns (tokens: Dict<TokenDisplay>, pairFromSymbol: Dict<Pair>)
    ensures Catalog(tokens, pairFromSymbol) == RegisterPairs(EmptyCatalog(), pairs, query, pre)
    ensures tokens.Valid() && pairFromSymbol.Valid()
    ensures forall i :: 0 <= i < |pairs| ==> Registered(pairFromSymbol, pairs[i], query)
  {
    tokens, pairFromSymbol := Empty(), Empty();
    for i := 0 to |pairs|
      invariant RegisterPairs(Catalog(tokens, pairFromSymbol), pairs[i..], query, pre) == RegisterPairs(EmptyCatalog(), pairs, query, pre)
    {
      var pair := pairs[i];
      var symbols: seq<string> := [];
      tokens := RegisterAsset(tokens, pair.asset0, query, pre);
      symbols := symbols + [SymbolOf(pair.asset0, query)];
      tokens := RegisterAsset(tokens, pair.asset1, query, pre);
      symbols := symbols + [SymbolOf(pair.asset1, query)];
      pairFromSymbol := pairFromSymbol.Put(PairKey(symbols[0], symbols[1]), pair);
      pairFromSymbol := pairFromSymbol.Put(PairKey(symbols[1], symbols[0]), pair);
      assert pairs[i..][1..] == pairs[i + 1..];
    }
    assert pairs[|pairs|..] == [];
    RegisterPairsValid(EmptyCatalog(), pairs, query, pre);
    EveryPairRegistered(EmptyCatalog(), pairs, query, pre);
  }

  /** Pair `p` is findable under both `a/b` and `b/a`. */
  ghost predicate Registered(pfs: Dict<Pair>, p: Pair, query: string -> TokenInfo)
  {
    var a := SymbolOf(p.asset0, query);
    var b := SymbolOf(p.asset1, query);
    PairKey(a, b) in pfs.values && PairKey(b, a) in pfs.values
  }

  lemma {:induction false} RegisterPairsValid(cat: Catalog, ps: seq<Pair>, query: string -> TokenInfo, pre: Preloaded)
    requires ValidCatalog(cat)
    ensures ValidCatalog(RegisterPairs(cat, ps, query, pre))
    decreases |ps|
  {
    if ps != [] {
      RegisterPairsValid(RegisterPair(cat, ps[0], query, pre), ps[1..], query, pre);
    }
  }

  /** Folding over `ps + qs` is folding over `ps`, then over `qs`. */
  lemma {:induction false} RegisterPairsAppend(cat: Catalog, ps: seq<Pair>, qs: seq<Pair>, query: string -> TokenInfo, pre: Preloaded)
    ensures RegisterPairs(cat, ps + qs, query, pre) == RegisterPairs(RegisterPairs(cat, ps, query, pre), qs, query, pre)
    decreases |ps|
  {
    if ps != [] {
      assert (ps + qs)[0] == ps[0] && (ps + qs)[1..] == ps[1..] + qs;
      RegisterPairsAppend(RegisterPair(cat, ps[0], query, pre), ps[1..], qs, query, pre);
    } else {
      assert ps + qs == qs;
    }
  }

  /** Keys are never removed from either dictionary. */
  lemma {:induction false} KeysPersist(cat: Catalog, ps: seq<Pair>, query: string -> TokenInfo, pre: Preloaded)
    ensures cat.pairFromSymbol.values.Keys <= RegisterPairs(cat, ps, query, pre).pairFromSymbol.values.Keys
    ensures cat.tokens.values.Keys <= RegisterPairs(cat, ps, query, pre).tokens.values.Keys
    decreases |ps|
  {
    if ps != [] {
      KeysPersist(RegisterPair(cat, ps[0], query, pre), ps[1..], query, pre);
    }
  }

  /** Every pair of the list is registered under both orientations. */
  lemma {:induction false} EveryPairRegistered(cat: Catalog, ps: seq<Pair>, query: string -> TokenInfo, pre: Preloaded)
    ensures forall i :: 0 <= i < |ps| ==> Registered(RegisterPairs(cat, ps, query, pre).pairFromSymbol, ps[i], query)
    decreases |ps|
  {
    if ps != [] {
      var next := RegisterPair(cat, ps[0], query, pre);
      EveryPairRegistered(next, ps[1..], query, pre);
      KeysPersist(next, ps[1..], query, pre);
      forall i | 0 <= i < |ps|
        ensures Registered(RegisterPairs(cat, ps, query, pre).pairFromSymbol, ps[i], query)
      {
        if i > 0 {
          assert ps[i] == ps[1..][i - 1];
        }
      }
    }
  }

  /** Every symbol met among the assets is listed in `tokens`. */
  lemma {:induction false} EverySymbolListed(cat: Catalog, ps: seq<Pair>, query: string -> TokenInfo, pre: Preloaded)
    ensures forall i :: 0 <= i < |ps| ==>
      && SymbolOf(ps[i].asset0, query) in RegisterPairs(cat, ps, query, pre).tokens.values
      && SymbolOf(ps[i].asset1, query) in RegisterPairs(cat, ps, query, pre).tokens.values
    decreases |ps|
  {
    if ps != [] {
      var next := RegisterPair(cat, ps[0], query, pre);
      EverySymbolListed(next, ps[1..], query, pre);
      KeysPersist(next, ps[1..], query, pre);
      forall i | 0 < i < |ps|
        ensures SymbolOf(ps[i].asset0, query) in RegisterPairs(cat, ps, query, pre).tokens.values
        ensures SymbolOf(ps[i].asset1, query) in RegisterPairs(cat, ps, query, pre).tokens.values
      {
        assert ps[i] == ps[1..][i - 1];
      }
    }
  }

  /** A symbol other than SCRT keeps the metadata it was first listed with,
      and the listing order of earlier symbols does not change. */
  lemma {:induction false} FirstSeenKept(cat: Catalog, ps: seq<Pair>, query: string -> TokenInfo, pre: Preloaded, s: string)
    requires s in cat.tokens.values && s != Scrt
    ensures s in RegisterPairs(cat, ps, query, pre).tokens.values
    ensures RegisterPairs(cat, ps, query, pre).tokens.values[s] == cat.tokens.values[s]
    ensures cat.tokens.keys <= RegisterPairs(cat, ps, query, pre).tokens.keys
    decreases |ps|
  {
    if ps != [] {
      FirstSeenKept(RegisterPair(cat, ps[0], query, pre), ps[1..], query, pre, s);
    }
  }

  /** Once a native asset has been met, SCRT is listed with its preloaded entry. */
  lemma {:induction false} NativeListedAsScrt(cat: Catalog, ps: seq<Pair>, query: string -> TokenInfo, pre: Preloaded)
    requires (Scrt in cat.tokens.values && cat.tokens.values[Scrt] == pre.scrt)
          || exists i :: 0 <= i < |ps| && (ps[i].asset0.NativeToken? || ps[i].asset1.NativeToken?)
    ensures Scrt in RegisterPairs(cat, ps, query, pre).tokens.values
    ensures RegisterPairs(cat, ps, query, pre).tokens.values[Scrt] == pre.scrt
    decreases |ps|
  {
    if ps == [] {
    } else {
      var next := RegisterPair(cat, ps[0], query, pre);
      if !(Scrt in next.tokens.values && next.tokens.values[Scrt] == pre.scrt) {
        var i :| 0 <= i < |ps| && (ps[i].asset0.NativeToken? || ps[i].asset1.NativeToken?);
        assert i != 0;
        assert ps[1..][i - 1] == ps[i];
      }
      NativeListedAsScrt(next, ps[1..], query, pre);
    }
  }

  /** One step of the reduce lists a new token symbol carried by the pair's
      first asset with that asset's metadata. */
  lemma StepListsFirstAsset(cat: Catalog, p: Pair, query: string -> TokenInfo, pre: Preloaded)
    requires p.asset0.Token? && SymbolOf(p.asset0, query) != Scrt
    requires SymbolOf(p.asset0, query) !in cat.tokens.values
    ensures SymbolOf(p.asset0, query) in RegisterPair(cat, p, query, pre).tokens.values
    ensures RegisterPair(cat, p, query, pre).tokens.values[SymbolOf(p.asset0, query)] == DisplayOf(p.asset0, query, pre)
  {
    var mid := RegisterAsset(cat.tokens, p.asset0, query, pre);
    assert SymbolOf(p.asset0, query) in mid.values;
  }

  /** The same for the second asset when the first carries another symbol. */
  lemma StepListsSecondAsset(cat: Catalog, p: Pair, query: string -> TokenInfo, pre: Preloaded)
    requires p.asset1.Token? && SymbolOf(p.asset1, query) != Scrt
    requires SymbolOf(p.asset0, query) != SymbolOf(p.asset1, query)
    requires SymbolOf(p.asset1, query) !in cat.tokens.values
    ensures SymbolOf(p.asset1, query) in RegisterPair(cat, p, query, pre).tokens.values
    ensures RegisterPair(cat, p, query, pre).tokens.values[SymbolOf(p.asset1, query)] == DisplayOf(p.asset1, query, pre)
  {
    var mid := RegisterAsset(cat.tokens, p.asset0, query, pre);
    assert SymbolOf(p.asset1, query) !in mid.values;
  }

  /** A token symbol first met in pair `i`, as its first asset or as its
      second when the first carries another symbol, is listed with the
      metadata built from that asset, starting from any catalog that does
      not list it yet. */
  lemma {:induction false} FirstSeenFrom(cat: Catalog, ps: seq<Pair>, i: nat, a: AssetInfo, query: string -> TokenInfo, pre: Preloaded)
    requires i < |ps| && a.Token? && SymbolOf(a, query) != Scrt
    requires a == ps[i].asset0 || (a == ps[i].asset1 && SymbolOf(ps[i].asset0, query) != SymbolOf(a, query))
    requires SymbolOf(a, query) !in cat.tokens.values
    requires forall j :: 0 <= j < i ==>
      SymbolOf(ps[j].asset0, query) != SymbolOf(a, query) && SymbolOf(ps[j].asset1, query) != SymbolOf(a, query)
    ensures SymbolOf(a, query) in RegisterPairs(cat, ps, query, pre).tokens.values
    ensures RegisterPairs(cat, ps, query, pre).tokens.values[SymbolOf(a, query)] == DisplayOf(a, query, pre)
    decreases i
  {
    var s := SymbolOf(a, query);
    var next := RegisterPair(cat, ps[0], query, pre);
    if i == 0 {
      if a == ps[0].asset0 {
        StepListsFirstAsset(cat, ps[0], query, pre);
      } else {
        StepListsSecondAsset(cat, ps[0], query, pre);
      }
      FirstSeenKept(next, ps[1..], query, pre, s);
    } else {
      assert s !in next.tokens.values;
      assert ps[1..][i - 1] == ps[i];
      FirstSeenFrom(next, ps[1..], i - 1, a, query, pre);
    }
  }

  /** The metadata of a token symbol first met as the first asset of pair
      `i` is the one built from that asset. */
  lemma FirstSeenMetadata(ps: seq<Pair>, i: nat, query: string -> TokenInfo, pre: Preloaded)
    requires i < |ps| && ps[i].asset0.Token?
    requires SymbolOf(ps[i].asset0, query) != Scrt
    requires forall j :: 0 <= j < i ==>
      SymbolOf(ps[j].asset0, query) != SymbolOf(ps[i].asset0, query) &&
      SymbolOf(ps[j].asset1, query) != SymbolOf(ps[i].asset0, query)
    ensures SymbolOf(ps[i].asset0, query) in RegisterPairs(EmptyCatalog(), ps, query, pre).tokens.values
    ensures RegisterPairs(EmptyCatalog(), ps, query, pre).tokens.values[SymbolOf(ps[i].asset0, query)]
         == DisplayOf(ps[i].asset0, query, pre)
  {
    FirstSeenFrom(EmptyCatalog(), ps, i, ps[i].asset0, query, pre);
  }

  /** The same for a symbol first met as the second asset of pair `i`
      (the first asset of that pair carries another symbol). */
  lemma FirstSeenAsSecondAsset(ps: seq<Pair>, i: nat, query: string -> TokenInfo, pre: Preloaded)
    requires i < |ps| && ps[i].asset1.Token?
    requires SymbolOf(ps[i].asset1, query) != Scrt
    requires SymbolOf(ps[i].asset0, query) != SymbolOf(ps[i].asset1, query)
    requires forall j :: 0 <= j < i ==>
      SymbolOf(ps[j].asset0, query) != SymbolOf(ps[i].asset1, query) &&
      SymbolOf(ps[j].asset1, query) != SymbolOf(ps[i].asset1, query)
    ensures SymbolOf(ps[i].asset1, query) in RegisterPairs(EmptyCatalog(), ps, query, pre).tokens.values
    ensures RegisterPairs(EmptyCatalog(), ps, query, pre).tokens.values[SymbolOf(ps[i].asset1, query)]
         == DisplayOf(ps[i].asset1, query, pre)
  {
    FirstSeenFrom(EmptyCatalog(), ps, i, ps[i].asset1, query, pre);
  }

  /** A symbol is listed only if it was listed already or some asset carries it. */
  lemma {:induction false} ListedOnlyIfMet(cat: Catalog, ps: seq<Pair>, query: string -> TokenInfo, pre: Preloaded, s: string)
    requires s !in cat.tokens.values
    requires forall j :: 0 <= j < |ps| ==> SymbolOf(ps[j].asset0, query) != s && SymbolOf(ps[j].asset1, query) != s
    ensures s !in RegisterPairs(cat, ps, query, pre).tokens.values
    decreases |ps|
  {
    if ps != [] {
      ListedOnlyIfMet(RegisterPair(cat, ps[0], query, pre), ps[1..], query, pre, s);
    }
  }

  /** Both orientations of a key built from slash-free symbols lead to the same pair. */
  ghost predicate Symmetric(pfs: map<string, Pair>)
  {
    forall a, b :: NoSlash(a) && NoSlash(b) && PairKey(a, b) in pfs ==>
      PairKey(b, a) in pfs && pfs[PairKey(a, b)] == pfs[PairKey(b, a)]
  }

  /** No symbol of an asset of `ps` contains a slash. */
  ghost predicate SlashFreeSymbols(ps: seq<Pair>, query: string -> TokenInfo)
  {
    forall i :: 0 <= i < |ps| ==> NoSlash(SymbolOf(ps[i].asset0, query)) && NoSlash(SymbolOf(ps[i].asset1, query))
  }

  /** Every key of the pair index joins two slash-free symbols. */
  ghost predicate KeysOfSlashFreeSymbols(pfs: map<string, Pair>)
  {
    forall k :: k in pfs ==> exists a, b :: NoSlash(a) && NoSlash(b) && k == PairKey(a, b)
  }

  /** With slash-free symbols, the reduce writes only keys of two slash-free symbols. */
  lemma {:induction false} RegisterPairsSlashFreeKeys(cat: Catalog, ps: seq<Pair>, query: string -> TokenInfo, pre: Preloaded)
    requires SlashFreeSymbols(ps, query) && KeysOfSlashFreeSymbols(cat.pairFromSymbol.values)
    ensures KeysOfSlashFreeSymbols(RegisterPairs(cat, ps, query, pre).pairFromSymbol.values)
    decreases |ps|
  {
    if ps != [] {
      var a := SymbolOf(ps[0].asset0, query);
      var b := SymbolOf(ps[0].asset1, query);
      var next := RegisterPair(cat, ps[0], query, pre);
      forall k | k in next.pairFromSymbol.values
        ensures exists x, y :: NoSlash(x) && NoSlash(y) && k == PairKey(x, y)
      {
        if k == PairKey(a, b) {
        } else if k == PairKey(b, a) {
        } else {
          assert k in cat.pairFromSymbol.values;
        }
      }
      forall i | 0 <= i < |ps[1..]|
        ensures NoSlash(SymbolOf(ps[1..][i].asset0, query)) && NoSlash(SymbolOf(ps[1..][i].asset1, query))
      {
        assert ps[1..][i] == ps[i + 1];
      }
      RegisterPairsSlashFreeKeys(next, ps[1..], query, pre);
    }
  }

  lemma SymmetricAt(pfs: map<string, Pair>, a: string, b: string)
    requires Symmetric(pfs) && NoSlash(a) && NoSlash(b) && PairKey(a, b) in pfs
    ensures PairKey(b, a) in pfs && pfs[PairKey(a, b)] == pfs[PairKey(b, a)]
  {
  }

  lemma PutBothPreservesSymmetric(pfs: map<string, Pair>, x: string, y: string, p: Pair)
    requires Symmetric(pfs) && NoSlash(x) && NoSlash(y)
    ensures Symmetric(pfs[PairKey(x, y) := p][PairKey(y, x) := p])
  {
    var m := pfs[PairKey(x, y) := p][PairKey(y, x) := p];
    forall a, b | NoSlash(a) && NoSlash(b) && PairKey(a, b) in m
      ensures PairKey(b, a) in m && m[PairKey(a, b)] == m[PairKey(b, a)]
    {
      if PairKey(a, b) == PairKey(x, y) {
        PairKeyInjective(a, b, x, y);
      } else if PairKey(a, b) == PairKey(y, x) {
        PairKeyInjective(a, b, y, x);
      } else {
        if PairKey(b, a) == PairKey(x, y) {
          PairKeyInjective(b, a, x, y);
        }
        if PairKey(b, a) == PairKey(y, x) {
          PairKeyInjective(b, a, y, x);
        }
      }
    }
  }

  lemma {:induction false} RegisterPairsSymmetric(cat: Catalog, ps: seq<Pair>, query: string -> TokenInfo, pre: Preloaded)
    requires SlashFreeSymbols(ps, query) && Symmetric(cat.pairFromSymbol.values)
    ensures Symmetric(RegisterPairs(cat, ps, query, pre).pairFromSymbol.values)
    decreases |ps|
  {
    if ps != [] {
      var p := ps[0];
      assert SlashFreeSymbols(ps[1..], query) by {
        forall i | 0 <= i < |ps[1..]|
          ensures NoSlash(SymbolOf(ps[1..][i].asset0, query)) && NoSlash(SymbolOf(ps[1..][i].asset1, query))
        {
          assert ps[1..][i] == ps[i + 1];
        }
      }
      PutBothPreservesSymmetric(cat.pairFromSymbol.values, SymbolOf(p.asset0, query), SymbolOf(p.asset1, query), p);
      RegisterPairsSymmetric(RegisterPair(cat, p, query, pre), ps[1..], query, pre);
    }
  }

  /** With slash-free symbols, `a/b` and `b/a` give the same pair for every pair of the list. */
  lemma BothOrientationsSamePair(ps: seq<Pair>, query: string -> TokenInfo, pre: Preloaded)
    requires SlashFreeSymbols(ps, query)
    ensures forall i :: 0 <= i < |ps| ==>
      var pfs := RegisterPairs(EmptyCatalog(), ps, query, pre).pairFromSymbol.values;
      var a := SymbolOf(ps[i].asset0, query);
      var b := SymbolOf(ps[i].asset1, query);
      PairKey(a, b) in pfs && PairKey(b, a) in pfs && pfs[PairKey(a, b)] == pfs[PairKey(b, a)]
  {
    var cat := RegisterPairs(EmptyCatalog(), ps, query, pre);
    var pfs := cat.pairFromSymbol.values;
    RegisterPairsSymmetric(EmptyCatalog(), ps, query, pre);
    EveryPairRegistered(EmptyCatalog(), ps, query, pre);
    forall i | 0 <= i < |ps|
      ensures var a := SymbolOf(ps[i].asset0, query);
              var b := SymbolOf(ps[i].asset1, query);
              PairKey(a, b) in pfs && PairKey(b, a) in pfs && pfs[PairKey(a, b)] == pfs[PairKey(b, a)]
    {
      var a := SymbolOf(ps[i].asset0, query);
      var b := SymbolOf(ps[i].asset1, query);
      assert Registered(cat.pairFromSymbol, ps[i], query);
      SymmetricAt(pfs, a, b);
    }
  }

  // ---------------------------------------------------------------------
  // Symbols with a slash

  /** Symmetry needs slash-free symbols. When one pair lists `x/y` and `z`
      and a later pair lists `x` and `y/z`, both write the key `x/y/z`: the
      later pair takes that orientation while `z/x/y` still leads to the
      earlier one. */
  lemma SlashInSymbolBreaksSymmetry(p1: Pair, p2: Pair, query: string -> TokenInfo, pre: Preloaded, x: string, y: string, z: string)
    requires SymbolOf(p1.asset0, query) == PairKey(x, y) && SymbolOf(p1.asset1, query) == z
    requires SymbolOf(p2.asset0, query) == x && SymbolOf(p2.asset1, query) == PairKey(y, z)
    requires PairKey(z, PairKey(x, y)) != PairKey(PairKey(x, y), z)
    requires PairKey(z, PairKey(x, y)) != PairKey(PairKey(y, z), x)
    ensures var pfs := RegisterPairs(EmptyCatalog(), [p1, p2], query, pre).pairFromSymbol.values;
      && PairKey(PairKey(x, y), z) in pfs && pfs[PairKey(PairKey(x, y), z)] == p2
      && PairKey(z, PairKey(x, y)) in pfs && pfs[PairKey(z, PairKey(x, y))] == p1
  {
    var c1 := RegisterPair(EmptyCatalog(), p1, query, pre);
    var c2 := RegisterPair(c1, p2, query, pre);
    assert RegisterPairs(EmptyCatalog(), [p1, p2], query, pre) == RegisterPairs(c1, [p2], query, pre) by {
      assert [p1, p2][0] == p1 && [p1, p2][1..] == [p2];
    }
    assert RegisterPairs(c1, [p2], query, pre) == c2 by {
      assert [p2][0] == p2 && [p2][1..] == [];
    }
    PairKeyRegroup(x, y, z);
  }
}
