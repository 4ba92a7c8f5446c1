/** The subscriptions the swap page sends once its socket opens
    (`ws.onopen`, src/pages/Swap/SwapTab.tsx:310-394): three queries for
    SCRT, two per other token, and two per distinct pair. Each subscription
    is a JSON-RPC `subscribe` whose id is the symbol or pair key that a later
    notification carries back. Sending is modelled as the list of
    subscriptions sent, in order. */
module Subscriptions {
  import opened JsObject
  import opened Catalog

  datatype Subscription = Subscription(id: string, query: string)

  /** SCRT moves with the user's own address: as sender, as signer, as recipient. */
  function ScrtQueries(address: string): seq<string>
  {
    ["message.sender='" + address + "'",
     "message.signer='" + address + "'",
     "transfer.recipient='" + address + "'"]
  }

  /** Any transaction that touches a contract. */
  function ContractQueries(contractAddr: string): seq<string>
  {
    ["message.contract_address='" + contractAddr + "'",
     "wasm.contract_address='" + contractAddr + "'"]
  }

  function Each(id: string, queries: seq<string>): (subs: seq<Subscription>)
    ensures |subs| == |queries|
    ensures forall i :: 0 <= i < |subs| ==> subs[i] == Subscription(id, queries[i])
  {
    seq(|queries|, i requires 0 <= i < |queries| => Subscription(id, queries[i]))
  }

  /** The subscriptions for one listed symbol. */
  function TokenSubscriptions(symbol: string, tokens: map<string, TokenDisplay>, address: string): (subs: seq<Subscription>)
    requires symbol in tokens
    ensures |subs| == if symbol == Scrt then 3 else 2
    ensures forall sub :: sub in subs ==> sub.id == symbol
  {
    if symbol == Scrt then Each(Scrt, ScrtQueries(address))
    else Each(symbol, ContractQueries(tokens[symbol].address))
  }

  /** The token loop, symbol by symbol, in listing order. */
  function TokenPlan(symbols: seq<string>, tokens: map<string, TokenDisplay>, address: string): seq<Subscription>
    requires forall s :: s in symbols ==> s in tokens
  {
    if symbols == [] then []
    else TokenPlan(symbols[..|symbols| - 1], tokens, address)
         + TokenSubscriptions(symbols[|symbols| - 1], tokens, address)
  }

  // ---------------------------------------------------------------------
  // Distinct pairs

  /** Whether some key already kept maps to pair `p`: `pair in symbolFromPair`. */
  predicate Covers(kept: seq<string>, pairFromSymbol: map<string, Pair>, p: Pair)
    requires forall k :: k in kept ==> k in pairFromSymbol
  {
    exists k :: k in kept && pairFromSymbol[k] == p
  }

  /** The `reduce` into `symbolFromPair` followed by `Object.values`: keys
      are kept in the order they were first inserted, and a key whose pair
      is already there is skipped. */
  function Dedup(kept: seq<string>, keys: seq<string>, pairFromSymbol: map<string, Pair>): (r: seq<string>)
    requires forall k :: k in kept ==> k in pairFromSymbol
    requires forall k :: k in keys ==> k in pairFromSymbol
    ensures forall k :: k in r ==> k in kept || k in keys
    decreases |keys|
  {
    if keys == [] then kept
    else if Covers(kept, pairFromSymbol, pairFromSymbol[keys[0]]) then Dedup(kept, keys[1..], pairFromSymbol)
    else Dedup(kept + [keys[0]], keys[1..], pairFromSymbol)
  }

  function UniquePairKeys(keys: seq<string>, pairFromSymbol: map<string, Pair>): (r: seq<string>)
    requires forall k :: k in keys ==> k in pairFromSymbol
    ensures forall k :: k in r ==> k in keys
  {
    Dedup([], keys, pairFromSymbol)
  }

  /** The key at `i` is the first key for its pair. */
  predicate FirstOfItsPair(keys: seq<string>, pairFromSymbol: map<string, Pair>, i: int)
    requires 0 <= i < |keys|
    requires forall k :: k in keys ==> k in pairFromSymbol
  {
    forall j :: 0 <= j < i ==> pairFromSymbol[keys[j]] != pairFromSymbol[keys[i]]
  }

  /** Reference definition: the keys that are first for their pair, in key order. */
  ghost function Firsts(keys: seq<string>, pairFromSymbol: map<string, Pair>): (r: seq<string>)
    requires forall k :: k in keys ==> k in pairFromSymbol
    ensures forall k :: k in r ==> k in keys
  {
    if keys == [] then []
    else
      var n := |keys| - 1;
      assert forall k :: k in keys[..n] ==> k in keys;
      Firsts(keys[..n], pairFromSymbol) + (if FirstOfItsPair(keys, pairFromSymbol, n) then [keys[n]] else [])
  }

  /** Every pair that occurs is covered by a kept key. */
  lemma {:induction false} FirstsCoverEvery(keys: seq<string>, pairFromSymbol: map<string, Pair>, j: nat)
    requires forall k :: k in keys ==> k in pairFromSymbol
    requires j < |keys|
    ensures Covers(Firsts(keys, pairFromSymbol), pairFromSymbol, pairFromSymbol[keys[j]])
    decreases |keys|
  {
    var n := |keys| - 1;
    var pre := keys[..n];
    assert forall k :: k in pre ==> k in keys;
    var r := Firsts(keys, pairFromSymbol);
    var p := pairFromSymbol[keys[j]];
    if j < n {
      assert pre[j] == keys[j];
      FirstsCoverEvery(pre, pairFromSymbol, j);
      var k :| k in Firsts(pre, pairFromSymbol) && pairFromSymbol[k] == p;
      assert k in r;
    } else if FirstOfItsPair(keys, pairFromSymbol, n) {
      assert keys[n] in r;
    } else {
      var i :| 0 <= i < n && pairFromSymbol[keys[i]] == pairFromSymbol[keys[n]];
      assert pre[i] == keys[i];
      FirstsCoverEvery(pre, pairFromSymbol, i);
      var k :| k in Firsts(pre, pairFromSymbol) && pairFromSymbol[k] == p;
      assert k in r;
    }
  }

  /** The kept keys of a prefix cover exactly the pairs of that prefix. */
  lemma FirstsCover(keys: seq<string>, pairFromSymbol: map<string, Pair>, p: Pair)
    requires forall k :: k in keys ==> k in pairFromSymbol
    ensures Covers(Firsts(keys, pairFromSymbol), pairFromSymbol, p)
        <==> exists j :: 0 <= j < |keys| && pairFromSymbol[keys[j]] == p
  {
    var r := Firsts(keys, pairFromSymbol);
    if Covers(r, pairFromSymbol, p) {
      var k :| k in r && pairFromSymbol[k] == p;
      var j :| 0 <= j < |keys| && keys[j] == k;
    }
    if exists j :: 0 <= j < |keys| && pairFromSymbol[keys[j]] == p {
      var j :| 0 <= j < |keys| && pairFromSymbol[keys[j]] == p;
      FirstsCoverEvery(keys, pairFromSymbol, j);
    }
  }

  /** One more key: it is kept exactly when no earlier key has its pair. */
  lemma FirstsSnoc(pre: seq<string>, x: string, pairFromSymbol: map<string, Pair>)
    requires forall k :: k in pre ==> k in pairFromSymbol
    requires x in pairFromSymbol
    ensures forall k :: k in pre + [x] ==> k in pairFromSymbol
    ensures Firsts(pre + [x], pairFromSymbol)
         == Firsts(pre, pairFromSymbol) + (if Covers(Firsts(pre, pairFromSymbol), pairFromSymbol, pairFromSymbol[x]) then [] else [x])
  {
    var keys := pre + [x];
    var n := |pre|;
    assert keys[..n] == pre;
    FirstsCover(pre, pairFromSymbol, pairFromSymbol[x]);
    assert forall j :: 0 <= j < n ==> keys[j] == pre[j];
  }

  /** The fold computes the reference definition. */
  lemma {:induction false} DedupIsFirsts(pre: seq<string>, rest: seq<string>, pairFromSymbol: map<string, Pair>)
    requires forall k :: k in pre ==> k in pairFromSymbol
    requires forall k :: k in rest ==> k in pairFromSymbol
    ensures forall k :: k in pre + rest ==> k in pairFromSymbol
    ensures Dedup(Firsts(pre, pairFromSymbol), rest, pairFromSymbol) == Firsts(pre + rest, pairFromSymbol)
    decreases |rest|
  {
    if rest == [] {
      assert pre + rest == pre;
    } else {
      var keys := pre + [rest[0]];
      assert keys + rest[1..] == pre + rest;
      FirstsSnoc(pre, rest[0], pairFromSymbol);
      var fp := Firsts(pre, pairFromSymbol);
      assert forall k :: k in rest[1..] ==> k in rest;
      assert fp + [] == fp;
      assert Dedup(fp, rest, pairFromSymbol) == Dedup(Firsts(keys, pairFromSymbol), rest[1..], pairFromSymbol);
      DedupIsFirsts(keys, rest[1..], pairFromSymbol);
    }
  }

  /** The keys whose pairs get subscriptions are exactly the first key of each
      pair, in key order. */
  lemma UniquePairKeysAreFirsts(keys: seq<string>, pairFromSymbol: map<string, Pair>)
    requires forall k :: k in keys ==> k in pairFromSymbol
    ensures UniquePairKeys(keys, pairFromSymbol) == Firsts(keys, pairFromSymbol)
  {
    assert [] + keys == keys;
    DedupIsFirsts([], keys, pairFromSymbol);
  }

  /** No pair is subscribed to twice. */
  lemma {:induction false} FirstsDistinctPairs(keys: seq<string>, pairFromSymbol: map<string, Pair>)
    requires forall k :: k in keys ==> k in pairFromSymbol
    ensures var r := Firsts(keys, pairFromSymbol);
      forall i, j :: 0 <= i < j < |r| ==> pairFromSymbol[r[i]] != pairFromSymbol[r[j]]
  {
    if keys != [] {
      var n := |keys| - 1;
      var pre := keys[..n];
      assert forall k :: k in pre ==> k in keys;
      FirstsDistinctPairs(pre, pairFromSymbol);
      var fp := Firsts(pre, pairFromSymbol);
      if FirstOfItsPair(keys, pairFromSymbol, n) {
        var r := fp + [keys[n]];
        assert Firsts(keys, pairFromSymbol) == r;
        FirstsCover(pre, pairFromSymbol, pairFromSymbol[keys[n]]);
        assert forall j :: 0 <= j < n ==> pre[j] == keys[j];
        forall i | 0 <= i < |fp|
          ensures pairFromSymbol[fp[i]] != pairFromSymbol[keys[n]]
        {
          assert fp[i] in fp;
        }
        forall i, j | 0 <= i < j < |r|
          ensures pairFromSymbol[r[i]] != pairFromSymbol[r[j]]
        {
          if j < |fp| {
            assert r[i] == fp[i] && r[j] == fp[j];
          } else {
            assert r[i] == fp[i] && r[j] == keys[n];
          }
        }
      } else {
        var r := Firsts(keys, pairFromSymbol);
        assert fp + [] == fp;
        assert r == fp;
        forall i, j | 0 <= i < j < |r|
          ensures pairFromSymbol[r[i]] != pairFromSymbol[r[j]]
        {
          assert r[i] == fp[i] && r[j] == fp[j];
        }
      }
    }
  }

  /** Every pair in the catalog is subscribed to through one of its keys. */
  lemma EveryPairWatched(keys: seq<string>, pairFromSymbol: map<string, Pair>, k: string)
    requires forall k :: k in keys ==> k in pairFromSymbol
    requires k in keys
    ensures exists u :: u in UniquePairKeys(keys, pairFromSymbol) && pairFromSymbol[u] == pairFromSymbol[k]
  {
    UniquePairKeysAreFirsts(keys, pairFromSymbol);
    var j :| 0 <= j < |keys| && keys[j] == k;
    FirstsCover(keys, pairFromSymbol, pairFromSymbol[k]);
  }

  /** The pair loop, key by key. */
  function PairPlan(unique: seq<string>, pairFromSymbol: map<string, Pair>): seq<Subscription>
    requires forall k :: k in unique ==> k in pairFromSymbol
  {
    if unique == [] then []
    else
      var k := unique[|unique| - 1];
      PairPlan(unique[..|unique| - 1], pairFromSymbol) + Each(k, ContractQueries(pairFromSymbol[k].contractAddr))
  }

  /** Everything `onopen` sends, in order. */
  function Plan(tokens: Dict<TokenDisplay>, pairFromSymbol: Dict<Pair>, address: string): seq<Subscription>
    requires tokens.Valid() && pairFromSymbol.Valid()
  {
    TokenPlan(tokens.keys, tokens.values, address)
      + PairPlan(UniquePairKeys(pairFromSymbol.keys, pairFromSymbol.values), pairFromSymbol.values)
  }

  /** `onopen`: the token loop, then the distinct pairs' loop. */
  method Subscribe(tokens: Dict<TokenDisplay>, pairFromSymbol: Dict<Pair>, address: string) returns (sent: seq<Subscription>)
    requires tokens.Valid() && pairFromSymbol.Valid()
    ensures sent == Plan(tokens, pairFromSymbol, address)
  {
    var tokenPart := SubscribeTokens(tokens.keys, tokens.values, address);
    var unique := UniquePairKeys(pairFromSymbol.keys, pairFromSymbol.values);
    var pairPart := SubscribePairs(unique, pairFromSymbol.values);
    sent := tokenPart + pairPart;
  }

  /** `for (const query of queries) ws.send(...)`: one subscription per
      query, in order, after those already sent. */
  method SendQueries(before: seq<Subscription>, id: string, queries: seq<string>) returns (sent: seq<Subscription>)
    ensures sent == before + Each(id, queries)
  {
    sent := before;
    for j := 0 to |queries|
      invariant sent == before + Each(id, queries[..j])
    {
      sent := sent + [Subscription(id, queries[j])];
    }
    assert queries[..|queries|] == queries;
  }

  /** The plan for one more symbol is the plan so far and that symbol's subscriptions. */
  lemma TokenPlanStep(symbols: seq<string>, i: nat, tokens: map<string, TokenDisplay>, address: string)
    requires i < |symbols| && forall s :: s in symbols ==> s in tokens
    ensures forall s :: s in symbols[..i] ==> s in tokens
    ensures forall s :: s in symbols[..i + 1] ==> s in tokens
    ensures TokenPlan(symbols[..i + 1], tokens, address)
         == TokenPlan(symbols[..i], tokens, address) + TokenSubscriptions(symbols[i], tokens, address)
  {
    assert symbols[..i + 1][..i] == symbols[..i];
  }

  /** The token loop: one subscription per query, with the symbol as id. */
  method SubscribeTokens(symbols: seq<string>, tokens: map<string, TokenDisplay>, address: string) returns (sent: seq<Subscription>)
    requires forall s :: s in symbols ==> s in tokens
    ensures sent == TokenPlan(symbols, tokens, address)
  {
    sent := [];
    for i := 0 to |symbols|
      invariant forall s :: s in symbols[..i] ==> s in tokens
      invariant sent == TokenPlan(symbols[..i], tokens, address)
    {
      var symbol := symbols[i];
      if symbol == Scrt {
        sent := SendQueries(sent, symbol, ScrtQueries(address));
      } else {
        sent := SendQueries(sent, symbol, ContractQueries(tokens[symbol].address));
      }
      TokenPlanStep(symbols, i, tokens, address);
    }
    assert symbols[..|symbols|] == symbols;
  }

  /** The pair loop over the distinct pairs' keys, with the pair key as id. */
  method SubscribePairs(unique: seq<string>, pairFromSymbol: map<string, Pair>) returns (sent: seq<Subscription>)
    requires forall k :: k in unique ==> k in pairFromSymbol
    ensures sent == PairPlan(unique, pairFromSymbol)
  {
    sent := [];
    for i := 0 to |unique|
      invariant forall k :: k in unique[..i] ==> k in pairFromSymbol
      invariant sent == PairPlan(unique[..i], pairFromSymbol)
    {
      var key := unique[i];
      sent := SendQueries(sent, key, ContractQueries(pairFromSymbol[key].contractAddr));
      assert unique[..i + 1][..i] == unique[..i];
    }
    assert unique[..|unique|] == unique;
  }

  /** Three subscriptions for SCRT, two for every other token. */
  lemma {:induction false} TokenPlanSize(symbols: seq<string>, tokens: map<string, TokenDisplay>, address: string)
    requires forall s :: s in symbols ==> s in tokens
    requires forall i, j :: 0 <= i < j < |symbols| ==> symbols[i] != symbols[j]
    ensures |TokenPlan(symbols, tokens, address)| == 2 * |symbols| + (if Scrt in symbols then 1 else 0)
  {
    if symbols != [] {
      var n := |symbols| - 1;
      var pre := symbols[..n];
      assert symbols == pre + [symbols[n]];
      TokenPlanSize(pre, tokens, address);
      if symbols[n] == Scrt {
        forall k | 0 <= k < n
          ensures pre[k] != Scrt
        {
          assert symbols[k] != symbols[n];
        }
      }
    }
  }

  lemma {:induction false} PairPlanSize(unique: seq<string>, pairFromSymbol: map<string, Pair>)
    requires forall k :: k in unique ==> k in pairFromSymbol
    ensures |PairPlan(unique, pairFromSymbol)| == 2 * |unique|
  {
    if unique != [] {
      var pre := unique[..|unique| - 1];
      assert forall k :: k in pre ==> k in unique;
      PairPlanSize(pre, pairFromSymbol);
    }
  }

  /** How many subscriptions `onopen` sends. */
  lemma PlanSize(tokens: Dict<TokenDisplay>, pairFromSymbol: Dict<Pair>, address: string)
    requires tokens.Valid() && pairFromSymbol.Valid()
    ensures |Plan(tokens, pairFromSymbol, address)|
         == 2 * |tokens.keys| + (if Scrt in tokens.keys then 1 else 0)
          + 2 * |UniquePairKeys(pairFromSymbol.keys, pairFromSymbol.values)|
  {
    TokenPlanSize(tokens.keys, tokens.values, address);
    PairPlanSize(UniquePairKeys(pairFromSymbol.keys, pairFromSymbol.values), pairFromSymbol.values);
  }

  /** Every listed symbol is subscribed to under its own id, and every id of
      the token loop is a listed symbol. */
  lemma {:induction false} TokensWatched(symbols: seq<string>, tokens: map<string, TokenDisplay>, address: string)
    requires forall s :: s in symbols ==> s in tokens
    ensures forall s :: s in symbols ==> exists sub :: sub in TokenPlan(symbols, tokens, address) && sub.id == s
    ensures forall sub :: sub in TokenPlan(symbols, tokens, address) ==> sub.id in symbols
  {
    if symbols != [] {
      var n := |symbols| - 1;
      var pre := symbols[..n];
      assert forall s :: s in pre ==> s in symbols;
      TokensWatched(pre, tokens, address);
      var plan := TokenPlan(symbols, tokens, address);
      var earlier := TokenPlan(pre, tokens, address);
      var last := TokenSubscriptions(symbols[n], tokens, address);
      assert plan == earlier + last;
      forall s | s in symbols
        ensures exists sub :: sub in plan && sub.id == s
      {
        if s == symbols[n] {
          assert last[0] in plan;
        } else {
          assert s in pre by {
            var j :| 0 <= j < |symbols| && symbols[j] == s;
            assert pre[j] == s;
          }
          var sub :| sub in earlier && sub.id == s;
          assert sub in plan;
        }
      }
      forall sub | sub in plan
        ensures sub.id in symbols
      {
        if sub !in last {
          assert sub in earlier;
        }
      }
    }
  }

  /** Every id of the pair loop is a pair key, and each carries its pair's contract queries. */
  lemma {:induction false} PairsWatched(unique: seq<string>, pairFromSymbol: map<string, Pair>)
    requires forall k :: k in unique ==> k in pairFromSymbol
    ensures forall k :: k in unique ==> forall q :: q in ContractQueries(pairFromSymbol[k].contractAddr) ==>
      Subscription(k, q) in PairPlan(unique, pairFromSymbol)
    ensures forall sub :: sub in PairPlan(unique, pairFromSymbol) ==> sub.id in unique
  {
    if unique != [] {
      var n := |unique| - 1;
      var pre := unique[..n];
      assert forall k :: k in pre ==> k in unique;
      PairsWatched(pre, pairFromSymbol);
      assert unique == pre + [unique[n]];
      var last := Each(unique[n], ContractQueries(pairFromSymbol[unique[n]].contractAddr));
      assert Subscription(unique[n], ContractQueries(pairFromSymbol[unique[n]].contractAddr)[0]) == last[0];
      assert Subscription(unique[n], ContractQueries(pairFromSymbol[unique[n]].contractAddr)[1]) == last[1];
    }
  }
}
