/** The bridge's token picker (src/pages/Exchange/ERC20Select.tsx): the text
    shown for each token, the option list built from the token store, and
    the lookup made when an option is chosen. */
module ERC20Select {
  import opened JsObject
  import opened Text

  /** Only the comparison with `EXCHANGE_MODE.SCRT_TO_ETH` matters; every other mode reads alike. */
  datatype ExchangeMode = EthToScrt | ScrtToEth

  datatype DisplayProps = DisplayProps(symbol: string, labelText: string, image: string, proxy: bool)

  /** A token of the store: `src_address` on the source chain, `dst_address` of its Secret counterpart. */
  datatype TokenInfo = TokenInfo(name: string, srcAddress: string, dstAddress: string, displayProps: DisplayProps)

  /** `selectTokenText`: four cases keyed on the mode and the proxy flag. */
  function SelectTokenText(mode: ExchangeMode, token: TokenInfo): string
  {
    var d := token.displayProps;
    if mode == ScrtToEth && !d.proxy then "Secret " + token.name + " (secret" + d.symbol + ")"
    else if mode != ScrtToEth && !d.proxy then d.labelText + " (" + d.symbol + ")"
    else if mode == ScrtToEth then "Secret " + d.labelText + " (secret" + d.labelText + ")"
    else d.labelText + " (" + token.name + ")"
  }

  /** In the Secret-to-Ethereum direction every text announces the Secret
      token; in the other direction none does unless the label itself does,
      and the text ends with the symbol or, for a proxy, the name in brackets. */
  lemma TextByMode(mode: ExchangeMode, token: TokenInfo)
    ensures var t := SelectTokenText(mode, token);
      mode == ScrtToEth ==> StartsWith(t, "Secret ")
    ensures var t := SelectTokenText(mode, token); var d := token.displayProps;
      mode == EthToScrt ==> StartsWith(t, d.labelText + " (")
    ensures var t := SelectTokenText(mode, token); var d := token.displayProps;
      mode == EthToScrt ==> t == d.labelText + " (" + (if d.proxy then token.name else d.symbol) + ")"
    ensures var t := SelectTokenText(mode, token); var d := token.displayProps;
      mode == ScrtToEth ==> t == "Secret " + (if d.proxy then d.labelText else token.name)
                                 + " (secret" + (if d.proxy then d.labelText else d.symbol) + ")"
  {
    var t := SelectTokenText(mode, token);
    var d := token.displayProps;
    if mode == ScrtToEth {
      assert t == "Secret " + ((if d.proxy then d.labelText else token.name) + " (secret" + (if d.proxy then d.labelText else d.symbol) + ")");
    } else {
      assert t == d.labelText + " (" + ((if d.proxy then token.name else d.symbol) + ")");
    }
  }

  /** The text depends on the token's name only where the source shows it:
      a non-proxy token in the Secret-to-Ethereum direction, a proxy token in
      the other. */
  lemma NameShownOnlyThere(mode: ExchangeMode, a: TokenInfo, b: TokenInfo)
    requires a.displayProps == b.displayProps
    requires SelectTokenText(mode, a) != SelectTokenText(mode, b)
    ensures a.name != b.name
    ensures (mode == ScrtToEth) == !a.displayProps.proxy
  {
  }

  // ---------------------------------------------------------------------
  // The option order

  /** The sort key: the symbol, lower-cased, contains `scrt`. */
  predicate IsScrt(t: TokenInfo)
  {
    Includes(LowerAscii(t.displayProps.symbol), "scrt")
  }

  /** The comparator as written: it looks at its first argument only. */
  function SortComparator(a: TokenInfo, b: TokenInfo): int
  {
    if IsScrt(a) then -1 else 1
  }

  /** The comparator is not consistent: it never reports a token equal to
      itself, and for two tokens on the same side of the test it puts each
      before the other (or each after the other). */
  lemma SortComparatorInconsistent(a: TokenInfo, b: TokenInfo)
    ensures SortComparator(a, a) != 0
    ensures IsScrt(a) == IsScrt(b) ==> SortComparator(a, b) == SortComparator(b, a)
  {
  }

  /** Concretely: `SCRT` and `sSCRT` each sort before the other. */
  lemma TwoScrtTokensContradict()
    ensures var a := TokenInfo("Secret", "", "", DisplayProps("SCRT", "SCRT", "", false));
            var b := TokenInfo("Secret SCRT", "x", "y", DisplayProps("sSCRT", "sSCRT", "", false));
      SortComparator(a, b) < 0 && SortComparator(b, a) < 0
  {
    var a := TokenInfo("Secret", "", "", DisplayProps("SCRT", "SCRT", "", false));
    var b := TokenInfo("Secret SCRT", "x", "y", DisplayProps("sSCRT", "sSCRT", "", false));
    assert LowerAscii("SCRT") == "scrt";
    assert OccursAt(LowerAscii("SCRT"), "scrt", 0);
    assert LowerAscii("sSCRT") == "sscrt";
    assert OccursAt(LowerAscii("sSCRT"), "scrt", 1);
  }

  /** A consistent comparator for the intended order: SCRT tokens first, ties kept. */
  function ScrtFirstComparator(a: TokenInfo, b: TokenInfo): (c: int)
    ensures c == 0 <==> IsScrt(a) == IsScrt(b)
    ensures c < 0 <==> IsScrt(a) && !IsScrt(b)
  {
    if IsScrt(a) == IsScrt(b) then 0 else if IsScrt(a) then -1 else 1
  }

  lemma ScrtFirstComparatorConsistent(a: TokenInfo, b: TokenInfo, c: TokenInfo)
    ensures ScrtFirstComparator(a, a) == 0
    ensures ScrtFirstComparator(a, b) == -ScrtFirstComparator(b, a)
    ensures ScrtFirstComparator(a, b) <= 0 && ScrtFirstComparator(b, c) <= 0 ==> ScrtFirstComparator(a, c) <= 0
  {
  }

  function Scrts(xs: seq<TokenInfo>): (r: seq<TokenInfo>)
    ensures forall t :: t in r ==> IsScrt(t)
  {
    if xs == [] then [] else (if IsScrt(xs[0]) then [xs[0]] else []) + Scrts(xs[1..])
  }

  function Others(xs: seq<TokenInfo>): (r: seq<TokenInfo>)
    ensures forall t :: t in r ==> !IsScrt(t)
  {
    if xs == [] then [] else (if IsScrt(xs[0]) then [] else [xs[0]]) + Others(xs[1..])
  }

  /** The intended order of the option list: the SCRT tokens, then the
      others, each group in store order. */
  function ScrtFirst(xs: seq<TokenInfo>): seq<TokenInfo>
  {
    Scrts(xs) + Others(xs)
  }

  lemma {:induction false} ScrtFirstPermutes(xs: seq<TokenInfo>)
    ensures multiset(ScrtFirst(xs)) == multiset(xs)
  {
    if xs != [] {
      ScrtFirstPermutes(xs[1..]);
      assert xs == [xs[0]] + xs[1..];
    }
  }

  /** The first group holds exactly the store's SCRT tokens and the second the others. */
  lemma {:induction false} GroupsSplitTheStore(xs: seq<TokenInfo>, t: TokenInfo)
    ensures t in Scrts(xs) <==> t in xs && IsScrt(t)
    ensures t in Others(xs) <==> t in xs && !IsScrt(t)
  {
    if xs != [] {
      GroupsSplitTheStore(xs[1..], t);
      assert t in xs <==> t == xs[0] || t in xs[1..];
    }
  }

  /** No SCRT token comes after a token that is not one. */
  lemma ScrtFirstSorted(xs: seq<TokenInfo>)
    ensures var r := ScrtFirst(xs);
      forall i, j :: 0 <= i < j < |r| ==> ScrtFirstComparator(r[i], r[j]) <= 0
  {
    var r := ScrtFirst(xs);
    forall i, j | 0 <= i < j < |r|
      ensures ScrtFirstComparator(r[i], r[j]) <= 0
    {
      if i >= |Scrts(xs)| {
        assert r[i] in Others(xs) && r[j] in Others(xs);
      } else if j < |Scrts(xs)| {
        assert r[i] in Scrts(xs) && r[j] in Scrts(xs);
      } else {
        assert r[i] in Scrts(xs);
      }
    }
  }

  // ---------------------------------------------------------------------
  // The option list

  /** One option: the token's fields plus its image, its text and its value. */
  datatype SelectOption = SelectOption(token: TokenInfo, image: string, text: string, value: string)

  function OptionOf(mode: ExchangeMode, t: TokenInfo): SelectOption
  {
    SelectOption(t, t.displayProps.image, SelectTokenText(mode, t), t.srcAddress)
  }

  /** `.map(...)` over a sorted copy of the store: one option per token, in
      the order given. */
  function OptionList(mode: ExchangeMode, sorted: seq<TokenInfo>): (opts: seq<SelectOption>)
    ensures |opts| == |sorted|
    ensures forall i :: 0 <= i < |sorted| ==> opts[i] == OptionOf(mode, sorted[i])
  {
    seq(|sorted|, i requires 0 <= i < |sorted| => OptionOf(mode, sorted[i]))
  }

  /** `allData.slice().sort(...).map(...)`, with the intended order. The store
      itself is a value here, so the copy leaves it as it was. */
  function Options(mode: ExchangeMode, allData: seq<TokenInfo>): (opts: seq<SelectOption>)
    ensures |opts| == |allData|
  {
    ScrtFirstPermutes(allData);
    assert |ScrtFirst(allData)| == |multiset(ScrtFirst(allData))| == |multiset(allData)| == |allData|;
    OptionList(mode, ScrtFirst(allData))
  }

  function TokensOf(opts: seq<SelectOption>): (r: seq<TokenInfo>)
    ensures |r| == |opts|
    ensures forall i :: 0 <= i < |opts| ==> r[i] == opts[i].token
  {
    seq(|opts|, i requires 0 <= i < |opts| => opts[i].token)
  }

  /** Whatever order the sort leaves (a sort only permutes, and the
      comparator as written fixes no order), the options are the store's
      tokens, each once, each carrying its own address as value and its own
      text. */
  lemma OptionListIsPermutation(mode: ExchangeMode, allData: seq<TokenInfo>, sorted: seq<TokenInfo>)
    requires multiset(sorted) == multiset(allData)
    ensures multiset(TokensOf(OptionList(mode, sorted))) == multiset(allData)
    ensures forall o :: o in OptionList(mode, sorted) ==>
      o.value == o.token.srcAddress && o.text == SelectTokenText(mode, o.token) && o.image == o.token.displayProps.image
  {
    assert TokensOf(OptionList(mode, sorted)) == sorted;
  }

  /** The same for the intended order. */
  lemma OptionsArePermutation(mode: ExchangeMode, allData: seq<TokenInfo>)
    ensures multiset(TokensOf(Options(mode, allData))) == multiset(allData)
    ensures forall o :: o in Options(mode, allData) ==>
      o.value == o.token.srcAddress && o.text == SelectTokenText(mode, o.token) && o.image == o.token.displayProps.image
  {
    ScrtFirstPermutes(allData);
    OptionListIsPermutation(mode, allData, ScrtFirst(allData));
  }

  // ---------------------------------------------------------------------
  // Choosing an option

  /** `allData.find(t => t.src_address === value)`. */
  function Find(xs: seq<TokenInfo>, value: string): (r: Option<TokenInfo>)
    ensures r.None? <==> forall t :: t in xs ==> t.srcAddress != value
    ensures r.Some? ==> exists i :: 0 <= i < |xs| && xs[i] == r.value && r.value.srcAddress == value
                          && forall j :: 0 <= j < i ==> xs[j].srcAddress != value
  {
    if xs == [] then None
    else if xs[0].srcAddress == value then Some(xs[0])
    else
      var r := Find(xs[1..], value);
      assert forall t :: t in xs ==> t == xs[0] || t in xs[1..];
      if r.Some? then
        var i :| 0 <= i < |xs[1..]| && xs[1..][i] == r.value && r.value.srcAddress == value
                  && forall j :: 0 <= j < i ==> xs[1..][j].srcAddress != value;
        assert xs[i + 1] == r.value && forall j :: 0 <= j < i + 1 ==> xs[j].srcAddress != value;
        r
      else r
  }

  /** What choosing an option yields: the token, and `snip20` set to its `dst_address`. */
  datatype Selection = Selection(token: TokenInfo, snip20: string)

  /** `onChange`: a value no token has makes `.dst_address` of `undefined`
      throw a TypeError; `None` stands for that throw, after which nothing is
      selected. */
  function OnChange(allData: seq<TokenInfo>, value: string): Option<Selection>
  {
    match Find(allData, value)
    case None => None
    case Some(t) => Some(Selection(t, t.dstAddress))
  }

  /** With distinct source addresses, choosing any option of a list built
      from any reordering of the store selects exactly its own token and its
      Secret address. */
  lemma ChoosingAnyListedOption(mode: ExchangeMode, allData: seq<TokenInfo>, sorted: seq<TokenInfo>, i: nat)
    requires forall j, k :: 0 <= j < k < |allData| ==> allData[j].srcAddress != allData[k].srcAddress
    requires multiset(sorted) == multiset(allData)
    requires i < |sorted|
    ensures var o := OptionList(mode, sorted)[i];
      OnChange(allData, o.value) == Some(Selection(o.token, o.token.dstAddress))
  {
    var opts := OptionList(mode, sorted);
    OptionListIsPermutation(mode, allData, sorted);
    var o := opts[i];
    assert TokensOf(opts)[i] == o.token;
    assert o.token in multiset(TokensOf(opts));
    assert o.token in allData;
  }

  /** The same for the intended order. */
  lemma ChoosingAnOptionSelectsItsToken(mode: ExchangeMode, allData: seq<TokenInfo>, i: nat)
    requires forall j, k :: 0 <= j < k < |allData| ==> allData[j].srcAddress != allData[k].srcAddress
    requires i < |allData|
    ensures var o := Options(mode, allData)[i];
      OnChange(allData, o.value) == Some(Selection(o.token, o.token.dstAddress))
  {
    ScrtFirstPermutes(allData);
    assert |ScrtFirst(allData)| == |multiset(ScrtFirst(allData))| == |multiset(allData)| == |allData|;
    ChoosingAnyListedOption(mode, allData, ScrtFirst(allData), i);
  }

  /** A value no token carries selects nothing: the handler throws (`None`). */
  lemma UnknownValueSelectsNothing(allData: seq<TokenInfo>, value: string)
    ensures OnChange(allData, value).None? <==> forall t :: t in allData ==> t.srcAddress != value
  {
  }
}
