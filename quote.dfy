/** The quote derivation state machine of the swap page
    (src/pages/Swap/SwapTab.tsx:419-491, 536-649) and the decision of the
    swap button (497-513, 663-665, 676-684, 770-782).

    One amount field is typed by the user; the other is derived from it
    through the pool reserves. `isToEstimated` says the to-amount is derived
    from the from-amount, `isFromEstimated` the converse. */
module Quotes {
  import opened JsNumbers
  import opened Text
  import Catalog

  /** A balance as the page stores it: a number, or the element it shows
      instead of one (an error such as a wrong viewing key). */
  datatype Balance = Amount(value: Num) | Element(markup: string)

  datatype SwapResult = SwapResult(returnAmount: Num, spreadAmount: Num, commissionAmount: Num)
  datatype OfferResult = OfferResult(offerAmount: Num, spreadAmount: Num, commissionAmount: Num)

  /** What the page calls without this model seeing inside: JavaScript's
      `Number` on strings, `fromToNumberFormat.format`, and the pricing
      functions `compute_swap` and `compute_offer_amount`, whose results may
      be NaN. */
  datatype Env = Env(
    number: string -> Num,
    format: Num -> string,
    computeSwap: (Num, Num, Num) -> SwapResult,
    computeOfferAmount: (Num, Num, Num) -> OfferResult)

  datatype Quote = Quote(
    fromToken: string, toToken: string,
    fromInput: string, toInput: string,
    isFromEstimated: bool, isToEstimated: bool,
    spread: Num, commission: Num, priceImpact: Num)

  /** `Number(balances[key])`: a stored amount is its number; a missing key
      and an element shown in place of a number are NaN. */
  function BalanceNumber(balances: map<string, Balance>, key: string): (n: Num)
    ensures key !in balances ==> n.NaN?
    ensures key in balances && balances[key].Amount? ==> n == balances[key].value
    ensures key in balances && balances[key].Element? ==> n.NaN?
  {
    if key in balances && balances[key].Amount? then balances[key].value else NaN
  }

  /** The balance key of the pool reserve of `symbol` in the pair `pairKey`. */
  function ReserveKey(symbol: string, pairKey: string): string
  {
    symbol + "-" + pairKey
  }

  /** The invariant of the state machine: at most one side is derived. */
  predicate SingleAuthority(q: Quote)
  {
    !(q.isFromEstimated && q.isToEstimated)
  }

  /** The two pickers never select the same token twice. */
  predicate DistinctTokens(q: Quote)
  {
    q.fromToken != q.toToken
  }

  function Cleared(q: Quote): Quote
  {
    q.(isFromEstimated := false, isToEstimated := false, spread := Zero, commission := Zero, priceImpact := Zero)
  }

  /** `value === '' || Number(value) === 0` */
  predicate IsZeroAmount(value: string, number: string -> Num)
  {
    value == "" || number(value) == Zero
  }

  /** `updateInputs`: recompute the derived field from the authoritative one. */
  function UpdateInputs(q: Quote, balances: map<string, Balance>, env: Env): Quote
  {
    var pairKey := PairKey(q.fromToken, q.toToken);
    var offerPool := BalanceNumber(balances, ReserveKey(q.fromToken, pairKey));
    var askPool := BalanceNumber(balances, ReserveKey(q.toToken, pairKey));
    if offerPool.NaN? || askPool.NaN? then q
    else if q.isToEstimated then
      var r := env.computeSwap(offerPool, askPool, env.number(q.fromInput));
      if r.returnAmount.NaN? || q.fromInput == "" then Cleared(q).(toInput := "")
      else q.(toInput := if Lt(r.returnAmount, Zero) then "" else env.format(r.returnAmount),
              isToEstimated := true,
              spread := r.spreadAmount, commission := r.commissionAmount,
              priceImpact := Div(r.spreadAmount, r.returnAmount))
    else if q.isFromEstimated then
      var r := env.computeOfferAmount(offerPool, askPool, env.number(q.toInput));
      if r.offerAmount.NaN? || q.toInput == "" then Cleared(q).(fromInput := "")
      else q.(isToEstimated := false,
              fromInput := if Lt(r.offerAmount, Zero) then "" else env.format(r.offerAmount),
              isFromEstimated := Le(Zero, r.offerAmount),
              spread := r.spreadAmount, commission := r.commissionAmount,
              priceImpact := Div(r.spreadAmount, r.offerAmount))
    else q
  }

  /** The from-amount setter's `setState` (without the `updateInputs` that follows it). */
  function TypedFrom(q: Quote, value: string, number: string -> Num): Quote
  {
    if IsZeroAmount(value, number) then Cleared(q).(fromInput := value, toInput := "")
    else q.(fromInput := value, isFromEstimated := false, isToEstimated := true)
  }

  /** The to-amount setter's `setState`. */
  function TypedTo(q: Quote, value: string, number: string -> Num): Quote
  {
    if IsZeroAmount(value, number) then Cleared(q).(toInput := value, fromInput := "")
    else q.(toInput := value, isToEstimated := false, isFromEstimated := true)
  }

  /** The whole from-amount setter: a non-zero amount is followed by `updateInputs`. */
  function TypeFrom(q: Quote, value: string, balances: map<string, Balance>, env: Env): Quote
  {
    if IsZeroAmount(value, env.number) then TypedFrom(q, value, env.number)
    else UpdateInputs(TypedFrom(q, value, env.number), balances, env)
  }

  function TypeTo(q: Quote, value: string, balances: map<string, Balance>, env: Env): Quote
  {
    if IsZeroAmount(value, env.number) then TypedTo(q, value, env.number)
    else UpdateInputs(TypedTo(q, value, env.number), balances, env)
  }

  /** The arrow between the fields: tokens, inputs and flags change sides. */
  function Flipped(q: Quote): Quote
  {
    q.(toToken := q.fromToken, toInput := q.fromInput, isToEstimated := q.isFromEstimated,
       fromToken := q.toToken, fromInput := q.toInput, isFromEstimated := q.isToEstimated)
  }

  function Flip(q: Quote, balances: map<string, Balance>, env: Env): Quote
  {
    UpdateInputs(Flipped(q), balances, env)
  }

  /** The from-side token picker: picking the to-token swaps the two. */
  function PickFrom(q: Quote, value: string): Quote
  {
    if value == q.toToken then q.(fromToken := value, toToken := q.fromToken) else q.(fromToken := value)
  }

  /** The to-side token picker: picking the from-token swaps the two. */
  function PickTo(q: Quote, value: string): Quote
  {
    if value == q.fromToken then q.(toToken := value, fromToken := q.toToken) else q.(toToken := value)
  }

  // ---------------------------------------------------------------------
  // Properties of the state machine

  /** Every handler keeps "not both sides derived". */
  lemma HandlersKeepSingleAuthority(q: Quote, value: string, balances: map<string, Balance>, env: Env)
    requires SingleAuthority(q)
    ensures SingleAuthority(UpdateInputs(q, balances, env))
    ensures SingleAuthority(TypeFrom(q, value, balances, env))
    ensures SingleAuthority(TypeTo(q, value, balances, env))
    ensures SingleAuthority(Flip(q, balances, env))
    ensures SingleAuthority(PickFrom(q, value)) && SingleAuthority(PickTo(q, value))
  {
    UpdateInputsKeepsSingleAuthority(TypedFrom(q, value, env.number), balances, env);
    UpdateInputsKeepsSingleAuthority(TypedTo(q, value, env.number), balances, env);
    UpdateInputsKeepsSingleAuthority(Flipped(q), balances, env);
  }

  lemma UpdateInputsKeepsSingleAuthority(q: Quote, balances: map<string, Balance>, env: Env)
    requires SingleAuthority(q)
    ensures SingleAuthority(UpdateInputs(q, balances, env))
  {
  }

  /** Every handler keeps the two selected tokens apart. */
  lemma HandlersKeepDistinctTokens(q: Quote, value: string, balances: map<string, Balance>, env: Env)
    requires DistinctTokens(q)
    ensures DistinctTokens(UpdateInputs(q, balances, env))
    ensures DistinctTokens(TypeFrom(q, value, balances, env))
    ensures DistinctTokens(TypeTo(q, value, balances, env))
    ensures DistinctTokens(Flip(q, balances, env))
    ensures DistinctTokens(PickFrom(q, value)) && DistinctTokens(PickTo(q, value))
  {
    UpdateInputsKeepsTokens(q, balances, env);
    UpdateInputsKeepsTokens(TypedFrom(q, value, env.number), balances, env);
    UpdateInputsKeepsTokens(TypedTo(q, value, env.number), balances, env);
    UpdateInputsKeepsTokens(Flipped(q), balances, env);
  }

  lemma UpdateInputsKeepsTokens(q: Quote, balances: map<string, Balance>, env: Env)
    ensures UpdateInputs(q, balances, env).fromToken == q.fromToken
    ensures UpdateInputs(q, balances, env).toToken == q.toToken
  {
  }

  /** `updateInputs` never rewrites the field the user typed. */
  lemma UpdateInputsKeepsAuthoritative(q: Quote, balances: map<string, Balance>, env: Env)
    ensures q.isToEstimated ==> UpdateInputs(q, balances, env).fromInput == q.fromInput
    ensures !q.isToEstimated && q.isFromEstimated ==> UpdateInputs(q, balances, env).toInput == q.toInput
  {
  }

  /** `updateInputs` does nothing when a reserve is missing or NaN, or when no side is derived. */
  lemma UpdateInputsNoChange(q: Quote, balances: map<string, Balance>, env: Env)
    requires || BalanceNumber(balances, ReserveKey(q.fromToken, PairKey(q.fromToken, q.toToken))).NaN?
             || BalanceNumber(balances, ReserveKey(q.toToken, PairKey(q.fromToken, q.toToken))).NaN?
             || (!q.isFromEstimated && !q.isToEstimated)
    ensures UpdateInputs(q, balances, env) == q
  {
  }

  /** A NaN result, or an empty authoritative field, resets both flags and
      the derived figures and empties the derived field. */
  lemma UpdateInputsResets(q: Quote, balances: map<string, Balance>, env: Env)
    requires !BalanceNumber(balances, ReserveKey(q.fromToken, PairKey(q.fromToken, q.toToken))).NaN?
    requires !BalanceNumber(balances, ReserveKey(q.toToken, PairKey(q.fromToken, q.toToken))).NaN?
    requires q.isToEstimated || q.isFromEstimated
    requires var offer := BalanceNumber(balances, ReserveKey(q.fromToken, PairKey(q.fromToken, q.toToken)));
             var ask := BalanceNumber(balances, ReserveKey(q.toToken, PairKey(q.fromToken, q.toToken)));
             if q.isToEstimated then q.fromInput == "" || env.computeSwap(offer, ask, env.number(q.fromInput)).returnAmount.NaN?
             else q.toInput == "" || env.computeOfferAmount(offer, ask, env.number(q.toInput)).offerAmount.NaN?
    ensures var r := UpdateInputs(q, balances, env);
      && !r.isFromEstimated && !r.isToEstimated
      && r.spread == Zero && r.commission == Zero && r.priceImpact == Zero
      && (if q.isToEstimated then r.toInput == "" && r.fromInput == q.fromInput
          else r.fromInput == "" && r.toInput == q.toInput)
  {
  }

  /** A negative computed amount leaves the derived field empty. */
  lemma NegativeResultEmptiesField(q: Quote, balances: map<string, Balance>, env: Env)
    requires !BalanceNumber(balances, ReserveKey(q.fromToken, PairKey(q.fromToken, q.toToken))).NaN?
    requires !BalanceNumber(balances, ReserveKey(q.toToken, PairKey(q.fromToken, q.toToken))).NaN?
    requires var offer := BalanceNumber(balances, ReserveKey(q.fromToken, PairKey(q.fromToken, q.toToken)));
             var ask := BalanceNumber(balances, ReserveKey(q.toToken, PairKey(q.fromToken, q.toToken)));
             if q.isToEstimated then Lt(env.computeSwap(offer, ask, env.number(q.fromInput)).returnAmount, Zero)
             else q.isFromEstimated && Lt(env.computeOfferAmount(offer, ask, env.number(q.toInput)).offerAmount, Zero)
    ensures q.isToEstimated ==> UpdateInputs(q, balances, env).toInput == ""
    ensures !q.isToEstimated ==> UpdateInputs(q, balances, env).fromInput == ""
    ensures !q.isToEstimated ==> !UpdateInputs(q, balances, env).isFromEstimated
  {
  }

  /** An empty or zero amount clears the other field, both flags and the figures. */
  lemma ZeroAmountClears(q: Quote, value: string, balances: map<string, Balance>, env: Env)
    requires IsZeroAmount(value, env.number)
    ensures var r := TypeFrom(q, value, balances, env);
      r == Quote(q.fromToken, q.toToken, value, "", false, false, Zero, Zero, Zero)
    ensures var r := TypeTo(q, value, balances, env);
      r == Quote(q.fromToken, q.toToken, "", value, false, false, Zero, Zero, Zero)
  {
  }

  /** A non-zero amount becomes the authoritative side and marks the other one derived. */
  lemma AmountMarksOtherSideDerived(q: Quote, value: string, number: string -> Num)
    requires !IsZeroAmount(value, number)
    ensures var r := TypedFrom(q, value, number);
      r.fromInput == value && r.isToEstimated && !r.isFromEstimated
    ensures var r := TypedTo(q, value, number);
      r.toInput == value && r.isFromEstimated && !r.isToEstimated
  {
  }

  /** The arrow is its own inverse. */
  lemma FlippedTwice(q: Quote)
    ensures Flipped(Flipped(q)) == q
  {
  }

  /** Picking the token of the other side swaps the two selections. */
  lemma PickOtherSideSwaps(q: Quote)
    ensures PickFrom(q, q.toToken) == q.(fromToken := q.toToken, toToken := q.fromToken)
    ensures PickTo(q, q.fromToken) == q.(fromToken := q.toToken, toToken := q.fromToken)
  {
  }

  // ---------------------------------------------------------------------
  // The swap button

  const EnterAmount: string := "Enter an amount"
  const NoTradingPair: string := "Trading pair does not exist"
  const LoadingPrice: string := "Loading price data"
  const NotEnoughLiquidity: string := "Insufficient liquidity for this trade"
  const SwapLabel: string := "Swap"

  function InsufficientBalance(symbol: string): string
  {
    "Insufficient " + symbol + " balance"
  }

  /** The message `render` puts on the button, first matching case wins. */
  function ButtonMessage(q: Quote, balances: map<string, Balance>, pairFromSymbol: map<string, Catalog.Pair>, number: string -> Num): string
  {
    if q.fromInput == "" && q.toInput == "" then EnterAmount
    else if Lt(BalanceNumber(balances, q.fromToken), number(q.fromInput)) then InsufficientBalance(q.fromToken)
    else if PairKey(q.fromToken, q.toToken) !in pairFromSymbol then NoTradingPair
    else if q.fromInput == "" || q.toInput == "" then LoadingPrice
    else if Le(Fin(1.0), q.priceImpact) || Lt(q.priceImpact, Zero) then NotEnoughLiquidity
    else SwapLabel
  }

  predicate ButtonEnabled(q: Quote, balances: map<string, Balance>, pairFromSymbol: map<string, Catalog.Pair>, number: string -> Num, loadingSwap: bool)
  {
    ButtonMessage(q, balances, pairFromSymbol, number) == SwapLabel && !loadingSwap
  }

  /** The button says "Swap" exactly when no earlier case applies. */
  lemma SwapOnlyWhenNothingBlocks(q: Quote, balances: map<string, Balance>, pairFromSymbol: map<string, Catalog.Pair>, number: string -> Num)
    ensures ButtonMessage(q, balances, pairFromSymbol, number) == SwapLabel <==>
      && q.fromInput != "" && q.toInput != ""
      && !Lt(BalanceNumber(balances, q.fromToken), number(q.fromInput))
      && PairKey(q.fromToken, q.toToken) in pairFromSymbol
      && !Le(Fin(1.0), q.priceImpact) && !Lt(q.priceImpact, Zero)
  {
    assert |InsufficientBalance(q.fromToken)| > |SwapLabel|;
  }

  /** Each blocking message appears exactly when its own condition is the
      first that holds, in the order the checks are made. */
  lemma BlockingMessages(q: Quote, balances: map<string, Balance>, pairFromSymbol: map<string, Catalog.Pair>, number: string -> Num)
    ensures var m := ButtonMessage(q, balances, pairFromSymbol, number);
      m == InsufficientBalance(q.fromToken) <==>
        !(q.fromInput == "" && q.toInput == "") && Lt(BalanceNumber(balances, q.fromToken), number(q.fromInput))
    ensures var m := ButtonMessage(q, balances, pairFromSymbol, number);
      m == NoTradingPair <==>
        && !(q.fromInput == "" && q.toInput == "") && !Lt(BalanceNumber(balances, q.fromToken), number(q.fromInput))
        && PairKey(q.fromToken, q.toToken) !in pairFromSymbol
    ensures var m := ButtonMessage(q, balances, pairFromSymbol, number);
      m == LoadingPrice <==>
        && !(q.fromInput == "" && q.toInput == "") && !Lt(BalanceNumber(balances, q.fromToken), number(q.fromInput))
        && PairKey(q.fromToken, q.toToken) in pairFromSymbol
        && (q.fromInput == "" || q.toInput == "")
    ensures var m := ButtonMessage(q, balances, pairFromSymbol, number);
      m == NotEnoughLiquidity <==>
        && q.fromInput != "" && q.toInput != "" && !Lt(BalanceNumber(balances, q.fromToken), number(q.fromInput))
        && PairKey(q.fromToken, q.toToken) in pairFromSymbol
        && (Le(Fin(1.0), q.priceImpact) || Lt(q.priceImpact, Zero))
  {
    var ib := InsufficientBalance(q.fromToken);
    assert ib[0] == 'I' && NoTradingPair[0] == 'T' && LoadingPrice[0] == 'L';
    assert ib[|ib| - 8] == ' ' && NotEnoughLiquidity[|NotEnoughLiquidity| - 8] == 'i';
    assert |ib| > |SwapLabel| && |ib| != |EnterAmount|;
  }

  /** The button can be pressed exactly when nothing blocks a swap and no
      swap is already loading. */
  lemma EnabledOnlyWhenNothingBlocks(q: Quote, balances: map<string, Balance>, pairFromSymbol: map<string, Catalog.Pair>, number: string -> Num, loadingSwap: bool)
    ensures ButtonEnabled(q, balances, pairFromSymbol, number, loadingSwap) <==>
      && q.fromInput != "" && q.toInput != ""
      && !Lt(BalanceNumber(balances, q.fromToken), number(q.fromInput))
      && PairKey(q.fromToken, q.toToken) in pairFromSymbol
      && !Le(Fin(1.0), q.priceImpact) && !Lt(q.priceImpact, Zero)
      && !loadingSwap
  {
    SwapOnlyWhenNothingBlocks(q, balances, pairFromSymbol, number);
  }

  /** Both fields empty is reported before anything else. */
  lemma EmptyFieldsAskForAmount(q: Quote, balances: map<string, Balance>, pairFromSymbol: map<string, Catalog.Pair>, number: string -> Num)
    ensures ButtonMessage(q, balances, pairFromSymbol, number) == EnterAmount <==> q.fromInput == "" && q.toInput == ""
  {
    assert |InsufficientBalance(q.fromToken)| != |EnterAmount|;
  }

  /** A NaN price impact passes the liquidity check: every comparison with NaN is false. */
  lemma NaNPriceImpactNotBlocked(q: Quote, balances: map<string, Balance>, pairFromSymbol: map<string, Catalog.Pair>, number: string -> Num)
    requires q.fromInput != "" && q.toInput != "" && q.priceImpact.NaN?
    requires !Lt(BalanceNumber(balances, q.fromToken), number(q.fromInput))
    requires PairKey(q.fromToken, q.toToken) in pairFromSymbol
    ensures ButtonMessage(q, balances, pairFromSymbol, number) == SwapLabel
  {
  }

  // ---------------------------------------------------------------------
  // Submitting a swap

  /** A price impact of at least 15% asks the user to type "confirm" first. */
  predicate NeedsConfirmation(q: Quote)
  {
    Le(Fin(0.15), q.priceImpact)
  }

  /** The state after the transaction returns: on success both fields are
      emptied; the flags and figures stay as they were. */
  function AfterSwap(q: Quote, succeeded: bool): Quote
  {
    if succeeded then q.(fromInput := "", toInput := "") else q
  }

  /** After a successful swap the button asks for a new amount. */
  lemma SwapDoneAsksForAmount(q: Quote, balances: map<string, Balance>, pairFromSymbol: map<string, Catalog.Pair>, number: string -> Num)
    ensures ButtonMessage(AfterSwap(q, true), balances, pairFromSymbol, number) == EnterAmount
    ensures AfterSwap(q, true).isFromEstimated == q.isFromEstimated
    ensures AfterSwap(q, true).isToEstimated == q.isToEstimated
  {
  }
}
