/** JavaScript numbers as the swap page sees them: a finite value, an
    infinity, or NaN. Finite values are exact reals; rounding and the
    sign of zero are not modelled. */
module JsNumbers {

  datatype Num = NaN | Fin(r: real) | PosInf | NegInf

  const Zero: Num := Fin(0.0)

  /** JavaScript `<`: every comparison with NaN is false. */
  predicate Lt(a: Num, b: Num)
  {
    if a.NaN? || b.NaN? then false
    else if a.Fin? && b.Fin? then a.r < b.r
    else if a.NegInf? then !b.NegInf?
    else if b.PosInf? then !a.PosInf?
    else false
  }

  /** JavaScript `<=`: false as soon as either side is NaN. */
  predicate Le(a: Num, b: Num)
  {
    Lt(a, b) || (!a.NaN? && a == b)
  }

  /** JavaScript `/` on numbers (IEEE 754 division without rounding). */
  function Div(a: Num, b: Num): (q: Num)
    ensures a.Fin? && b.Fin? && b.r != 0.0 ==> q == Fin(a.r / b.r)
    ensures a.NaN? || b.NaN? ==> q.NaN?
  {
    if a.NaN? || b.NaN? then NaN
    else if a.Fin? && b.Fin? then
      if b.r != 0.0 then Fin(a.r / b.r)
      else if a.r == 0.0 then NaN
      else if a.r > 0.0 then PosInf
      else NegInf
    else if a.Fin? then Zero
    else if b.Fin? then
      if (b.r >= 0.0) == a.PosInf? then PosInf else NegInf
    else NaN
  }

  /** `<` is a strict order on the non-NaN numbers and NaN is unordered. */
  lemma LtIsStrictOrder(a: Num, b: Num, c: Num)
    ensures !Lt(a, a)
    ensures Lt(a, b) ==> !Lt(b, a)
    ensures Lt(a, b) && Lt(b, c) ==> Lt(a, c)
    ensures a.NaN? ==> !Lt(a, b) && !Le(a, b) && !Lt(b, a) && !Le(b, a)
  {
  }

  /** On non-NaN numbers `<=` is total and is the negation of `>`. */
  lemma LeTotal(a: Num, b: Num)
    requires !a.NaN? && !b.NaN?
    ensures Le(a, b) <==> !Lt(b, a)
  {
  }
}
