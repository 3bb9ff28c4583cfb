/** Scores: real numbers and minus infinity. */
module ExtendedReals {

  datatype Ext = NegInf | Fin(r: real)

  predicate Le(a: Ext, b: Ext) {
    a.NegInf? || (b.Fin? && a.r <= b.r)
  }

  function Max(a: Ext, b: Ext): Ext {
    match (a, b)
    case (NegInf, _) => b
    case (_, NegInf) => a
    case (Fin(x), Fin(y)) => if x >= y then a else b
  }

  /** Max is the least value that is not below either argument. */
  lemma MaxIsLeast(a: Ext, b: Ext, m: Ext)
    ensures Le(Max(a, b), m) <==> Le(a, m) && Le(b, m)
  {
  }

  lemma LeTransitive(a: Ext, b: Ext, c: Ext)
    requires Le(a, b) && Le(b, c)
    ensures Le(a, c)
  {
  }
}
