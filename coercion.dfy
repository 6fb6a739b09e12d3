/**
 * The implicit conversion the interpreter applies to a value before it is
 * stored in a variable, bound to a by-value parameter or returned from a
 * function (NodeResult::implicitCast in src/nodes/nodeResult.cpp).
 */
module Coercion {
  import opened Wrappers
  import opened Types
  import opened Values

  /**
   * The one conversion, if any, that applies to `r` for a target type; only
   * the target's tag matters. The source rewrites the result in place; here
   * the rewritten result is returned.
   */
  function ImplicitCast(p: Prims, r: NodeResult, target: DataType): (c: NodeResult)
    ensures c != r <==> ConvertsTo(r, target)
    ensures c != r ==> TagOf(c.data) == target.tag && c.name.None?
  {
    if HasTag(target, REAL) && r.data.IntV? then
      Unnamed(RealV(p.toReal(r.data)))
    else if HasTag(target, CHAR) && r.data.StrV? && |r.data.s| == 1 then
      Unnamed(CharV(r.data.s[0]))
    else if HasTag(target, STRING) && r.data.CharV? then
      Unnamed(StrV(p.toString(r.data)))
    else
      r
  }

  /**
   * The three pairs that implicitCast converts: Integer to REAL, a
   * one-character String to CHAR, and Char to STRING.
   */
  predicate ConvertsTo(r: NodeResult, target: DataType)
  {
    (target.tag == REAL && r.data.IntV?)
    || (target.tag == CHAR && r.data.StrV? && |r.data.s| == 1)
    || (target.tag == STRING && r.data.CharV?)
  }

  /** A second cast to the same target changes nothing. */
  lemma ImplicitCastIdempotent(p: Prims, r: NodeResult, target: DataType)
    ensures ImplicitCast(p, ImplicitCast(p, r, target), target) == ImplicitCast(p, r, target)
  {
  }

  /** Every pair outside the three is left alone: no narrowing, no parsing. */
  lemma ImplicitCastLeavesOthers(p: Prims, r: NodeResult, target: DataType)
    requires (target.tag == INTEGER && r.data.RealV?)
          || (target.tag == CHAR && r.data.StrV? && |r.data.s| != 1)
          || (target.tag == INTEGER && r.data.StrV?)
          || target.tag == TagOf(r.data)
    ensures ImplicitCast(p, r, target) == r
  {
  }

  /**
   * When a Char's string form is the one-character string holding it,
   * casting to STRING and back to CHAR restores the Char.
   */
  lemma CharStringRoundTrip(p: Prims, c: CChar)
    requires p.toString(CharV(c)) == [c]
    ensures ImplicitCast(p, ImplicitCast(p, Unnamed(CharV(c)), Plain(STRING)), Plain(CHAR)) == Unnamed(CharV(c))
  {
  }
}
