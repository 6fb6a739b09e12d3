/**
 * The operators of the expression evaluator, as functions of the already
 * evaluated operands: negation and arithmetic (src/nodes/eval/arithmetic.cpp),
 * comparison (src/nodes/eval/comparison.cpp), AND/OR/NOT
 * (src/nodes/eval/logic.cpp), explicit casts (src/nodes/cast.cpp), string
 * concatenation (src/nodes/eval/stringcat.cpp) and the matching of CASE arms
 * (src/nodes/selection/case.cpp).
 */
module Operators {
  import opened Wrappers
  import opened Types
  import opened Values
  import opened Errors
  import opened Coercion

  /** Integer or Real, the operands `Number` accepts. */
  predicate IsNumeric(v: Value)
  {
    v.IntV? || v.RealV?
  }

  /** An Integer 0 or a Real 0 divisor. */
  predicate IsZero(n: Num)
  {
    match n
    case NInt(i) => i == 0
    case NReal(r) => r == 0.0
  }

  // ---------------------------------------------------------------- literals

  /** The token kinds a BooleanNode can be built from. */
  datatype BoolWord = TrueWord | FalseWord | OtherWord

  /** BooleanNode's constructor: TRUE or FALSE, and abort on anything else. */
  function BooleanNodeValue(w: BoolWord): (r: Result<bool>)
    ensures r.Ok? <==> w != OtherWord
    ensures r.Fail? ==> r.kind == Abort
    ensures r.Ok? ==> (r.value <==> w == TrueWord)
  {
    match w
    case TrueWord => Ok(true)
    case FalseWord => Ok(false)
    case OtherWord => Fail(Abort)
  }

  // ---------------------------------------------------------------- negation

  /** NegateNode: only Integer and Real, multiplied by Integer -1. */
  function Negate(p: Prims, v: NodeResult): (r: Result<NodeResult>)
    ensures r.Ok? <==> IsNumeric(v.data)
    ensures r.Fail? ==> r.kind == InvalidUsage(NegateOperand)
    ensures r.Ok? ==>
      r.value.name.None? && r.value.data == NumValue(p.arith(Mul, AsNum(v.data).value, NInt(-1)))
  {
    match AsNum(v.data)
    case None => Fail(InvalidUsage(NegateOperand))
    case Some(n) => Ok(Unnamed(NumValue(p.arith(Mul, n, NInt(-1)))))
  }

  // -------------------------------------------------------- enum arithmetic

  /**
   * The Enum-with-Integer case of ArithmeticOperationNode: `+` or `-` with an
   * Enum on one side and an Integer on the other. Gives the enum's
   * definition name and the raw index. An Integer on the left is swapped to
   * the right, yet the subtraction still computes integer minus index.
   */
  function EnumOperands(op: ArithOp, l: Value, r: Value): (o: Option<(string, int)>)
    ensures o.Some? <==>
      (op == Add || op == Sub) && ((l.EnumV? && r.IntV?) || (l.IntV? && r.EnumV?))
    ensures o.Some? && l.EnumV? ==> o.value == (l.enumDef, if op == Add then l.idx + r.i else l.idx - r.i)
    ensures o.Some? && r.EnumV? ==> o.value == (r.enumDef, if op == Add then l.i + r.idx else l.i - r.idx)
  {
    var swapped := l.IntV? && r.EnumV?;
    var (e, n) := if swapped then (r, l) else (l, r);
    if (op == Add || op == Sub) && e.EnumV? && n.IntV? then
      var (left, right) := if swapped then (n.i, e.idx) else (e.idx, n.i);
      Some((e.enumDef, if op == Add then left + right else left - right))
    else
      None
  }

  /**
   * The index an enum step lands on: the raw index reduced into [0, n), as
   * spelled out by the negative-remainder correction after the remainder.
   */
  function EnumWrap(raw: int, n: nat): (idx: int)
    requires n > 0
    ensures 0 <= idx < n
    ensures raw >= 0 ==> idx == raw % n
    ensures 0 - n <= raw < 0 ==> idx == raw + n
  {
    raw % n
  }

  /** The width of the host's `size_t`. */
  const SizeWord: int := 0x1_0000_0000_0000_0000

  /**
   * The same reduction exactly as the source spells it on a host with a
   * 64-bit `size_t`: `res %= enumSize` converts the signed raw index to
   * `size_t` before the remainder, so a negative raw index is first taken
   * modulo 2^64, and the following `res < 0` correction can no longer fire.
   */
  function EnumWrapAsWritten(raw: int, n: nat): (idx: int)
    requires 0 < n < SizeWord
    ensures 0 <= idx < n
    ensures 0 <= raw < SizeWord ==> idx == EnumWrap(raw, n)
  {
    var res := (raw % SizeWord) % n;
    if res < 0 then res + n else res
  }

  /** Stepping back from the first value of a three-value enum. */
  lemma EnumPredecessorOfFirst()
    ensures EnumWrap(0 - 1, 3) == 2
    ensures EnumWrapAsWritten(0 - 1, 3) == 0
  {
    assert (0 - 1) % SizeWord == SizeWord - 1;
    assert (SizeWord - 1) % 3 == 0;
  }

  // --------------------------------------------------------------- arithmetic

  /**
   * ArithmeticOperationNode, given the operands' values and the number of
   * values of each enum definition visible from the current scope (None for
   * a missing definition).
   */
  function Arith(p: Prims, op: ArithOp, l: NodeResult, r: NodeResult,
                 enumCount: string -> Option<nat>): (res: Result<NodeResult>)
    ensures EnumOperands(op, l.data, r.data).Some? ==>
      var (d, raw) := EnumOperands(op, l.data, r.data).value;
      if enumCount(d).None? || enumCount(d).value == 0 then res == Fail(Abort)
      else res.Ok? && res.value == Unnamed(EnumV(d, EnumWrap(raw, enumCount(d).value)))
    ensures EnumOperands(op, l.data, r.data).None? && !(IsNumeric(l.data) && IsNumeric(r.data)) ==>
      res == Fail(InvalidUsage(ArithOperands(op)))
    ensures IsNumeric(l.data) && IsNumeric(r.data) ==>
      var (a, b) := (AsNum(l.data).value, AsNum(r.data).value);
      if op in {Div, Mod, IntDiv} && IsZero(b) then
        res == Fail(Runtime(if op == Mod then ModulusByZero else DivisionByZero))
      else
        res == Ok(Unnamed(NumValue(p.arith(op, a, b))))
  {
    match EnumOperands(op, l.data, r.data)
    case Some((d, raw)) =>
      (match enumCount(d)
       case Some(n) => if n == 0 then Fail(Abort) else Ok(Unnamed(EnumV(d, EnumWrap(raw, n))))
       case None => Fail(Abort))
    case None =>
      if !IsNumeric(l.data) || !IsNumeric(r.data) then Fail(InvalidUsage(ArithOperands(op)))
      else
        var a, b := AsNum(l.data).value, AsNum(r.data).value;
        if op == Div && IsZero(b) then Fail(Runtime(DivisionByZero))
        else if op == Mod && IsZero(b) then Fail(Runtime(ModulusByZero))
        else if op == IntDiv && IsZero(b) then Fail(Runtime(DivisionByZero))
        else Ok(Unnamed(NumValue(p.arith(op, a, b))))
  }

  /** `+`, `-` and `*` on two numbers never fail, and the result is a number. */
  lemma ArithTotalOnNumbers(p: Prims, op: ArithOp, l: NodeResult, r: NodeResult,
                            enumCount: string -> Option<nat>)
    requires op in {Add, Sub, Mul} && IsNumeric(l.data) && IsNumeric(r.data)
    ensures Arith(p, op, l, r, enumCount).Ok?
    ensures IsNumeric(Arith(p, op, l, r, enumCount).value.data)
    ensures Arith(p, op, l, r, enumCount).value.data.RealV?
        <==> p.arith(op, AsNum(l.data).value, AsNum(r.data).value).NReal?
  {
  }

  /** Enum arithmetic commutes for `+`: Integer + Enum equals Enum + Integer. */
  lemma EnumAddCommutes(p: Prims, e: NodeResult, k: NodeResult, enumCount: string -> Option<nat>)
    requires e.data.EnumV? && k.data.IntV?
    ensures Arith(p, Add, k, e, enumCount) == Arith(p, Add, e, k, enumCount)
  {
  }

  // --------------------------------------------------------------- comparison

  /**
   * The operand rewrite at the start of ComparisonNode: a Char pair or a
   * Date pair becomes a pair of Integer codes.
   */
  function CompareOperands(p: Prims, l: NodeResult, r: NodeResult): (o: (NodeResult, NodeResult))
    ensures (l.data.CharV? && r.data.CharV?) || (l.data.DateV? && r.data.DateV?) ==>
      o == (Unnamed(IntV(p.toInteger(l.data))), Unnamed(IntV(p.toInteger(r.data))))
    ensures !((l.data.CharV? && r.data.CharV?) || (l.data.DateV? && r.data.DateV?)) ==> o == (l, r)
  {
    if (l.data.CharV? && r.data.CharV?) || (l.data.DateV? && r.data.DateV?) then
      (Unnamed(IntV(p.toInteger(l.data))), Unnamed(IntV(p.toInteger(r.data))))
    else (l, r)
  }

  /** Same-type equality of the non-numeric types `=` and `<>` accept. */
  function ScalarEquals(a: Value, b: Value): Option<bool>
  {
    if a.BoolV? && b.BoolV? then Some(a.b == b.b)
    else if a.StrV? && b.StrV? then Some(a.s == b.s)
    else if a.EnumV? && b.EnumV? then Some(a.idx == b.idx)
    else None
  }

  /** ComparisonNode on its evaluated operands. */
  function Compare(p: Prims, op: CmpOp, l0: NodeResult, r0: NodeResult): (res: Result<NodeResult>)
    ensures res.Ok? ==> res.value.data.BoolV? && res.value.name.None?
  {
    var (l, r) := CompareOperands(p, l0, r0);
    if !IsNumeric(l.data) || !IsNumeric(r.data) then
      if op != Eq && op != Ne then Fail(InvalidUsage(CompareNumeric(op)))
      else if !SameType(l.Type(), r.Type()) then Ok(Unnamed(BoolV(op == Ne)))
      else
        match ScalarEquals(l.data, r.data)
        case Some(same) => Ok(Unnamed(BoolV(if op == Eq then same else !same)))
        case None => Fail(InvalidUsage(CompareComparable(op)))
    else
      Ok(Unnamed(BoolV(p.compare(op, AsNum(l.data).value, AsNum(r.data).value))))
  }

  /** A non-numeric pair admits only `=` and `<>`; the types are not looked at first. */
  lemma CompareOrderNeedsNumbers(p: Prims, op: CmpOp, l: NodeResult, r: NodeResult)
    requires op !in {Eq, Ne}
    requires !IsNumeric(l.data) && !(l.data.CharV? && r.data.CharV?) && !(l.data.DateV? && r.data.DateV?)
    ensures Compare(p, op, l, r) == Fail(InvalidUsage(CompareNumeric(op)))
  {
  }

  /** Operands of different types are unequal, whatever their values. */
  lemma CompareDifferentTypes(p: Prims, op: CmpOp, l: NodeResult, r: NodeResult)
    requires op in {Eq, Ne}
    requires !(IsNumeric(l.data) && IsNumeric(r.data))
    requires TagOf(l.data) != TagOf(r.data)
    requires !(IsNumeric(l.data) && (r.data.CharV? || r.data.DateV?))
    requires !(IsNumeric(r.data) && (l.data.CharV? || l.data.DateV?))
    ensures Compare(p, op, l, r) == Ok(Unnamed(BoolV(op == Ne)))
  {
  }

  /**
   * Same-type Boolean, String and Enum operands compare by value (an Enum by
   * its index), and `<>` is the negation of `=`.
   */
  lemma CompareByValue(p: Prims, l: NodeResult, r: NodeResult)
    requires (l.data.BoolV? && r.data.BoolV?) || (l.data.StrV? && r.data.StrV?)
          || (l.data.EnumV? && r.data.EnumV?)
    requires SameType(l.Type(), r.Type())
    ensures Compare(p, Eq, l, r).Ok? && Compare(p, Ne, l, r).Ok?
    ensures Compare(p, Eq, l, r).value.data.b == ScalarEquals(l.data, r.data).value
    ensures Compare(p, Ne, l, r).value.data.b == !Compare(p, Eq, l, r).value.data.b
  {
  }

  /** Same-type Pointers or Records cannot be compared, not even with `=`. */
  lemma CompareRejectsReferences(p: Prims, op: CmpOp, l: NodeResult, r: NodeResult)
    requires (l.data.PtrV? && r.data.PtrV?) || (l.data.CompV? && r.data.CompV?)
    requires SameType(l.Type(), r.Type())
    ensures Compare(p, op, l, r).Fail?
    ensures Compare(p, op, l, r).kind == InvalidUsage(
      if op in {Eq, Ne} then CompareComparable(op) else CompareNumeric(op))
  {
  }

  /** Numeric pairs, and Char or Date pairs through their codes, use the Number comparison. */
  lemma CompareNumbers(p: Prims, op: CmpOp, l: NodeResult, r: NodeResult)
    requires IsNumeric(l.data) && IsNumeric(r.data)
    ensures Compare(p, op, l, r) == Ok(Unnamed(BoolV(p.compare(op, AsNum(l.data).value, AsNum(r.data).value))))
  {
  }

  lemma CompareCodes(p: Prims, op: CmpOp, l: NodeResult, r: NodeResult)
    requires (l.data.CharV? && r.data.CharV?) || (l.data.DateV? && r.data.DateV?)
    ensures Compare(p, op, l, r) == Ok(Unnamed(BoolV(p.compare(op, NInt(p.toInteger(l.data)), NInt(p.toInteger(r.data))))))
  {
  }

  /**
   * When the Number comparison makes `<>` the negation of `=`, so does the
   * node, for every pair of operands: both succeed or both fail, and on
   * success the answers are opposite.
   */
  lemma CompareNeNegatesEq(p: Prims, l: NodeResult, r: NodeResult)
    requires forall a: Num, b: Num :: p.compare(Ne, a, b) == !p.compare(Eq, a, b)
    ensures Compare(p, Ne, l, r).Ok? <==> Compare(p, Eq, l, r).Ok?
    ensures Compare(p, Eq, l, r).Ok? ==> Compare(p, Ne, l, r).value.data.b == !Compare(p, Eq, l, r).value.data.b
  {
  }

  /** When the Number `=` is symmetric, so is the node's `=`, errors included. */
  lemma CompareEqSymmetric(p: Prims, l: NodeResult, r: NodeResult)
    requires forall a: Num, b: Num :: p.compare(Eq, a, b) == p.compare(Eq, b, a)
    ensures Compare(p, Eq, l, r) == Compare(p, Eq, r, l)
  {
  }

  // ------------------------------------------------------------------- logic

  /** LogicNode: AND or OR of two Booleans; both operands are already evaluated. */
  function Logic(isAnd: bool, l: NodeResult, r: NodeResult): (res: Result<NodeResult>)
    ensures res.Ok? <==> l.data.BoolV? && r.data.BoolV?
    ensures res.Fail? ==> res.kind == InvalidUsage(LogicOperands(isAnd))
    ensures res.Ok? ==>
      res.value.name.None? && res.value.data.BoolV?
      && (res.value.data.b <==> if isAnd then l.data.b && r.data.b else l.data.b || r.data.b)
  {
    if !l.data.BoolV? || !r.data.BoolV? then Fail(InvalidUsage(LogicOperands(isAnd)))
    else if isAnd then Ok(Unnamed(BoolV(l.data.b && r.data.b)))
    else Ok(Unnamed(BoolV(l.data.b || r.data.b)))
  }

  /** NotNode. */
  function Not(v: NodeResult): (res: Result<NodeResult>)
    ensures res.Ok? <==> v.data.BoolV?
    ensures res.Fail? ==> res.kind == InvalidUsage(NotOperand)
    ensures res.Ok? ==> res.value == Unnamed(BoolV(!v.data.b))
  {
    if v.data.BoolV? then Ok(Unnamed(BoolV(!v.data.b))) else Fail(InvalidUsage(NotOperand))
  }

  /** NOT undoes itself on Booleans. */
  lemma NotInvolutive(v: NodeResult)
    requires v.data.BoolV? && v.name.None?
    ensures Not(v).Ok? && Not(Not(v).value) == Ok(v)
  {
  }

  // -------------------------------------------------------------------- cast

  /** CastNode on its evaluated operand. */
  function Cast(p: Prims, v: NodeResult, target: DataType): (res: Result<NodeResult>)
    ensures !IsPrimitive(v.data) ==> res == Fail(TypeOperation("Cast"))
    ensures IsPrimitive(v.data) && SameType(v.Type(), target) ==> res == Ok(v)
    ensures res.Ok? && !SameType(v.Type(), target) ==> res.value.Type() == target
    ensures IsPrimitive(v.data) && !SameType(v.Type(), target) ==>
      (res.Ok? <==> target.tag in {INTEGER, REAL, BOOLEAN, CHAR, STRING})
    ensures target.tag in {DATE, ENUM, PTR, COMPOSITE} && !SameType(v.Type(), target) ==> res.Fail?
  {
    if !IsPrimitive(v.data) then Fail(TypeOperation("Cast"))
    else if SameType(v.Type(), target) then Ok(v)
    else
      match target.tag
      case INTEGER => Ok(NodeResult(IntV(p.toInteger(v.data)), target.name))
      case REAL => Ok(NodeResult(RealV(p.toReal(v.data)), target.name))
      case BOOLEAN => Ok(NodeResult(BoolV(p.toBoolean(v.data)), target.name))
      case CHAR => Ok(NodeResult(CharV(p.toChar(v.data)), target.name))
      case STRING => Ok(NodeResult(StrV(p.toString(v.data)), target.name))
      case NONE => Fail(Abort)
      case _ => Fail(TypeOperation("Cast"))
  }

  /** Casting a cast result to the same target again changes nothing. */
  lemma CastIdempotent(p: Prims, v: NodeResult, target: DataType)
    requires Cast(p, v, target).Ok?
    ensures Cast(p, Cast(p, v, target).value, target) == Cast(p, v, target)
  {
  }

  /**
   * On the implicit conversions Integer to REAL and Char to STRING, an
   * explicit cast to an unnamed target yields the value the implicit cast
   * stores.
   */
  lemma CastAgreesWithImplicitCast(p: Prims, v: NodeResult, tag: Tag)
    requires (tag == REAL && v.data.IntV?) || (tag == STRING && v.data.CharV?)
    ensures Cast(p, v, Plain(tag)) == Ok(ImplicitCast(p, v, Plain(tag)))
  {
  }

  // ----------------------------------------------------------- concatenation

  /** StringConcatenationNode: the left operand's string form, then the right's. */
  function Concat(p: Prims, l: NodeResult, r: NodeResult): (res: Result<NodeResult>)
    ensures res.Ok? <==> IsPrimitive(l.data) && IsPrimitive(r.data)
    ensures res.Fail? ==> res.kind == TypeOperation("'&'")
    ensures res.Ok? ==>
      var (a, b) := (p.toString(l.data), p.toString(r.data));
      res.value.Type() == Plain(STRING) && |res.value.data.s| == |a| + |b|
      && res.value.data.s[..|a|] == a && res.value.data.s[|a|..] == b
  {
    if !IsPrimitive(l.data) || !IsPrimitive(r.data) then Fail(TypeOperation("'&'"))
    else Ok(Unnamed(StrV(p.toString(l.data) + p.toString(r.data))))
  }

  // ---------------------------------------------------------------- CASE arms

  /** EqualsCaseComponent::match on the scrutinee and the arm's value. */
  function CaseEquals(p: Prims, v: NodeResult, c: NodeResult): (m: bool)
    ensures v.data.RealV? && c.data.IntV? ==> (m <==> v.data.r == p.intToReal(c.data.i))
    ensures v.data.IntV? && c.data.RealV? ==> (m <==> p.intToReal(v.data.i) == c.data.r)
    ensures !(IsNumeric(v.data) && IsNumeric(c.data)) && !SameType(v.Type(), c.Type()) ==> !m
    ensures v.data.CompV? ==> !m
  {
    if v.data.RealV? && c.data.IntV? then v.data.r == p.intToReal(c.data.i)
    else if v.data.IntV? && c.data.RealV? then p.intToReal(v.data.i) == c.data.r
    else if !SameType(v.Type(), c.Type()) then false
    else if v.data.EnumV? then c.data.EnumV? && v.data.idx == c.data.idx
    else if v.data.PtrV? then c.data.PtrV? && v.data.target == c.data.target
    else if v.data.CompV? then false
    else v.data == c.data
  }

  /**
   * Same-type values match exactly when they are equal, except that an
   * Enum is compared by index, a Pointer by its target, and a Record scrutinee
   * never matches.
   */
  lemma CaseEqualsSameType(p: Prims, v: NodeResult, c: NodeResult)
    requires SameType(v.Type(), c.Type())
    ensures v.data.EnumV? ==> (CaseEquals(p, v, c) <==> v.data.idx == c.data.idx)
    ensures v.data.PtrV? ==> (CaseEquals(p, v, c) <==> v.data.target == c.data.target)
    ensures v.data.CompV? ==> !CaseEquals(p, v, c)
    ensures !(v.data.EnumV? || v.data.PtrV? || v.data.CompV?) ==> (CaseEquals(p, v, c) <==> v.data == c.data)
  {
  }

  /** The scrutinee and the arm's value play the same part: the match is symmetric. */
  lemma CaseEqualsSymmetric(p: Prims, v: NodeResult, c: NodeResult)
    ensures CaseEquals(p, v, c) == CaseEquals(p, c, v)
  {
  }

  /** A Record scrutinee does not even match itself. */
  lemma CaseRecordNeverMatches(p: Prims, v: NodeResult)
    requires v.data.CompV?
    ensures !CaseEquals(p, v, v)
  {
  }

  /** A number as `real_t`, as the range arm reads its scrutinee and bounds. */
  function AsReal(p: Prims, v: Value): Option<real>
  {
    match v
    case IntV(i) => Some(p.intToReal(i))
    case RealV(r) => Some(r)
    case _ => None
  }

  /** The inclusive test of a range arm once both bounds are read. */
  predicate InRange(lower: real, x: real, upper: real)
  {
    lower <= x && x <= upper
  }
}
