/**
 * Runtime values of the interpreter (the Value hierarchy behind Integer,
 * Real, Boolean, Char, String, Date, Enum, Pointer and Composite) and the
 * (value, type) pairs that expression nodes produce.
 */
module Values {
  import opened Wrappers
  import opened Types

  /** A host `char`: a signed eight-bit code. */
  newtype CChar = x: int | -128 <= x < 128

  /** The contents of a String value. */
  type Str = seq<CChar>

  /** Identities in the runtime arena; they are never reused. */
  type ScopeId = nat
  type VarId = nat

  /** A calendar date as given by a literal: day, month and year numbers. */
  datatype Date = Date(day: nat, month: nat, year: nat)

  /**
   * One constructor per value class. An Enum is an index into its
   * definition's value list; a Pointer records its target variable and the
   * scope that owned the target when it was assigned; a Composite owns a
   * record scope holding its members.
   */
  datatype Value =
    | IntV(i: int)
    | RealV(r: real)
    | BoolV(b: bool)
    | CharV(c: CChar)
    | StrV(s: Str)
    | DateV(d: Date)
    | EnumV(enumDef: string, idx: int)
    | PtrV(ptrDef: string, target: Option<VarId>, ctx: Option<ScopeId>)
    | CompV(compDef: string, scope: ScopeId)

  /** The tag that a value of each class carries. */
  function TagOf(v: Value): (t: Tag)
    ensures t != NONE
  {
    match v
    case IntV(_) => INTEGER
    case RealV(_) => REAL
    case BoolV(_) => BOOLEAN
    case CharV(_) => CHAR
    case StrV(_) => STRING
    case DateV(_) => DATE
    case EnumV(_, _) => ENUM
    case PtrV(_, _, _) => PTR
    case CompV(_, _) => COMPOSITE
  }

  /** `Value::isPrimitive`: the six classes that support conversions. */
  predicate IsPrimitive(v: Value)
  {
    v.IntV? || v.RealV? || v.BoolV? || v.CharV? || v.StrV? || v.DateV?
  }

  predicate IsPrimitiveTag(t: Tag)
  {
    t in {INTEGER, REAL, BOOLEAN, CHAR, STRING, DATE}
  }

  lemma PrimitiveByTag(v: Value)
    ensures IsPrimitive(v) <==> IsPrimitiveTag(TagOf(v))
  {
  }

  /**
   * The result of evaluating an expression: its data and the name part of
   * its type. The tag of the type is always the tag of the data, which is how
   * every node of the interpreter builds its results.
   */
  datatype NodeResult = NodeResult(data: Value, name: Option<string>)
  {
    function Type(): DataType
    {
      DataType(TagOf(data), name)
    }
  }

  /** An unnamed result, as built with a bare `DataType::Type`. */
  function Unnamed(v: Value): (r: NodeResult)
    ensures r.data == v && r.Type() == Plain(TagOf(v))
  {
    NodeResult(v, None)
  }

  /** The numeric classes behind `Number`. */
  datatype Num = NInt(i: int) | NReal(r: real)

  function NumValue(n: Num): (v: Value)
    ensures v.IntV? || v.RealV?
  {
    match n
    case NInt(i) => IntV(i)
    case NReal(r) => RealV(r)
  }

  function AsNum(v: Value): Option<Num>
  {
    match v
    case IntV(i) => Some(NInt(i))
    case RealV(r) => Some(NReal(r))
    case _ => None
  }

  lemma AsNumValue(n: Num)
    ensures AsNum(NumValue(n)) == Some(n)
  {
  }

  /** `+ - * / % |` of Number. */
  datatype ArithOp = Add | Sub | Mul | Div | Mod | IntDiv

  /** `= <> > < >= <=`. */
  datatype CmpOp = Eq | Ne | Gt | Lt | Ge | Le

  /**
   * Operations whose bodies are declared in headers outside this model:
   * the Number operators and comparisons, the conversions of Primitive, and
   * the values that the default constructors of the value classes produce.
   * `slack` is the number of cells beyond the requested count that
   * `std::vector::reserve` may leave as spare capacity, which Array::init
   * fills as well. `intToReal` is the implicit conversion of an `int_t`
   * to a `real_t` that the CASE arms apply, which rounds to the nearest
   * double. They are parameters of every evaluation function.
   */
  datatype Prims = Prims(
    arith: (ArithOp, Num, Num) -> Num,
    compare: (CmpOp, Num, Num) -> bool,
    toInteger: Value -> int,
    toReal: Value -> real,
    toBoolean: Value -> bool,
    toChar: Value -> CChar,
    toString: Value -> Str,
    intToReal: int -> real,
    defaultInt: int,
    defaultReal: real,
    defaultBool: bool,
    defaultChar: CChar,
    defaultString: Str,
    defaultDate: Date,
    defaultIdx: int,
    slack: nat -> nat)
}
