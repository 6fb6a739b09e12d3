/**
 * The deterministic built-in functions on strings and characters
 * (src/interpreter/builtinFunctions/string.cpp and char.cpp): their
 * parameter lists, return types, error conditions and results.
 */
module Builtins {
  import opened Wrappers
  import opened Types
  import opened Values
  import opened Errors

  datatype Builtin = LENGTH | RIGHT | MID | LEFT | TO_UPPER | TO_LOWER | IS_NUM | LCASE | UCASE | ASC | CHR

  /** The functions that the global scope registers from these two files, in registration order. */
  const AllBuiltins: seq<Builtin> := [LENGTH, RIGHT, MID, LEFT, TO_UPPER, TO_LOWER, IS_NUM, LCASE, UCASE, ASC, CHR]

  /** The name each built-in is registered under. */
  function BuiltinName(b: Builtin): string
  {
    match b
    case LENGTH => "LENGTH"
    case RIGHT => "RIGHT"
    case MID => "MID"
    case LEFT => "LEFT"
    case TO_UPPER => "TO_UPPER"
    case TO_LOWER => "TO_LOWER"
    case IS_NUM => "IS_NUM"
    case LCASE => "LCASE"
    case UCASE => "UCASE"
    case ASC => "ASC"
    case CHR => "CHR"
  }

  /** The parameters each constructor appends: by-value, with these names and tags. */
  function BuiltinParams(b: Builtin): (ps: seq<(string, Tag)>)
    ensures 1 <= |ps| <= 3
  {
    match b
    case LENGTH => [("String", STRING)]
    case RIGHT => [("String", STRING), ("x", INTEGER)]
    case MID => [("String", STRING), ("x", INTEGER), ("y", INTEGER)]
    case LEFT => [("String", STRING), ("x", INTEGER)]
    case TO_UPPER => [("String", STRING)]
    case TO_LOWER => [("String", STRING)]
    case IS_NUM => [("String", STRING)]
    case LCASE => [("Char", CHAR)]
    case UCASE => [("Char", CHAR)]
    case ASC => [("Char", CHAR)]
    case CHR => [("x", INTEGER)]
  }

  /** The declared return type of each built-in. */
  function BuiltinReturn(b: Builtin): Tag
  {
    match b
    case LENGTH => INTEGER
    case ASC => INTEGER
    case IS_NUM => BOOLEAN
    case LCASE => CHAR
    case UCASE => CHAR
    case CHR => CHAR
    case _ => STRING
  }

  /** Registered names are distinct, so a lookup by name finds the intended built-in. */
  lemma BuiltinNamesDistinct(a: Builtin, b: Builtin)
    ensures BuiltinName(a) == BuiltinName(b) ==> a == b
  {
  }

  // --------------------------------------------------------------- substrings

  /** RIGHT(s, x): the last x characters. */
  function Right(s: Str, x: int): (r: Result<Str>)
    ensures r.Ok? <==> 0 <= x <= |s|
    ensures x < 0 ==> r == Fail(Runtime(RightNegative))
    ensures x > |s| ==> r == Fail(Runtime(RightTooLong))
    ensures r.Ok? ==> |r.value| == x && s == s[..|s| - x] + r.value
  {
    if x < 0 then Fail(Runtime(RightNegative))
    else if x > |s| then Fail(Runtime(RightTooLong))
    else Ok(s[|s| - x..])
  }

  /** BuiltinFnRight::run: the checks, then the character loop from |s| - x to the end. */
  method RunRight(s: Str, x: int) returns (r: Result<Str>)
    ensures r == Right(s, x)
  {
    if x < 0 {
      return Fail(Runtime(RightNegative));
    }
    if x > |s| {
      return Fail(Runtime(RightTooLong));
    }
    var ret: Str := [];
    var start := |s| - x;
    var i := start;
    while i < |s|
      invariant start <= i <= |s|
      invariant ret == s[start..i]
    {
      ret := ret + [s[i]];
      i := i + 1;
    }
    assert ret == s[|s| - x..];
    r := Ok(ret);
  }

  /** LEFT(s, x): the first x characters. */
  function Left(s: Str, x: int): (r: Result<Str>)
    ensures r.Ok? <==> 0 <= x <= |s|
    ensures x < 0 ==> r == Fail(Runtime(LeftNegative))
    ensures x > |s| ==> r == Fail(Runtime(LeftTooLong))
    ensures r.Ok? ==> |r.value| == x && s == r.value + s[x..]
  {
    if x < 0 then Fail(Runtime(LeftNegative))
    else if x > |s| then Fail(Runtime(LeftTooLong))
    else Ok(s[..x])
  }

  /** MID(s, x, y): y characters from the 1-based position x. */
  function Mid(s: Str, x: int, y: int): (r: Result<Str>)
    ensures r.Ok? <==> 1 <= x <= |s| && y >= 0 && (x - 1) + y <= |s|
    ensures r.Ok? ==> |r.value| == y && s == s[..x - 1] + r.value + s[x - 1 + y..]
    ensures x < 1 ==> r == Fail(Runtime(MidIndexNegative))
  {
    var start := x - 1;
    if start < 0 then Fail(Runtime(MidIndexNegative))
    else if start >= |s| then Fail(Runtime(MidIndexTooLarge))
    else if y < 0 then Fail(Runtime(MidLengthNegative))
    else if y + start > |s| then Fail(Runtime(MidTooLong))
    else Ok(s[start..start + y])
  }

  /** MID of the empty string always fails, whatever the position and length. */
  lemma MidOfEmptyFails(x: int, y: int)
    ensures Mid([], x, y).Fail?
  {
  }

  /** The pieces fit together: LEFT(s, k) followed by RIGHT(s, |s| - k) is s. */
  lemma LeftRightSplit(s: Str, k: int)
    requires 0 <= k <= |s|
    ensures Left(s, k).Ok? && Right(s, |s| - k).Ok?
    ensures Left(s, k).value + Right(s, |s| - k).value == s
  {
  }

  /** MID from position 1 is LEFT. */
  lemma MidFromStartIsLeft(s: Str, y: int)
    requires |s| > 0
    requires 0 <= y <= |s|
    ensures Mid(s, 1, y) == Left(s, y)
  {
  }

  // ------------------------------------------------------------ letter case

  const LowerA: CChar := 97
  const LowerZ: CChar := 122
  const UpperA: CChar := 65
  const UpperZ: CChar := 90

  /** toupper in the "C" locale; only ASCII lower-case letters change. */
  function ToUpperChar(c: CChar): (u: CChar)
    ensures LowerA <= c <= LowerZ ==> u == c - 32
    ensures !(LowerA <= c <= LowerZ) ==> u == c
  {
    if LowerA <= c <= LowerZ then c - 32 else c
  }

  /** tolower in the "C" locale; only ASCII upper-case letters change. */
  function ToLowerChar(c: CChar): (l: CChar)
    ensures UpperA <= c <= UpperZ ==> l == c + 32
    ensures !(UpperA <= c <= UpperZ) ==> l == c
  {
    if UpperA <= c <= UpperZ then c + 32 else c
  }

  /** TO_UPPER: the transform of every character. */
  function ToUpper(s: Str): (r: Str)
    ensures |r| == |s|
    ensures forall i :: 0 <= i < |s| ==> r[i] == ToUpperChar(s[i])
  {
    if s == [] then [] else [ToUpperChar(s[0])] + ToUpper(s[1..])
  }

  /** TO_LOWER: the transform of every character. */
  function ToLower(s: Str): (r: Str)
    ensures |r| == |s|
    ensures forall i :: 0 <= i < |s| ==> r[i] == ToLowerChar(s[i])
  {
    if s == [] then [] else [ToLowerChar(s[0])] + ToLower(s[1..])
  }

  /** Upper-casing twice is upper-casing once. */
  lemma ToUpperIdempotent(s: Str)
    ensures ToUpper(ToUpper(s)) == ToUpper(s)
  {
  }

  /** Lower-casing an upper-cased string equals lower-casing the original. */
  lemma ToLowerAfterToUpper(s: Str)
    ensures ToLower(ToUpper(s)) == ToLower(s)
  {
    assert forall i :: 0 <= i < |s| ==> ToLowerChar(ToUpperChar(s[i])) == ToLowerChar(s[i]);
  }

  // --------------------------------------------------------------- IS_NUM

  const Dot: CChar := 46
  const Digit0: CChar := 48
  const Digit9: CChar := 57

  predicate IsDigit(c: CChar)
  {
    Digit0 <= c <= Digit9
  }

  /** How many '.' characters s holds. */
  function DotCount(s: Str): nat
  {
    if s == [] then 0 else (if s[0] == Dot then 1 else 0) + DotCount(s[1..])
  }

  /** IS_NUM's answer: only digits and '.', with at most one '.'. */
  predicate IsNum(s: Str)
  {
    (forall i :: 0 <= i < |s| ==> IsDigit(s[i]) || s[i] == Dot) && DotCount(s) <= 1
  }

  lemma {:induction false} DotCountAppend(s: Str, c: CChar)
    ensures DotCount(s + [c]) == DotCount(s) + (if c == Dot then 1 else 0)
  {
    if s == [] {
      assert [] + [c] == [c];
    } else {
      assert (s + [c])[1..] == s[1..] + [c];
      DotCountAppend(s[1..], c);
    }
  }

  lemma {:induction false} DotCountPrefix(s: Str, i: nat)
    requires i <= |s|
    ensures DotCount(s[..i]) <= DotCount(s)
    decreases |s| - i
  {
    if i == |s| {
      assert s[..i] == s;
    } else {
      DotCountPrefix(s, i + 1);
      assert s[..i + 1] == s[..i] + [s[i]];
      DotCountAppend(s[..i], s[i]);
    }
  }

  /** BuiltinFnIsNum::run: the scan with its `decimal` flag. */
  method RunIsNum(s: Str) returns (ret: bool)
    ensures ret == IsNum(s)
  {
    ret := true;
    var decimal := false;
    var i := 0;
    while i < |s|
      invariant 0 <= i <= |s|
      invariant forall j :: 0 <= j < i ==> IsDigit(s[j]) || s[j] == Dot
      invariant decimal <==> DotCount(s[..i]) == 1
      invariant DotCount(s[..i]) <= 1
    {
      assert s[..i + 1] == s[..i] + [s[i]];
      DotCountAppend(s[..i], s[i]);
      if s[i] == Dot {
        if decimal {
          DotCountPrefix(s, i + 1);
          ret := false;
          return;
        } else {
          decimal := true;
        }
      } else if s[i] < Digit0 || s[i] > Digit9 {
        ret := false;
        return;
      }
      i := i + 1;
    }
    assert s[..i] == s;
  }

  /** The empty string and a single '.' are numbers; any sign is not. */
  lemma IsNumEdgeCases(s: Str)
    ensures IsNum([]) && IsNum([Dot])
    ensures (exists i :: 0 <= i < |s| && (s[i] == 43 || s[i] == 45)) ==> !IsNum(s)
  {
    assert DotCount([Dot]) == 1 + DotCount([]);
  }

  // --------------------------------------------------------------- characters

  /** ASC: the character's code, sign-extended as `(int_t) char`. */
  function Asc(c: CChar): (i: int)
    ensures -128 <= i < 128
  {
    c as int
  }

  /** CHR: `(char) x`, narrowing modulo 256 into the signed range. */
  function Chr(x: int): (c: CChar)
    ensures (c as int - x) % 256 == 0
  {
    (((x + 128) % 256) - 128) as CChar
  }

  /** CHR inverts ASC. */
  lemma ChrAsc(c: CChar)
    ensures Chr(Asc(c)) == c
  {
  }

  /** ASC inverts CHR on the codes a `char` can hold. */
  lemma AscChr(x: int)
    requires -128 <= x < 128
    ensures Asc(Chr(x)) == x
  {
  }

  // --------------------------------------------------------------- dispatch

  /**
   * The result of a built-in on the values of its parameters, in parameter
   * order. A missing or mistyped parameter is the abort at the top of every
   * `run`.
   */
  function Apply(b: Builtin, args: seq<Value>): (r: Result<Value>)
    ensures r.Ok? ==> TagOf(r.value) == BuiltinReturn(b)
    ensures (|args| != |BuiltinParams(b)|
             || exists i :: 0 <= i < |args| && i < |BuiltinParams(b)| && TagOf(args[i]) != BuiltinParams(b)[i].1)
            ==> r == Fail(Abort)
  {
    if |args| != |BuiltinParams(b)|
       || exists i :: 0 <= i < |args| && i < |BuiltinParams(b)| && TagOf(args[i]) != BuiltinParams(b)[i].1
    then Fail(Abort)
    else
      match b
      case LENGTH => Ok(IntV(|args[0].s|))
      case RIGHT => Lift(Right(args[0].s, args[1].i))
      case MID => Lift(Mid(args[0].s, args[1].i, args[2].i))
      case LEFT => Lift(Left(args[0].s, args[1].i))
      case TO_UPPER => Ok(StrV(ToUpper(args[0].s)))
      case TO_LOWER => Ok(StrV(ToLower(args[0].s)))
      case IS_NUM => Ok(BoolV(IsNum(args[0].s)))
      case LCASE => Ok(CharV(ToLowerChar(args[0].c)))
      case UCASE => Ok(CharV(ToUpperChar(args[0].c)))
      case ASC => Ok(IntV(Asc(args[0].c)))
      case CHR => Ok(CharV(Chr(args[0].i)))
  }

  function Lift(r: Result<Str>): (v: Result<Value>)
    ensures r.Ok? <==> v.Ok?
    ensures r.Ok? ==> v.value == StrV(r.value)
    ensures r.Fail? ==> v.kind == r.kind
  {
    match r
    case Ok(s) => Ok(StrV(s))
    case Fail(k) => Fail(k)
  }

  /** LENGTH counts characters. */
  lemma LengthCounts(s: Str)
    ensures Apply(LENGTH, [StrV(s)]) == Ok(IntV(|s|))
  {
  }
}
