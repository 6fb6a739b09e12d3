/**
 * The parameter and argument lists of the definition and call parsers
 * (src/parser/procedureParser.cpp, src/parser/functionParser.cpp): a cursor
 * over the token stream, the BYREF/BYVAL mode that stays in force until the
 * other keyword appears, and names that share the next type annotation.
 *
 * The expression and block parsers are not part of this model; they are
 * parameters that report how many tokens they consume, or None where they
 * raise a syntax error of their own.
 */
module Params {
  import opened Wrappers

  datatype TokenKind =
    | IDENTIFIER | DATA_TYPE | COMMA | COLON | LPAREN | RPAREN | BYREF | BYVAL
    | RETURNS | LINE_END | ENDPROCEDURE | ENDFUNCTION | EXPRESSION_END | OTHER

  datatype Token = Token(kind: TokenKind, value: string)

  /**
   * The token under the cursor. The lexer closes every stream with an end
   * token and `advance` never moves past it, so every position beyond the
   * stream reads an end token.
   */
  function At(toks: seq<Token>, i: nat): Token
  {
    if i < |toks| then toks[i] else Token(EXPRESSION_END, "")
  }

  /** What an ExpectedTokenError says was expected. */
  datatype Expected =
    | ExpIdentifier | ExpComma | ExpIdentifierOrRParen | ExpColon | ExpDataType
    | ExpRParen | ExpReturns | ExpEndProcedure | ExpEndFunction

  datatype SyntaxError =
    | ExpectedToken(at: nat, what: Expected)
    | SubParserError(at: nat)   // raised by the expression or block parser starting here
    | ParserAbort               // std::abort

  /** A parse either stops with a value and the next cursor position, or fails. */
  datatype Parsed<T> = Parsed(value: T, next: nat) | ParseFailed(err: SyntaxError)

  type pos = n: int | n > 0 witness 1

  /** An expression parser: how many tokens the expression at a position takes. */
  type ExprParser = (seq<Token>, nat) -> Option<pos>

  /** A block parser: how many tokens the statements at a position take. */
  type BlockParser = (seq<Token>, nat) -> Option<nat>

  // ------------------------------------------------- the parameter list

  /** One parameter as written: an optional mode keyword, its name and an optional type annotation. */
  datatype Item = Item(byRef: Option<bool>, name: string, typeTok: Option<Token>)

  predicate IsTypeToken(t: Token)
  {
    t.kind == DATA_TYPE || t.kind == IDENTIFIER
  }

  /** What the loop reads in one round: the closing ')', one parameter, or an error. */
  datatype Step = EndOfList | NextParam(item: Item, next: nat) | StepFailed(err: SyntaxError)

  /**
   * One round of the list loop at cursor i; `first` when no parameter has
   * been read yet, so no ',' is expected. A parameter without a type stops
   * on the ',' that follows it.
   */
  function ReadItem(toks: seq<Token>, i: nat, first: bool): (s: Step)
    ensures s.NextParam? ==> i < s.next <= |toks|
    ensures s.NextParam? && s.item.typeTok.None? ==> At(toks, s.next).kind == COMMA
    ensures s.NextParam? && s.item.typeTok.Some? ==> IsTypeToken(s.item.typeTok.value)
    ensures s.EndOfList? <==> At(toks, i).kind == RPAREN
  {
    if At(toks, i).kind == RPAREN then EndOfList
    else if !first && At(toks, i).kind != COMMA then StepFailed(ExpectedToken(i, ExpComma))
    else
      var j := if first then i else i + 1;
      var mode := if At(toks, j).kind == BYREF then Some(true)
                  else if At(toks, j).kind == BYVAL then Some(false)
                  else None;
      var k := if mode.Some? then j + 1 else j;
      if At(toks, k).kind != IDENTIFIER then StepFailed(ExpectedToken(k, ExpIdentifierOrRParen))
      else if At(toks, k + 1).kind == COLON then
        if !IsTypeToken(At(toks, k + 2)) then StepFailed(ExpectedToken(k + 2, ExpDataType))
        else NextParam(Item(mode, At(toks, k).value, Some(At(toks, k + 2))), k + 3)
      else if At(toks, k + 1).kind == COMMA then
        NextParam(Item(mode, At(toks, k).value, None), k + 1)
      else StepFailed(ExpectedToken(k + 1, ExpColon))
  }

  /** The parameters from the cursor to the closing ')', after the items `acc` already read. */
  function ItemsFrom(toks: seq<Token>, i: nat, acc: seq<Item>): Parsed<seq<Item>>
    decreases |toks| - i
  {
    match ReadItem(toks, i, |acc| == 0)
    case EndOfList => Parsed(acc, i)
    case StepFailed(e) => ParseFailed(e)
    case NextParam(x, n) => ItemsFrom(toks, n, acc + [x])
  }

  function Names(items: seq<Item>): (ns: seq<string>)
    ensures |ns| == |items|
    ensures forall i :: 0 <= i < |items| ==> ns[i] == items[i].name
  {
    if items == [] then [] else Names(items[..|items| - 1]) + [items[|items| - 1].name]
  }

  /** The pass mode of every parameter: the nearest keyword at or before it, BYVAL before any keyword. */
  function Modes(items: seq<Item>): (ms: seq<bool>)
    ensures |ms| == |items|
  {
    if items == [] then []
    else
      var prev := Modes(items[..|items| - 1]);
      prev + [items[|items| - 1].byRef.GetOr(CurrentMode(prev))]
  }

  function CurrentMode(ms: seq<bool>): bool
  {
    if ms == [] then false else ms[|ms| - 1]
  }

  /** The annotation of the first annotated parameter at or after position i. */
  function NextType(items: seq<Item>, i: nat): Option<Token>
    decreases |items| - i
  {
    if i >= |items| then None
    else if items[i].typeTok.Some? then items[i].typeTok
    else NextType(items, i + 1)
  }

  /** The number of unannotated parameters at the end, which still wait for a type. */
  function Pending(items: seq<Item>): (n: nat)
    ensures n <= |items|
  {
    if items == [] || items[|items| - 1].typeTok.Some? then 0
    else Pending(items[..|items| - 1]) + 1
  }

  /** The three aligned lists that a definition node receives. */
  datatype ParamLists = ParamLists(names: seq<string>, types: seq<Token>, byRef: seq<bool>)

  function Types(items: seq<Item>): (ts: seq<Token>)
    ensures |ts| == |items|
  {
    seq(|items|, i requires 0 <= i < |items| => NextType(items, i).GetOr(Token(EXPRESSION_END, "")))
  }

  /**
   * The list between '(' and ')', with i just after '(': the items, then the
   * final check for names still waiting for a type, and the cursor after ')'.
   */
  function ParamList(toks: seq<Token>, i: nat): Parsed<ParamLists>
  {
    match ItemsFrom(toks, i, [])
    case ParseFailed(e) => ParseFailed(e)
    case Parsed(items, e) =>
      if Pending(items) != 0 then ParseFailed(ExpectedToken(e, ExpDataType))
      else Parsed(ParamLists(Names(items), Types(items), Modes(items)), e + 1)
  }

  // ------------------------------------------------------ list lemmas

  lemma PendingTail(items: seq<Item>)
    ensures forall k :: |items| - Pending(items) <= k < |items| ==> items[k].typeTok.None?
    ensures Pending(items) < |items| ==> items[|items| - Pending(items) - 1].typeTok.Some?
  {
    if items != [] && items[|items| - 1].typeTok.None? {
      PendingTail(items[..|items| - 1]);
    }
  }

  lemma {:induction false} NextTypeAppend(items: seq<Item>, x: Item, i: nat)
    requires NextType(items, i).Some?
    ensures NextType(items + [x], i) == NextType(items, i)
    decreases |items| - i
  {
    if items[i].typeTok.None? {
      NextTypeAppend(items, x, i + 1);
    }
  }

  lemma {:induction false} NextTypeUntyped(items: seq<Item>, x: Item, i: nat)
    requires |items| - Pending(items) <= i <= |items|
    requires x.typeTok.Some?
    ensures NextType(items + [x], i) == x.typeTok
    decreases |items| - i
  {
    PendingTail(items);
    if i < |items| {
      NextTypeUntyped(items, x, i + 1);
    }
  }

  lemma PendingAppend(items: seq<Item>, x: Item)
    ensures Pending(items + [x]) == if x.typeTok.Some? then 0 else Pending(items) + 1
    ensures Modes(items + [x]) == Modes(items) + [x.byRef.GetOr(CurrentMode(Modes(items)))]
    ensures Names(items + [x]) == Names(items) + [x.name]
    ensures CurrentMode(Modes(items + [x])) == x.byRef.GetOr(CurrentMode(Modes(items)))
  {
    assert (items + [x])[..|items|] == items;
  }

  lemma {:induction false} ItemsFromPending(toks: seq<Token>, i: nat, acc: seq<Item>)
    requires Pending(acc) == 0 || At(toks, i).kind == COMMA
    requires ItemsFrom(toks, i, acc).Parsed?
    ensures Pending(ItemsFrom(toks, i, acc).value) == 0
    decreases |toks| - i
  {
    match ReadItem(toks, i, |acc| == 0)
    case EndOfList =>
    case StepFailed(_) =>
    case NextParam(x, n) =>
      PendingAppend(acc, x);
      ItemsFromPending(toks, n, acc + [x]);
  }

  /**
   * The last check of the list loop (typeCount != 1) never fires: a trailing
   * name without a type is already rejected inside the loop, where an
   * identifier or ':' is expected instead.
   */
  lemma TrailingTypeCheckIsDead(toks: seq<Token>, i: nat)
    requires ItemsFrom(toks, i, []).Parsed?
    ensures Pending(ItemsFrom(toks, i, []).value) == 0
  {
    ItemsFromPending(toks, i, []);
  }

  /** Every parameter of a parsed list has a type: that of the first annotated parameter at or after it. */
  lemma {:induction false} NoPendingAllTyped(items: seq<Item>, i: nat)
    requires Pending(items) == 0 && i < |items|
    ensures NextType(items, i).Some?
    decreases |items| - i
  {
    if items[i].typeTok.None? {
      assert i + 1 < |items|;
      NoPendingAllTyped(items, i + 1);
    }
  }

  /**
   * A parsed list is aligned: one name, one type token and one mode per
   * parameter, in writing order, and every type token is a type word.
   */
  lemma ParamListAligned(toks: seq<Token>, i: nat)
    requires ParamList(toks, i).Parsed?
    ensures var l := ParamList(toks, i).value;
            |l.names| == |l.types| == |l.byRef|
            && forall k :: 0 <= k < |l.types| ==> ItemsFrom(toks, i, []).value[k].typeTok.Some? ==> IsTypeToken(l.types[k])
  {
    var items := ItemsFrom(toks, i, []).value;
    forall k | 0 <= k < |items| && items[k].typeTok.Some?
      ensures IsTypeToken(items[k].typeTok.value)
    {
      ItemsTypeTokens(toks, i, []);
    }
  }

  lemma {:induction false} ItemsTypeTokens(toks: seq<Token>, i: nat, acc: seq<Item>)
    requires forall k :: 0 <= k < |acc| && acc[k].typeTok.Some? ==> IsTypeToken(acc[k].typeTok.value)
    requires ItemsFrom(toks, i, acc).Parsed?
    ensures var items := ItemsFrom(toks, i, acc).value;
            forall k :: 0 <= k < |items| && items[k].typeTok.Some? ==> IsTypeToken(items[k].typeTok.value)
    decreases |toks| - i
  {
    match ReadItem(toks, i, |acc| == 0)
    case EndOfList =>
    case StepFailed(_) =>
    case NextParam(x, n) =>
      ItemsTypeTokens(toks, n, acc + [x]);
  }

  /** Modes are sticky: a parameter without a keyword takes the mode of the one before it. */
  lemma ModeSticky(items: seq<Item>, k: nat)
    requires 0 < k < |items| && items[k].byRef.None?
    ensures Modes(items)[k] == Modes(items)[k - 1]
  {
    ModesPrefix(items, k + 1);
    ModesPrefix(items, k);
    assert items[..k + 1][..k] == items[..k];
  }

  /** A keyword sets the mode of its own parameter. */
  lemma ModeKeyword(items: seq<Item>, k: nat)
    requires k < |items| && items[k].byRef.Some?
    ensures Modes(items)[k] == items[k].byRef.value
  {
    ModesPrefix(items, k + 1);
    assert items[..k + 1][..k] == items[..k];
  }

  /** Before any keyword, parameters are passed by value. */
  lemma ModeDefault(items: seq<Item>, k: nat)
    requires k < |items|
    requires forall j :: 0 <= j <= k ==> items[j].byRef.None?
    ensures !Modes(items)[k]
  {
    ModesNoKeyword(items[..k + 1]);
    ModesPrefix(items, k + 1);
  }

  lemma {:induction false} ModesNoKeyword(items: seq<Item>)
    requires forall j :: 0 <= j < |items| ==> items[j].byRef.None?
    ensures forall j :: 0 <= j < |items| ==> !Modes(items)[j]
  {
    if items != [] {
      var p := items[..|items| - 1];
      ModesNoKeyword(p);
      assert CurrentMode(Modes(p)) == false;
    }
  }

  /** The modes of a prefix are a prefix of the modes. */
  lemma {:induction false} ModesPrefix(items: seq<Item>, n: nat)
    requires n <= |items|
    ensures Modes(items[..n]) == Modes(items)[..n]
    decreases |items| - n
  {
    if n == |items| {
      assert items[..n] == items;
    } else {
      ModesPrefix(items, n + 1);
      var p := items[..n + 1];
      assert p[..|p| - 1] == items[..n];
    }
  }

  /** A name followed by ',' shares the type of the next annotated parameter. */
  lemma SharedType(items: seq<Item>, k: nat)
    requires Pending(items) == 0 && k + 1 < |items| && items[k].typeTok.None?
    ensures Types(items)[k] == Types(items)[k + 1]
  {
    NoPendingAllTyped(items, k + 1);
  }

  // ------------------------------------- the list loop of parseProcedure/parseFunction

  function Repeat<T>(x: T, n: nat): (s: seq<T>)
    ensures |s| == n && forall j :: 0 <= j < n ==> s[j] == x
  {
    seq(n, _ => x)
  }

  /** The `reserve` and `push_back` loops that append n copies of one element. */
  method PushCopies<T>(s: seq<T>, x: T, n: nat) returns (t: seq<T>)
    ensures t == s + Repeat(x, n)
  {
    t := s;
    var c := 0;
    while c < n
      invariant 0 <= c <= n
      invariant t == s + Repeat(x, c)
    {
      t := t + [x];
      c := c + 1;
    }
  }

  /**
   * The BYREF/BYVAL branch at the head of the loop: a keyword for the other
   * mode first flushes the `passTypeCount` parameters of the current mode.
   */
  method NoteMode(byRef: bool, passTypes: seq<bool>, passTypeCount: nat, keyword: Option<bool>)
    returns (byRef': bool, passTypes': seq<bool>, passTypeCount': nat)
    ensures byRef' == keyword.GetOr(byRef)
    ensures passTypes' + Repeat(byRef', passTypeCount') == passTypes + Repeat(byRef, passTypeCount) + [byRef']
  {
    byRef', passTypes', passTypeCount' := byRef, passTypes, passTypeCount + 1;
    if keyword.Some? && keyword.value != byRef {
      passTypes' := PushCopies(passTypes, byRef, passTypeCount);
      byRef' := !byRef;
      passTypeCount' := 1;
    }
  }

  /** Adding a parameter with a type gives the waiting names, and itself, that type. */
  lemma TypedAppend(acc: seq<Item>, x: Item, types: seq<Token>, typeTok: Token)
    requires x.typeTok == Some(typeTok)
    requires |types| == |acc| - Pending(acc)
    requires forall k :: 0 <= k < |types| ==> NextType(acc, k) == Some(types[k])
    ensures var ts := types + Repeat(typeTok, Pending(acc) + 1);
            |ts| == |acc + [x]| - Pending(acc + [x])
            && forall k :: 0 <= k < |ts| ==> NextType(acc + [x], k) == Some(ts[k])
  {
    PendingAppend(acc, x);
    var ts := types + Repeat(typeTok, Pending(acc) + 1);
    forall k | 0 <= k < |ts|
      ensures NextType(acc + [x], k) == Some(ts[k])
    {
      if k < |types| {
        NextTypeAppend(acc, x, k);
      } else {
        NextTypeUntyped(acc, x, k);
      }
    }
  }

  /** Adding a parameter without a type leaves the types so far alone. */
  lemma UntypedAppend(acc: seq<Item>, x: Item, types: seq<Token>)
    requires x.typeTok.None?
    requires |types| == |acc| - Pending(acc)
    requires forall k :: 0 <= k < |types| ==> NextType(acc, k) == Some(types[k])
    ensures |types| == |acc + [x]| - Pending(acc + [x])
    ensures forall k :: 0 <= k < |types| ==> NextType(acc + [x], k) == Some(types[k])
  {
    PendingAppend(acc, x);
    forall k | 0 <= k < |types|
      ensures NextType(acc + [x], k) == Some(types[k])
    {
      NextTypeAppend(acc, x, k);
    }
  }

  /**
   * The cursor moves of one round of the list loop, entered on a token
   * other than ')': the ',' after an earlier parameter, an optional mode
   * keyword, the name, and then either ':' and a type or a ',' that leaves
   * the name waiting for the next type.
   */
  method ReadParameter(toks: seq<Token>, start: nat, first: bool) returns (s: Step)
    requires At(toks, start).kind != RPAREN
    ensures s == ReadItem(toks, start, first)
  {
    var i := start;
    if !first {
      if At(toks, i).kind != COMMA {
        return StepFailed(ExpectedToken(i, ExpComma));
      }
      i := i + 1;
    }
    var mode: Option<bool> := None;
    if At(toks, i).kind == BYREF || At(toks, i).kind == BYVAL {
      mode := Some(At(toks, i).kind == BYREF);
      i := i + 1;
    }
    if At(toks, i).kind != IDENTIFIER {
      return StepFailed(ExpectedToken(i, ExpIdentifierOrRParen));
    }
    var paramName := At(toks, i).value;
    i := i + 1;
    if At(toks, i).kind == COLON {
      i := i + 1;
    } else if At(toks, i).kind == COMMA {
      return NextParam(Item(mode, paramName, None), i);
    } else {
      return StepFailed(ExpectedToken(i, ExpColon));
    }
    if !IsTypeToken(At(toks, i)) {
      return StepFailed(ExpectedToken(i, ExpDataType));
    }
    s := NextParam(Item(mode, paramName, Some(At(toks, i))), i + 1);
  }

  /**
   * The parameter loop, from just after '(' to just after ')', with the
   * counters of the source: `typeCount` names wait for the next type token
   * and `passTypeCount` parameters for the next change of mode.
   */
  method ParseParameterList(toks: seq<Token>, start: nat) returns (r: Parsed<ParamLists>)
    ensures r == ParamList(toks, start)
  {
    var byRef := false;
    var names: seq<string> := [];
    var types: seq<Token> := [];
    var passTypes: seq<bool> := [];
    var typeCount: nat := 1;
    var passTypeCount: nat := 0;
    var i := start;
    ghost var acc: seq<Item> := [];
    while At(toks, i).kind != RPAREN
      invariant ItemsFrom(toks, i, acc) == ItemsFrom(toks, start, [])
      invariant names == Names(acc) && |names| == |acc|
      invariant typeCount >= 1 && Pending(acc) == typeCount - 1
      invariant |types| == |acc| - Pending(acc)
      invariant forall k :: 0 <= k < |types| ==> NextType(acc, k) == Some(types[k])
      invariant passTypes + Repeat(byRef, passTypeCount) == Modes(acc)
      invariant byRef == CurrentMode(Modes(acc))
      decreases |toks| - i
    {
      var step := ReadParameter(toks, i, |names| == 0);
      if step.StepFailed? {
        return ParseFailed(step.err);
      }
      var x := step.item;
      PendingAppend(acc, x);
      byRef, passTypes, passTypeCount := NoteMode(byRef, passTypes, passTypeCount, x.byRef);
      names := names + [x.name];
      if x.typeTok.None? {
        UntypedAppend(acc, x, types);
        typeCount := typeCount + 1;
      } else {
        TypedAppend(acc, x, types, x.typeTok.value);
        types := PushCopies(types, x.typeTok.value, typeCount);
        typeCount := 1;
      }
      acc := acc + [x];
      i := step.next;
    }
    if typeCount != 1 {
      return ParseFailed(ExpectedToken(i, ExpDataType));
    }
    if passTypeCount > 0 {
      passTypes := PushCopies(passTypes, byRef, passTypeCount);
    }
    assert passTypes == Modes(acc);
    assert types == Types(acc);
    r := Parsed(ParamLists(names, types, passTypes), i + 1);
  }

  // ------------------------------------------------------- argument lists

  /** The tokens of one argument expression, from `from` up to but excluding `to`. */
  datatype Span = Span(from: nat, to: nat)

  /** Distance to the end of the stream, zero beyond it. */
  function Remaining(toks: seq<Token>, i: nat): nat
  {
    if i <= |toks| then |toks| - i else 0
  }

  /** The arguments after the first, with the cursor just after an argument. */
  function MoreArgs(toks: seq<Token>, i: nat, acc: seq<Span>, expr: ExprParser): Parsed<seq<Span>>
    decreases Remaining(toks, i)
  {
    if At(toks, i).kind == COMMA then
      match expr(toks, i + 1)
      case None => ParseFailed(SubParserError(i + 1))
      case Some(n) => MoreArgs(toks, i + 1 + n, acc + [Span(i + 1, i + 1 + n)], expr)
    else if At(toks, i).kind != RPAREN then ParseFailed(ExpectedToken(i, ExpRParen))
    else Parsed(acc, i + 1)
  }

  /** The arguments between '(' and ')', with the cursor just after '(': `()`, or expressions separated by ','. */
  function ArgumentList(toks: seq<Token>, i: nat, expr: ExprParser): Parsed<seq<Span>>
  {
    if At(toks, i).kind == RPAREN then Parsed([], i + 1)
    else
      match expr(toks, i)
      case None => ParseFailed(SubParserError(i))
      case Some(n) => MoreArgs(toks, i + n, [Span(i, i + n)], expr)
  }

  /** The argument loop shared by parseCall and parseFunctionCall. */
  method ParseArguments(toks: seq<Token>, start: nat, expr: ExprParser) returns (r: Parsed<seq<Span>>)
    ensures r == ArgumentList(toks, start, expr)
  {
    if At(toks, start).kind == RPAREN {
      return Parsed([], start + 1);
    }
    var first := expr(toks, start);
    if first.None? {
      return ParseFailed(SubParserError(start));
    }
    var args := [Span(start, start + first.value)];
    var i: nat := start + first.value;
    while At(toks, i).kind == COMMA
      invariant MoreArgs(toks, i, args, expr) == ArgumentList(toks, start, expr)
      decreases Remaining(toks, i)
    {
      var e := expr(toks, i + 1);
      if e.None? {
        return ParseFailed(SubParserError(i + 1));
      }
      args := args + [Span(i + 1, i + 1 + e.value)];
      i := i + 1 + e.value;
    }
    if At(toks, i).kind != RPAREN {
      return ParseFailed(ExpectedToken(i, ExpRParen));
    }
    r := Parsed(args, i + 1);
  }

  /**
   * Parsed arguments are consecutive and separated by single commas, the
   * first starts right after '(' and the last ends on the closing ')'.
   */
  predicate WellSeparated(toks: seq<Token>, start: nat, args: seq<Span>, next: nat)
  {
    if args == [] then next == start + 1 && At(toks, start).kind == RPAREN
    else
      args[0].from == start
      && (forall k :: 0 <= k < |args| ==> args[k].from < args[k].to)
      && (forall k :: 0 <= k < |args| - 1 ==> args[k + 1].from == args[k].to + 1 && At(toks, args[k].to).kind == COMMA)
      && At(toks, args[|args| - 1].to).kind == RPAREN && next == args[|args| - 1].to + 1
  }

  lemma {:induction false} MoreArgsSeparated(toks: seq<Token>, i: nat, acc: seq<Span>, expr: ExprParser, start: nat)
    requires acc != [] && acc[0].from == start && acc[|acc| - 1].to == i
    requires forall k :: 0 <= k < |acc| ==> acc[k].from < acc[k].to
    requires forall k :: 0 <= k < |acc| - 1 ==> acc[k + 1].from == acc[k].to + 1 && At(toks, acc[k].to).kind == COMMA
    requires MoreArgs(toks, i, acc, expr).Parsed?
    ensures WellSeparated(toks, start, MoreArgs(toks, i, acc, expr).value, MoreArgs(toks, i, acc, expr).next)
    decreases Remaining(toks, i)
  {
    if At(toks, i).kind == COMMA {
      var n := expr(toks, i + 1).value;
      MoreArgsSeparated(toks, i + 1 + n, acc + [Span(i + 1, i + 1 + n)], expr, start);
    }
  }

  lemma ArgumentsSeparated(toks: seq<Token>, start: nat, expr: ExprParser)
    requires ArgumentList(toks, start, expr).Parsed?
    ensures WellSeparated(toks, start, ArgumentList(toks, start, expr).value, ArgumentList(toks, start, expr).next)
  {
    if At(toks, start).kind != RPAREN {
      var n := expr(toks, start).value;
      MoreArgsSeparated(toks, start + n, [Span(start, start + n)], expr, start);
    }
  }

  /** A call's target name and its argument expressions. */
  datatype CallSyntax = CallSyntax(name: string, args: seq<Span>)

  /**
   * CALL at position i: an identifier, then optionally a parenthesised
   * argument list; no parentheses means no arguments.
   */
  function CallStatement(toks: seq<Token>, i: nat, expr: ExprParser): Parsed<CallSyntax>
  {
    if At(toks, i + 1).kind != IDENTIFIER then ParseFailed(ExpectedToken(i + 1, ExpIdentifier))
    else if At(toks, i + 2).kind != LPAREN then Parsed(CallSyntax(At(toks, i + 1).value, []), i + 2)
    else
      match ArgumentList(toks, i + 3, expr)
      case ParseFailed(e) => ParseFailed(e)
      case Parsed(args, next) => Parsed(CallSyntax(At(toks, i + 1).value, args), next)
  }

  /** Parser::parseCall. */
  method ParseCall(toks: seq<Token>, i: nat, expr: ExprParser) returns (r: Parsed<CallSyntax>)
    ensures r == CallStatement(toks, i, expr)
  {
    var pos := i + 1;
    if At(toks, pos).kind != IDENTIFIER {
      return ParseFailed(ExpectedToken(pos, ExpIdentifier));
    }
    var identifier := At(toks, pos).value;
    pos := pos + 1;
    var args: seq<Span> := [];
    if At(toks, pos).kind == LPAREN {
      var a := ParseArguments(toks, pos + 1, expr);
      if a.ParseFailed? {
        return ParseFailed(a.err);
      }
      args, pos := a.value, a.next;
    }
    r := Parsed(CallSyntax(identifier, args), pos);
  }

  /** Without parentheses, and with `()`, a CALL passes no arguments. */
  lemma CallWithoutArguments(toks: seq<Token>, i: nat, expr: ExprParser)
    requires At(toks, i + 1).kind == IDENTIFIER
    requires At(toks, i + 2).kind != LPAREN || At(toks, i + 3).kind == RPAREN
    ensures CallStatement(toks, i, expr).Parsed?
    ensures CallStatement(toks, i, expr).value == CallSyntax(At(toks, i + 1).value, [])
  {
  }

  /**
   * A function call at position i (the function's name): '(' is required,
   * and the host aborts without it.
   */
  function FunctionCall(toks: seq<Token>, i: nat, expr: ExprParser): Parsed<seq<Span>>
  {
    if At(toks, i + 1).kind != LPAREN then ParseFailed(ParserAbort)
    else ArgumentList(toks, i + 2, expr)
  }

  /** Parser::parseFunctionCall. */
  method ParseFunctionCall(toks: seq<Token>, i: nat, expr: ExprParser) returns (r: Parsed<seq<Span>>)
    ensures r == FunctionCall(toks, i, expr)
  {
    if At(toks, i + 1).kind != LPAREN {
      return ParseFailed(ParserAbort);
    }
    r := ParseArguments(toks, i + 2, expr);
  }

  /** A function call parses exactly when '(' follows the name and the arguments parse. */
  lemma FunctionCallNeedsParen(toks: seq<Token>, i: nat, expr: ExprParser)
    ensures FunctionCall(toks, i, expr).Parsed?
            <==> At(toks, i + 1).kind == LPAREN && ArgumentList(toks, i + 2, expr).Parsed?
    ensures At(toks, i + 1).kind == LPAREN && At(toks, i + 2).kind == RPAREN
            ==> FunctionCall(toks, i, expr) == Parsed([], i + 3)
  {
  }

  // ------------------------------------------------------ definition headers

  /** A procedure or function definition: name, parameter lists, the body's tokens and, for a function, its return type. */
  datatype Definition = Definition(name: string, params: ParamLists, body: Span, returnType: Option<Token>)

  /** The optional parenthesised parameter list after the name at position i. */
  function OptionalParams(toks: seq<Token>, i: nat): Parsed<ParamLists>
  {
    if At(toks, i).kind == LPAREN then ParamList(toks, i + 1)
    else Parsed(ParamLists([], [], []), i)
  }

  /** The body from position i, closed by the given keyword. */
  function Body(toks: seq<Token>, i: nat, block: BlockParser, close: TokenKind, what: Expected): Parsed<Span>
  {
    match block(toks, i)
    case None => ParseFailed(SubParserError(i))
    case Some(n) =>
      if At(toks, i + n).kind != close then ParseFailed(ExpectedToken(i + n, what))
      else Parsed(Span(i, i + n), i + n + 1)
  }

  /** PROCEDURE at position i: name, optional parameter list, body and ENDPROCEDURE. */
  function ProcedureDefinition(toks: seq<Token>, i: nat, block: BlockParser): Parsed<Definition>
  {
    if At(toks, i + 1).kind != IDENTIFIER then ParseFailed(ExpectedToken(i + 1, ExpIdentifier))
    else
      match OptionalParams(toks, i + 2)
      case ParseFailed(e) => ParseFailed(e)
      case Parsed(ps, j) =>
        match Body(toks, j, block, ENDPROCEDURE, ExpEndProcedure)
        case ParseFailed(e) => ParseFailed(e)
        case Parsed(body, next) => Parsed(Definition(At(toks, i + 1).value, ps, body, None), next)
  }

  /** The `if (currentToken->type == TokenType::LPAREN)` part of both definition parsers. */
  method ParseOptionalParams(toks: seq<Token>, i: nat) returns (r: Parsed<ParamLists>)
    ensures r == OptionalParams(toks, i)
  {
    if At(toks, i).kind == LPAREN {
      r := ParseParameterList(toks, i + 1);
    } else {
      r := Parsed(ParamLists([], [], []), i);
    }
  }

  /** parseBlock and the check for the closing keyword. */
  method ParseBody(toks: seq<Token>, i: nat, block: BlockParser, close: TokenKind, what: Expected) returns (r: Parsed<Span>)
    ensures r == Body(toks, i, block, close, what)
  {
    var n := block(toks, i);
    if n.None? {
      return ParseFailed(SubParserError(i));
    }
    if At(toks, i + n.value).kind != close {
      return ParseFailed(ExpectedToken(i + n.value, what));
    }
    r := Parsed(Span(i, i + n.value), i + n.value + 1);
  }

  /** Parser::parseProcedure. */
  method ParseProcedure(toks: seq<Token>, i: nat, block: BlockParser) returns (r: Parsed<Definition>)
    ensures r == ProcedureDefinition(toks, i, block)
  {
    if At(toks, i + 1).kind != IDENTIFIER {
      return ParseFailed(ExpectedToken(i + 1, ExpIdentifier));
    }
    var name := At(toks, i + 1).value;
    var ps := ParseOptionalParams(toks, i + 2);
    if ps.ParseFailed? {
      return ParseFailed(ps.err);
    }
    var body := ParseBody(toks, ps.next, block, ENDPROCEDURE, ExpEndProcedure);
    if body.ParseFailed? {
      return ParseFailed(body.err);
    }
    r := Parsed(Definition(name, ps.value, body.value, None), body.next);
  }

  /** The position of the first token at or after i that is not a line end. */
  function SkipLineEnds(toks: seq<Token>, i: nat): (j: nat)
    ensures j >= i && At(toks, j).kind != LINE_END
    ensures forall k :: i <= k < j ==> At(toks, k).kind == LINE_END
    decreases Remaining(toks, i)
  {
    if At(toks, i).kind == LINE_END then SkipLineEnds(toks, i + 1) else i
  }

  /** The RETURNS clause from position i: optional line ends, RETURNS and a type word. */
  function ReturnsClause(toks: seq<Token>, i: nat): Parsed<Token>
  {
    var j := SkipLineEnds(toks, i);
    if At(toks, j).kind != RETURNS then ParseFailed(ExpectedToken(j, ExpReturns))
    else if !IsTypeToken(At(toks, j + 1)) then ParseFailed(ExpectedToken(j + 1, ExpDataType))
    else Parsed(At(toks, j + 1), j + 2)
  }

  /** FUNCTION at position i: name, optional parameter list, RETURNS type, body and ENDFUNCTION. */
  function FunctionDefinition(toks: seq<Token>, i: nat, block: BlockParser): Parsed<Definition>
  {
    if At(toks, i + 1).kind != IDENTIFIER then ParseFailed(ExpectedToken(i + 1, ExpIdentifier))
    else
      match OptionalParams(toks, i + 2)
      case ParseFailed(e) => ParseFailed(e)
      case Parsed(ps, j) =>
        match ReturnsClause(toks, j)
        case ParseFailed(e) => ParseFailed(e)
        case Parsed(rt, k) =>
          match Body(toks, k, block, ENDFUNCTION, ExpEndFunction)
          case ParseFailed(e) => ParseFailed(e)
          case Parsed(body, next) => Parsed(Definition(At(toks, i + 1).value, ps, body, Some(rt)), next)
  }

  /** The loop over line ends, then RETURNS and the return type. */
  method ParseReturns(toks: seq<Token>, i: nat) returns (r: Parsed<Token>)
    ensures r == ReturnsClause(toks, i)
  {
    var pos := i;
    while At(toks, pos).kind == LINE_END
      invariant SkipLineEnds(toks, pos) == SkipLineEnds(toks, i)
      decreases Remaining(toks, pos)
    {
      pos := pos + 1;
    }
    if At(toks, pos).kind != RETURNS {
      return ParseFailed(ExpectedToken(pos, ExpReturns));
    }
    pos := pos + 1;
    if !IsTypeToken(At(toks, pos)) {
      return ParseFailed(ExpectedToken(pos, ExpDataType));
    }
    r := Parsed(At(toks, pos), pos + 1);
  }

  /** Parser::parseFunction. */
  method ParseFunction(toks: seq<Token>, i: nat, block: BlockParser) returns (r: Parsed<Definition>)
    ensures r == FunctionDefinition(toks, i, block)
  {
    if At(toks, i + 1).kind != IDENTIFIER {
      return ParseFailed(ExpectedToken(i + 1, ExpIdentifier));
    }
    var name := At(toks, i + 1).value;
    var ps := ParseOptionalParams(toks, i + 2);
    if ps.ParseFailed? {
      return ParseFailed(ps.err);
    }
    var rt := ParseReturns(toks, ps.next);
    if rt.ParseFailed? {
      return ParseFailed(rt.err);
    }
    var body := ParseBody(toks, rt.next, block, ENDFUNCTION, ExpEndFunction);
    if body.ParseFailed? {
      return ParseFailed(body.err);
    }
    r := Parsed(Definition(name, ps.value, body.value, Some(rt.value)), body.next);
  }

  /** A parsed procedure has aligned parameter lists, no return type, and ends on ENDPROCEDURE. */
  lemma ProcedureShape(toks: seq<Token>, i: nat, block: BlockParser)
    requires ProcedureDefinition(toks, i, block).Parsed?
    ensures var d := ProcedureDefinition(toks, i, block).value;
            |d.params.names| == |d.params.types| == |d.params.byRef|
            && d.returnType.None?
            && At(toks, d.body.to).kind == ENDPROCEDURE
  {
    if At(toks, i + 2).kind == LPAREN {
      ParamListAligned(toks, i + 3);
    }
  }

  /** A parsed function has aligned parameter lists and a type word after RETURNS, and ends on ENDFUNCTION. */
  lemma FunctionShape(toks: seq<Token>, i: nat, block: BlockParser)
    requires FunctionDefinition(toks, i, block).Parsed?
    ensures var d := FunctionDefinition(toks, i, block).value;
            |d.params.names| == |d.params.types| == |d.params.byRef|
            && d.returnType.Some? && IsTypeToken(d.returnType.value)
            && At(toks, d.body.to).kind == ENDFUNCTION
  {
    if At(toks, i + 2).kind == LPAREN {
      ParamListAligned(toks, i + 3);
    }
  }
}
