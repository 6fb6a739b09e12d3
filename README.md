# PseudoEngine2 execution engine in Dafny

PseudoEngine2 interprets the Cambridge-style pseudocode used in school
computer-science courses (DECLARE, CONSTANT, arrays, records, enumerations,
pointers, IF/CASE, WHILE/REPEAT/FOR, PROCEDURE/FUNCTION with BYVAL/BYREF
parameters, and a library of string and char built-ins). This project
models the engine that runs a parsed program, and proves what that engine
promises.

- **Types and values** (`types.dfy`, `values.dfy`): a `DataType` is a tag
  plus an optional definition name. Equality with a bare tag ignores the
  name, and equality between two descriptors checks names only when both
  have one. A `Value` has one constructor per value class. An Enum is an
  index into its definition. A Pointer records its target variable and the
  scope that owned the target. A Composite owns a record scope.
- **Store** (`store.dfy`): the host's contexts, variables and arrays become
  an arena value. Scopes, variables and arrays live in maps keyed by
  identities that are never reused. Each scope keeps, in order, its
  variables, arrays, procedures, functions and type definitions. It also
  keeps its chain of ancestors (nearest first), its kind (plain, function
  with a return type, or record) and its return slot. A variable either owns
  its value or is an alias of an owning variable. Lookup is two-tier: the
  scope itself first, then the global scope, never an ancestor in between.
  Routines are looked up at the global scope only.
- **Implicit cast and operators** (`coercion.dfy`, `operators.dfy`): the one
  implicit conversion of `NodeResult::implicitCast`, and the arithmetic,
  comparison, logic, cast and concatenation nodes as functions of their
  evaluated operands. The Integer/Real operator bodies and the primitive
  conversions are declared in headers that are not part of this model.
  They are the fields of a `Prims` record that every evaluation function
  takes as a parameter.
- **Arrays** (`arrays.dfy`): dimensions, the mixed-radix offset with the
  first dimension varying fastest, and its injectivity and range.
- **Engine** (`engine.dfy`): expression evaluation, the resolver chain
  (name, dereference, member, index), every statement, and the call
  protocol. These are mutually recursive functions that pass the store
  along. Each returns a `Ran`: an `Outcome` (`Done(value)` or
  `Unwind(signal)`) with the new store. A signal is BREAK, CONTINUE or
  RETURN with its token, a raised `Error(kind, token, scope)`, a host abort,
  or running out of fuel. A `fuel` argument bounds the depth of evaluation.
- **Imperative loops** (`machine.dfy`): the block loop, the three loops, the
  IF and CASE arm loops, DECLARE, the argument and binding loops of a call,
  the index and bound loops, and the array loops. Each is a method of class
  `Machine`, whose field `st` is the store. Each method is proved equal to
  the engine function it implements. The same file holds the lookup walks
  as loops proved against their specification functions.
- **Built-ins** (`builtins.dfy`): LENGTH, RIGHT, MID, LEFT, TO_UPPER,
  TO_LOWER, IS_NUM, LCASE, UCASE, ASC and CHR, with their exact error
  conditions. RIGHT and IS_NUM are loops.
- **Date literals** (`dates.dfy`): the split of a literal on '/' and the
  calendar check.
- **Parameter lists** (`params.dfy`): the state machine of the two
  definition parsers, which groups names under one type annotation and keeps
  BYREF/BYVAL sticky. Also CALL and function-call argument lists.
- **Facts** (`engine_facts.dfy`, `resolver_facts.dfy`, `call_facts.dfy`,
  `definition_facts.dfy`): lemmas about the engine functions, statement
  by statement.

## Model

| member | source | states |
|---|---|---|
| Types.DefaultType | src/interpreter/types/types.cpp:7 | The default descriptor has tag NONE and no name. |
| Types.Plain | src/interpreter/types/types.cpp:9-10 | A descriptor built from a bare tag carries that tag and no name. |
| Types.HasTagIgnoresName | src/interpreter/types/types.cpp:12-14 | Comparing with a bare tag gives the same answer whatever the descriptor's name is. |
| Types.SameTypeUnnamed | src/interpreter/types/types.cpp:17 | If either side is unnamed, two descriptors are equal exactly when their tags are equal. |
| Types.SameTypeNamed | src/interpreter/types/types.cpp:18 | If both sides are named, equality holds exactly when the tags are equal and the names are equal. |
| Types.SameTypeReflexive | src/interpreter/types/types.cpp:16-19 | Every descriptor equals itself. |
| Types.SameTypeSymmetric | src/interpreter/types/types.cpp:16-19 | Descriptor equality is symmetric. |
| Types.SameTypeNotTransitive | src/interpreter/types/types.cpp:16-19 | Descriptor equality is not transitive: three descriptors exist with a = b, b = c and a ≠ c. |
| Values.TagOf | include/interpreter/types/datatypes.h:6-8 | Every value carries a tag other than NONE. |
| Values.PrimitiveByTag | include/interpreter/types/datatypes.h:6-8 | A value is primitive exactly when its tag is one of the six primitive tags. |
| Values.Unnamed | include/nodes/nodeResult.h:6-17 | A result built with a bare tag holds the value and has the plain descriptor of the value's tag. |
| Values.AsNumValue | include/nodes/nodeResult.h:6-17 | Reading a number back out of the value built from it gives the same number. |
| Coercion.ImplicitCast | src/nodes/nodeResult.cpp:15-35 | The result differs from the input exactly when one of the three conversions applies (INTEGER to REAL, a one-character STRING to CHAR, CHAR to STRING). A converted result has the target's tag and no name. |
| Coercion.ImplicitCastIdempotent | src/nodes/nodeResult.cpp:15-35 | Casting a second time to the same target changes nothing: at most one conversion happens. |
| Coercion.ImplicitCastLeavesOthers | src/nodes/nodeResult.cpp:15-35 | Some pairs are left unchanged: REAL to INTEGER, a STRING whose length is not 1 to CHAR, STRING to INTEGER, and any value whose tag already is the target's. |
| Coercion.CharStringRoundTrip | src/nodes/nodeResult.cpp:23-34 | When `toString` of a Char is the one-character string, casting the Char to STRING and back to CHAR restores it. |
| Operators.BooleanNodeValue | src/nodes/eval/comparison.cpp:7-15 | A Boolean literal is TRUE exactly for the token TRUE and FALSE for FALSE. Any other token aborts. |
| Operators.Negate | src/nodes/eval/arithmetic.cpp:79-91 | Negation succeeds exactly on Integer and Real, and gives the unnamed Number product with -1. Any other operand is invalid usage. |
| Operators.EnumOperands | src/nodes/eval/arithmetic.cpp:123-147 | The enum case applies exactly to `+` or `-` with one Enum and one Integer. The raw index is enum ± integer when the Enum is on the left, and integer ± index when it is on the right, so swapping the operands does not swap the subtraction. |
| Operators.EnumWrap | src/nodes/eval/arithmetic.cpp:149-156 | The landed index always lies in [0, N). It is raw mod N for a non-negative raw index, and raw + N for a raw index in [-N, 0). |
| Operators.EnumWrapAsWritten | src/nodes/eval/arithmetic.cpp:150-152 | The remainder as spelled with a 64-bit `size_t` also lies in [0, N), and agrees with EnumWrap on every raw index that is non-negative and below 2^64. |
| Operators.EnumPredecessorOfFirst | src/nodes/eval/arithmetic.cpp:151 | Stepping back from index 0 of a three-value enum lands on 2 in the corrected reduction and on 0 as written. |
| Operators.Arith | src/nodes/eval/arithmetic.cpp:119-202 | Enum ± Integer gives an unnamed Enum of the same definition at the index wrapped by the corrected Operators.EnumWrap (see Findings), and aborts when the definition is missing or empty. Other non-numeric operands are invalid usage. A zero divisor is a modulus-by-zero error for MOD and a division-by-zero error for `/` and DIV. Otherwise the result is the Number operation's result, unnamed. |
| Operators.ArithTotalOnNumbers | src/nodes/eval/arithmetic.cpp:169-201 | `+`, `-` and `*` on two numbers never fail, and their result is a number. |
| Operators.EnumAddCommutes | src/nodes/eval/arithmetic.cpp:123-157 | Integer + Enum gives the same result as Enum + Integer. |
| Operators.CompareOperands | src/nodes/eval/comparison.cpp:49-57 | A Char pair and a Date pair are rewritten to Integer codes. Every other pair, mixed pairs included, is left as it is. |
| Operators.Compare | src/nodes/eval/comparison.cpp:45-113 | A successful comparison always gives a BOOLEAN result. |
| Operators.CompareOrderNeedsNumbers | src/nodes/eval/comparison.cpp:62-64 | A non-numeric pair with an ordering operator is invalid usage, whatever the two types are. |
| Operators.CompareDifferentTypes | src/nodes/eval/comparison.cpp:66-67 | Operands of different types give FALSE for `=` and TRUE for `<>`. |
| Operators.CompareByValue | src/nodes/eval/comparison.cpp:68-79 | Same-type Boolean, String and Enum operands compare by value (an Enum by its index), and `<>` is the negation of `=`. |
| Operators.CompareRejectsReferences | src/nodes/eval/comparison.cpp:80-82 | Same-type Pointers or Records are invalid usage even under `=` and `<>`. |
| Operators.CompareNumbers | src/nodes/eval/comparison.cpp:85-112 | A numeric pair supports all six operators and gives the Number comparison's answer. |
| Operators.CompareCodes | src/nodes/eval/comparison.cpp:49-57 | A Char or Date pair is compared by its Integer codes. |
| Operators.CompareNeNegatesEq | src/nodes/eval/comparison.cpp:59-112 | When the Number comparison makes `<>` the negation of `=`, the node does too for every pair of operands: both succeed or both fail, and on success the answers are opposite. |
| Operators.CompareEqSymmetric | src/nodes/eval/comparison.cpp:45-112 | When the Number `=` is symmetric, so is the node's `=` on every pair of operands, errors included. |
| Operators.Logic | src/nodes/eval/logic.cpp:22-46 | AND and OR succeed exactly on two Booleans and give their conjunction or disjunction as a BOOLEAN. Anything else is invalid usage. |
| Operators.Not | src/nodes/eval/logic.cpp:49-58 | NOT succeeds exactly on a Boolean and gives its negation. Anything else is invalid usage. |
| Operators.NotInvolutive | src/nodes/eval/logic.cpp:49-58 | NOT applied twice to a Boolean gives it back. |
| Operators.Cast | src/nodes/cast.cpp:10-46 | A non-primitive source is a type-operation error, even when cast to its own type. A primitive cast to its own type is returned unchanged. Date, enum, pointer and record targets are errors. Every successful result carries the target tag. |
| Operators.CastIdempotent | src/nodes/cast.cpp:10-46 | Casting a successful cast result to the same target again gives the same result. |
| Operators.CastAgreesWithImplicitCast | src/nodes/cast.cpp:24-35 | On Integer to REAL and Char to STRING, the explicit cast to an unnamed target gives the value that the implicit conversion before assignment stores. |
| Operators.Concat | src/nodes/eval/stringcat.cpp:6-19 | With two primitive operands the result is a STRING: the left operand's string form followed by the right's. A non-primitive operand is a type-operation error. |
| Operators.CaseEquals | src/nodes/selection/case.cpp:15-48 | Integer and Real are compared across the two types, the Integer first converted by the host's int-to-double conversion `intToReal`. Any other pair of different types never matches. |
| Operators.CaseEqualsSameType | src/nodes/selection/case.cpp:26-44 | Same-type values match exactly when they are equal, except that an Enum compares by index, a Pointer by its target, and a Record never matches. |
| Operators.CaseEqualsSymmetric | src/nodes/selection/case.cpp:15-48 | The scrutinee and the arm's value play the same part: swapping them never changes whether the arm matches. |
| Operators.CaseRecordNeverMatches | src/nodes/selection/case.cpp:43-44 | A Record scrutinee does not even match itself. |
| Arrays.ValidIndicesCount | src/interpreter/array.cpp:11-17 | An index is valid exactly when it is one of the `upper - lower + 1` consecutive integers from the lower bound. |
| Arrays.DimEqIsEquality | src/interpreter/array.cpp:19-21 | Two dimensions are equal exactly when their position and both bounds are equal. |
| Arrays.GetElement | src/interpreter/array.cpp:64-76 | The offset loop gives the cell at the stride offset, or None when the index count differs from the dimension count or the offset is past the cells. |
| Arrays.InitSize | src/interpreter/array.cpp:50-55 | The size loop computes the product of the dimension sizes. |
| Arrays.CopyArray | src/interpreter/array.cpp:28-32 | The copy keeps name, element type and dimensions, and has no cells. |
| Arrays.StridePositive | src/interpreter/array.cpp:67-73 | For bounds with lower ≤ upper every running stride is positive. |
| Arrays.OffsetUpToBounds | src/interpreter/array.cpp:67-73 | In-bounds indices for the first k dimensions address a cell in [0, stride_k). |
| Arrays.OffsetUpToInjective | src/interpreter/array.cpp:67-73 | Two in-bounds prefixes with the same partial offset are the same prefix. |
| Arrays.OffsetInRange | src/interpreter/array.cpp:64-76 | An in-bounds tuple addresses one of the Π size_d cells. |
| Arrays.OffsetInjective | src/interpreter/array.cpp:64-76 | Two in-bounds tuples with the same offset are the same tuple. |
| Arrays.FirstDimensionFastest | src/interpreter/array.cpp:67-73 | Adding one to the first index moves the offset to the next cell. |
| Arrays.ElementAtDefined | src/interpreter/array.cpp:64-76 | With at least Π size_d cells, every in-bounds tuple names the cell at its offset. |
| Builtins.BuiltinParams | src/interpreter/builtinFunctions/string.cpp:10-110 | Each built-in declares one to three parameters. |
| Builtins.BuiltinNamesDistinct | src/interpreter/scope/context.cpp:48-58 | Distinct built-ins have distinct names, so a lookup by name finds the intended one. |
| Builtins.Right | src/interpreter/builtinFunctions/string.cpp:35-59 | RIGHT succeeds exactly when 0 ≤ x ≤ \|s\|, and then gives a suffix of length x with s = prefix + result. A negative x and a too-large x are the two distinct errors. |
| Builtins.RunRight | src/interpreter/builtinFunctions/string.cpp:45-56 | The character loop from \|s\| - x to the end computes Right. |
| Builtins.Left | src/interpreter/builtinFunctions/string.cpp:112-131 | LEFT succeeds exactly when 0 ≤ x ≤ \|s\|, and then gives a prefix of length x with s = result + rest. A negative and a too-large x are distinct errors. |
| Builtins.Mid | src/interpreter/builtinFunctions/string.cpp:71-101 | MID succeeds exactly when 1 ≤ x ≤ \|s\|, y ≥ 0 and (x-1)+y ≤ \|s\|. It then gives the y characters from the 1-based position x, which splits s into three. An x below 1 is its own error. |
| Builtins.MidOfEmptyFails | src/interpreter/builtinFunctions/string.cpp:89-90 | MID of the empty string fails for every position and length. |
| Builtins.LeftRightSplit | src/interpreter/builtinFunctions/string.cpp:35-131 | LEFT(s, k) followed by RIGHT(s, \|s\| - k) is s. |
| Builtins.MidFromStartIsLeft | src/interpreter/builtinFunctions/string.cpp:71-131 | On a non-empty string, MID from position 1 equals LEFT. |
| Builtins.ToUpperChar | src/interpreter/builtinFunctions/char.cpp:31-39 | UCASE changes exactly the ASCII lower-case letters, each to its upper-case letter. |
| Builtins.ToLowerChar | src/interpreter/builtinFunctions/char.cpp:14-22 | LCASE changes exactly the ASCII upper-case letters, each to its lower-case letter. |
| Builtins.ToUpper | src/interpreter/builtinFunctions/string.cpp:140-150 | TO_UPPER keeps the length and upper-cases every character. |
| Builtins.ToLower | src/interpreter/builtinFunctions/string.cpp:159-169 | TO_LOWER keeps the length and lower-cases every character. |
| Builtins.ToUpperIdempotent | src/interpreter/builtinFunctions/string.cpp:140-150 | Upper-casing twice is upper-casing once. |
| Builtins.ToLowerAfterToUpper | src/interpreter/builtinFunctions/string.cpp:140-169 | Lower-casing after upper-casing gives the same string as lower-casing alone. |
| Builtins.RunIsNum | src/interpreter/builtinFunctions/string.cpp:210-233 | The scan with its `decimal` flag answers IS_NUM: every character is a digit or '.', with at most one '.'. |
| Builtins.IsNumEdgeCases | src/interpreter/builtinFunctions/string.cpp:214-230 | "" and "." are numbers, and a string holding any sign character is not. |
| Builtins.Asc | src/interpreter/builtinFunctions/char.cpp:48-56 | ASC gives a code in the signed char range. |
| Builtins.Chr | src/interpreter/builtinFunctions/char.cpp:65-73 | CHR gives the character congruent to x modulo 256. |
| Builtins.ChrAsc | src/interpreter/builtinFunctions/char.cpp:53-70 | CHR(ASC(c)) = c for every character. |
| Builtins.AscChr | src/interpreter/builtinFunctions/char.cpp:53-70 | ASC(CHR(x)) = x for every code a char can hold. |
| Builtins.Apply | src/interpreter/builtinFunctions/string.cpp:16-233 | A successful built-in returns a value of its declared return type. A missing or mistyped parameter aborts. |
| Builtins.Lift | src/interpreter/builtinFunctions/string.cpp:35-131 | A string result becomes a STRING value, and an error keeps its class. |
| Builtins.LengthCounts | src/interpreter/builtinFunctions/string.cpp:16-24 | LENGTH gives the number of characters. |
| Dates.Put | src/nodes/eval/arithmetic.cpp:50-58 | A character goes to the day before the first '/', to the month before the second, and to the year after that. |
| Dates.SplitLiteral | src/nodes/eval/arithmetic.cpp:47-58 | The character loop with its separator counter computes the split of the literal. |
| Dates.SplitRoundTrip | src/nodes/eval/arithmetic.cpp:47-58 | A literal d/m/y whose fields hold no '/' splits back into d, m and y. |
| Dates.ExtraSlashesJoinYear | src/nodes/eval/arithmetic.cpp:50-58 | Separators after the second only drop out: the year field joins the pieces after it. |
| Dates.DigitRun | src/nodes/eval/arithmetic.cpp:60-62 | The digits std::stoul converts are the longest digit run after the skipped prefix; the run stops at the first non-digit. |
| Dates.SpaceRun | src/nodes/eval/arithmetic.cpp:60-62 | The white-space prefix std::stoul skips: the longest run of "C"-locale space characters. |
| Dates.ParseField | src/nodes/eval/arithmetic.cpp:60-62 | std::stoul in base 10. A field fails to parse exactly when no digit follows the optional white space and sign, or when the digits spell 2^64 or more. Otherwise the value is below 2^64: the digits' value, or with '-' its negation modulo 2^64. |
| Dates.ParseTooLarge | src/nodes/eval/arithmetic.cpp:60-62 | A digit string of value 2^64 or more does not parse (std::out_of_range). |
| Dates.ParseSkipsSpace | src/nodes/eval/arithmetic.cpp:60-62 | A leading space character never changes the parse. |
| Dates.ParseSigned | src/nodes/eval/arithmetic.cpp:60-62 | '+' before digits that fit keeps their value, and '-' gives 2^64 minus it, modulo 2^64. |
| Dates.NinesValue | src/nodes/eval/arithmetic.cpp:60-62 | n nines spell 10^n - 1. |
| Dates.TwentyNinesOverflow | src/nodes/eval/arithmetic.cpp:47-70 | The literal 1/1/99999999999999999999 has no date: its year is out of range for std::stoul, so the host fails while building the node. |
| Dates.ParseDigits | src/nodes/eval/arithmetic.cpp:60-62 | A non-empty all-digit field whose value is below 2^64 parses to that value. |
| Dates.MakeDate | src/nodes/eval/arithmetic.cpp:47-66 | makeDate succeeds exactly when all three split fields parse. |
| Dates.DaysInMonth | src/nodes/eval/arithmetic.cpp:72-76 | Every month has 28 to 31 days. |
| Dates.LeapDay | src/nodes/eval/arithmetic.cpp:72-76 | February 29 is a valid date exactly in leap years. |
| Dates.OutOfRangeFields | src/nodes/eval/arithmetic.cpp:72-76 | Day 0, month 0, month 13 and any day above 31 make an invalid date, so the literal raises "Invalid Date!". |
| Params.ReadItem | src/parser/procedureParser.cpp:57-106 | One round of the list loop ends on ')' exactly when the cursor is at ')'. Otherwise it reads a parameter and moves strictly forward. An untyped name stops at the ',' that follows it, and a typed one carries a type word. |
| Params.Names | src/parser/procedureParser.cpp:84-100 | The names of a parsed list are one per parameter, in writing order. |
| Params.Modes | src/parser/procedureParser.cpp:64-80 | The mode list has one entry per parameter. |
| Params.Pending | src/parser/procedureParser.cpp:87-92 | The count of names waiting for a type is at most the number of parameters. |
| Params.Types | src/parser/procedureParser.cpp:95-105 | The type list has one entry per parameter. |
| Params.PendingAppend | src/parser/procedureParser.cpp:64-105 | Adding a parameter resets the waiting count when it is typed and raises it by one otherwise. Its mode is its own keyword or the current mode. |
| Params.TrailingTypeCheckIsDead | src/parser/procedureParser.cpp:82-107 | After a successful list loop no name is left waiting for a type, so the trailing `typeCount != 1` check can never fire. Trailing untyped names are already rejected inside the loop. |
| Params.NoPendingAllTyped | src/parser/procedureParser.cpp:87-105 | When no name is left waiting, every parameter has an annotated parameter at or after it to take its type from. |
| Params.ParamListAligned | src/parser/procedureParser.cpp:52-113 | A parsed list is aligned: equal numbers of names, type tokens and modes, and every written type token is a DATA_TYPE or IDENTIFIER. |
| Params.ModeSticky | src/parser/procedureParser.cpp:64-80 | A parameter without a keyword takes the mode of the one before it. |
| Params.ModeKeyword | src/parser/procedureParser.cpp:64-77 | A BYREF or BYVAL keyword sets the mode of its own parameter. |
| Params.ModeDefault | src/parser/procedureParser.cpp:47 | Before any keyword, parameters are passed by value. |
| Params.ModesNoKeyword | src/parser/functionParser.cpp:14 | Without any keyword every parameter is by value. |
| Params.ModesPrefix | src/parser/procedureParser.cpp:64-80 | The modes of a prefix of the list are the prefix of its modes, so a mode never depends on later parameters. |
| Params.SharedType | src/parser/procedureParser.cpp:87-105 | A name followed directly by ',' shares the type of the next parameter. |
| Params.PushCopies | src/parser/procedureParser.cpp:101-104 | The reserve and push_back loop appends exactly n copies of one element. |
| Params.NoteMode | src/parser/procedureParser.cpp:64-80 | The keyword branch keeps the invariant that the flushed modes plus the pending run equal the old ones plus the new parameter's mode. The mode becomes the keyword's. |
| Params.TypedAppend | src/parser/procedureParser.cpp:95-105 | A typed parameter gives itself and every waiting name its type. |
| Params.UntypedAppend | src/parser/procedureParser.cpp:87-92 | An untyped parameter leaves the types assigned so far alone. |
| Params.ReadParameter | src/parser/procedureParser.cpp:58-99 | The cursor moves of one round compute ReadItem. |
| Params.ParseParameterList | src/parser/procedureParser.cpp:52-113 | The list loop with its counters `typeCount` and `passTypeCount` and its flag `byRef` computes the parameter lists. |
| Params.ParseArguments | src/parser/procedureParser.cpp:16-33 | The argument loop computes the argument list. |
| Params.ArgumentsSeparated | src/parser/functionParser.cpp:118-131 | The parsed arguments are consecutive non-empty spans separated by single commas. |
| Params.ParseCall | src/parser/procedureParser.cpp:5-36 | parseCall computes the CALL statement's name and arguments. |
| Params.CallWithoutArguments | src/parser/procedureParser.cpp:16-20 | A CALL without parentheses, or with `()`, passes no arguments. |
| Params.ParseFunctionCall | src/parser/functionParser.cpp:110-134 | parseFunctionCall computes the function call's argument list. |
| Params.FunctionCallNeedsParen | src/parser/functionParser.cpp:115-120 | A function call parses only when '(' follows the name, and `()` gives no arguments. |
| Params.ParseOptionalParams | src/parser/functionParser.cpp:20-82 | The optional parenthesised part computes the parameter lists, which are empty without '('. |
| Params.ParseBody | src/parser/procedureParser.cpp:116-119 | The block parse and the check of the closing keyword compute the body span. |
| Params.ParseProcedure | src/parser/procedureParser.cpp:38-129 | parseProcedure computes the procedure definition. |
| Params.SkipLineEnds | src/parser/functionParser.cpp:84 | The cursor stops at the first token that is not a line end, and skips only line ends. |
| Params.ParseReturns | src/parser/functionParser.cpp:84-92 | The line-end loop, RETURNS and the return-type check compute the RETURNS clause. |
| Params.ParseFunction | src/parser/functionParser.cpp:5-108 | parseFunction computes the function definition. |
| Params.ProcedureShape | src/parser/procedureParser.cpp:52-119 | A parsed procedure has aligned parameter lists and no return type, and its body ends on ENDPROCEDURE. |
| Params.FunctionShape | src/parser/functionParser.cpp:20-97 | A parsed function has aligned parameter lists, a DATA_TYPE or IDENTIFIER after RETURNS, and a body that ends on ENDFUNCTION. |
| Store.EmptyScope | src/interpreter/scope/context.cpp:8-18 | A new context has its name, parent chain and kind, an empty return slot and no entries. |
| Store.Root | src/interpreter/scope/context.cpp:102-106 | The global scope is the last ancestor, or the scope itself when it has no parent. |
| Store.LocalVariable | src/interpreter/scope/context.cpp:116-119 | A local hit is a variable of that name held by the scope. A miss means no variable of the scope has that name. |
| Store.LocalArray | src/interpreter/scope/context.cpp:161-165 | A local hit is an array of that name held by the scope. A miss means no array of the scope has that name. |
| Store.GetVariableLocalFirst | src/interpreter/scope/context.cpp:116-123 | A local variable of that name is always found, and it is the first local match. |
| Store.GetVariableFound | src/interpreter/scope/context.cpp:116-123 | Whatever getVariable finds has that name and is held by the scope itself or, with `global`, by the global scope. |
| Store.LookupIgnoresIntermediate | src/interpreter/scope/context.cpp:116-123 | Two stores that agree on the scope and its global scope give the same variable and array lookups: ancestors in between are never searched. |
| Store.LocalOnlyLookup | src/interpreter/scope/context.cpp:121-122 | Without `global`, or at the global scope, only local names are found. |
| Store.GetProcedure | src/interpreter/scope/context.cpp:129-139 | A procedure is found only in the global scope's list, with that name. A miss means the global scope has none of that name. |
| Store.GetFunction | src/interpreter/scope/context.cpp:145-155 | A function is found only in the global scope's list, with that name. A miss means the global scope has none of that name. |
| Store.NestedRoutineInvisible | src/interpreter/scope/context.cpp:129-155 | A routine registered below the global scope is never found. |
| Store.LocalEnumDef | src/interpreter/scope/context.cpp:237-243 | A local enum definition found has that name. A miss means the scope defines no enum of that name. |
| Store.LocalPointerDef | src/interpreter/scope/context.cpp:245-251 | A local pointer definition found has that name. A miss means the scope defines no pointer type of that name. |
| Store.LocalCompositeDef | src/interpreter/scope/context.cpp:253-259 | A local record definition found has that name. A miss means the scope defines no record type of that name. |
| Store.IdentifierType | src/interpreter/scope/context.cpp:185-197 | An identifier names an enum, else a pointer, else a record type, else NONE. A named result carries the identifier as its name. |
| Store.GetType | src/interpreter/scope/context.cpp:172-197 | A keyword maps to its primitive tag, an identifier resolves through IdentifierType, and any other token aborts. |
| Store.KeywordTypesArePrimitive | src/interpreter/scope/context.cpp:174-183 | Every type keyword names a primitive type. |
| Store.LocalEnumElement | src/interpreter/scope/context.cpp:211-223 | The enum constant found is the position of the value in the first local definition, in declaration order, that lists it. A miss means no local definition lists it. |
| Store.IsIdentifierTypeExactly | src/interpreter/scope/context.cpp:199-209 | A name is an identifier type exactly when a definition of that name, or an enum listing it, is visible. |
| Store.EnumString | src/interpreter/types/userType.cpp:20-23 | An enum has a text only when it is an Enum value whose definition is visible. |
| Store.EnumElementRoundTrip | src/interpreter/types/userType.cpp:20-23 | An enum constant found locally reads back as its own text when the scope's definitions have distinct names. |
| Store.AddVariable | src/interpreter/scope/context.cpp:112-114 | addVariable only appends to the scope's variables, and everything else grows or stays. |
| Store.AddArray | src/interpreter/scope/context.cpp:157-159 | addArray only appends to the scope's arrays. |
| Store.AddProcedure | src/interpreter/scope/context.cpp:125-127 | addProcedure only appends to the scope's procedures. |
| Store.AddFunction | src/interpreter/scope/context.cpp:141-143 | addFunction only appends to the scope's functions. |
| Store.CreateEnumDef | src/interpreter/scope/context.cpp:225-227 | Only appends an enum definition. |
| Store.CreatePointerDef | src/interpreter/scope/context.cpp:229-231 | Only appends a pointer definition. |
| Store.CreateCompositeDef | src/interpreter/scope/context.cpp:233-235 | Only appends a record definition. |
| Store.GrowsKeepsLocalVariable | src/interpreter/scope/context.cpp:112-235 | Appending never hides a local variable: what was found before is still found. |
| Store.AddVariableFound | src/interpreter/scope/context.cpp:112-119 | A variable added to a scope without one of that name is found there afterwards. |
| Store.NewVar | src/interpreter/variable.cpp:13-18 | A new variable takes the next, unused identity, and nothing else changes. |
| Store.NewScope | src/interpreter/scope/context.cpp:8-18 | A new scope takes the next, unused identity, and nothing else changes. |
| Store.NewArray | src/interpreter/array.cpp:28-32 | A new array takes the next, unused identity, and nothing else changes. |
| Store.NewChildScope | src/interpreter/scope/context.cpp:8-18 | A child context is empty and its chain is the parent followed by the parent's chain. Nothing else changes. |
| Store.ChildSharesRoot | src/interpreter/scope/context.cpp:102-106 | A child sees the same global scope as its parent. |
| Store.AllocationIsFresh | src/interpreter/variable.cpp:13-18 | Allocation never reuses a taken identity and keeps the store fresh. |
| Store.Read | src/interpreter/variable.cpp:9-11 | A variable reads the value of its owner, its own storage for an owning variable. |
| Store.WriteValue | src/nodes/variable/variable.cpp:99-126 | An in-place write changes variable storage only. |
| Store.WriteSharedByAliases | src/interpreter/variable.cpp:9-11 | A write through one name is seen through every name that shares the owner. |
| Store.WriteLeavesOthers | src/nodes/variable/variable.cpp:99-126 | A write changes no variable with another owner. |
| Store.WriteReadIdentity | src/nodes/variable/variable.cpp:99-126 | Writing back the value just read changes nothing. |
| Store.WriteKeepsDeclarations | src/nodes/variable/variable.cpp:99-126 | A write changes no name, type, constness or parent. |
| Store.CreateReference | src/interpreter/variable.cpp:101-104 | createReference makes an alias of the ultimate owner under the new name, and fails exactly when that owner does not exist. |
| Store.ReferenceSkipsAlias | src/interpreter/variable.cpp:101-104 | A reference made through an alias aliases the owner, never the alias. |
| Store.ReferenceSharesOwner | src/interpreter/variable.cpp:9-11 | A new reference has its owner's type, const flag and parent, and reads its owner's value. |
| Store.GetReference | src/interpreter/variable.cpp:106-108 | getReference is null exactly for owning variables, and otherwise gives the owner. |
| Store.RecordFreeAncestor | src/interpreter/types/userType.cpp:32-38 | The recorded scope is the first of the target's scope and its ancestors that is not a record scope. None means every one of them is a record scope. |
| Store.CloneShell | src/interpreter/scope/context.cpp:29-40 | The copy keeps name, chain, kind, procedures and functions. It takes no type definitions, and its variables are filled in afterwards. |
| Store.BuiltinParameters | src/interpreter/builtinFunctions/string.cpp:10-14 | A built-in's parameters are by value, with the declared names and tags. |
| Store.BuiltinFunction | src/interpreter/procedure.cpp:50-54 | A built-in has its name, its parameters, its return type and no definition token. |
| Store.GlobalScope | src/interpreter/scope/context.cpp:48-58 | The global context is "Program", has no parent, and holds the built-ins. |
| Store.InitialStore | src/interpreter/scope/context.cpp:48-58 | The program starts with the global scope alone. |
| Store.BuiltinsVisible | src/interpreter/scope/context.cpp:145-155 | Every modelled built-in is found by name from any scope below the initial global scope. |
| Engine.PrimitiveDefault | src/interpreter/variable.cpp:20-50 | A default value exists exactly for the primitive tags, and carries that tag. |
| Engine.Alloc | src/interpreter/variable.cpp:13-18 | A new owning variable under the next identity holds the value. No scope lists it yet. |
| Engine.SetStorage | src/interpreter/variable.cpp:61-99 | `set` replaces the variable's own storage by an owned value and changes nothing else. |
| Engine.SetReturnValue | src/nodes/functions/function.cpp:157 | Only the scope's return slot changes. |
| Engine.TypesOf | src/nodes/functions/procedure.cpp:62-65 | The argument types are one per result, in order. |
| Engine.ParamTypes | src/interpreter/procedure.cpp:27-32 | getTypes gives one type per parameter, in declaration order. |
| Engine.DerefStep | src/nodes/variable/resolver.cpp:13-36 | A dereference never changes the store. |
| Engine.DerefStepAsWritten | src/nodes/variable/resolver.cpp:13-36 | The as-written dereference never changes the store. |
| Engine.MemberStep | src/nodes/variable/resolver.cpp:45-58 | Member access never changes the store. |
| Engine.PointerDefineStep | src/nodes/variable/pointer.cpp:9-21 | A successful definition appends a pointer definition with the resolved pointee type. A failure leaves the store as it was. |
| Engine.PointerStore | src/nodes/variable/pointer.cpp:44-54 | A failed pointer store leaves the store as it was. |
| Engine.ResolveParams | src/nodes/functions/procedure.cpp:29-41 | Resolving parameter types never changes the store. |
| Engine.ProcedureDefStep | src/nodes/functions/procedure.cpp:26-27 | An existing procedure of that name at the global scope is a redefinition. |
| Engine.FunctionDefStep | src/nodes/functions/function.cpp:28-29 | An existing function of that name at the global scope is a redefinition. |
| Engine.FunctionResult | src/nodes/functions/function.cpp:145-150 | A filled return slot is the call's result, and the store is unchanged. |
| Engine.BuiltinArgs | src/interpreter/builtinFunctions/string.cpp:17-18 | The parameter values read from the call scope are one per parameter. |
| Engine.RunBuiltin | src/interpreter/builtinFunctions/string.cpp:16-233 | A built-in that completes has written its return slot, and that is its only change. |
| Engine.RunMain | src/interpreter/scope/block.cpp:94-102 | No BREAK or CONTINUE signal escapes the program. |
| Machines.Machine.Run | src/interpreter/scope/block.cpp:77-92 | The block loop computes RunBlock on the machine's store: nodes in order, stopping at the first signal or error. |
| Machines.Machine.RunProgram | src/interpreter/scope/block.cpp:94-102 | The program run computes RunMain. |
| Machines.Machine.While | src/nodes/loop/while.cpp:11-30 | The WHILE loop computes WhileLoop. |
| Machines.Machine.RepeatUntil | src/nodes/loop/repeatUntil.cpp:11-30 | The REPEAT loop computes RepeatLoop. |
| Machines.Machine.ForLoop | src/nodes/loop/for.cpp:56-69 | The FOR loop proper computes ForFrom. |
| Machines.Machine.If | src/nodes/selection/ifStatement.cpp:15-33 | The component loop computes IfArms. |
| Machines.Machine.Case | src/nodes/selection/case.cpp:95-100 | The arm loop computes CaseArms. |
| Machines.Machine.Declare | src/nodes/variable/variable.cpp:11-23 | The identifier loop computes DeclareFrom. |
| Machines.Machine.Arguments | src/nodes/functions/procedure.cpp:62-65 | The argument loop computes EvalArgs and gives one result per argument. |
| Machines.Machine.Bind | src/nodes/functions/procedure.cpp:74-131 | The binding loop computes BindFrom. |
| Machines.DeclareRound | src/nodes/variable/variable.cpp:11-23 | One round of the DECLARE loop: if declaring the next identifier fails, that failure is the whole DECLARE's result; otherwise the rest of the loop, from the new store, gives that result. |
| Machines.DeclareNext | src/nodes/variable/variable.cpp:12-22 | Runs one DECLARE round (DeclareOne on the next identifier) and returns it with what DeclareRound states of it. |
| Machines.DeclareEnds | src/nodes/variable/variable.cpp:11-23 | The DECLARE loop's exits: out of fuel it gives up, and once past the last identifier it completes in the store it has. |
| Machines.BindRound | src/nodes/functions/procedure.cpp:74-131 | One round of the binding loop binds parameter i and goes on with the rest, unless that binding failed. |
| Machines.Machine.Indices | src/nodes/variable/resolver.cpp:80-92 | The index loop computes IndicesFrom. |
| Machines.Machine.Bounds | src/nodes/variable/array.cpp:22-40 | The bound-pair loop computes BoundsFrom. |
| Machines.Machine.InitArray | src/interpreter/array.cpp:50-62 | The cell loop computes InitCells. |
| Machines.Machine.CopyData | src/interpreter/array.cpp:34-38 | The copy loop computes CopyCells. |
| Machines.Machine.CopyVariables | src/interpreter/scope/context.cpp:42-46 | The loop computes CopyVariableData. |
| Machines.GetTypes | src/interpreter/procedure.cpp:27-32 | The push loop gives one type per parameter, in declaration order. |
| Machines.Reachable | src/nodes/variable/resolver.cpp:23-29 | The parent walk meets the recorded scope exactly when it is the current scope or one of its ancestors. |
| Machines.HomeScope | src/interpreter/types/userType.cpp:32-38 | The walk past record scopes computes RecordFreeAncestor. |
| EngineFacts.BlockRunsInOrder | src/interpreter/scope/block.cpp:77-81 | After node i completes, the block goes on with node i + 1 in the new store. |
| EngineFacts.RunFromShift | src/interpreter/scope/block.cpp:77-81 | Running `b1 + b2` from position \|b1\| + j is running `b2` from position j. |
| EngineFacts.RunFromConcat | src/interpreter/scope/block.cpp:77-81 | Running `b1 + b2` from position i of `b1`: if the rest of `b1` completes, which needs more fuel than it has nodes left, `b2` then runs in the store it left. Otherwise the signal or error of `b1` is the outcome and `b2` does not run. |
| EngineFacts.RunBlockConcat | src/interpreter/scope/block.cpp:77-81 | A block made of two blocks runs the first; if that completes, the second runs in the store it left with the unused fuel; otherwise the first's signal or error ends the whole. |
| EngineFacts.BlockStopsAtSignal | src/interpreter/scope/block.cpp:89-92 | The first signal or error of a node is the block's, and no later node runs. |
| EngineFacts.MainBlockBreak | src/interpreter/scope/block.cpp:97-98 | An escaping BREAK becomes invalid usage at the BREAK's own token. |
| EngineFacts.MainBlockContinue | src/interpreter/scope/block.cpp:99-100 | An escaping CONTINUE becomes invalid usage at the CONTINUE's own token. |
| EngineFacts.MainBlockPassesOthers | src/interpreter/scope/block.cpp:94-102 | Completion, errors and the RETURN signal pass through the program block unchanged. |
| EngineFacts.BreakSignals | src/nodes/loop/control.cpp:9-11 | BREAK never completes. It raises a BREAK signal with its token, and the store is untouched. |
| EngineFacts.ContinueSignals | src/nodes/loop/control.cpp:13-15 | CONTINUE never completes. It raises a CONTINUE signal with its token, and the store is untouched. |
| EngineFacts.WhileFalseSkipsBody | src/nodes/loop/while.cpp:12-18 | A FALSE condition ends the loop before the body runs. |
| EngineFacts.WhileConditionType | src/nodes/loop/while.cpp:15-16 | A non-BOOLEAN condition is a condition type error at the loop's token. |
| EngineFacts.WhileConditionUnwinds | src/nodes/loop/while.cpp:12-18 | An error or signal of the condition ends the loop. |
| EngineFacts.WhileBody | src/nodes/loop/while.cpp:20-26 | After a TRUE condition the body runs. BREAK ends the loop normally. CONTINUE and completion go back to the test. Other signals and errors leave the loop. |
| EngineFacts.RepeatBody | src/nodes/loop/repeatUntil.cpp:12-21 | The body runs first. BREAK ends the loop. CONTINUE restarts the body without testing UNTIL. Other signals leave. |
| EngineFacts.RepeatUntilTest | src/nodes/loop/repeatUntil.cpp:23-26 | After a completed body, TRUE ends the loop, FALSE goes round, and a non-BOOLEAN value is a condition type error. |
| EngineFacts.ForIteratorFirst | src/nodes/loop/for.cpp:17-24 | A visible iterator that is not INTEGER is an error before start, stop or step is evaluated. |
| EngineFacts.ForStepDefault | src/nodes/loop/for.cpp:47-58 | Without STEP the step is 1, and the iterator holds the start value when the loop begins. |
| EngineFacts.ForTestEnds | src/nodes/loop/for.cpp:56-59 | The loop ends normally once the stored iterator is past the stop value in the step's direction, with a zero step counted as ascending. |
| EngineFacts.ForRound | src/nodes/loop/for.cpp:62-68 | BREAK exits. CONTINUE and completion advance the iterator. Other signals leave. |
| EngineFacts.ForAdvanceAddsStep | src/nodes/loop/for.cpp:58-61 | The advance adds the step to the iterator's storage as the body left it, then tests again. |
| EngineFacts.ForRoundsCount | src/nodes/loop/for.cpp:56-61 | With a positive step the loop makes floor((stop − start) / step) + 1 rounds, or none when start is past stop; the same holds for a negative step with the direction reversed. The value after the last round is the first one past stop, and the value of the last round is not past it. |
| EngineFacts.ForRoundsUp | src/nodes/loop/for.cpp:56-61 | By a positive step the loop makes floor((stop − start) / step) + 1 rounds, and none when start is already past stop. |
| EngineFacts.ForRoundsDown | src/nodes/loop/for.cpp:56-61 | By a negative step the loop makes floor((start − stop) / −step) + 1 rounds, and none when start is already below stop. |
| EngineFacts.ForRoundsLast | src/nodes/loop/for.cpp:56-61 | After the counted rounds the iterator value fails the loop test; when there was a round, the value of the last round passed it. |
| EngineFacts.ForOneRound | src/nodes/loop/for.cpp:56-68 | When the test passes and the body completes without touching the iterator, one round runs the body, stores the iterator plus the step, and goes on with that store. |
| EngineFacts.EmptyBodyKeepsIterator | src/nodes/loop/for.cpp:62-68 | An empty body completes and leaves the iterator alone. |
| EngineFacts.ForRunsRounds | src/nodes/loop/for.cpp:56-68 | Given enough fuel, a loop whose body completes and leaves the iterator alone makes exactly ForRounds rounds. It completes with the iterator holding start + rounds × step. |
| EngineFacts.IfElseRuns | src/nodes/selection/ifStatement.cpp:17-20 | An ELSE arm always runs its block and ends the statement. |
| EngineFacts.IfCondition | src/nodes/selection/ifStatement.cpp:16-29 | A TRUE condition runs its block and no later condition is evaluated. FALSE tries the next arm. A non-BOOLEAN condition is a condition type error. |
| EngineFacts.IfNoArmLeft | src/nodes/selection/ifStatement.cpp:16-32 | With no arm left nothing runs and nothing changes. |
| EngineFacts.CaseFirstMatch | src/nodes/selection/case.cpp:95-100 | The first matching arm runs its block, and later arms are not evaluated. |
| EngineFacts.CaseNoArmLeft | src/nodes/selection/case.cpp:95-102 | With no arm left nothing runs and nothing changes. |
| EngineFacts.CaseScrutineeOnce | src/nodes/selection/case.cpp:92-93 | The scrutinee is evaluated once, before any arm. |
| EngineFacts.OtherwiseMatches | src/nodes/selection/case.cpp:83-85 | OTHERWISE matches without evaluating anything. |
| EngineFacts.RangeNonNumeric | src/nodes/selection/case.cpp:56-59 | A range arm with a non-numeric scrutinee fails without evaluating its bounds. |
| EngineFacts.RangeBounds | src/nodes/selection/case.cpp:61-75 | The lower bound is evaluated first and must be a number, then the upper. Integers are read through the host's int-to-double conversion `intToReal`. The test is inclusive at both ends. |
| EngineFacts.EqualsArmMatch | src/nodes/selection/case.cpp:15-48 | An equals arm evaluates its value and matches by CASE equality. |
| ResolverFacts.NameResolution | src/nodes/variable/resolver.cpp:98-107 | A name is a variable (local, then root) before an array (local, then root). Otherwise it is NotDefined. |
| ResolverFacts.DerefNeedsPointer | src/nodes/variable/resolver.cpp:14-20 | Only a non-array variable of the pointer class can be dereferenced. Anything else is invalid usage. |
| ResolverFacts.DerefOutcomes | src/nodes/variable/resolver.cpp:22-35 | For the corrected Engine.DerefStep, which checks for null first (see Findings): a null target is an uninitialised pointer. A recorded scope that is neither the current scope nor an ancestor of it is a deleted object. Otherwise the result is the target. |
| ResolverFacts.DerefOutcomesAsWritten | src/nodes/variable/resolver.cpp:22-35 | For the dereference as written, scope walk first: a pointer with no recorded scope, or one whose recorded scope is neither the current scope nor an ancestor of it, is a deleted object whatever its target. Only then is a null target an uninitialised pointer. Otherwise the result is the target. |
| ResolverFacts.DerefOrderMattersOnlyForNull | src/nodes/variable/resolver.cpp:22-35 | The two orders of the checks agree on every pointer with a target. |
| ResolverFacts.DefaultPointerIsNull | src/interpreter/types/userType.cpp:25-26 | A declared pointer starts with no target and no recorded scope. The constructor sets only the definition name; the null target and scope are member initialisers of the Pointer class header, which is not part of this model, and are taken as null. |
| ResolverFacts.NeverAssignedPointer | src/nodes/variable/resolver.cpp:23-33 | As written, a never-assigned pointer reports a deleted object. With the null check first it reports an uninitialised pointer. |
| ResolverFacts.MemberLookup | src/nodes/variable/resolver.cpp:45-58 | A member is looked up in the record scope, variable before array, with the root as fallback. A missing member names both the type and the member. |
| ResolverFacts.MemberNeedsComposite | src/nodes/variable/resolver.cpp:45-52 | Only a non-array variable of class COMPOSITE has members. |
| ResolverFacts.IndexingNonArray | src/nodes/variable/resolver.cpp:69-72 | Indexing a variable is an error that names it. |
| ResolverFacts.IndexCountFirst | src/nodes/variable/resolver.cpp:73-75 | A wrong number of indices is rejected before any index is evaluated. |
| ResolverFacts.IndexElement | src/nodes/variable/resolver.cpp:94-95 | Once every index is valid, the result is the cell at the stride offset of the tuple. |
| ResolverFacts.IndexChecked | src/nodes/variable/resolver.cpp:80-92 | Each index must be INTEGER and valid for its dimension, and the first failure stops the evaluation. |
| ResolverFacts.IndicesInBounds | src/nodes/variable/resolver.cpp:80-92 | The indices come back in order, one per expression, each valid for its dimension. |
| ResolverFacts.ReadFallsBackToEnum | src/nodes/variable/variable.cpp:142-147 | A name that resolves to nothing reads as the enum constant of that name, if there is one. |
| ResolverFacts.ReadArrayIsDirectAccess | src/nodes/variable/variable.cpp:149-152 | Reading a whole array is an ArrayDirectAccess error. |
| ResolverFacts.ReadVariableValue | src/nodes/variable/variable.cpp:149-187 | A read gives the variable's value, named with the variable's type. |
| ResolverFacts.DeclareChecks | src/nodes/variable/variable.cpp:11-23 | DECLARE checks, in order, for a local variable of that name, a type or enum-constant name, and an unknown type. Each of these three failures leaves the store as it was. A pass creates a default variable and adds it to the current scope. |
| ResolverFacts.DeclareInOrder | src/nodes/variable/variable.cpp:11-23 | A failure at one identifier keeps every earlier declaration, and a success goes on with the next identifier. |
| ResolverFacts.ConstValueFirst | src/nodes/variable/variable.cpp:33-38 | CONSTANT evaluates its value before the redeclaration check, and that check looks at the store the value left. |
| ResolverFacts.ConstAdds | src/nodes/variable/variable.cpp:33-42 | A constant holds a copy of the value, with the value's type, flagged constant, in the current scope. |
| ResolverFacts.AssignValueFirst | src/nodes/variable/variable.cpp:66-78 | The value is evaluated before the target. Its error or signal ends the assignment with the target untouched, unless it is a whole-array read in this very scope. |
| ResolverFacts.AssignImplicitDeclare | src/nodes/variable/variable.cpp:83-90 | An undefined plain-name target is declared locally with the value's type, unless the name is a type or enum constant. Any other undefined target passes the error on. |
| ResolverFacts.AssignToArray | src/nodes/variable/variable.cpp:78-80 | A resolved whole array cannot be assigned a value. |
| ResolverFacts.AssignChecks | src/nodes/variable/variable.cpp:92-97 | A constant target is ConstAssign. A type that still differs after the implicit cast is invalid usage. |
| ResolverFacts.AssignPrimitiveInPlace | src/nodes/variable/variable.cpp:99-117 | A primitive value is written into the shared storage, so every alias sees it. |
| ResolverFacts.AssignEnumIndex | src/interpreter/types/userType.cpp:11-14 | An enum assignment copies only the index, and aborts on differing definitions. |
| ResolverFacts.ArrayBoundsShape | src/nodes/variable/array.cpp:15 | An empty or odd-length list of bounds aborts. |
| ResolverFacts.ArrayRedeclaredFirst | src/nodes/variable/array.cpp:17-20 | Every name is checked against the local arrays before any bound is evaluated, and the first clash is reported. |
| ResolverFacts.BoundsChecked | src/nodes/variable/array.cpp:24-37 | The lower bound is evaluated first. Both bounds must be INTEGER, and an upper bound below the lower is an error. |
| ResolverFacts.BoundsNumbered | src/nodes/variable/array.cpp:22-40 | There is one dimension per pair of bounds, numbered by position, each with upper ≥ lower. |
| ResolverFacts.ArrayCopyChecks | src/nodes/variable/variable.cpp:49-64 | A whole-array copy needs the same element type and the same dimensions. |
| ResolverFacts.ArrayCopyNeedsAccess | src/nodes/variable/variable.cpp:49-55 | Only an access path can be copied as a whole array. Any other value keeps the original error. |
| ResolverFacts.PointerSideFirst | src/nodes/variable/pointer.cpp:33-35 | The pointer side is resolved first and must not be an array. |
| ResolverFacts.PointerToArrayRejected | src/nodes/variable/pointer.cpp:37-39 | A value side that is an array is rejected. |
| ResolverFacts.PointerChecks | src/nodes/variable/pointer.cpp:44-50 | The pointer side must have the pointer class, and its definition's pointee type must equal the value's type. A failed check leaves the store as it was. |
| ResolverFacts.PointerStoresOwner | src/nodes/variable/pointer.cpp:52-54 | The pointer stores the owner of the value, never the alias it was reached through, and the first scope above the owner that is not a record scope. |
| CallFacts.ParamsResolvedInOrder | src/nodes/functions/procedure.cpp:29-41 | Resolved parameters are one per declaration, in order, keeping name and pass mode with the resolved, defined type. |
| CallFacts.ParamTypeUndefined | src/nodes/functions/procedure.cpp:33-36 | The first parameter type that does not resolve stops the definition at that type's token. |
| CallFacts.ProcedureDefined | src/nodes/functions/procedure.cpp:29-41 | A new procedure is appended to the defining scope with its resolved parameters and its block. |
| CallFacts.ProcedureParamFails | src/nodes/functions/procedure.cpp:33-36 | A parameter type that does not resolve leaves the store without the procedure. |
| CallFacts.FunctionReturnTypeFirst | src/nodes/functions/function.cpp:31-33 | The return type is resolved before the parameter types and is reported at its own token. |
| CallFacts.FunctionDefined | src/nodes/functions/function.cpp:35-47 | A new function is appended with its resolved return type, its parameters, its block and its token. |
| CallFacts.ArgsOnePerExpr | src/nodes/functions/procedure.cpp:62-65 | The argument loop gives one result per expression, after those collected before. |
| CallFacts.ArgsLeftToRight | src/nodes/functions/procedure.cpp:62-65 | Argument i is evaluated in the store that the earlier arguments left. |
| CallFacts.UnknownProcedure | src/nodes/functions/procedure.cpp:52-55 | An unknown procedure is NotDefined before any argument is evaluated. |
| CallFacts.ProcedureArity | src/nodes/functions/procedure.cpp:67-69 | A wrong argument count, found after the arguments, is InvalidArgs with the parameter types and the argument types. |
| CallFacts.ProcedureEntered | src/nodes/functions/procedure.cpp:67-71 | With the right count, the call enters the procedure with the values the arguments gave. |
| CallFacts.ProcedureBody | src/nodes/functions/procedure.cpp:71-136 | The body runs in a fresh plain child of the caller, so no signal is caught: BREAK, CONTINUE, RETURN and errors are the call's own outcome. |
| CallFacts.BindTypeChecked | src/nodes/functions/procedure.cpp:78-80 | A by-value argument whose cast type differs from the parameter's is InvalidArgs. |
| CallFacts.BindByValue | src/nodes/functions/procedure.cpp:94-130 | A by-value argument is copied into a fresh callee variable named and typed as the parameter. |
| CallFacts.ByValueCell | src/nodes/functions/procedure.cpp:120-127 | A by-value parameter's cell has the parameter's name, is not constant, belongs to the callee and owns the cast argument. |
| CallFacts.BindOnePrimitive | src/nodes/functions/procedure.cpp:94-130 | Binding a primitive by-value argument allocates its cell under the next identity, holding the cast argument, and appends it to the callee's variables. Nothing else changes. |
| CallFacts.CellsBoundStep | src/nodes/functions/procedure.cpp:94-130 | Binding one cell and then the rest is binding all of them. |
| CallFacts.NewDefaultPrimitive | src/interpreter/variable.cpp:20-50 | A new variable of a primitive type is allocated under the next identity holding the default of its tag. |
| CallFacts.AssignIntoPrimitive | src/nodes/functions/procedure.cpp:97-113 | Copying a primitive of the variable's own tag into it writes that value into the variable's storage and nothing else. |
| CallFacts.AllocThenWrite | src/nodes/functions/procedure.cpp:95-113 | Creating the parameter variable and then copying `v` into it gives the store with one new owning cell under the next identity, holding `v`. |
| CallFacts.CellsKeepOld | src/nodes/functions/procedure.cpp:94-130 | Adding parameter i's cell and then the rest keeps every variable that existed before, unchanged. |
| CallFacts.CellsInOrder | src/nodes/functions/procedure.cpp:94-130 | The cells bound from parameter i on take consecutive identities from the next one, each holding its own parameter's cast argument. |
| CallFacts.CellsInScopes | src/nodes/functions/procedure.cpp:94-130 | Binding the cells changes no scope other than the callee, whose variable list grows by those identities in parameter order. |
| CallFacts.WithCellFresh | src/interpreter/variable.cpp:13-18 | Adding a by-value cell under the next identity keeps the store fresh: every scope, variable and array identity in use stays below the next one. |
| CallFacts.BindFromPrimitiveStep | src/nodes/functions/procedure.cpp:74-131 | One round of the binding loop on a primitive by-value parameter adds its cell, then binds the rest from the new store. |
| CallFacts.CellsFromBound | src/nodes/functions/procedure.cpp:94-130 | Adding the cells one at a time keeps the store fresh and binds them as CellsBound describes. |
| CallFacts.BindFromCells | src/nodes/functions/procedure.cpp:74-131 | With primitive by-value parameters only and enough fuel, the binding loop completes and its store is exactly the store with the cells added one per parameter, in order. |
| CallFacts.BindAllPrimitive | src/nodes/functions/procedure.cpp:94-130 | When every parameter is by value and its cast argument is a primitive of its type, binding completes given enough fuel. Each parameter gets a fresh cell, in order, appended to the callee's variables. Every variable that existed before is unchanged, and so is every other scope, the caller's included. |
| CallFacts.ByRefNeedsAccess | src/nodes/functions/procedure.cpp:83-86 | A by-reference argument must be an access path. |
| CallFacts.BindByReference | src/nodes/functions/procedure.cpp:88-93 | A by-reference argument is resolved again in the caller. An array is refused. A variable is bound as an alias of its owner under the parameter's name. |
| CallFacts.UnknownFunction | src/nodes/functions/function.cpp:58-61 | An unknown function is NotDefined before any argument is evaluated. |
| CallFacts.FunctionArity | src/nodes/functions/function.cpp:68-75 | A function call checks its arity after the arguments, and a mismatch is InvalidArgs. |
| CallFacts.FunctionBodySignals | src/nodes/functions/function.cpp:77-146 | The body runs in a fresh function scope with the return type. Only RETURN is caught: it and completion take the result from the slot, while BREAK, CONTINUE and errors leave the call. |
| CallFacts.FunctionResultSlot | src/nodes/functions/function.cpp:145-150 | The result is the slot's value. An empty slot is "Missing RETURN" at the definition token, in the callee scope. |
| CallFacts.ReturnOutsideFunctionScope | src/nodes/functions/function.cpp:154-155 | RETURN outside a function scope is invalid usage and changes nothing. |
| CallFacts.ReturnInProcedure | src/nodes/functions/procedure.cpp:71 | A RETURN directly in a procedure body is refused, because the callee scope is not a function scope. |
| CallFacts.ReturnStoresValue | src/nodes/functions/function.cpp:157-163 | RETURN stores the cast value in the slot. It raises the RETURN signal exactly when the type matches, and otherwise "Invalid return type" with the slot already written. |
| DefinitionFacts.EnumDefinitionVisible | src/nodes/variable/enum.cpp:10-17 | A new enumeration is what its name resolves to in the defining scope, with its values in source order. |
| DefinitionFacts.EnumRedefinitionRefused | src/nodes/variable/enum.cpp:11-12 | Defining the same enumeration name twice in one scope is a redefinition. |
| DefinitionFacts.EnumClashIsLocal | src/nodes/variable/enum.cpp:11 | The clash check is local: a scope without its own types accepts any name, and the values are not checked. |
| DefinitionFacts.PointerTargetFirst | src/nodes/variable/pointer.cpp:11-13 | An undefined pointee is NotDefined, checked before the name clash. |
| DefinitionFacts.PointerNameClash | src/nodes/variable/pointer.cpp:15-16 | A taken local name is a redefinition once the pointee resolves. |
| DefinitionFacts.PointerDefinitionVisible | src/nodes/variable/pointer.cpp:18-19 | A new pointer type is what its name resolves to, with the resolved pointee. |
| DefinitionFacts.PointerRedefinitionRefused | src/nodes/variable/pointer.cpp:15-19 | Defining the same pointer type name twice in one scope is a redefinition. |
| DefinitionFacts.CompositeDefinitionVisible | src/nodes/variable/composite.cpp:10-16 | A new record type is what its name resolves to and holds the init block. The block does not run: no variable or scope is created. |
| DefinitionFacts.CompositeRedefinitionRefused | src/nodes/variable/composite.cpp:11-12 | Defining the same record name twice in one scope is a redefinition. |
| DefinitionFacts.EnumEveryRunListsValues | src/nodes/variable/enum.cpp:10-16 | Every run of the definition, in a scope with no enumerations yet, makes each listed constant an element of the new enumeration. |
| DefinitionFacts.EnumSecondRunHasNoValues | src/nodes/variable/enum.cpp:14 | With the node's list moved out, the first run registers the constants and a second run of the same node registers an enumeration with none, so no name is one of its elements. |
| DefinitionFacts.NoValuesNoElements | src/interpreter/scope/context.cpp:211-220 | A scope whose one enumeration lists no constants resolves no name as an enum constant. |
| Engine.EnumDefineStep | src/nodes/variable/enum.cpp:10-16 | EnumDefineNode with the node's list intact: a taken local type name or enum constant is a redefinition, otherwise the definition with every listed constant is added; DefinitionFacts.EnumDefinitionVisible and EnumEveryRunListsValues state the result. |
| Engine.EnumDefineStepAsWritten | src/nodes/variable/enum.cpp:7-16 | The same outcome as EnumDefineStep, and the node's list afterwards: empty after a run that defines the enumeration, unchanged after a redefinition error. |
| Engine.CompositeDefineStep | src/nodes/variable/composite.cpp:10-17 | A taken local type name is a redefinition; otherwise the record type is added with its init block unrun (DefinitionFacts.CompositeDefinitionVisible). |
| Engine.Eval | src/nodes/eval/arithmetic.cpp:17-203 | Node::evaluate for every expression node (literals, access, negation, arithmetic, comparison, logic, cast, concatenation in comparison.cpp, logic.cpp and stringcat.cpp, function calls); the operator modules (Operators.Arith, Operators.Compare, Operators.Logic, Operators.Concat) and ResolverFacts.ReadVariableValue state what each case gives. |
| Engine.Exec | src/interpreter/scope/block.cpp:77-81 | Node::evaluate for every statement node, dispatching to the step functions below; EngineFacts.BlockRunsInOrder and BlockStopsAtSignal state how a block runs them. |
| Engine.Resolve | src/nodes/variable/resolver.cpp:13-107 | The four resolvers: plain name, dereference, member, element; ResolverFacts.NameResolution, DerefOutcomes, MemberLookup and IndexElement state each. |
| Engine.ReadVar | src/nodes/variable/variable.cpp:152-187 | AccessNode's copy of a variable's value with the variable's type (ResolverFacts.ReadVariableValue). |
| Engine.NewDefault | src/interpreter/variable.cpp:13-51 | A new owning variable with the type's default value, a record type running its init block (CallFacts.NewDefaultPrimitive). |
| Engine.NewRecord | src/interpreter/types/userType.cpp:58-63 | The Composite constructor: a record scope below the parent, then the definition's init block run in it. |
| Engine.AssignInto | src/nodes/variable/variable.cpp:99-129 | The per-type in-place assignment of a value to a variable (CallFacts.AssignIntoPrimitive, ResolverFacts.AssignEnumIndex). |
| Engine.DeepCopyAs | src/interpreter/variable.cpp:61-99 | `Variable::set` with copying: a deep copy chosen by the variable's own type, a record copied through a new scope. |
| Engine.CloneScope | src/interpreter/scope/context.cpp:29-40 | The Context copy constructor: every variable deep-copied into the copy, array headers copied without cells. |
| Engine.DeclareOne | src/nodes/variable/variable.cpp:12-22 | One identifier of a DECLARE: local clash, type name, known type, then added (ResolverFacts.DeclareChecks). |
| Engine.ExecConst | src/nodes/variable/variable.cpp:33-43 | CONSTANT: the value first, then the local clash check, then a constant holding a copy (ResolverFacts.ConstValueFirst, ConstAdds). |
| Engine.ExecAssign | src/nodes/variable/variable.cpp:66-74 | Assignment: the value first; an array direct-access error of this scope becomes a whole-array copy (ResolverFacts.AssignValueFirst, AssignToArray). |
| Engine.AssignTarget | src/nodes/variable/variable.cpp:76-98 | The target side: resolve, declare an unknown plain name with the value's type, refuse constants and incompatible types (ResolverFacts.AssignImplicitDeclare, AssignChecks, AssignPrimitiveInPlace). |
| Engine.AssignArray | src/nodes/variable/variable.cpp:49-64 | The whole-array copy: access-node check, both sides resolved, shape and element type compared, cells copied (ResolverFacts.ArrayCopyChecks, ArrayCopyNeedsAccess). |
| Engine.CopyCells | src/interpreter/array.cpp:34-38 | Array::copyData from one cell on; Machines.Machine.CopyData computes it. |
| Engine.ExecArrayDeclare | src/nodes/variable/array.cpp:14-53 | ARRAY declaration: bound-list shape, local clash for every name, bounds evaluated in pairs, then one initialised array per name (ResolverFacts.ArrayBoundsShape, ArrayRedeclaredFirst, BoundsChecked). |
| Engine.InitCells | src/interpreter/array.cpp:50-62 | Array::init: one fresh default cell per slot up to the capacity; Machines.Machine.InitArray computes it. |
| Engine.ExecPointerAssign | src/nodes/variable/pointer.cpp:32-57 | Pointer assignment: the pointer side first, then the target; tag and pointee checks; the owner and its first non-record scope recorded (ResolverFacts.PointerSideFirst, PointerChecks, PointerStoresOwner). |
| Engine.IfArms | src/nodes/selection/ifStatement.cpp:15-33 | The first true condition's block runs, an ELSE arm always (EngineFacts.IfCondition, IfElseRuns, IfNoArmLeft). |
| Engine.MatchArm | src/nodes/selection/case.cpp:15-86 | One CASE arm's match: equality, range bounds, OTHERWISE (EngineFacts.EqualsArmMatch, RangeBounds, OtherwiseMatches). |
| Engine.ExecCase | src/nodes/selection/case.cpp:92-103 | The scrutinee evaluated once, then the first matching arm runs (EngineFacts.CaseScrutineeOnce, CaseFirstMatch). |
| Engine.WhileLoop | src/nodes/loop/while.cpp:11-30 | The condition before each round; BREAK ends, CONTINUE re-tests (EngineFacts.WhileBody, WhileFalseSkipsBody). |
| Engine.RepeatLoop | src/nodes/loop/repeatUntil.cpp:11-30 | The body before each test; BREAK ends, CONTINUE skips the test (EngineFacts.RepeatBody, RepeatUntilTest). |
| Engine.ExecFor | src/nodes/loop/for.cpp:16-55 | FOR setup: the iterator found or declared and checked, start, stop and step evaluated in order (EngineFacts.ForIteratorFirst, ForStepDefault). |
| Engine.ForFrom | src/nodes/loop/for.cpp:56-69 | The FOR loop proper: test, body, advance (EngineFacts.ForRunsRounds, ForRoundsCount). |
| Engine.ForAdvance | src/nodes/loop/for.cpp:60 | The step added to the stored iterator before the next test (EngineFacts.ForAdvanceAddsStep). |
| Engine.EvalArgs | src/nodes/functions/procedure.cpp:62-65 | The arguments left to right in the caller's scope (CallFacts.ArgsOnePerExpr, ArgsLeftToRight). |
| Engine.BindOne | src/nodes/functions/procedure.cpp:75-130 | One parameter bound: cast, type check, by reference an alias of an access node's variable, by value a fresh copy (CallFacts.BindTypeChecked, BindByValue, BindByReference, BindOnePrimitive). |
| Engine.CallProcedure | src/nodes/functions/procedure.cpp:51-69 | CALL: lookup, arguments, arity (CallFacts.UnknownProcedure, ProcedureArity). |
| Engine.EnterProcedure | src/nodes/functions/procedure.cpp:71-136 | A fresh child scope, the arguments bound, the body run there (CallFacts.ProcedureEntered, ProcedureBody). |
| Engine.CallFunction | src/nodes/functions/function.cpp:57-75 | A function call: lookup, arguments, arity (CallFacts.UnknownFunction, FunctionArity). |
| Engine.EnterFunction | src/nodes/functions/function.cpp:77-150 | A function scope with the return type; only RETURN is caught and an empty slot is an error (CallFacts.FunctionBodySignals, FunctionResultSlot). |
| Engine.RunBody | src/interpreter/procedure.cpp:34-36 | A routine's body run in its own scope: a user block, or a built-in's code (Engine.RunBuiltin). |
| Engine.ExecReturn | src/nodes/functions/function.cpp:153-164 | RETURN: only in a function scope; cast, stored, then type-checked (CallFacts.ReturnOutsideFunctionScope, ReturnStoresValue). |

## Left out

- Console and file I/O (io.cpp, file.cpp, the EOF built-in) are not part of this model: they depend on an external file manager.
- The math, numeric and date built-ins and NUM_TO_STR/STR_TO_NUM are left out: they are libm calls, `rand()`, the system clock, and Real formatting and parsing.
- The REPL, the command line, the statement parsers other than the parameter lists and argument lists, error message texts and type names are left out: they hold no engine logic.
- The Integer/Real operator bodies, the primitive conversions and the default values of the value classes are declared in headers that are not part of this model. They are fields of `Prims`, and nothing is assumed about them.
- Memory reclamation is not modelled: scopes, variables and arrays are never removed, and identities are never reused. A pointer into a finished call scope is caught by the ancestor walk, as in the source. A dangling alias reads stale storage, where the host has undefined behaviour.
- Host aborts, null dereferences and bad casts become the `Aborted` signal. `int_t` is unbounded here, so 64-bit overflow of Integer arithmetic, of FOR counters and of array offsets is not modelled.
- A bad `std::stoul` field in a date literal (no digits after the optional white space and sign, or a value of 2^64 or more) is modelled as a host abort (`Aborted`), not as a C++ exception, and it happens later than on the host: makeDate runs when the parser builds the DateNode (src/nodes/eval/arithmetic.cpp:68-70), and the `std::invalid_argument` it throws is not an `Interpreter::Error`, so it escapes the handler at src/launch/run.cpp:32-44 and the program stops before any statement runs, while the model aborts only when that literal is evaluated. Day and month values above 255 are kept whole, although `std::chrono` leaves them unspecified.
- Evaluation carries a `fuel` bound. Running out gives the `OutOfFuel` signal, which the host does not have, so non-terminating programs are not modelled beyond the bound.
- Coercion.ImplicitCast: the source rewrites the result in place. The model returns the rewritten result as a new value.
- The operators, the cast and the CASE comparisons are modelled as functions over already-evaluated operands. The order of operand evaluation is in the engine.
- Arrays.CopyArray: a record copy clones its arrays without cells, as the Array copy constructor does. In the model, indexing such an array aborts, while the host reads past an empty vector.
- Machines.Machine.InitArray: the spare capacity that `reserve` may leave is the parameter `slack` of `Prims`, so the exact number of cells beyond Π size_d is not fixed.
- Machines.Machine.Bind: requires equal numbers of parameters, arguments and values, which the arity check before it guarantees.
- Machines.Machine.Indices and Machines.Machine.Bounds: require the index count and the even bound count that the checks before them guarantee.
- Engine.DerefStep, Engine.MemberStep, Engine.PointerStore, Engine.ResolveParams, Engine.ProcedureDefStep and Engine.FunctionDefStep carry only frame and first-check contracts. Their full behaviour is stated by the ResolverFacts, CallFacts and DefinitionFacts lemmas.
- The equality operators follow the code, not the prose description of the language. `=` and `<>` on two Pointers or two Records raise invalid usage (comparison.cpp:80-82). In CASE arms a Pointer matches by target and a Record never matches.
- The built-in registration list holds only the built-ins modelled here, in source order. So a user FUNCTION named like an unmodelled built-in, such as SQRT (math.cpp:162), is accepted by Engine.FunctionDefStep, where the host reports a redefinition.
- Operators.Arith: Enum ± Integer uses the corrected Operators.EnumWrap, as does everything built on it. As written (arithmetic.cpp:151), stepping back past the first value gives the raw index 2^64 − 1 reduced modulo the value count, not the last value. That is Operators.EnumWrapAsWritten, shown by Operators.EnumPredecessorOfFirst (see Findings).
- ResolverFacts.DerefOutcomes: states the corrected Engine.DerefStep, which Engine.Resolve uses. As written (resolver.cpp:23-33), a pointer that was never assigned is reported as a deleted object, not as an uninitialised pointer. That order is Engine.DerefStepAsWritten, stated by ResolverFacts.DerefOutcomesAsWritten (see Findings).
- Operators.CaseEquals and EngineFacts.RangeBounds: `real_t` is a Dafny `real`, so NaN and the infinities are not modelled. A NaN scrutinee or bound, which matches nothing in the host, cannot arise here. The int-to-double rounding is the `intToReal` field of `Prims`; nothing is assumed about it.
- Dates.DateOk rejects years above 32767. `std::chrono::year` keeps a `short`, so the host truncates a larger year literal (1/1/67556 becomes 1/1/2020, a valid date). That truncation is not modelled.
- Builtins.Asc and Builtins.Chr assume the host `char` is signed, as on x86 (char.cpp:48-73). Builtins.ToUpperChar, Builtins.ToLowerChar and the string case built-ins assume the "C" locale of `toupper` and `tolower` (char.cpp:19,36, string.cpp:147,166).
- Engine.EnumDefineStep and DefinitionFacts.EnumDefinitionVisible: the node's list of constants is moved into the definition (src/nodes/variable/enum.cpp:14), so on the host a second run of the same TYPE node (a procedure called twice) defines the enumeration with no constants. Exec uses the corrected step, which keeps the list on every run; the moved-from state per node is captured only by Engine.EnumDefineStepAsWritten, which takes the moved-from vector to be empty (the C++ standard leaves it valid but unspecified). See Findings.

## Findings

| source | as written | input that shows it | evidently intended | confidence | as-written member | corrected member |
|---|---|---|---|---|---|---|
| src/nodes/eval/arithmetic.cpp:151 | `res %= enumSize` converts the signed raw index to the unsigned `size_t` before the remainder, so the later `res < 0` correction never applies | for an enum with three values, the first value minus 1: raw index -1 becomes 2^64 - 1, which is 0 modulo 3 | stepping back from the first value wraps to the last one (index 2) | not executed | Operators.EnumWrapAsWritten, shown by Operators.EnumPredecessorOfFirst | Operators.EnumWrap |
| src/nodes/variable/resolver.cpp:23-33 | the scope walk runs before the null-target check, and a never-assigned pointer records no scope, so the walk ends at the root | dereferencing a pointer that was declared and never assigned | the error "Attempt to access uninitalized pointer" | not executed | Engine.DerefStepAsWritten, shown by ResolverFacts.NeverAssignedPointer | Engine.DerefStep |
| src/nodes/variable/enum.cpp:14 | `std::move(values)` moves the node's own list into the definition, so the node holds no constants after its first run | `PROCEDURE P` containing `TYPE Season = (Spring, Summer)`, `DECLARE s : Season` and `s <- Summer`, then `CALL P` twice: the second call defines Season with no constants and `Summer` is NotDefined | every run of the definition lists all the constants | not executed | Engine.EnumDefineStepAsWritten, shown by DefinitionFacts.EnumSecondRunHasNoValues | Engine.EnumDefineStep, with DefinitionFacts.EnumDefinitionVisible and DefinitionFacts.EnumEveryRunListsValues |
