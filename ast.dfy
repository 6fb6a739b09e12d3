/**
 * The node tree that the parser hands to the execution engine: expression
 * nodes (src/nodes/eval, src/nodes/cast.cpp, AccessNode, FunctionCallNode),
 * the resolver chain of an lvalue (src/nodes/variable/resolver.cpp), and
 * statement nodes with their blocks. Every node keeps the token it was built
 * from, because errors are raised at that token.
 */
module Ast {
  import opened Wrappers
  import opened Types
  import opened Values
  import opened Errors
  import opened Operators

  /** The lexer's classification of a token naming a type. */
  datatype TypeWordKind = TypeKeyword | TypeIdentifier | TypeOther

  /** A type as written: a built-in type keyword or an identifier, with its text and position. */
  datatype TypeName = TypeName(kind: TypeWordKind, text: string, at: Tok)

  /** An identifier token. */
  datatype Ident = Ident(text: string, at: Tok)

  datatype Expr =
    | IntLit(at: Tok, i: int)
    | RealLit(at: Tok, x: real)
    | CharLit(at: Tok, c: CChar)
    | StrLit(at: Tok, s: Str)
    | BoolLit(at: Tok, word: BoolWord)
      /** A DATE literal keeps its text; it is split when the node is built. */
    | DateLit(at: Tok, literal: Str)
      /** AccessNode: `text` is the text of the node's own token. */
    | Access(at: Tok, text: string, path: Path)
    | Neg(at: Tok, e: Expr)
    | ArithE(at: Tok, op: ArithOp, l: Expr, r: Expr)
    | CmpE(at: Tok, cmp: CmpOp, l: Expr, r: Expr)
    | LogicE(at: Tok, isAnd: bool, l: Expr, r: Expr)
    | NotE(at: Tok, e: Expr)
      /** CastNode: the parser has already resolved the target type. */
    | CastE(at: Tok, e: Expr, target: DataType)
    | ConcatE(at: Tok, l: Expr, r: Expr)
    | CallF(at: Tok, name: string, args: seq<Expr>)

  /** The resolver chain: SimpleVariableSource at the bottom, then `^`, `.` and `[...]`. */
  datatype Path =
    | Name(at: Tok, name: string)
    | Deref(at: Tok, inner: Path)
    | Member(at: Tok, inner: Path, member: string)
    | Index(at: Tok, inner: Path, indices: seq<Expr>)

  /** One declared parameter as the definition node holds it. */
  datatype ParamDecl = ParamDecl(name: string, typ: TypeName, byRef: bool)

  /** An IF component; no condition marks the ELSE arm. */
  datatype IfArm = IfArm(cond: Option<Expr>, body: seq<Stmt>)

  /** The three kinds of CASE component. */
  datatype CaseArm =
    | EqualsArm(value: Expr, body: seq<Stmt>)
    | RangeArm(lower: Expr, upper: Expr, body: seq<Stmt>)
    | OtherwiseArm(body: seq<Stmt>)

  datatype Stmt =
    | Declare(at: Tok, names: seq<Ident>, typ: TypeName)
    | ConstDeclare(at: Tok, ident: Ident, value: Expr)
    | Assign(at: Tok, target: Path, value: Expr)
    | ArrayDeclare(at: Tok, names: seq<Ident>, typ: TypeName, bounds: seq<Expr>)
    | PointerDefine(at: Tok, ident: Ident, pointee: TypeName)
    | PointerAssign(at: Tok, ptr: Path, source: Path)
    | EnumDefine(at: Tok, ident: Ident, values: seq<string>)
    | CompositeDefine(at: Tok, ident: Ident, init: seq<Stmt>)
    | If(at: Tok, arms: seq<IfArm>)
    | Case(at: Tok, scrutinee: Expr, cases: seq<CaseArm>)
    | While(at: Tok, cond: Expr, body: seq<Stmt>)
    | Repeat(at: Tok, cond: Expr, body: seq<Stmt>)
    | For(at: Tok, iter: Ident, start: Expr, stop: Expr, step: Option<Expr>, body: seq<Stmt>)
    | Break(at: Tok)
    | Continue(at: Tok)
    | ProcedureDef(at: Tok, name: string, params: seq<ParamDecl>, body: seq<Stmt>)
    | CallProc(at: Tok, name: string, args: seq<Expr>)
    | FunctionDef(at: Tok, name: string, params: seq<ParamDecl>, returnType: TypeName, body: seq<Stmt>)
    | Return(at: Tok, value: Expr)
}
