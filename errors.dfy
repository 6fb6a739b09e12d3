/**
 * Runtime errors and the non-local exits of the interpreter: the classes of
 * error.h that the execution engine throws, the BREAK, CONTINUE and RETURN
 * signals, and the outcome that every evaluation step returns in their place.
 */
module Errors {
  import opened Types
  import opened Values

  /**
   * A source position. `BuiltinTok` is the shared placeholder token that the
   * built-in functions attach to the errors they raise.
   */
  datatype Tok = Tok(line: int, column: int) | BuiltinTok

  /** What a NotDefinedError names. */
  datatype Undefined =
    | UndefinedIdentifier(name: string)
    | UndefinedType(name: string)
    | UndefinedProcedure(name: string)
    | UndefinedFunction(name: string)

  /** The operator or statement that an InvalidUsageError names. */
  datatype Usage =
    | DerefNonPointer
    | MemberOfNonComposite
    | NegateOperand
    | ArithOperands(op: ArithOp)
    | CompareNumeric(cmp: CmpOp)
    | CompareComparable(cmp: CmpOp)
    | LogicOperands(isAnd: bool)
    | NotOperand
    | AssignIncompatible
    | ReturnOutsideFunction
    | BreakStatement
    | ContinueStatement

  /** The message of a plain RuntimeError, one constructor per message. */
  datatype Failure =
    | DeletedObject(pointer: string)
    | UninitializedPointer
    | NoMember(typeName: string, member: string)
    | IndexNonArray(name: string)
    | IndexCount
    | IndexNotInteger
    | IndexOutOfBounds
    | TypeAsVariable(name: string)
    | ArrayTypeMismatch
    | ArrayDimsMismatch
    | UpperBelowLower
    | PointerToArray
    | AssignToNonPointer
    | PointerTypeMismatch
    | InvalidDate
    | DivisionByZero
    | ModulusByZero
    | LowerBoundType
    | UpperBoundType
    | IteratorNotInteger
    | StartNotInteger
    | StopNotInteger
    | StepNotInteger
    | ByRefNotAccess
    | MissingReturn
    | InvalidReturnType
    | RightNegative
    | RightTooLong
    | MidIndexNegative
    | MidIndexTooLarge
    | MidLengthNegative
    | MidTooLong
    | LeftNegative
    | LeftTooLong

  /**
   * One constructor per error class. `Abort` stands for a path on which the
   * host program calls std::abort or dereferences a null definition.
   */
  datatype ErrorKind =
    | NotDefined(what: Undefined)
    | Redeclaration(name: string)
    | Redefinition(name: string)
    | ConstAssign(name: string)
    | TypeOperation(op: string)
    | InvalidUsage(usage: Usage)
    | ConditionType
    | InvalidArgs(expected: seq<DataType>, actual: seq<DataType>)
    | ArrayDirectAccess
    | Runtime(failure: Failure)
    | Abort

  /** The outcome of an operation that needs no context to fail. */
  datatype Result<T> = Ok(value: T) | Fail(kind: ErrorKind)

  /** A thrown RuntimeError: its class, its token and the scope it names. */
  datatype Error = Error(kind: ErrorKind, at: Tok, scope: ScopeId)

  /**
   * Everything that unwinds the interpreter's stack. `Aborted` is the host
   * calling std::abort (or dereferencing a null definition), which ends the
   * whole process and is caught nowhere. `OutOfFuel` marks a
   * computation cut off by the model's step bound and has no counterpart in
   * the interpreter.
   */
  datatype Signal =
    | BreakSig(at: Tok)
    | ContinueSig(at: Tok)
    | ReturnSig
    | Raised(err: Error)
    | Aborted
    | OutOfFuel

  /** A step either completes with a value or unwinds with a signal. */
  datatype Outcome<T> = Done(val: T) | Unwind(sig: Signal)

  /** Raise an error of the given class at a token in a scope. */
  function Throw<T>(kind: ErrorKind, at: Tok, scope: ScopeId): (o: Outcome<T>)
    ensures o.Unwind? && o.sig.Raised? && o.sig.err == Error(kind, at, scope)
  {
    Unwind(Raised(Error(kind, at, scope)))
  }
}
