/**
 * The execution engine: `evaluate` of every expression and statement node,
 * the resolver chain, deep copies of values and record scopes, default
 * construction of variables, and the procedure and function call protocol.
 *
 * Every step takes the store and returns an outcome together with the new
 * store. The interpreter's C++ exceptions become `Unwind` outcomes, and its
 * recursion through nested blocks and calls becomes mutual recursion bounded
 * by `fuel`. When the fuel runs out the step yields `OutOfFuel`, which has
 * no counterpart in the interpreter.
 */
module Engine {
  import opened Wrappers
  import opened Types
  import opened Values
  import opened Errors
  import opened Operators
  import opened Coercion
  import opened Arrays
  import opened Builtins
  import opened Dates
  import opened Ast
  import opened Store

  /** The outcome of a step and the store after it; `:-` propagates every unwinding outcome. */
  datatype Ran<T> = Ran(out: Outcome<T>, st: Store)
  {
    predicate IsFailure()
    {
      out.Unwind?
    }

    function PropagateFailure<U>(): Ran<U>
      requires IsFailure()
    {
      Ran(Unwind(out.sig), st)
    }

    function Extract(): (T, Store)
      requires !IsFailure()
    {
      (out.val, st)
    }
  }

  function Give<T>(v: T, st: Store): (r: Ran<T>)
    ensures r.out == Done(v) && r.st == st
  {
    Ran(Done(v), st)
  }

  /** The host aborts (std::abort, a null dereference or a bad cast). */
  function Crash<T>(st: Store): (r: Ran<T>)
    ensures r.out == Unwind(Aborted) && r.st == st
  {
    Ran(Unwind(Aborted), st)
  }

  function Starved<T>(st: Store): (r: Ran<T>)
    ensures r.out == Unwind(OutOfFuel) && r.st == st
  {
    Ran(Unwind(OutOfFuel), st)
  }

  /** Throw an error of class `k` at a token in a scope; `Abort` stops the host instead. */
  function Raise<T>(k: ErrorKind, at: Tok, ctx: ScopeId, st: Store): (r: Ran<T>)
    ensures r.st == st
    ensures k.Abort? ==> r.out == Unwind(Aborted)
    ensures !k.Abort? ==> r.out == Throw(k, at, ctx)
  {
    if k.Abort? then Crash(st) else Ran(Throw(k, at, ctx), st)
  }

  /** An operator result: its error is thrown at the node's token in the node's scope. */
  function FromResult<T>(r: Result<T>, at: Tok, ctx: ScopeId, st: Store): (o: Ran<T>)
    ensures o.st == st
    ensures r.Ok? ==> o.out == Done(r.value)
    ensures r.Fail? ==> o == Raise(r.kind, at, ctx, st)
  {
    match r
    case Ok(v) => Give(v, st)
    case Fail(k) => Raise(k, at, ctx, st)
  }

  /** The number of values of each enum definition visible from `ctx`, as ArithmeticOperationNode reads it. */
  function EnumCount(st: Store, ctx: ScopeId): string -> Option<nat>
  {
    name => match GetEnumDef(st, ctx, name, true)
            case Some(d) => Some(|d.values|)
            case None => None
  }

  /** The default value of a primitive class (the default constructors of Integer ... Date). */
  function PrimitiveDefault(p: Prims, tag: Tag): (v: Option<Value>)
    ensures v.Some? <==> IsPrimitiveTag(tag)
    ensures v.Some? ==> TagOf(v.value) == tag
  {
    match tag
    case INTEGER => Some(IntV(p.defaultInt))
    case REAL => Some(RealV(p.defaultReal))
    case BOOLEAN => Some(BoolV(p.defaultBool))
    case CHAR => Some(CharV(p.defaultChar))
    case STRING => Some(StrV(p.defaultString))
    case DATE => Some(DateV(p.defaultDate))
    case _ => None
  }

  /** Allocate an owning variable holding `v` (`new Variable(...)`); it is not yet in any scope. */
  function Alloc(st: Store, name: string, t: DataType, isConst: bool, parent: ScopeId, v: Value): (r: Ran<VarId>)
    ensures r.out == Done(st.next) && r.st.next == st.next + 1
    ensures r.st.vars == st.vars[st.next := Variable(name, t, isConst, parent, Owned(v))]
    ensures r.st.scopes == st.scopes && r.st.arrays == st.arrays
  {
    var (id, st2) := NewVar(st, Variable(name, t, isConst, parent, Owned(v)));
    Give(id, st2)
  }

  /** Replace the storage of `id` itself by an owned value (`Variable::set`). */
  function SetStorage(st: Store, id: VarId, v: Value): (st2: Store)
    ensures st2.scopes == st.scopes && st2.arrays == st.arrays && st2.next == st.next
    ensures id in st.vars ==> st2.vars == st.vars[id := st.vars[id].(storage := Owned(v))]
    ensures id !in st.vars ==> st2 == st
  {
    if id in st.vars then st.(vars := st.vars[id := st.vars[id].(storage := Owned(v))]) else st
  }

  /** Fill the return slot of a function scope (`ctx.returnValue = ...`). */
  function SetReturnValue(st: Store, s: ScopeId, v: NodeResult): (st2: Store)
    ensures st2.vars == st.vars && st2.arrays == st.arrays && st2.next == st.next
    ensures st2.scopes.Keys == st.scopes.Keys
    ensures s in st.scopes ==> st2.scopes == st.scopes[s := st.scopes[s].(returnValue := Some(v))]
  {
    if s in st.scopes then st.(scopes := st.scopes[s := st.scopes[s].(returnValue := Some(v))]) else st
  }

  /** The types of a list of results, in order (the `argTypes` vector of a call). */
  function TypesOf(rs: seq<NodeResult>): (ts: seq<DataType>)
    ensures |ts| == |rs| && forall i :: 0 <= i < |rs| ==> ts[i] == rs[i].Type()
  {
    seq(|rs|, i requires 0 <= i < |rs| => rs[i].Type())
  }

  /** Procedure::getTypes: the parameter types in declaration order. */
  function ParamTypes(ps: seq<Parameter>): (ts: seq<DataType>)
    ensures |ts| == |ps| && forall i :: 0 <= i < |ps| ==> ts[i] == ps[i].dtype
  {
    seq(|ps|, i requires 0 <= i < |ps| => ps[i].dtype)
  }

  // =====================================================================
  // Expressions
  // =====================================================================

  /** Node::evaluate for the expression nodes. */
  function Eval(p: Prims, e: Expr, ctx: ScopeId, st: Store, fuel: nat): (ran: Ran<NodeResult>)
    decreases fuel
  {
    if fuel == 0 then Starved(st)
    else
      match e
      case IntLit(_, i) => Give(Unnamed(IntV(i)), st)
      case RealLit(_, x) => Give(Unnamed(RealV(x)), st)
      case CharLit(_, c) => Give(Unnamed(CharV(c)), st)
      case StrLit(_, s) => Give(Unnamed(StrV(s)), st)
      case BoolLit(at, w) =>
        (match BooleanNodeValue(w)
         case Ok(b) => Give(Unnamed(BoolV(b)), st)
         case Fail(k) => Raise(k, at, ctx, st))
      case DateLit(at, text) =>
        (match MakeDate(text)
         case None => Crash(st)
         case Some(d) =>
           if DateOk(d) then Give(Unnamed(DateV(d)), st) else Raise(Runtime(InvalidDate), at, ctx, st))
      case Access(at, text, path) => EvalAccess(p, at, text, path, ctx, st, fuel - 1)
      case Neg(at, x) =>
        var a :- Eval(p, x, ctx, st, fuel - 1);
        FromResult(Negate(p, a.0), at, ctx, a.1)
      case ArithE(at, op, l, r) =>
        var a :- Eval(p, l, ctx, st, fuel - 1);
        var b :- Eval(p, r, ctx, a.1, fuel - 1);
        FromResult(Arith(p, op, a.0, b.0, EnumCount(b.1, ctx)), at, ctx, b.1)
      case CmpE(at, op, l, r) =>
        var a :- Eval(p, l, ctx, st, fuel - 1);
        var b :- Eval(p, r, ctx, a.1, fuel - 1);
        FromResult(Compare(p, op, a.0, b.0), at, ctx, b.1)
      case LogicE(at, isAnd, l, r) =>
        var a :- Eval(p, l, ctx, st, fuel - 1);
        var b :- Eval(p, r, ctx, a.1, fuel - 1);
        FromResult(Logic(isAnd, a.0, b.0), at, ctx, b.1)
      case NotE(at, x) =>
        var a :- Eval(p, x, ctx, st, fuel - 1);
        FromResult(Not(a.0), at, ctx, a.1)
      case CastE(at, x, t) =>
        var a :- Eval(p, x, ctx, st, fuel - 1);
        FromResult(Cast(p, a.0, t), at, ctx, a.1)
      case ConcatE(at, l, r) =>
        var a :- Eval(p, l, ctx, st, fuel - 1);
        var b :- Eval(p, r, ctx, a.1, fuel - 1);
        FromResult(Concat(p, a.0, b.0), at, ctx, b.1)
      case CallF(at, name, args) => CallFunction(p, at, name, args, ctx, st, fuel - 1)
  }

  /**
   * AccessNode::evaluate: resolve the path; a name that resolves to nothing
   * may be an enum constant; a whole array cannot be read as a value; a
   * variable is read as a fresh copy typed with the variable's type.
   */
  function EvalAccess(p: Prims, at: Tok, text: string, path: Path, ctx: ScopeId, st: Store, fuel: nat): (ran: Ran<NodeResult>)
    decreases fuel
  {
    if fuel == 0 then Starved(st)
    else
      var h := Resolve(p, path, ctx, st, fuel - 1);
      match h.out
      case Unwind(Raised(Error(NotDefined(w), eat, esc))) =>
        (match GetEnumElement(h.st, ctx, text, true)
         case Some((d, i)) => Give(NodeResult(EnumV(d, i), Some(d)), h.st)
         case None => Ran(Unwind(Raised(Error(NotDefined(w), eat, esc))), h.st))
      case Unwind(sig) => Ran(Unwind(sig), h.st)
      case Done(ArrHolder(_)) => Raise(ArrayDirectAccess, at, ctx, h.st)
      case Done(VarHolder(x)) => ReadVar(p, x, h.st, fuel - 1)
  }

  /** The copy AccessNode makes of a variable's value, tagged with the variable's type. */
  function ReadVar(p: Prims, x: VarId, st: Store, fuel: nat): (ran: Ran<NodeResult>)
    decreases fuel
  {
    if fuel == 0 then Starved(st)
    else if x !in st.vars then Crash(st)
    else
      var xv := st.vars[x];
      match Read(st, x)
      case None => Crash(st)
      case Some(v) =>
        if xv.dtype.tag == NONE || TagOf(v) != xv.dtype.tag then Crash(st)
        else
          var c :- CopyValue(p, v, st, fuel - 1);
          Give(NodeResult(c.0, xv.dtype.name), c.1)
  }

  // =====================================================================
  // Copies and default construction
  // =====================================================================

  /** The copy constructor of a value: a Composite clones its record scope, every other class is copied as is. */
  function CopyValue(p: Prims, v: Value, st: Store, fuel: nat): (ran: Ran<Value>)
    decreases fuel
  {
    if fuel == 0 then Starved(st)
    else
      match v
      case CompV(d, sc) =>
        var c :- CloneScope(p, sc, st, fuel - 1);
        Give(CompV(d, c.0), c.1)
      case _ => Give(v, st)
  }

  /** `Variable::set(data, true)` and the Variable copy constructor: a deep copy made by the variable's own tag. */
  function DeepCopyAs(p: Prims, tag: Tag, v: Value, st: Store, fuel: nat): (ran: Ran<Value>)
    decreases fuel
  {
    if fuel == 0 then Starved(st)
    else if tag == NONE || TagOf(v) != tag then Crash(st)
    else CopyValue(p, v, st, fuel - 1)
  }

  /**
   * The Context copy constructor: a new scope with the same name, chain,
   * kind, procedures and functions, a deep copy of every variable (re-parented
   * to the copy) and a copy of every array's header without its cells.
   */
  function CloneScope(p: Prims, src: ScopeId, st: Store, fuel: nat): (ran: Ran<ScopeId>)
    decreases fuel
  {
    if fuel == 0 then Starved(st)
    else if src !in st.scopes then Crash(st)
    else
      var sc := st.scopes[src];
      var (cid, st1) := NewScope(st, CloneShell(sc));
      var r :- CopyVarsFrom(p, sc.vars, 0, cid, st1, fuel - 1);
      match CopyArraysFrom(sc.arrays, 0, cid, r.1)
      case None => Crash(r.1)
      case Some(st2) => Give(cid, st2)
  }

  /** The variable part of the copy constructor, from position `i` on. */
  function CopyVarsFrom(p: Prims, ids: seq<VarId>, i: nat, cid: ScopeId, st: Store, fuel: nat): (ran: Ran<()>)
    decreases fuel
  {
    if fuel == 0 then Starved(st)
    else if i >= |ids| then Give((), st)
    else if ids[i] !in st.vars then Crash(st)
    else
      var x := st.vars[ids[i]];
      match Read(st, ids[i])
      case None => Crash(st)
      case Some(v) =>
        var c :- DeepCopyAs(p, x.dtype.tag, v, st, fuel - 1);
        var n := Alloc(c.1, x.name, x.dtype, x.isConst, cid, c.0);
        CopyVarsFrom(p, ids, i + 1, cid, AddVariable(n.st, cid, n.out.val), fuel - 1)
  }

  /** The array part of the copy constructor: headers only (the Array copy constructor copies no cells). */
  function CopyArraysFrom(ids: seq<ArrId>, i: nat, cid: ScopeId, st: Store): (r: Option<Store>)
    decreases |ids| - i
  {
    if i >= |ids| then Some(st)
    else if ids[i] !in st.arrays then None
    else
      var (aid, st1) := NewArray(st, CopyArray(st.arrays[ids[i]]));
      CopyArraysFrom(ids, i + 1, cid, AddArray(st1, cid, aid))
  }

  /**
   * The owning Variable constructor without initial data: a fresh default
   * value for the type, and for a record type a new record scope below
   * `parent` in which the type's init block has run.
   */
  function NewDefault(p: Prims, name: string, t: DataType, isConst: bool, parent: ScopeId, st: Store, fuel: nat): (ran: Ran<VarId>)
    decreases fuel
  {
    if fuel == 0 then Starved(st)
    else if IsPrimitiveTag(t.tag) then Alloc(st, name, t, isConst, parent, PrimitiveDefault(p, t.tag).value)
    else if t.tag == NONE || t.name.None? then Crash(st)
    else if t.tag == ENUM then Alloc(st, name, t, isConst, parent, EnumV(t.name.value, p.defaultIdx))
    else if t.tag == PTR then Alloc(st, name, t, isConst, parent, PtrV(t.name.value, None, None))
    else
      var r :- NewRecord(p, t.name.value, parent, st, fuel - 1);
      Alloc(r.1, name, t, isConst, parent, CompV(t.name.value, r.0))
  }

  /** The Composite constructor: a record scope below `parent`, then the definition's init block run in it. */
  function NewRecord(p: Prims, def: string, parent: ScopeId, st: Store, fuel: nat): (ran: Ran<ScopeId>)
    decreases fuel
  {
    if fuel == 0 then Starved(st)
    else
      var (rid, st1) := NewChildScope(st, parent, def, RecordScope);
      match GetCompositeDef(st1, rid, def, true)
      case None => Crash(st1)
      case Some(cd) =>
        var r :- RunBlock(p, cd.init, rid, st1, fuel - 1);
        Give(rid, r.1)
  }

  /**
   * The per-tag in-place assignment `var->get<T>() = value`: an Enum takes
   * the index, a Pointer the target and scope, a Composite copies its
   * members' values; the host aborts on differing definition names.
   */
  function AssignInto(p: Prims, x: VarId, r: NodeResult, st: Store, fuel: nat): (ran: Ran<()>)
    decreases fuel
  {
    if fuel == 0 then Starved(st)
    else if x !in st.vars then Crash(st)
    else
      var tag := st.vars[x].dtype.tag;
      match Read(st, x)
      case None => Crash(st)
      case Some(cur) =>
        if tag == NONE || TagOf(cur) != tag || TagOf(r.data) != tag then Crash(st)
        else if cur.EnumV? then
          if cur.enumDef != r.data.enumDef then Crash(st) else Give((), WriteValue(st, x, EnumV(cur.enumDef, r.data.idx)))
        else if cur.PtrV? then
          if cur.ptrDef != r.data.ptrDef then Crash(st)
          else Give((), WriteValue(st, x, PtrV(cur.ptrDef, r.data.target, r.data.ctx)))
        else if cur.CompV? then
          if cur.compDef != r.data.compDef then Crash(st) else CopyVariableData(p, cur.scope, r.data.scope, st, fuel - 1)
        else Give((), WriteValue(st, x, r.data))
  }

  /** Context::copyVariableData: variable i of `dst` takes a deep copy of the value of variable i of `src`. */
  function CopyVariableData(p: Prims, dst: ScopeId, src: ScopeId, st: Store, fuel: nat): (ran: Ran<()>)
    decreases fuel
  {
    if fuel == 0 then Starved(st)
    else if dst !in st.scopes || src !in st.scopes then Crash(st)
    else CopyDataFrom(p, st.scopes[dst].vars, st.scopes[src].vars, 0, st, fuel - 1)
  }

  function CopyDataFrom(p: Prims, dvars: seq<VarId>, svars: seq<VarId>, i: nat, st: Store, fuel: nat): (ran: Ran<()>)
    decreases fuel
  {
    if fuel == 0 then Starved(st)
    else if i >= |dvars| then Give((), st)
    else if i >= |svars| then Crash(st)
    else
      var r :- SetCopy(p, dvars[i], svars[i], st, fuel - 1);
      CopyDataFrom(p, dvars, svars, i + 1, r.1, fuel - 1)
  }

  /**
   * `dst->set(&src->get<Value>(), true)`. An alias `dst` would free its
   * owner's storage; the model treats that as a host failure.
   */
  function SetCopy(p: Prims, dst: VarId, src: VarId, st: Store, fuel: nat): (ran: Ran<()>)
    decreases fuel
  {
    if fuel == 0 then Starved(st)
    else if dst !in st.vars || st.vars[dst].storage.Alias? then Crash(st)
    else
      match Read(st, src)
      case None => Crash(st)
      case Some(v) =>
        var c :- DeepCopyAs(p, st.vars[dst].dtype.tag, v, st, fuel - 1);
        Give((), SetStorage(c.1, dst, c.0))
  }

  // =====================================================================
  // The resolver chain
  // =====================================================================

  /** AbstractVariableResolver::resolve for each resolver. */
  function Resolve(p: Prims, path: Path, ctx: ScopeId, st: Store, fuel: nat): (ran: Ran<Holder>)
    decreases fuel
  {
    if fuel == 0 then Starved(st)
    else
      match path
      case Name(at, name) =>
        (match GetVariable(st, ctx, name, true)
         case Some(x) => Give(VarHolder(x), st)
         case None =>
           match GetArray(st, ctx, name, true)
           case Some(a) => Give(ArrHolder(a), st)
           case None => Raise(NotDefined(UndefinedIdentifier(name)), at, ctx, st))
      case Deref(at, inner) =>
        var h :- Resolve(p, inner, ctx, st, fuel - 1);
        DerefStep(h.0, at, ctx, h.1)
      case Member(at, inner, m) =>
        var h :- Resolve(p, inner, ctx, st, fuel - 1);
        MemberStep(h.0, at, m, ctx, h.1)
      case Index(at, inner, idx) =>
        var h :- Resolve(p, inner, ctx, st, fuel - 1);
        match h.0
        case VarHolder(x) =>
          Raise(Runtime(IndexNonArray(if x in h.1.vars then h.1.vars[x].name else "")), at, ctx, h.1)
        case ArrHolder(a) =>
          if a !in h.1.arrays then Crash(h.1)
          else if |idx| != |h.1.arrays[a].dims| then Raise(Runtime(IndexCount), at, ctx, h.1)
          else
            var ix :- IndicesFrom(p, h.1.arrays[a].dims, idx, 0, [], ctx, h.1, fuel - 1);
            if a !in ix.1.arrays then Crash(ix.1)
            else
              match ElementAt(ix.1.arrays[a], ix.0)
              case None => Crash(ix.1)
              case Some(x) => Give(VarHolder(x), ix.1)
  }

  /**
   * The index loop of ArrayElementResolver, from index `i` on: each index is
   * evaluated, must be INTEGER and must be valid for its dimension.
   */
  function IndicesFrom(p: Prims, dims: seq<Dim>, idx: seq<Expr>, i: nat, acc: seq<int>, ctx: ScopeId, st: Store, fuel: nat)
    : (ran: Ran<seq<int>>)
    requires |idx| == |dims|
    decreases fuel
  {
    if fuel == 0 then Starved(st)
    else if i >= |idx| then Give(acc, st)
    else
      var r :- Eval(p, idx[i], ctx, st, fuel - 1);
      if !r.0.data.IntV? then Raise(Runtime(IndexNotInteger), idx[i].at, ctx, r.1)
      else if !IsValidIndex(dims[i], r.0.data.i) then Raise(Runtime(IndexOutOfBounds), idx[i].at, ctx, r.1)
      else IndicesFrom(p, dims, idx, i + 1, acc + [r.0.data.i], ctx, r.1, fuel - 1)
  }

  /**
   * PointerDereferencer after the inner resolution, with the null check made
   * before the scope walk (see `DerefStepAsWritten` for the order of the source).
   */
  function DerefStep(h: Holder, at: Tok, ctx: ScopeId, st: Store): (r: Ran<Holder>)
    ensures r.st == st
  {
    match h
    case ArrHolder(_) => Raise(InvalidUsage(DerefNonPointer), at, ctx, st)
    case VarHolder(x) =>
      if x !in st.vars then Crash(st)
      else if st.vars[x].dtype.tag != PTR then Raise(InvalidUsage(DerefNonPointer), at, ctx, st)
      else
        match Read(st, x)
        case Some(PtrV(_, target, pctx)) =>
          if target.None? then Raise(Runtime(UninitializedPointer), at, ctx, st)
          else if pctx.None? || !Reaches(st, ctx, pctx.value) then
            Raise(Runtime(DeletedObject(st.vars[x].name)), at, ctx, st)
          else Give(VarHolder(target.value), st)
        case _ => Crash(st)
  }

  /**
   * PointerDereferencer as written: the walk up from the current scope runs
   * first, and a pointer that was never assigned records no scope, so the
   * walk ends at the root and reports a deleted object.
   */
  function DerefStepAsWritten(h: Holder, at: Tok, ctx: ScopeId, st: Store): (r: Ran<Holder>)
    ensures r.st == st
  {
    match h
    case ArrHolder(_) => Raise(InvalidUsage(DerefNonPointer), at, ctx, st)
    case VarHolder(x) =>
      if x !in st.vars then Crash(st)
      else if st.vars[x].dtype.tag != PTR then Raise(InvalidUsage(DerefNonPointer), at, ctx, st)
      else
        match Read(st, x)
        case Some(PtrV(_, target, pctx)) =>
          if pctx.None? || !Reaches(st, ctx, pctx.value) then
            Raise(Runtime(DeletedObject(st.vars[x].name)), at, ctx, st)
          else if target.None? then Raise(Runtime(UninitializedPointer), at, ctx, st)
          else Give(VarHolder(target.value), st)
        case _ => Crash(st)
  }

  /** CompositeResolver after the inner resolution: Composite::getMember, variable before array. */
  function MemberStep(h: Holder, at: Tok, m: string, ctx: ScopeId, st: Store): (r: Ran<Holder>)
    ensures r.st == st
  {
    match h
    case ArrHolder(_) => Raise(InvalidUsage(MemberOfNonComposite), at, ctx, st)
    case VarHolder(x) =>
      if x !in st.vars then Crash(st)
      else if st.vars[x].dtype.tag != COMPOSITE then Raise(InvalidUsage(MemberOfNonComposite), at, ctx, st)
      else
        match Read(st, x)
        case Some(CompV(d, rec)) =>
          (match GetVariable(st, rec, m, true)
           case Some(v) => Give(VarHolder(v), st)
           case None =>
             match GetArray(st, rec, m, true)
             case Some(a) => Give(ArrHolder(a), st)
             case None => Raise(Runtime(NoMember(d, m)), at, ctx, st))
        case _ => Crash(st)
  }

  // =====================================================================
  // Statements and blocks
  // =====================================================================

  /** Block::_run: the nodes in order against one scope; a plain block intercepts nothing. */
  function RunBlock(p: Prims, body: seq<Stmt>, ctx: ScopeId, st: Store, fuel: nat): (ran: Ran<()>)
    decreases fuel
  {
    if fuel == 0 then Starved(st) else RunFrom(p, body, 0, ctx, st, fuel - 1)
  }

  function RunFrom(p: Prims, body: seq<Stmt>, i: nat, ctx: ScopeId, st: Store, fuel: nat): (ran: Ran<()>)
    decreases fuel
  {
    if fuel == 0 then Starved(st)
    else if i >= |body| then Give((), st)
    else
      var r :- Exec(p, body[i], ctx, st, fuel - 1);
      RunFrom(p, body, i + 1, ctx, r.1, fuel - 1)
  }

  /** Node::evaluate for the statement nodes; their NONE results are dropped. */
  function Exec(p: Prims, s: Stmt, ctx: ScopeId, st: Store, fuel: nat): (ran: Ran<()>)
    decreases fuel
  {
    if fuel == 0 then Starved(st)
    else
      match s
      case Declare(at, names, typ) => DeclareFrom(p, at, names, typ, 0, ctx, st, fuel - 1)
      case ConstDeclare(at, ident, value) => ExecConst(p, at, ident, value, ctx, st, fuel - 1)
      case Assign(at, target, value) => ExecAssign(p, at, target, value, ctx, st, fuel - 1)
      case ArrayDeclare(at, names, typ, bounds) => ExecArrayDeclare(p, at, names, typ, bounds, ctx, st, fuel - 1)
      case PointerDefine(at, ident, pointee) => PointerDefineStep(at, ident, pointee, ctx, st)
      case PointerAssign(at, ptr, source) => ExecPointerAssign(p, at, ptr, source, ctx, st, fuel - 1)
      case EnumDefine(at, ident, values) => EnumDefineStep(at, ident, values, ctx, st)
      case CompositeDefine(at, ident, init) => CompositeDefineStep(at, ident, init, ctx, st)
      case If(at, arms) => IfArms(p, at, arms, 0, ctx, st, fuel - 1)
      case Case(at, scrutinee, arms) => ExecCase(p, scrutinee, arms, ctx, st, fuel - 1)
      case While(at, cond, body) => WhileLoop(p, at, cond, body, ctx, st, fuel - 1)
      case Repeat(at, cond, body) => RepeatLoop(p, at, cond, body, ctx, st, fuel - 1)
      case For(at, iter, start, stop, step, body) => ExecFor(p, at, iter, start, stop, step, body, ctx, st, fuel - 1)
      case Break(at) => Ran(Unwind(BreakSig(at)), st)
      case Continue(at) => Ran(Unwind(ContinueSig(at)), st)
      case ProcedureDef(at, name, params, body) => ProcedureDefStep(at, name, params, body, ctx, st)
      case CallProc(at, name, args) => CallProcedure(p, at, name, args, ctx, st, fuel - 1)
      case FunctionDef(at, name, params, rt, body) => FunctionDefStep(at, name, params, rt, body, ctx, st)
      case Return(at, value) => ExecReturn(p, at, value, ctx, st, fuel - 1)
  }

  /** DeclareNode: the identifiers from position `i` on, each checked and declared in turn. */
  function DeclareFrom(p: Prims, at: Tok, names: seq<Ident>, typ: TypeName, i: nat, ctx: ScopeId, st: Store, fuel: nat)
    : (ran: Ran<()>)
    decreases fuel
  {
    if fuel == 0 then Starved(st)
    else if i >= |names| then Give((), st)
    else
      var d :- DeclareOne(p, at, names[i].text, typ, ctx, st, fuel - 1);
      DeclareFrom(p, at, names, typ, i + 1, ctx, d.1, fuel - 1)
  }

  /** One identifier of a DECLARE: no local variable of that name, not a type name, a known type; then added. */
  function DeclareOne(p: Prims, at: Tok, n: string, typ: TypeName, ctx: ScopeId, st: Store, fuel: nat): (ran: Ran<()>)
    decreases fuel
  {
    if fuel == 0 then Starved(st)
    else if GetVariable(st, ctx, n, false).Some? then Raise(Redeclaration(n), at, ctx, st)
    else if IsIdentifierType(st, ctx, n, true) then Raise(Runtime(TypeAsVariable(n)), at, ctx, st)
    else
      match GetType(st, ctx, typ, true)
      case Fail(k) => Raise(k, at, ctx, st)
      case Ok(t) =>
        if t.tag == NONE then Raise(NotDefined(UndefinedType(typ.text)), at, ctx, st)
        else
          var v :- NewDefault(p, n, t, false, ctx, st, fuel - 1);
          Give((), AddVariable(v.1, ctx, v.0))
  }

  /** ConstDeclareNode: the value first, then the local check, then a constant holding a copy of the value. */
  function ExecConst(p: Prims, at: Tok, ident: Ident, value: Expr, ctx: ScopeId, st: Store, fuel: nat): (ran: Ran<()>)
    decreases fuel
  {
    if fuel == 0 then Starved(st)
    else
      var r :- Eval(p, value, ctx, st, fuel - 1);
      if GetVariable(r.1, ctx, ident.text, false).Some? then Raise(Redeclaration(ident.text), at, ctx, r.1)
      else
        var c :- DeepCopyAs(p, r.0.Type().tag, r.0.data, r.1, fuel - 1);
        var n := Alloc(c.1, ident.text, r.0.Type(), true, ctx, c.0);
        Give((), AddVariable(n.st, ctx, n.out.val))
  }

  /**
   * AssignNode: the value first. An ArrayDirectAccess error raised in this
   * very scope turns into a whole-array copy; then the target is resolved,
   * and an unresolved plain name is declared on the spot with the value's type.
   */
  function ExecAssign(p: Prims, at: Tok, target: Path, value: Expr, ctx: ScopeId, st: Store, fuel: nat): (ran: Ran<()>)
    decreases fuel
  {
    if fuel == 0 then Starved(st)
    else
      var r := Eval(p, value, ctx, st, fuel - 1);
      match r.out
      case Unwind(Raised(Error(ArrayDirectAccess, eat, esc))) =>
        if esc != ctx then Ran(Unwind(Raised(Error(ArrayDirectAccess, eat, esc))), r.st)
        else AssignArray(p, at, target, value, Error(ArrayDirectAccess, eat, esc), ctx, r.st, fuel - 1)
      case Unwind(sig) => Ran(Unwind(sig), r.st)
      case Done(v) => AssignTarget(p, at, target, v, ctx, r.st, fuel - 1)
  }

  /** The target side of AssignNode, once the value is known. */
  function AssignTarget(p: Prims, at: Tok, target: Path, v: NodeResult, ctx: ScopeId, st: Store, fuel: nat)
    : (ran: Ran<()>)
    decreases fuel
  {
    if fuel == 0 then Starved(st)
    else
      var h := Resolve(p, target, ctx, st, fuel - 1);
      match h.out
      case Unwind(Raised(Error(NotDefined(w), eat, esc))) =>
        if !target.Name? || IsIdentifierType(h.st, ctx, target.name, true) then
          Ran(Unwind(Raised(Error(NotDefined(w), eat, esc))), h.st)
        else
          var nv :- NewDefault(p, target.name, v.Type(), false, ctx, h.st, fuel - 1);
          AssignToVar(p, at, nv.0, v, ctx, AddVariable(nv.1, ctx, nv.0), fuel - 1)
      case Unwind(sig) => Ran(Unwind(sig), h.st)
      case Done(ArrHolder(_)) => Raise(ArrayDirectAccess, at, ctx, h.st)
      case Done(VarHolder(x)) => AssignToVar(p, at, x, v, ctx, h.st, fuel - 1)
  }

  /** The rest of AssignNode once the target variable is known: constness, implicit cast, type check, write. */
  function AssignToVar(p: Prims, at: Tok, x: VarId, v: NodeResult, ctx: ScopeId, st: Store, fuel: nat): (ran: Ran<()>)
    decreases fuel
  {
    if fuel == 0 then Starved(st)
    else if x !in st.vars then Crash(st)
    else
      var xv := st.vars[x];
      if xv.isConst then Raise(ConstAssign(xv.name), at, ctx, st)
      else
        var c := ImplicitCast(p, v, xv.dtype);
        if !SameType(xv.dtype, c.Type()) then Raise(InvalidUsage(AssignIncompatible), at, ctx, st)
        else AssignInto(p, x, c, st, fuel - 1)
  }

  /**
   * AssignNode::assignArray: the value must be an access node; both sides
   * are resolved again, the target must be an array of the same element type
   * and dimensions, and every cell of the target takes a copy of the source's.
   */
  function AssignArray(p: Prims, at: Tok, target: Path, value: Expr, e: Error, ctx: ScopeId, st: Store, fuel: nat)
    : (ran: Ran<()>)
    decreases fuel
  {
    if fuel == 0 then Starved(st)
    else if !value.Access? then Ran(Unwind(Raised(e)), st)
    else
      var s :- Resolve(p, value.path, ctx, st, fuel - 1);
      var d :- Resolve(p, target, ctx, s.1, fuel - 1);
      match (s.0, d.0)
      case (_, VarHolder(_)) => Ran(Unwind(Raised(e)), d.1)
      case (VarHolder(_), ArrHolder(_)) => Crash(d.1)
      case (ArrHolder(sa), ArrHolder(da)) =>
        if sa !in d.1.arrays || da !in d.1.arrays then Crash(d.1)
        else
          var src := d.1.arrays[sa];
          var dst := d.1.arrays[da];
          if !SameType(dst.elemType, src.elemType) then Raise(Runtime(ArrayTypeMismatch), at, ctx, d.1)
          else if dst.dims != src.dims then Raise(Runtime(ArrayDimsMismatch), at, ctx, d.1)
          else CopyCells(p, da, src.cells, 0, d.1, fuel - 1)
  }

  /**
   * Array::copyData from cell `i` on: cell i of the target is replaced by a
   * new variable copied from source cell i (same name, type, constness and
   * parent, a deep copy of the value).
   */
  function CopyCells(p: Prims, dst: ArrId, src: seq<VarId>, i: nat, st: Store, fuel: nat): (ran: Ran<()>)
    decreases fuel
  {
    if fuel == 0 then Starved(st)
    else if dst !in st.arrays then Crash(st)
    else if i >= |st.arrays[dst].cells| then Give((), st)
    else if i >= |src| || src[i] !in st.vars then Crash(st)
    else
      var sv := st.vars[src[i]];
      match Read(st, src[i])
      case None => Crash(st)
      case Some(v) =>
        var c :- DeepCopyAs(p, sv.dtype.tag, v, st, fuel - 1);
        var n := Alloc(c.1, sv.name, sv.dtype, sv.isConst, sv.parent, c.0);
        var st2 := n.st;
        if dst !in st2.arrays || i >= |st2.arrays[dst].cells| then Crash(st2)
        else
          var a := st2.arrays[dst];
          var st3 := st2.(arrays := st2.arrays[dst := a.(cells := a.cells[i := n.out.val])]);
          CopyCells(p, dst, src, i + 1, st3, fuel - 1)
  }

  /**
   * ArrayDeclareNode: an empty or odd bound list aborts; every name is
   * checked against the local arrays first; then the bounds are evaluated in
   * pairs; then each name gets its own initialised array.
   */
  function ExecArrayDeclare(p: Prims, at: Tok, names: seq<Ident>, typ: TypeName, bounds: seq<Expr>, ctx: ScopeId,
                            st: Store, fuel: nat): (ran: Ran<()>)
    decreases fuel
  {
    if fuel == 0 then Starved(st)
    else if |bounds| % 2 != 0 || |bounds| == 0 then Crash(st)
    else
      match FirstIndex(names, (n: Ident) => GetArray(st, ctx, n.text, false).Some?)
      case Some(k) => Raise(Redeclaration(names[k].text), at, ctx, st)
      case None =>
        var ds :- BoundsFrom(p, bounds, 0, [], ctx, st, fuel - 1);
        ArraysFrom(p, at, names, typ, ds.0, 0, ctx, ds.1, fuel - 1)
  }

  /** The bound loop of ArrayDeclareNode from bound `i` (even) on: lower, then upper, each INTEGER, upper >= lower. */
  function BoundsFrom(p: Prims, bounds: seq<Expr>, i: nat, dims: seq<Dim>, ctx: ScopeId, st: Store, fuel: nat)
    : (ran: Ran<seq<Dim>>)
    requires |bounds| % 2 == 0
    decreases fuel
  {
    if fuel == 0 then Starved(st)
    else if i + 1 >= |bounds| then Give(dims, st)
    else
      var lo :- Eval(p, bounds[i], ctx, st, fuel - 1);
      if !lo.0.data.IntV? then Raise(Runtime(IndexNotInteger), bounds[i].at, ctx, lo.1)
      else
        var hi :- Eval(p, bounds[i + 1], ctx, lo.1, fuel - 1);
        if !hi.0.data.IntV? then Raise(Runtime(IndexNotInteger), bounds[i + 1].at, ctx, hi.1)
        else if hi.0.data.i < lo.0.data.i then Raise(Runtime(UpperBelowLower), bounds[i + 1].at, ctx, hi.1)
        else BoundsFrom(p, bounds, i + 2, dims + [Dim(i / 2, lo.0.data.i, hi.0.data.i)], ctx, hi.1, fuel - 1)
  }

  /** The array loop of ArrayDeclareNode from name `i` on: element type, init, addArray. */
  function ArraysFrom(p: Prims, at: Tok, names: seq<Ident>, typ: TypeName, dims: seq<Dim>, i: nat, ctx: ScopeId,
                      st: Store, fuel: nat): (ran: Ran<()>)
    decreases fuel
  {
    if fuel == 0 then Starved(st)
    else if i >= |names| then Give((), st)
    else
      match GetType(st, ctx, typ, true)
      case Fail(k) => Raise(k, at, ctx, st)
      case Ok(t) =>
        if t.tag == NONE then Raise(NotDefined(UndefinedType(typ.text)), at, ctx, st)
        else
          var n := CellCount(dims);
          var cap := if n < 0 then 0 else n + p.slack(n);
          var cs :- InitCells(p, names[i].text, t, cap, ctx, [], st, fuel - 1);
          var (aid, st2) := NewArray(cs.1, ArrayObj(names[i].text, t, dims, cs.0));
          ArraysFrom(p, at, names, typ, dims, i + 1, ctx, AddArray(st2, ctx, aid), fuel - 1)
  }

  /** Array::init from the cells made so far: a fresh default variable per cell up to the capacity. */
  function InitCells(p: Prims, name: string, t: DataType, cap: nat, ctx: ScopeId, acc: seq<VarId>, st: Store, fuel: nat)
    : (ran: Ran<seq<VarId>>)
    decreases fuel
  {
    if fuel == 0 then Starved(st)
    else if |acc| >= cap then Give(acc, st)
    else
      var v :- NewDefault(p, name, t, false, ctx, st, fuel - 1);
      InitCells(p, name, t, cap, ctx, acc + [v.0], v.1, fuel - 1)
  }

  /** PointerDefineNode: the pointee type must resolve, then the name must be free locally. */
  function PointerDefineStep(at: Tok, ident: Ident, pointee: TypeName, ctx: ScopeId, st: Store): (r: Ran<()>)
    ensures r.out.Done? ==> GetType(st, ctx, pointee, true).Ok?
                            && r.st == CreatePointerDef(st, ctx, PointerDef(ident.text, GetType(st, ctx, pointee, true).value))
    ensures r.out.Unwind? ==> r.st == st
  {
    match GetType(st, ctx, pointee, true)
    case Fail(k) => Raise(k, at, ctx, st)
    case Ok(t) =>
      if t.tag == NONE then Raise(NotDefined(UndefinedType(pointee.text)), at, ctx, st)
      else if IsIdentifierType(st, ctx, ident.text, false) then Raise(Redefinition(ident.text), at, ctx, st)
      else Give((), CreatePointerDef(st, ctx, PointerDef(ident.text, t)))
  }

  /** EnumDefineNode: a name that is a local type or enum constant is a redefinition. */
  function EnumDefineStep(at: Tok, ident: Ident, values: seq<string>, ctx: ScopeId, st: Store): (r: Ran<()>)
    ensures IsIdentifierType(st, ctx, ident.text, false) ==> r == Raise(Redefinition(ident.text), at, ctx, st)
    ensures !IsIdentifierType(st, ctx, ident.text, false) ==>
              r == Give((), CreateEnumDef(st, ctx, EnumDef(ident.text, values)))
  {
    if IsIdentifierType(st, ctx, ident.text, false) then Raise(Redefinition(ident.text), at, ctx, st)
    else Give((), CreateEnumDef(st, ctx, EnumDef(ident.text, values)))
  }

  /**
   * EnumDefineNode as written: the node's own list of constants is moved
   * into the new definition, so a run that defines the enumeration leaves
   * the node with an empty list for its next run; a redefinition error is
   * raised before the move. The second component is the node's list after
   * the run. Exec uses EnumDefineStep, which keeps the list.
   */
  function EnumDefineStepAsWritten(at: Tok, ident: Ident, values: seq<string>, ctx: ScopeId, st: Store)
    : (r: (Ran<()>, seq<string>))
    ensures r.0 == EnumDefineStep(at, ident, values, ctx, st)
    ensures r.0.out.Done? ==> r.1 == []
    ensures !r.0.out.Done? ==> r.1 == values
  {
    if IsIdentifierType(st, ctx, ident.text, false) then (Raise(Redefinition(ident.text), at, ctx, st), values)
    else (Give((), CreateEnumDef(st, ctx, EnumDef(ident.text, values))), [])
  }

  /** CompositeDefineNode: the init block is stored, not run. */
  function CompositeDefineStep(at: Tok, ident: Ident, init: seq<Stmt>, ctx: ScopeId, st: Store): (r: Ran<()>)
    ensures IsIdentifierType(st, ctx, ident.text, false) ==> r == Raise(Redefinition(ident.text), at, ctx, st)
    ensures !IsIdentifierType(st, ctx, ident.text, false) ==>
              r == Give((), CreateCompositeDef(st, ctx, CompositeDef(ident.text, init)))
  {
    if IsIdentifierType(st, ctx, ident.text, false) then Raise(Redefinition(ident.text), at, ctx, st)
    else Give((), CreateCompositeDef(st, ctx, CompositeDef(ident.text, init)))
  }

  /**
   * PointerAssignNode: resolve the pointer, then the value; check the tag and
   * the definition's pointee type; record the owning variable and the first
   * scope above it that is not a record scope (Pointer::setValue).
   */
  function ExecPointerAssign(p: Prims, at: Tok, ptr: Path, source: Path, ctx: ScopeId, st: Store, fuel: nat): (ran: Ran<()>)
    decreases fuel
  {
    if fuel == 0 then Starved(st)
    else
      var ph :- Resolve(p, ptr, ctx, st, fuel - 1);
      if ph.0.ArrHolder? then Raise(ArrayDirectAccess, at, ctx, ph.1)
      else
        var vh :- Resolve(p, source, ctx, ph.1, fuel - 1);
        var st1 := vh.1;
        if vh.0.ArrHolder? then Raise(Runtime(PointerToArray), at, ctx, st1)
        else
          PointerStore(at, ph.0.v, vh.0.v, ctx, st1)
  }

  /**
   * The checks and the store of PointerAssignNode once both sides are
   * variables: the pointer side must be a PTR whose definition points to
   * the value's type; the pointer then records the owning variable and the
   * first scope above it that is not a record scope.
   */
  function PointerStore(at: Tok, pv: VarId, sv: VarId, ctx: ScopeId, st: Store): (r: Ran<()>)
    ensures r.out.Unwind? ==> r.st == st
  {
    if pv !in st.vars || sv !in st.vars then Crash(st)
    else if st.vars[pv].dtype.tag != PTR then Raise(Runtime(AssignToNonPointer), at, ctx, st)
    else
      match Read(st, pv)
      case Some(PtrV(def, _, _)) =>
        (match GetPointerDef(st, ctx, def, true)
         case None => Crash(st)
         case Some(pd) =>
           if !SameType(pd.target, st.vars[sv].dtype) then Raise(Runtime(PointerTypeMismatch), at, ctx, st)
           else
             var target := Owner(st, sv);
             var home := if target in st.vars then RecordFreeAncestor(st, st.vars[target].parent) else None;
             match home
             case None => Crash(st)
             case Some(h) => Give((), WriteValue(st, pv, PtrV(def, Some(target), Some(h)))))
      case _ => Crash(st)
  }

  /** IfStatementNode from arm `i` on: an ELSE arm runs; otherwise the first true condition runs its block. */
  function IfArms(p: Prims, at: Tok, arms: seq<IfArm>, i: nat, ctx: ScopeId, st: Store, fuel: nat): (ran: Ran<()>)
    decreases fuel
  {
    if fuel == 0 then Starved(st)
    else if i >= |arms| then Give((), st)
    else
      match arms[i].cond
      case None => RunBlock(p, arms[i].body, ctx, st, fuel - 1)
      case Some(c) =>
        var r :- Eval(p, c, ctx, st, fuel - 1);
        if !r.0.data.BoolV? then Raise(ConditionType, at, ctx, r.1)
        else if r.0.data.b then RunBlock(p, arms[i].body, ctx, r.1, fuel - 1)
        else IfArms(p, at, arms, i + 1, ctx, r.1, fuel - 1)
  }

  /** CaseComponent::match for one arm against the scrutinee `v`. */
  function MatchArm(p: Prims, v: NodeResult, arm: CaseArm, ctx: ScopeId, st: Store, fuel: nat): (ran: Ran<bool>)
    decreases fuel
  {
    if fuel == 0 then Starved(st)
    else
      match arm
      case EqualsArm(value, _) =>
        var c :- Eval(p, value, ctx, st, fuel - 1);
        Give(CaseEquals(p, v, c.0), c.1)
      case RangeArm(lower, upper, _) =>
        (match AsReal(p, v.data)
         case None => Give(false, st)
         case Some(x) =>
           var lo :- Eval(p, lower, ctx, st, fuel - 1);
           match AsReal(p, lo.0.data)
           case None => Raise(Runtime(LowerBoundType), lower.at, ctx, lo.1)
           case Some(l) =>
             var hi :- Eval(p, upper, ctx, lo.1, fuel - 1);
             match AsReal(p, hi.0.data)
             case None => Raise(Runtime(UpperBoundType), upper.at, ctx, hi.1)
             case Some(u) => Give(InRange(l, x, u), hi.1))
      case OtherwiseArm(_) => Give(true, st)
  }

  /** CaseNode: the scrutinee is evaluated once, then the arms are tried. */
  function ExecCase(p: Prims, scrutinee: Expr, arms: seq<CaseArm>, ctx: ScopeId, st: Store, fuel: nat): (ran: Ran<()>)
    decreases fuel
  {
    if fuel == 0 then Starved(st)
    else
      var v :- Eval(p, scrutinee, ctx, st, fuel - 1);
      CaseArms(p, v.0, arms, 0, ctx, v.1, fuel - 1)
  }

  /** CaseNode from arm `i` on: the first matching arm runs its block. */
  function CaseArms(p: Prims, v: NodeResult, arms: seq<CaseArm>, i: nat, ctx: ScopeId, st: Store, fuel: nat): (ran: Ran<()>)
    decreases fuel
  {
    if fuel == 0 then Starved(st)
    else if i >= |arms| then Give((), st)
    else
      var m :- MatchArm(p, v, arms[i], ctx, st, fuel - 1);
      if m.0 then RunBlock(p, arms[i].body, ctx, m.1, fuel - 1)
      else CaseArms(p, v, arms, i + 1, ctx, m.1, fuel - 1)
  }

  /** WhileLoopNode: the condition before every round; BREAK ends the loop, CONTINUE goes back to the test. */
  function WhileLoop(p: Prims, at: Tok, cond: Expr, body: seq<Stmt>, ctx: ScopeId, st: Store, fuel: nat): (ran: Ran<()>)
    decreases fuel
  {
    if fuel == 0 then Starved(st)
    else
      var c :- Eval(p, cond, ctx, st, fuel - 1);
      if !c.0.data.BoolV? then Raise(ConditionType, at, ctx, c.1)
      else if !c.0.data.b then Give((), c.1)
      else
        var r := RunBlock(p, body, ctx, c.1, fuel - 1);
        match r.out
        case Unwind(BreakSig(_)) => Give((), r.st)
        case Unwind(ContinueSig(_)) => WhileLoop(p, at, cond, body, ctx, r.st, fuel - 1)
        case Unwind(sig) => Ran(Unwind(sig), r.st)
        case Done(_) => WhileLoop(p, at, cond, body, ctx, r.st, fuel - 1)
  }

  /** RepeatUntilNode: the body first; BREAK ends the loop; CONTINUE restarts the body without the UNTIL test. */
  function RepeatLoop(p: Prims, at: Tok, cond: Expr, body: seq<Stmt>, ctx: ScopeId, st: Store, fuel: nat): (ran: Ran<()>)
    decreases fuel
  {
    if fuel == 0 then Starved(st)
    else
      var r := RunBlock(p, body, ctx, st, fuel - 1);
      match r.out
      case Unwind(BreakSig(_)) => Give((), r.st)
      case Unwind(ContinueSig(_)) => RepeatLoop(p, at, cond, body, ctx, r.st, fuel - 1)
      case Unwind(sig) => Ran(Unwind(sig), r.st)
      case Done(_) =>
        var c :- Eval(p, cond, ctx, r.st, fuel - 1);
        if !c.0.data.BoolV? then Raise(ConditionType, at, ctx, c.1)
        else if c.0.data.b then Give((), c.1)
        else RepeatLoop(p, at, cond, body, ctx, c.1, fuel - 1)
  }

  /**
   * ForLoopNode: find or declare the iterator, check it is INTEGER, evaluate
   * start, stop and step in that order, store start, then loop.
   */
  function ExecFor(p: Prims, at: Tok, iter: Ident, start: Expr, stop: Expr, step: Option<Expr>, body: seq<Stmt>,
                   ctx: ScopeId, st: Store, fuel: nat): (ran: Ran<()>)
    decreases fuel
  {
    if fuel == 0 then Starved(st)
    else
      var it :- ForIterator(p, iter.text, ctx, st, fuel - 1);
      var x := it.0;
      if x !in it.1.vars then Crash(it.1)
      else if it.1.vars[x].dtype.tag != INTEGER then Raise(Runtime(IteratorNotInteger), at, ctx, it.1)
      else ForStart(p, at, x, start, stop, step, body, ctx, it.1, fuel - 1)
  }

  /** The start and stop values of a FOR loop, in that order, each INTEGER. */
  function ForStart(p: Prims, at: Tok, x: VarId, start: Expr, stop: Expr, step: Option<Expr>, body: seq<Stmt>,
                    ctx: ScopeId, st: Store, fuel: nat): (ran: Ran<()>)
    decreases fuel
  {
    if fuel == 0 then Starved(st)
    else
      var a :- Eval(p, start, ctx, st, fuel - 1);
      if !a.0.data.IntV? then Raise(Runtime(StartNotInteger), at, ctx, a.1)
      else
        var b :- Eval(p, stop, ctx, a.1, fuel - 1);
        if !b.0.data.IntV? then Raise(Runtime(StopNotInteger), at, ctx, b.1)
        else ForStep(p, at, x, a.0.data.i, b.0.data.i, step, body, ctx, b.1, fuel - 1)
  }

  /** The step of a FOR loop (1 when absent, else INTEGER); then the iterator takes the start value. */
  function ForStep(p: Prims, at: Tok, x: VarId, first: int, stop: int, step: Option<Expr>, body: seq<Stmt>,
                   ctx: ScopeId, st: Store, fuel: nat): (ran: Ran<()>)
    decreases fuel
  {
    if fuel == 0 then Starved(st)
    else
      var s :- (match step
                case None => Give(Unnamed(IntV(1)), st)
                case Some(e) => Eval(p, e, ctx, st, fuel - 1));
      if !s.0.data.IntV? then Raise(Runtime(StepNotInteger), at, ctx, s.1)
      else ForFrom(p, x, stop, s.0.data.i, body, ctx, WriteValue(s.1, x, IntV(first)), fuel - 1)
  }

  /** The iterator of a FOR loop: a visible variable, or a new local INTEGER. */
  function ForIterator(p: Prims, name: string, ctx: ScopeId, st: Store, fuel: nat): (ran: Ran<VarId>)
    decreases fuel
  {
    if fuel == 0 then Starved(st)
    else
      match GetVariable(st, ctx, name, true)
      case Some(x) => Give(x, st)
      case None =>
        var v :- NewDefault(p, name, Plain(INTEGER), false, ctx, st, fuel - 1);
        Give(v.0, AddVariable(v.1, ctx, v.0))
  }

  /** The FOR loop test: descending for a negative step, ascending otherwise (a zero step counts as ascending). */
  predicate ForContinues(cur: int, stop: int, step: int)
  {
    (step < 0 && cur >= stop) || (step >= 0 && cur <= stop)
  }

  /** The FOR loop proper: test the stored iterator, run the body, advance the stored iterator. */
  function ForFrom(p: Prims, x: VarId, stop: int, step: int, body: seq<Stmt>, ctx: ScopeId, st: Store, fuel: nat)
    : (ran: Ran<()>)
    decreases fuel
  {
    if fuel == 0 then Starved(st)
    else
      match Read(st, x)
      case Some(IntV(cur)) =>
        if !ForContinues(cur, stop, step) then Give((), st)
        else
          var r := RunBlock(p, body, ctx, st, fuel - 1);
          (match r.out
           case Unwind(BreakSig(_)) => Give((), r.st)
           case Unwind(ContinueSig(_)) => ForAdvance(p, x, stop, step, body, ctx, r.st, fuel - 1)
           case Unwind(sig) => Ran(Unwind(sig), r.st)
           case Done(_) => ForAdvance(p, x, stop, step, body, ctx, r.st, fuel - 1))
      case _ => Crash(st)
  }

  /** `iteratorValue.value += stepValue`, then the next test. */
  function ForAdvance(p: Prims, x: VarId, stop: int, step: int, body: seq<Stmt>, ctx: ScopeId, st: Store, fuel: nat)
    : (ran: Ran<()>)
    decreases fuel
  {
    if fuel == 0 then Starved(st)
    else
      match Read(st, x)
      case Some(IntV(cur)) => ForFrom(p, x, stop, step, body, ctx, WriteValue(st, x, IntV(cur + step)), fuel - 1)
      case _ => Crash(st)
  }

  // =====================================================================
  // Procedures and functions
  // =====================================================================

  /**
   * The parameter types of a definition from position `i` on: each must
   * resolve, else NotDefined at the type's own token.
   */
  function ResolveParams(decls: seq<ParamDecl>, i: nat, acc: seq<Parameter>, ctx: ScopeId, st: Store)
    : (r: Ran<seq<Parameter>>)
    ensures r.st == st
    decreases |decls| - i
  {
    if i >= |decls| then Give(acc, st)
    else
      var d := decls[i];
      match GetType(st, ctx, d.typ, true)
      case Fail(k) => Raise(k, d.typ.at, ctx, st)
      case Ok(t) =>
        if t.tag == NONE then Raise(NotDefined(UndefinedType(d.typ.text)), d.typ.at, ctx, st)
        else ResolveParams(decls, i + 1, acc + [Parameter(d.name, t, d.byRef)], ctx, st)
  }

  /** ProcedureNode: no procedure of that name at the root, every parameter type resolves; added to this scope. */
  function ProcedureDefStep(at: Tok, name: string, params: seq<ParamDecl>, body: seq<Stmt>, ctx: ScopeId, st: Store)
    : (r: Ran<()>)
    ensures GetProcedure(st, ctx, name).Some? ==> r == Raise(Redefinition(name), at, ctx, st)
  {
    if GetProcedure(st, ctx, name).Some? then Raise(Redefinition(name), at, ctx, st)
    else
      var ps :- ResolveParams(params, 0, [], ctx, st);
      Give((), AddProcedure(st, ctx, Procedure(name, ps.0, body)))
  }

  /** FunctionNode: no function of that name at the root; the return type, then the parameters; added to this scope. */
  function FunctionDefStep(at: Tok, name: string, params: seq<ParamDecl>, rt: TypeName, body: seq<Stmt>, ctx: ScopeId,
                           st: Store): (r: Ran<()>)
    ensures GetFunction(st, ctx, name).Some? ==> r == Raise(Redefinition(name), at, ctx, st)
  {
    if GetFunction(st, ctx, name).Some? then Raise(Redefinition(name), at, ctx, st)
    else
      match GetType(st, ctx, rt, true)
      case Fail(k) => Raise(k, rt.at, ctx, st)
      case Ok(t) =>
        if t.tag == NONE then Raise(NotDefined(UndefinedType(rt.text)), rt.at, ctx, st)
        else
          var ps :- ResolveParams(params, 0, [], ctx, st);
          Give((), AddFunction(st, ctx, Function(name, ps.0, UserBody(body), t, Some(at))))
  }

  /** The argument loop of a call from position `i` on: left to right, in the caller's scope. */
  function EvalArgs(p: Prims, args: seq<Expr>, i: nat, acc: seq<NodeResult>, ctx: ScopeId, st: Store, fuel: nat)
    : (ran: Ran<seq<NodeResult>>)
    decreases fuel
  {
    if fuel == 0 then Starved(st)
    else if i >= |args| then Give(acc, st)
    else
      var r :- Eval(p, args[i], ctx, st, fuel - 1);
      EvalArgs(p, args, i + 1, acc + [r.0], ctx, r.1, fuel - 1)
  }

  /**
   * The binding loop of a call from parameter `i` on. A by-value argument is
   * cast and copied into a fresh variable of the callee; a by-reference one
   * must be an access path, is resolved again in the caller, and is bound as
   * an alias of its owner.
   */
  function BindFrom(p: Prims, at: Tok, params: seq<Parameter>, args: seq<Expr>, vals: seq<NodeResult>, i: nat,
                    ctx: ScopeId, callee: ScopeId, st: Store, fuel: nat): (ran: Ran<()>)
    requires |params| == |args| == |vals|
    decreases fuel
  {
    if fuel == 0 then Starved(st)
    else if i >= |params| then Give((), st)
    else
      var b :- BindOne(p, at, params, args, vals, i, ctx, callee, st, fuel - 1);
      BindFrom(p, at, params, args, vals, i + 1, ctx, callee, b.1, fuel - 1)
  }

  /** One round of the binding loop: parameter `i` against argument `i`. */
  function BindOne(p: Prims, at: Tok, params: seq<Parameter>, args: seq<Expr>, vals: seq<NodeResult>, i: nat,
                   ctx: ScopeId, callee: ScopeId, st: Store, fuel: nat): (ran: Ran<()>)
    requires i < |params| == |args| == |vals|
    decreases fuel
  {
    if fuel == 0 then Starved(st)
    else
      var prm := params[i];
      var r := if prm.byRef then vals[i] else ImplicitCast(p, vals[i], prm.dtype);
      if !SameType(prm.dtype, r.Type()) then Raise(InvalidArgs(ParamTypes(params), TypesOf(vals)), at, ctx, st)
      else if prm.byRef then
        if !args[i].Access? then Raise(Runtime(ByRefNotAccess), at, ctx, st)
        else
          var h :- Resolve(p, args[i].path, ctx, st, fuel - 1);
          match h.0
          case ArrHolder(_) => Raise(ArrayDirectAccess, at, ctx, h.1)
          case VarHolder(x) =>
            match CreateReference(h.1, x, prm.name)
            case None => Crash(h.1)
            case Some(alias) =>
              var (vid, st2) := NewVar(h.1, alias);
              Give((), AddVariable(st2, callee, vid))
      else
        var v :- NewDefault(p, prm.name, r.Type(), false, callee, st, fuel - 1);
        var w :- AssignInto(p, v.0, r, v.1, fuel - 1);
        Give((), AddVariable(w.1, callee, v.0))
  }

  /**
   * CallNode: look the procedure up at the root, evaluate the arguments,
   * check the count, bind them in a new child scope and run the body there;
   * every signal of the body reaches the caller.
   */
  function CallProcedure(p: Prims, at: Tok, name: string, args: seq<Expr>, ctx: ScopeId, st: Store, fuel: nat)
    : (ran: Ran<()>)
    decreases fuel
  {
    if fuel == 0 then Starved(st)
    else
      match GetProcedure(st, ctx, name)
      case None => Raise(NotDefined(UndefinedProcedure(name)), at, ctx, st)
      case Some(proc) =>
        var a :- EvalArgs(p, args, 0, [], ctx, st, fuel - 1);
        if |a.0| != |args| then Crash(a.1)
        else if |args| != |proc.params| then Raise(InvalidArgs(ParamTypes(proc.params), TypesOf(a.0)), at, ctx, a.1)
        else EnterProcedure(p, at, proc, args, a.0, ctx, a.1, fuel - 1)
  }

  /** The procedure's own scope: a plain child of the caller, the arguments bound, the body run in it. */
  function EnterProcedure(p: Prims, at: Tok, proc: Procedure, args: seq<Expr>, vals: seq<NodeResult>, ctx: ScopeId,
                          st: Store, fuel: nat): (ran: Ran<()>)
    requires |proc.params| == |args| == |vals|
    decreases fuel
  {
    if fuel == 0 then Starved(st)
    else
      var (callee, st1) := NewChildScope(st, ctx, proc.name, PlainScope);
      var b :- BindFrom(p, at, proc.params, args, vals, 0, ctx, callee, st1, fuel - 1);
      RunBlock(p, proc.body, callee, b.1, fuel - 1)
  }

  /**
   * FunctionCallNode: as a procedure call, in a function scope with the
   * declared return type; only the RETURN signal is caught, and an empty
   * return slot is an error at the definition's token.
   */
  function CallFunction(p: Prims, at: Tok, name: string, args: seq<Expr>, ctx: ScopeId, st: Store, fuel: nat)
    : (ran: Ran<NodeResult>)
    decreases fuel
  {
    if fuel == 0 then Starved(st)
    else
      match GetFunction(st, ctx, name)
      case None => Raise(NotDefined(UndefinedFunction(name)), at, ctx, st)
      case Some(f) =>
        var a :- EvalArgs(p, args, 0, [], ctx, st, fuel - 1);
        if |a.0| != |args| then Crash(a.1)
        else if |args| != |f.params| then Raise(InvalidArgs(ParamTypes(f.params), TypesOf(a.0)), at, ctx, a.1)
        else EnterFunction(p, at, f, args, a.0, ctx, a.1, fuel - 1)
  }

  /** The function's own scope, with its return type; a RETURN signal ends the body and the slot gives the result. */
  function EnterFunction(p: Prims, at: Tok, f: Function, args: seq<Expr>, vals: seq<NodeResult>, ctx: ScopeId,
                         st: Store, fuel: nat): (ran: Ran<NodeResult>)
    requires |f.params| == |args| == |vals|
    decreases fuel
  {
    if fuel == 0 then Starved(st)
    else
      var (callee, st1) := NewChildScope(st, ctx, f.name, FunctionScope(f.returnType));
      var b :- BindFrom(p, at, f.params, args, vals, 0, ctx, callee, st1, fuel - 1);
      var r := RunBody(p, f.body, callee, b.1, fuel - 1);
      match r.out
      case Unwind(ReturnSig) => FunctionResult(f, callee, r.st)
      case Unwind(sig) => Ran(Unwind(sig), r.st)
      case Done(_) => FunctionResult(f, callee, r.st)
  }

  /** Function::run: a user block, or the built-in's own code. */
  function RunBody(p: Prims, body: FunctionBody, callee: ScopeId, st: Store, fuel: nat): (ran: Ran<()>)
    decreases fuel
  {
    if fuel == 0 then Starved(st)
    else
      match body
      case UserBody(block) => RunBlock(p, block, callee, st, fuel - 1)
      case BuiltinBody(b) => RunBuiltin(b, callee, st)
  }

  /** The slot a call's result is taken from once the body is done. */
  function FunctionResult(f: Function, callee: ScopeId, st: Store): (r: Ran<NodeResult>)
    ensures r.st == st
    ensures callee in st.scopes && st.scopes[callee].returnValue.Some? ==> r.out == Done(st.scopes[callee].returnValue.value)
  {
    if callee in st.scopes && st.scopes[callee].returnValue.Some? then Give(st.scopes[callee].returnValue.value, st)
    else if f.defTok.None? then Crash(st)
    else Raise(Runtime(MissingReturn), f.defTok.value, callee, st)
  }

  /** The values of the built-in's parameters, read from the call scope by name. */
  function BuiltinArgs(ps: seq<(string, Tag)>, callee: ScopeId, st: Store): (r: Option<seq<Value>>)
    ensures r.Some? ==> |r.value| == |ps|
  {
    if ps == [] then Some([])
    else
      match GetVariable(st, callee, ps[0].0, true)
      case None => None
      case Some(x) =>
        if x !in st.vars || st.vars[x].dtype.tag != ps[0].1 then None
        else
          match Read(st, x)
          case None => None
          case Some(v) =>
            match BuiltinArgs(ps[1..], callee, st)
            case None => None
            case Some(vs) => Some([v] + vs)
  }

  /** A built-in's `run`: read the parameters, compute, and store the result in the return slot. */
  function RunBuiltin(b: Builtin, callee: ScopeId, st: Store): (r: Ran<()>)
    ensures r.out.Done? ==> callee in st.scopes && callee in r.st.scopes && r.st.scopes[callee].returnValue.Some?
                            && r.st == SetReturnValue(st, callee, r.st.scopes[callee].returnValue.value)
  {
    match BuiltinArgs(BuiltinParams(b), callee, st)
    case None => Crash(st)
    case Some(args) =>
      match Apply(b, args)
      case Fail(k) => Raise(k, BuiltinTok, callee, st)
      case Ok(v) =>
        if callee !in st.scopes then Crash(st)
        else Give((), SetReturnValue(st, callee, Unnamed(v)))
  }

  /**
   * ReturnNode: only in a function scope; the value is cast to the return
   * type and stored in the slot before its type is checked.
   */
  function ExecReturn(p: Prims, at: Tok, value: Expr, ctx: ScopeId, st: Store, fuel: nat): (ran: Ran<()>)
    decreases fuel
  {
    if fuel == 0 then Starved(st)
    else if ctx !in st.scopes || !st.scopes[ctx].kind.FunctionScope? then
      Raise(InvalidUsage(ReturnOutsideFunction), at, ctx, st)
    else
      var rt := st.scopes[ctx].kind.returnType;
      var r :- Eval(p, value, ctx, st, fuel - 1);
      var c := ImplicitCast(p, r.0, rt);
      var st2 := SetReturnValue(r.1, ctx, c);
      if !SameType(c.Type(), rt) then Raise(Runtime(InvalidReturnType), at, ctx, st2)
      else Ran(Unwind(ReturnSig), st2)
  }

  // =====================================================================
  // The program
  // =====================================================================

  /** MainBlock::run: a BREAK or CONTINUE that escapes the program becomes an error at its own token. */
  function RunMain(p: Prims, body: seq<Stmt>, ctx: ScopeId, st: Store, fuel: nat): (r: Ran<()>)
    ensures !r.out.Unwind? || (!r.out.sig.BreakSig? && !r.out.sig.ContinueSig?)
  {
    var r := RunBlock(p, body, ctx, st, fuel);
    match r.out
    case Unwind(BreakSig(t)) => Raise(InvalidUsage(BreakStatement), t, ctx, r.st)
    case Unwind(ContinueSig(t)) => Raise(InvalidUsage(ContinueStatement), t, ctx, r.st)
    case _ => r
  }
}
