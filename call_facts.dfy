/**
 * What calls, returns and routine definitions promise, one node at a time:
 * the order of the checks a definition makes, the lookup, argument and
 * arity steps of a call, the scope a body runs in, which signals a call
 * catches, and where a function's result comes from.
 */
module CallFacts {
  import opened Wrappers
  import opened Types
  import opened Values
  import opened Errors
  import opened Coercion
  import opened Ast
  import opened Store
  import opened Engine

  // ===================================================================
  // Definitions
  // ===================================================================

  /**
   * Once every parameter type resolves, the parameter list has one entry
   * per declaration, in order, with the declared name, pass mode and the
   * resolved (defined) type; what was collected before is kept.
   */
  lemma {:induction false} ParamsResolvedInOrder(decls: seq<ParamDecl>, i: nat, acc: seq<Parameter>, ctx: ScopeId,
                                                 st: Store)
    requires i <= |decls|
    requires ResolveParams(decls, i, acc, ctx, st).out.Done?
    ensures var ps := ResolveParams(decls, i, acc, ctx, st).out.val;
            && |ps| == |acc| + |decls| - i && ps[..|acc|] == acc
            && forall k :: i <= k < |decls| ==>
                 && ps[|acc| + k - i].name == decls[k].name && ps[|acc| + k - i].byRef == decls[k].byRef
                 && GetType(st, ctx, decls[k].typ, true) == Ok(ps[|acc| + k - i].dtype)
                 && ps[|acc| + k - i].dtype.tag != NONE
    decreases |decls| - i
  {
    if i < |decls| {
      var t := GetType(st, ctx, decls[i].typ, true).value;
      var acc' := acc + [Parameter(decls[i].name, t, decls[i].byRef)];
      ParamsResolvedInOrder(decls, i + 1, acc', ctx, st);
      var ps := ResolveParams(decls, i, acc, ctx, st).out.val;
      assert ps[..|acc|] == ps[..|acc'|][..|acc|];
    }
  }

  /** The first parameter whose type does not resolve stops the definition at that type's token. */
  lemma ParamTypeUndefined(decls: seq<ParamDecl>, i: nat, acc: seq<Parameter>, ctx: ScopeId, st: Store)
    requires i < |decls|
    requires GetType(st, ctx, decls[i].typ, true).Ok? && GetType(st, ctx, decls[i].typ, true).value.tag == NONE
    ensures ResolveParams(decls, i, acc, ctx, st)
         == Ran(Throw(NotDefined(UndefinedType(decls[i].typ.text)), decls[i].typ.at, ctx), st)
  {
  }

  /** A new procedure is appended to the defining scope with its resolved parameters and its body. */
  lemma ProcedureDefined(at: Tok, name: string, params: seq<ParamDecl>, body: seq<Stmt>, ctx: ScopeId, st: Store)
    requires GetProcedure(st, ctx, name).None?
    requires ResolveParams(params, 0, [], ctx, st).out.Done?
    ensures var ps := ResolveParams(params, 0, [], ctx, st).out.val;
            && |ps| == |params|
            && ProcedureDefStep(at, name, params, body, ctx, st) == Give((), AddProcedure(st, ctx, Procedure(name, ps, body)))
  {
    ParamsResolvedInOrder(params, 0, [], ctx, st);
  }

  /** A parameter type that does not resolve leaves the store without the procedure. */
  lemma ProcedureParamFails(at: Tok, name: string, params: seq<ParamDecl>, body: seq<Stmt>, ctx: ScopeId, st: Store)
    requires GetProcedure(st, ctx, name).None?
    requires ResolveParams(params, 0, [], ctx, st).out.Unwind?
    ensures ProcedureDefStep(at, name, params, body, ctx, st) == Ran(Unwind(ResolveParams(params, 0, [], ctx, st).out.sig), st)
  {
  }

  /**
   * A function's return type is resolved before its parameter types: an
   * undefined return type is reported at its own token whatever the
   * parameters are.
   */
  lemma FunctionReturnTypeFirst(at: Tok, name: string, params: seq<ParamDecl>, rt: TypeName, body: seq<Stmt>,
                                ctx: ScopeId, st: Store)
    requires GetFunction(st, ctx, name).None?
    ensures GetType(st, ctx, rt, true).Fail? ==>
              FunctionDefStep(at, name, params, rt, body, ctx, st) == Raise(GetType(st, ctx, rt, true).kind, rt.at, ctx, st)
    ensures GetType(st, ctx, rt, true).Ok? && GetType(st, ctx, rt, true).value.tag == NONE ==>
              FunctionDefStep(at, name, params, rt, body, ctx, st)
              == Ran(Throw(NotDefined(UndefinedType(rt.text)), rt.at, ctx), st)
  {
  }

  /** A new function is appended with its resolved return type, its parameters, its block and its own token. */
  lemma FunctionDefined(at: Tok, name: string, params: seq<ParamDecl>, rt: TypeName, body: seq<Stmt>, ctx: ScopeId,
                        st: Store)
    requires GetFunction(st, ctx, name).None?
    requires GetType(st, ctx, rt, true).Ok? && GetType(st, ctx, rt, true).value.tag != NONE
    requires ResolveParams(params, 0, [], ctx, st).out.Done?
    ensures var ps := ResolveParams(params, 0, [], ctx, st).out.val;
            && |ps| == |params|
            && FunctionDefStep(at, name, params, rt, body, ctx, st)
               == Give((), AddFunction(st, ctx, Function(name, ps, UserBody(body), GetType(st, ctx, rt, true).value, Some(at))))
  {
    ParamsResolvedInOrder(params, 0, [], ctx, st);
  }

  // ===================================================================
  // Arguments
  // ===================================================================

  /** The argument loop yields one result per argument expression, after the ones collected before. */
  lemma {:induction false} ArgsOnePerExpr(p: Prims, args: seq<Expr>, i: nat, acc: seq<NodeResult>, ctx: ScopeId,
                                          st: Store, fuel: nat)
    requires i <= |args| && |acc| == i
    requires EvalArgs(p, args, i, acc, ctx, st, fuel).out.Done?
    ensures var vs := EvalArgs(p, args, i, acc, ctx, st, fuel).out.val;
            |vs| == |args| && vs[..i] == acc
    decreases fuel
  {
    if i < |args| {
      var r := Eval(p, args[i], ctx, st, fuel - 1);
      ArgsOnePerExpr(p, args, i + 1, acc + [r.out.val], ctx, r.st, fuel - 1);
      var vs := EvalArgs(p, args, i, acc, ctx, st, fuel).out.val;
      assert vs[..i] == vs[..i + 1][..i];
    }
  }

  /** Arguments are evaluated left to right: argument `i` in the store the earlier ones left. */
  lemma ArgsLeftToRight(p: Prims, args: seq<Expr>, i: nat, acc: seq<NodeResult>, ctx: ScopeId, st: Store, fuel: nat)
    requires fuel > 0 && i < |args|
    ensures var r := Eval(p, args[i], ctx, st, fuel - 1);
            && (r.out.Done? ==> EvalArgs(p, args, i, acc, ctx, st, fuel)
                                == EvalArgs(p, args, i + 1, acc + [r.out.val], ctx, r.st, fuel - 1))
            && (r.out.Unwind? ==> EvalArgs(p, args, i, acc, ctx, st, fuel) == Ran(Unwind(r.out.sig), r.st))
  {
  }

  // ===================================================================
  // Procedure calls
  // ===================================================================

  /** An unknown procedure is reported before any argument is evaluated. */
  lemma UnknownProcedure(p: Prims, at: Tok, name: string, args: seq<Expr>, ctx: ScopeId, st: Store, fuel: nat)
    requires fuel > 0 && GetProcedure(st, ctx, name).None?
    ensures CallProcedure(p, at, name, args, ctx, st, fuel) == Ran(Throw(NotDefined(UndefinedProcedure(name)), at, ctx), st)
  {
  }

  /**
   * The arity is checked after the arguments are evaluated: a wrong count
   * reports the parameter types against the argument types.
   */
  lemma ProcedureArity(p: Prims, at: Tok, name: string, args: seq<Expr>, ctx: ScopeId, st: Store, fuel: nat,
                       proc: Procedure)
    requires fuel > 0 && GetProcedure(st, ctx, name) == Some(proc)
    requires EvalArgs(p, args, 0, [], ctx, st, fuel - 1).out.Done?
    requires |args| != |proc.params|
    ensures var a := EvalArgs(p, args, 0, [], ctx, st, fuel - 1);
            CallProcedure(p, at, name, args, ctx, st, fuel)
            == Ran(Throw(InvalidArgs(ParamTypes(proc.params), TypesOf(a.out.val)), at, ctx), a.st)
  {
    ArgsOnePerExpr(p, args, 0, [], ctx, st, fuel - 1);
  }

  /** With the right number of arguments the call enters the procedure with the values the arguments gave. */
  lemma ProcedureEntered(p: Prims, at: Tok, name: string, args: seq<Expr>, ctx: ScopeId, st: Store, fuel: nat,
                         proc: Procedure)
    requires fuel > 0 && GetProcedure(st, ctx, name) == Some(proc)
    requires EvalArgs(p, args, 0, [], ctx, st, fuel - 1).out.Done?
    requires |args| == |proc.params|
    ensures var a := EvalArgs(p, args, 0, [], ctx, st, fuel - 1);
            && |a.out.val| == |args|
            && CallProcedure(p, at, name, args, ctx, st, fuel) == EnterProcedure(p, at, proc, args, a.out.val, ctx, a.st, fuel - 1)
  {
    ArgsOnePerExpr(p, args, 0, [], ctx, st, fuel - 1);
  }

  /**
   * The body runs in a fresh plain child of the caller once the arguments
   * are bound, and whatever it ends with (a BREAK, CONTINUE or RETURN
   * signal, an error) is the call's own outcome.
   */
  lemma ProcedureBody(p: Prims, at: Tok, proc: Procedure, args: seq<Expr>, vals: seq<NodeResult>, ctx: ScopeId,
                      st: Store, fuel: nat)
    requires fuel > 0 && |proc.params| == |args| == |vals|
    ensures var (callee, st1) := NewChildScope(st, ctx, proc.name, PlainScope);
            var b := BindFrom(p, at, proc.params, args, vals, 0, ctx, callee, st1, fuel - 1);
            && callee == st.next && st1.scopes[callee].kind == PlainScope
            && Chain(st1, callee) == [ctx] + Chain(st, ctx)
            && (b.out.Done? ==> EnterProcedure(p, at, proc, args, vals, ctx, st, fuel) == RunBlock(p, proc.body, callee, b.st, fuel - 1))
            && (b.out.Unwind? ==> EnterProcedure(p, at, proc, args, vals, ctx, st, fuel) == Ran(Unwind(b.out.sig), b.st))
  {
  }

  // ===================================================================
  // Binding
  // ===================================================================

  /** A by-value argument whose cast value has another type than the parameter is an argument error. */
  lemma BindTypeChecked(p: Prims, at: Tok, params: seq<Parameter>, args: seq<Expr>, vals: seq<NodeResult>, i: nat,
                        ctx: ScopeId, callee: ScopeId, st: Store, fuel: nat)
    requires fuel > 0 && i < |params| == |args| == |vals|
    requires var r := if params[i].byRef then vals[i] else ImplicitCast(p, vals[i], params[i].dtype);
             !SameType(params[i].dtype, r.Type())
    ensures BindOne(p, at, params, args, vals, i, ctx, callee, st, fuel)
         == Ran(Throw(InvalidArgs(ParamTypes(params), TypesOf(vals)), at, ctx), st)
  {
  }

  /** A by-value argument is copied into a fresh variable of the callee, named and typed as the parameter. */
  lemma BindByValue(p: Prims, at: Tok, params: seq<Parameter>, args: seq<Expr>, vals: seq<NodeResult>, i: nat,
                    ctx: ScopeId, callee: ScopeId, st: Store, fuel: nat)
    requires fuel > 1 && i < |params| == |args| == |vals| && !params[i].byRef
    requires SameType(params[i].dtype, ImplicitCast(p, vals[i], params[i].dtype).Type())
    requires NewDefault(p, params[i].name, ImplicitCast(p, vals[i], params[i].dtype).Type(), false, callee, st, fuel - 2).out.Done?
    ensures var r := ImplicitCast(p, vals[i], params[i].dtype);
            var v := NewDefault(p, params[i].name, r.Type(), false, callee, st, fuel - 2);
            var w := AssignInto(p, v.out.val, r, v.st, fuel - 2);
            && (w.out.Done? ==> BindOne(p, at, params, args, vals, i, ctx, callee, st, fuel - 1)
                                == Give((), AddVariable(w.st, callee, v.out.val)))
            && (w.out.Unwind? ==> BindOne(p, at, params, args, vals, i, ctx, callee, st, fuel - 1) == Ran(Unwind(w.out.sig), w.st))
  {
  }

  /** A by-value parameter whose argument, once cast, is a primitive value of the parameter's type. */
  predicate BindsPrimitive(p: Prims, prm: Parameter, v: NodeResult)
  {
    var r := ImplicitCast(p, v, prm.dtype);
    !prm.byRef && IsPrimitive(r.data) && SameType(prm.dtype, r.Type())
  }

  /** The variable a by-value parameter becomes: its name, the cast value's type and the cast value. */
  function ByValueCell(p: Prims, prm: Parameter, v: NodeResult, callee: ScopeId): (c: Variable)
    ensures c.name == prm.name && c.parent == callee && !c.isConst
    ensures c.storage == Owned(ImplicitCast(p, v, prm.dtype).data)
  {
    var r := ImplicitCast(p, v, prm.dtype);
    Variable(prm.name, r.Type(), false, callee, Owned(r.data))
  }

  /** The `n` identities from `a` on, in order. */
  function Ids(a: nat, n: nat): (r: seq<VarId>)
    ensures |r| == n && forall k :: 0 <= k < n ==> r[k] == a + k
  {
    seq(n, k => a + k)
  }

  /** The store after one primitive by-value cell: the cell at `next`, appended to the callee. */
  function WithCell(st: Store, cell: Variable, callee: ScopeId): Store
  {
    AddVariable(st.(vars := st.vars[st.next := cell], next := st.next + 1), callee, st.next)
  }

  /** A variable of a primitive type starts as the default of its tag. */
  lemma NewDefaultPrimitive(p: Prims, name: string, t: DataType, isConst: bool, parent: ScopeId, st: Store, fuel: nat)
    requires fuel > 0 && IsPrimitiveTag(t.tag)
    ensures NewDefault(p, name, t, isConst, parent, st, fuel)
         == Alloc(st, name, t, isConst, parent, PrimitiveDefault(p, t.tag).value)
  {
  }

  /** Assigning a primitive of the variable's own tag writes it into the variable's storage. */
  lemma AssignIntoPrimitive(p: Prims, x: VarId, r: NodeResult, st: Store, fuel: nat)
    requires fuel > 0 && x in st.vars && st.vars[x].storage.Owned? && IsPrimitive(r.data)
    requires TagOf(st.vars[x].storage.value) == st.vars[x].dtype.tag == TagOf(r.data)
    ensures AssignInto(p, x, r, st, fuel) == Give((), WriteValue(st, x, r.data))
  {
  }

  /** Allocating a default under the next identity and then writing `v` there leaves the cell holding `v`. */
  lemma AllocThenWrite(p: Prims, st: Store, name: string, t: DataType, parent: ScopeId, v: Value)
    requires IsPrimitiveTag(t.tag)
    ensures var a := Alloc(st, name, t, false, parent, PrimitiveDefault(p, t.tag).value);
            && a.out.val in a.st.vars && a.st.vars[a.out.val].storage.Owned?
            && TagOf(a.st.vars[a.out.val].storage.value) == a.st.vars[a.out.val].dtype.tag == t.tag
            && WriteValue(a.st, a.out.val, v)
               == st.(vars := st.vars[st.next := Variable(name, t, false, parent, Owned(v))], next := st.next + 1)
  {
  }

  /** Binding one primitive by-value argument allocates its cell under the next identity and adds it to the callee. */
  lemma BindOnePrimitive(p: Prims, at: Tok, params: seq<Parameter>, args: seq<Expr>, vals: seq<NodeResult>, i: nat,
                         ctx: ScopeId, callee: ScopeId, st: Store, fuel: nat)
    requires fuel >= 2 && i < |params| == |args| == |vals|
    requires BindsPrimitive(p, params[i], vals[i])
    ensures var b := BindOne(p, at, params, args, vals, i, ctx, callee, st, fuel);
            var cell := ByValueCell(p, params[i], vals[i], callee);
            b == Give((), WithCell(st, cell, callee))
  {
    var r := ImplicitCast(p, vals[i], params[i].dtype);
    PrimitiveByTag(r.data);
    NewDefaultPrimitive(p, params[i].name, r.Type(), false, callee, st, fuel - 1);
    AllocThenWrite(p, st, params[i].name, r.Type(), callee, r.data);
    var a := Alloc(st, params[i].name, r.Type(), false, callee, PrimitiveDefault(p, r.Type().tag).value);
    AssignIntoPrimitive(p, a.out.val, r, a.st, fuel - 1);
    BindByValue(p, at, params, args, vals, i, ctx, callee, st, fuel + 1);
  }

  /**
   * `st2` is `st` with one fresh cell per parameter from `i` on, each
   * holding its cast argument, in order, appended to the callee's
   * variables; every variable that existed before, and every other scope,
   * is unchanged.
   */
  ghost predicate CellsBound(p: Prims, params: seq<Parameter>, vals: seq<NodeResult>, i: nat, callee: ScopeId,
                             st: Store, st2: Store)
    requires i <= |params| == |vals|
  {
    var n := |params| - i;
    && st2.next == st.next + n && st2.arrays == st.arrays
    && (forall y :: y in st.vars ==> y in st2.vars && st2.vars[y] == st.vars[y])
    && (forall y :: st.next <= y < st.next + n ==>
          y in st2.vars && st2.vars[y] == ByValueCell(p, params[i + (y - st.next)], vals[i + (y - st.next)], callee))
    && st2.scopes.Keys == st.scopes.Keys
    && (forall t :: t in st.scopes && t != callee ==> st2.scopes[t] == st.scopes[t])
    && (callee in st.scopes ==>
          st2.scopes[callee] == st.scopes[callee].(vars := st.scopes[callee].vars + Ids(st.next, n)))
  }

  /** One cell, then the rest: every variable that existed before is kept. */
  lemma CellsKeepOld(p: Prims, params: seq<Parameter>, vals: seq<NodeResult>, i: nat, callee: ScopeId,
                     st: Store, st2: Store)
    requires i < |params| == |vals| && Fresh(st)
    requires var cell := ByValueCell(p, params[i], vals[i], callee);
             CellsBound(p, params, vals, i + 1, callee, WithCell(st, cell, callee), st2)
    ensures forall y :: y in st.vars ==> y in st2.vars && st2.vars[y] == st.vars[y]
  {
    var st1 := WithCell(st, ByValueCell(p, params[i], vals[i], callee), callee);
    forall y | y in st.vars
      ensures y in st2.vars && st2.vars[y] == st.vars[y]
    {
      assert y in st1.vars && st1.vars[y] == st.vars[y];
    }
  }

  /** One cell, then the rest: identity `next + k` holds the cell of parameter `i + k`. */
  lemma CellsInOrder(p: Prims, params: seq<Parameter>, vals: seq<NodeResult>, i: nat, callee: ScopeId,
                     st: Store, st2: Store)
    requires i < |params| == |vals|
    requires var cell := ByValueCell(p, params[i], vals[i], callee);
             CellsBound(p, params, vals, i + 1, callee, WithCell(st, cell, callee), st2)
    ensures forall y :: st.next <= y < st.next + (|params| - i) ==>
              y in st2.vars && st2.vars[y] == ByValueCell(p, params[i + (y - st.next)], vals[i + (y - st.next)], callee)
  {
    var cell := ByValueCell(p, params[i], vals[i], callee);
    var st1 := WithCell(st, cell, callee);
    var n := |params| - i;
    assert st1.next == st.next + 1;
    forall y | st.next <= y < st.next + n
      ensures y in st2.vars && st2.vars[y] == ByValueCell(p, params[i + (y - st.next)], vals[i + (y - st.next)], callee)
    {
      if y == st.next {
        assert y in st1.vars && st1.vars[y] == cell;
        assert y !in st1.vars || st2.vars[y] == st1.vars[y];
      } else {
        assert st1.next <= y < st1.next + (n - 1);
        assert i + (y - st.next) == (i + 1) + (y - st1.next);
      }
    }
  }

  /** One cell, then the rest: the scopes other than the callee are kept, and the callee gains the identities in order. */
  lemma CellsInScopes(p: Prims, params: seq<Parameter>, vals: seq<NodeResult>, i: nat, callee: ScopeId,
                      st: Store, st2: Store)
    requires i < |params| == |vals|
    requires var cell := ByValueCell(p, params[i], vals[i], callee);
             CellsBound(p, params, vals, i + 1, callee, WithCell(st, cell, callee), st2)
    ensures st2.scopes.Keys == st.scopes.Keys
    ensures forall t :: t in st.scopes && t != callee ==> st2.scopes[t] == st.scopes[t]
    ensures callee in st.scopes ==>
              st2.scopes[callee] == st.scopes[callee].(vars := st.scopes[callee].vars + Ids(st.next, |params| - i))
  {
    var st1 := WithCell(st, ByValueCell(p, params[i], vals[i], callee), callee);
    var n := |params| - i;
    forall t | t in st.scopes && t != callee
      ensures st2.scopes[t] == st.scopes[t]
    {
      assert st1.scopes[t] == st.scopes[t];
    }
    if callee in st.scopes {
      assert st1.scopes[callee] == st.scopes[callee].(vars := st.scopes[callee].vars + [st.next]);
      assert Ids(st.next, n) == [st.next] + Ids(st.next + 1, n - 1);
    }
  }

  /** One cell, then the rest: the two bindings compose. */
  lemma CellsBoundStep(p: Prims, params: seq<Parameter>, vals: seq<NodeResult>, i: nat, callee: ScopeId,
                       st: Store, st2: Store)
    requires i < |params| == |vals| && Fresh(st)
    requires var cell := ByValueCell(p, params[i], vals[i], callee);
             CellsBound(p, params, vals, i + 1, callee, WithCell(st, cell, callee), st2)
    ensures CellsBound(p, params, vals, i, callee, st, st2)
  {
    CellsKeepOld(p, params, vals, i, callee, st, st2);
    CellsInOrder(p, params, vals, i, callee, st, st2);
    CellsInScopes(p, params, vals, i, callee, st, st2);
  }

  /** Adding a cell under the next identity keeps the store fresh. */
  lemma WithCellFresh(st: Store, cell: Variable, callee: ScopeId)
    requires Fresh(st)
    ensures Fresh(WithCell(st, cell, callee))
  {
  }

  /** One round of the binding loop on a primitive by-value parameter, then the rest. */
  lemma BindFromPrimitiveStep(p: Prims, at: Tok, params: seq<Parameter>, args: seq<Expr>, vals: seq<NodeResult>,
                              i: nat, ctx: ScopeId, callee: ScopeId, st: Store, fuel: nat)
    requires fuel >= 3 && i < |params| == |args| == |vals|
    requires BindsPrimitive(p, params[i], vals[i])
    ensures BindFrom(p, at, params, args, vals, i, ctx, callee, st, fuel)
         == BindFrom(p, at, params, args, vals, i + 1, ctx, callee,
                     WithCell(st, ByValueCell(p, params[i], vals[i], callee), callee), fuel - 1)
  {
    BindOnePrimitive(p, at, params, args, vals, i, ctx, callee, st, fuel - 1);
  }

  /** The store once every parameter from `i` on has its cell, in order. */
  function CellsFrom(p: Prims, params: seq<Parameter>, vals: seq<NodeResult>, i: nat, callee: ScopeId, st: Store)
    : Store
    requires i <= |params| == |vals|
    decreases |params| - i
  {
    if i == |params| then st
    else CellsFrom(p, params, vals, i + 1, callee, WithCell(st, ByValueCell(p, params[i], vals[i], callee), callee))
  }

  /** The cells added one by one are bound as `CellsBound` says, and the store stays fresh. */
  lemma {:induction false} CellsFromBound(p: Prims, params: seq<Parameter>, vals: seq<NodeResult>, i: nat,
                                          callee: ScopeId, st: Store)
    requires i <= |params| == |vals| && Fresh(st)
    ensures Fresh(CellsFrom(p, params, vals, i, callee, st))
    ensures CellsBound(p, params, vals, i, callee, st, CellsFrom(p, params, vals, i, callee, st))
    decreases |params| - i
  {
    if i < |params| {
      var cell := ByValueCell(p, params[i], vals[i], callee);
      WithCellFresh(st, cell, callee);
      CellsFromBound(p, params, vals, i + 1, callee, WithCell(st, cell, callee));
      CellsBoundStep(p, params, vals, i, callee, st, CellsFrom(p, params, vals, i, callee, st));
    }
  }

  /** The binding loop from `i` on completes and adds exactly the cells of `CellsFrom`. */
  ghost predicate BindsAsCells(p: Prims, at: Tok, params: seq<Parameter>, args: seq<Expr>, vals: seq<NodeResult>,
                               i: nat, ctx: ScopeId, callee: ScopeId, st: Store, fuel: nat)
    requires i <= |params| == |args| == |vals|
  {
    BindFrom(p, at, params, args, vals, i, ctx, callee, st, fuel) == Give((), CellsFrom(p, params, vals, i, callee, st))
  }

  /** With primitive by-value parameters only, the binding loop completes and adds exactly the cells of `CellsFrom`. */
  lemma {:induction false} BindFromCells(p: Prims, at: Tok, params: seq<Parameter>, args: seq<Expr>,
                                         vals: seq<NodeResult>, i: nat, ctx: ScopeId, callee: ScopeId, st: Store,
                                         fuel: nat)
    requires i <= |params| == |args| == |vals|
    requires forall j :: i <= j < |params| ==> BindsPrimitive(p, params[j], vals[j])
    requires fuel >= |params| - i + 2
    ensures BindsAsCells(p, at, params, args, vals, i, ctx, callee, st, fuel)
    decreases |params| - i
  {
    if i < |params| {
      var st1 := WithCell(st, ByValueCell(p, params[i], vals[i], callee), callee);
      BindFromPrimitiveStep(p, at, params, args, vals, i, ctx, callee, st, fuel);
      BindFromCells(p, at, params, args, vals, i + 1, ctx, callee, st1, fuel - 1);
    }
  }

  /**
   * When every remaining parameter is by value and its cast argument is a
   * primitive of the parameter's type, binding completes given enough fuel
   * and binds one fresh cell per parameter (`CellsBound`): the caller's
   * scope and every variable that existed before are unchanged.
   */
  lemma BindAllPrimitive(p: Prims, at: Tok, params: seq<Parameter>, args: seq<Expr>, vals: seq<NodeResult>, i: nat,
                         ctx: ScopeId, callee: ScopeId, st: Store, fuel: nat)
    requires i <= |params| == |args| == |vals| && Fresh(st)
    requires forall j :: i <= j < |params| ==> BindsPrimitive(p, params[j], vals[j])
    requires fuel >= |params| - i + 2
    ensures var b := BindFrom(p, at, params, args, vals, i, ctx, callee, st, fuel);
            b.out.Done? && Fresh(b.st) && CellsBound(p, params, vals, i, callee, st, b.st)
  {
    BindFromCells(p, at, params, args, vals, i, ctx, callee, st, fuel);
    CellsFromBound(p, params, vals, i, callee, st);
  }

  /** A by-reference argument must be an access path. */
  lemma ByRefNeedsAccess(p: Prims, at: Tok, params: seq<Parameter>, args: seq<Expr>, vals: seq<NodeResult>, i: nat,
                         ctx: ScopeId, callee: ScopeId, st: Store, fuel: nat)
    requires fuel > 0 && i < |params| == |args| == |vals| && params[i].byRef && !args[i].Access?
    requires SameType(params[i].dtype, vals[i].Type())
    ensures BindOne(p, at, params, args, vals, i, ctx, callee, st, fuel) == Ran(Throw(Runtime(ByRefNotAccess), at, ctx), st)
  {
  }

  /**
   * A by-reference argument is resolved again in the caller: an array is
   * refused, a variable is bound in the callee as an alias of its owner
   * under the parameter's name.
   */
  lemma BindByReference(p: Prims, at: Tok, params: seq<Parameter>, args: seq<Expr>, vals: seq<NodeResult>, i: nat,
                        ctx: ScopeId, callee: ScopeId, st: Store, fuel: nat)
    requires fuel > 1 && i < |params| == |args| == |vals| && params[i].byRef && args[i].Access?
    requires SameType(params[i].dtype, vals[i].Type())
    requires Resolve(p, args[i].path, ctx, st, fuel - 2).out.Done?
    ensures var h := Resolve(p, args[i].path, ctx, st, fuel - 2);
            var b := BindOne(p, at, params, args, vals, i, ctx, callee, st, fuel - 1);
            && (h.out.val.ArrHolder? ==> b == Ran(Throw(ArrayDirectAccess, at, ctx), h.st))
            && (h.out.val.VarHolder? && Owner(h.st, h.out.val.v) in h.st.vars ==>
                  && b.out.Done? && h.st.next in b.st.vars
                  && b.st.vars[h.st.next].storage == Alias(Owner(h.st, h.out.val.v))
                  && b.st.vars[h.st.next].name == params[i].name
                  && (callee in h.st.scopes ==> b.st.scopes[callee].vars == h.st.scopes[callee].vars + [h.st.next]))
  {
  }

  // ===================================================================
  // Function calls and RETURN
  // ===================================================================

  /** An unknown function is reported before any argument is evaluated. */
  lemma UnknownFunction(p: Prims, at: Tok, name: string, args: seq<Expr>, ctx: ScopeId, st: Store, fuel: nat)
    requires fuel > 0 && GetFunction(st, ctx, name).None?
    ensures CallFunction(p, at, name, args, ctx, st, fuel) == Ran(Throw(NotDefined(UndefinedFunction(name)), at, ctx), st)
  {
  }

  /** A function call checks its arity as a procedure call does, after the arguments. */
  lemma FunctionArity(p: Prims, at: Tok, name: string, args: seq<Expr>, ctx: ScopeId, st: Store, fuel: nat, f: Function)
    requires fuel > 0 && GetFunction(st, ctx, name) == Some(f)
    requires EvalArgs(p, args, 0, [], ctx, st, fuel - 1).out.Done?
    ensures var a := EvalArgs(p, args, 0, [], ctx, st, fuel - 1);
            && |a.out.val| == |args|
            && (|args| != |f.params| ==>
                  CallFunction(p, at, name, args, ctx, st, fuel)
                  == Ran(Throw(InvalidArgs(ParamTypes(f.params), TypesOf(a.out.val)), at, ctx), a.st))
            && (|args| == |f.params| ==>
                  CallFunction(p, at, name, args, ctx, st, fuel) == EnterFunction(p, at, f, args, a.out.val, ctx, a.st, fuel - 1))
  {
    ArgsOnePerExpr(p, args, 0, [], ctx, st, fuel - 1);
  }

  /**
   * The function body runs in a fresh child scope that carries the return
   * type. Only the RETURN signal is caught: it and normal completion take
   * the result from the return slot; BREAK, CONTINUE and errors leave the
   * call unchanged.
   */
  lemma FunctionBodySignals(p: Prims, at: Tok, f: Function, args: seq<Expr>, vals: seq<NodeResult>, ctx: ScopeId,
                            st: Store, fuel: nat)
    requires fuel > 0 && |f.params| == |args| == |vals|
    ensures var (callee, st1) := NewChildScope(st, ctx, f.name, FunctionScope(f.returnType));
            var b := BindFrom(p, at, f.params, args, vals, 0, ctx, callee, st1, fuel - 1);
            var r := RunBody(p, f.body, callee, b.st, fuel - 1);
            var e := EnterFunction(p, at, f, args, vals, ctx, st, fuel);
            && st1.scopes[callee].kind == FunctionScope(f.returnType) && st1.scopes[callee].returnValue.None?
            && (b.out.Unwind? ==> e == Ran(Unwind(b.out.sig), b.st))
            && (b.out.Done? && (r.out.Done? || r.out.sig.ReturnSig?) ==> e == FunctionResult(f, callee, r.st))
            && (b.out.Done? && r.out.Unwind? && !r.out.sig.ReturnSig? ==> e == Ran(Unwind(r.out.sig), r.st))
  {
    var (callee, st1) := NewChildScope(st, ctx, f.name, FunctionScope(f.returnType));
    assert st1.scopes[callee] == EmptyScope(f.name, [ctx] + Chain(st, ctx), FunctionScope(f.returnType));
  }

  /** The result is the value in the return slot; a user function that stored none is an error at its definition. */
  lemma FunctionResultSlot(f: Function, callee: ScopeId, st: Store)
    requires f.defTok.Some?
    ensures callee in st.scopes && st.scopes[callee].returnValue.Some? ==>
              FunctionResult(f, callee, st) == Give(st.scopes[callee].returnValue.value, st)
    ensures callee !in st.scopes || st.scopes[callee].returnValue.None? ==>
              FunctionResult(f, callee, st) == Ran(Throw(Runtime(MissingReturn), f.defTok.value, callee), st)
  {
  }

  /** RETURN is refused outside a function scope (in a procedure or the program) and changes nothing. */
  lemma ReturnOutsideFunctionScope(p: Prims, at: Tok, value: Expr, ctx: ScopeId, st: Store, fuel: nat)
    requires fuel > 0 && (ctx !in st.scopes || !st.scopes[ctx].kind.FunctionScope?)
    ensures ExecReturn(p, at, value, ctx, st, fuel) == Ran(Throw(InvalidUsage(ReturnOutsideFunction), at, ctx), st)
  {
  }

  /** A RETURN directly in a procedure's body, before anything is bound, is refused. */
  lemma ReturnInProcedure(p: Prims, at: Tok, value: Expr, proc: Procedure, ctx: ScopeId, st: Store, fuel: nat)
    requires fuel > 0
    ensures var (callee, st1) := NewChildScope(st, ctx, proc.name, PlainScope);
            ExecReturn(p, at, value, callee, st1, fuel) == Ran(Throw(InvalidUsage(ReturnOutsideFunction), at, callee), st1)
  {
  }

  /**
   * In a function scope RETURN evaluates its value, casts it to the return
   * type and stores it in the slot; a value of another type is an error
   * raised with the slot already written, otherwise the RETURN signal ends
   * the body.
   */
  lemma ReturnStoresValue(p: Prims, at: Tok, value: Expr, ctx: ScopeId, st: Store, fuel: nat)
    requires fuel > 0 && ctx in st.scopes && st.scopes[ctx].kind.FunctionScope?
    requires Eval(p, value, ctx, st, fuel - 1).out.Done?
    ensures var rt := st.scopes[ctx].kind.returnType;
            var r := Eval(p, value, ctx, st, fuel - 1);
            var c := ImplicitCast(p, r.out.val, rt);
            var w := ExecReturn(p, at, value, ctx, st, fuel);
            && w.st == SetReturnValue(r.st, ctx, c)
            && (SameType(c.Type(), rt) <==> w.out == Unwind(ReturnSig))
            && (!SameType(c.Type(), rt) ==> w.out == Throw(Runtime(InvalidReturnType), at, ctx))
  {
  }
}
