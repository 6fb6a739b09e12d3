/**
 * What the resolver chain, the declarations and the assignments promise:
 * the order of the lookups, the error of each failed check, and what a
 * successful step puts into the store.
 */
module ResolverFacts {
  import opened Wrappers
  import opened Types
  import opened Values
  import opened Errors
  import opened Coercion
  import opened Arrays
  import opened Ast
  import opened Store
  import opened Engine

  // ===================================================================
  // Names, dereferences, members and indices
  // ===================================================================

  /** A plain name is a variable (local, then root) before an array (local, then root); otherwise it is undefined. */
  lemma NameResolution(p: Prims, at: Tok, name: string, ctx: ScopeId, st: Store, fuel: nat)
    requires fuel > 0
    ensures var h := Resolve(p, Name(at, name), ctx, st, fuel);
            var v := GetVariable(st, ctx, name, true);
            var a := GetArray(st, ctx, name, true);
            && h.st == st
            && (v.Some? ==> h.out == Done(VarHolder(v.value)))
            && (v.None? && a.Some? ==> h.out == Done(ArrHolder(a.value)))
            && (v.None? && a.None? ==> h.out == Throw(NotDefined(UndefinedIdentifier(name)), at, ctx))
  {
  }

  /** Only a variable of class PTR can be dereferenced. */
  lemma DerefNeedsPointer(h: Holder, at: Tok, ctx: ScopeId, st: Store)
    requires h.ArrHolder? || (h.v in st.vars && st.vars[h.v].dtype.tag != PTR)
    ensures DerefStep(h, at, ctx, st).out == Throw(InvalidUsage(DerefNonPointer), at, ctx)
    ensures DerefStepAsWritten(h, at, ctx, st).out == Throw(InvalidUsage(DerefNonPointer), at, ctx)
  {
  }

  /**
   * The outcomes of a dereference in the corrected order, null check first:
   * a null target is an uninitialised pointer; a target whose recorded
   * scope is not the current scope or one of its ancestors is a deleted
   * object; otherwise the target variable.
   */
  lemma DerefOutcomes(x: VarId, at: Tok, ctx: ScopeId, st: Store)
    requires x in st.vars && st.vars[x].dtype.tag == PTR
    requires Read(st, x).Some? && Read(st, x).value.PtrV?
    ensures var v := Read(st, x).value;
            var r := DerefStep(VarHolder(x), at, ctx, st);
            && (v.target.None? ==> r.out == Throw(Runtime(UninitializedPointer), at, ctx))
            && (v.target.Some? && (v.ctx.None? || !Reaches(st, ctx, v.ctx.value)) ==>
                  r.out == Throw(Runtime(DeletedObject(st.vars[x].name)), at, ctx))
            && (v.target.Some? && v.ctx.Some? && Reaches(st, ctx, v.ctx.value) ==> r.out == Done(VarHolder(v.target.value)))
  {
  }

  /**
   * The outcomes of a dereference in the order of the source, scope walk
   * first: a pointer with no recorded scope, or one whose recorded scope is
   * not the current scope or one of its ancestors, is a deleted object
   * whatever its target; only then is a null target an uninitialised
   * pointer; otherwise the target variable.
   */
  lemma DerefOutcomesAsWritten(x: VarId, at: Tok, ctx: ScopeId, st: Store)
    requires x in st.vars && st.vars[x].dtype.tag == PTR
    requires Read(st, x).Some? && Read(st, x).value.PtrV?
    ensures var v := Read(st, x).value;
            var r := DerefStepAsWritten(VarHolder(x), at, ctx, st);
            && (v.ctx.None? || !Reaches(st, ctx, v.ctx.value) ==>
                  r.out == Throw(Runtime(DeletedObject(st.vars[x].name)), at, ctx))
            && (v.ctx.Some? && Reaches(st, ctx, v.ctx.value) && v.target.None? ==>
                  r.out == Throw(Runtime(UninitializedPointer), at, ctx))
            && (v.target.Some? && v.ctx.Some? && Reaches(st, ctx, v.ctx.value) ==> r.out == Done(VarHolder(v.target.value)))
  {
  }

  /** The two orders of the dereference checks differ only for a null target. */
  lemma DerefOrderMattersOnlyForNull(x: VarId, at: Tok, ctx: ScopeId, st: Store)
    requires Read(st, x).Some? && Read(st, x).value.PtrV? && Read(st, x).value.target.Some?
    ensures DerefStep(VarHolder(x), at, ctx, st) == DerefStepAsWritten(VarHolder(x), at, ctx, st)
  {
  }

  /** A declared pointer starts with no target and no recorded scope. */
  lemma DefaultPointerIsNull(p: Prims, name: string, t: DataType, isConst: bool, parent: ScopeId, st: Store, fuel: nat)
    requires fuel > 0 && t.tag == PTR && t.name.Some?
    ensures var r := NewDefault(p, name, t, isConst, parent, st, fuel);
            r.out.Done? && r.out.val in r.st.vars && r.st.vars[r.out.val].dtype == t
            && Read(r.st, r.out.val) == Some(PtrV(t.name.value, None, None))
  {
  }

  /**
   * As written, dereferencing a pointer that was never assigned reports a
   * deleted object, because its recorded scope is null and the walk reaches
   * the root; with the null check first it reports an uninitialised pointer.
   */
  lemma NeverAssignedPointer(p: Prims, name: string, t: DataType, ctx: ScopeId, at: Tok, st: Store, fuel: nat)
    requires fuel > 0 && t.tag == PTR && t.name.Some?
    ensures var r := NewDefault(p, name, t, false, ctx, st, fuel);
            r.out.Done? && r.out.val in r.st.vars
            && DerefStepAsWritten(VarHolder(r.out.val), at, ctx, r.st).out
               == Throw(Runtime(DeletedObject(name)), at, ctx)
            && DerefStep(VarHolder(r.out.val), at, ctx, r.st).out == Throw(Runtime(UninitializedPointer), at, ctx)
  {
    DefaultPointerIsNull(p, name, t, false, ctx, st, fuel);
  }

  /**
   * Member access needs a Composite variable; the member is looked up in the
   * record scope, variable before array, with the root as fallback; a
   * missing member names both the type and the member.
   */
  lemma MemberLookup(x: VarId, at: Tok, m: string, ctx: ScopeId, st: Store)
    requires x in st.vars && st.vars[x].dtype.tag == COMPOSITE
    requires Read(st, x).Some? && Read(st, x).value.CompV?
    ensures var c := Read(st, x).value;
            var v := GetVariable(st, c.scope, m, true);
            var a := GetArray(st, c.scope, m, true);
            var r := MemberStep(VarHolder(x), at, m, ctx, st);
            && r.st == st
            && (v.Some? ==> r.out == Done(VarHolder(v.value)))
            && (v.None? && a.Some? ==> r.out == Done(ArrHolder(a.value)))
            && (v.None? && a.None? ==> r.out == Throw(Runtime(NoMember(c.compDef, m)), at, ctx))
  {
  }

  /** Only a variable of class COMPOSITE has members. */
  lemma MemberNeedsComposite(h: Holder, at: Tok, m: string, ctx: ScopeId, st: Store)
    requires h.ArrHolder? || (h.v in st.vars && st.vars[h.v].dtype.tag != COMPOSITE)
    ensures MemberStep(h, at, m, ctx, st).out == Throw(InvalidUsage(MemberOfNonComposite), at, ctx)
  {
  }

  /** Indexing a variable is an error that names it. */
  lemma IndexingNonArray(p: Prims, at: Tok, inner: Path, idx: seq<Expr>, ctx: ScopeId, st: Store, fuel: nat, x: VarId)
    requires fuel > 0
    requires Resolve(p, inner, ctx, st, fuel - 1).out == Done(VarHolder(x))
    requires x in Resolve(p, inner, ctx, st, fuel - 1).st.vars
    ensures var h := Resolve(p, inner, ctx, st, fuel - 1);
            Resolve(p, Index(at, inner, idx), ctx, st, fuel)
            == Ran(Throw(Runtime(IndexNonArray(h.st.vars[x].name)), at, ctx), h.st)
  {
  }

  /** A wrong number of indices is rejected before any index is evaluated. */
  lemma IndexCountFirst(p: Prims, at: Tok, inner: Path, idx: seq<Expr>, ctx: ScopeId, st: Store, fuel: nat, a: ArrId)
    requires fuel > 0
    requires Resolve(p, inner, ctx, st, fuel - 1).out == Done(ArrHolder(a))
    requires a in Resolve(p, inner, ctx, st, fuel - 1).st.arrays
    requires |idx| != |Resolve(p, inner, ctx, st, fuel - 1).st.arrays[a].dims|
    ensures var h := Resolve(p, inner, ctx, st, fuel - 1);
            Resolve(p, Index(at, inner, idx), ctx, st, fuel) == Ran(Throw(Runtime(IndexCount), at, ctx), h.st)
  {
  }

  /** Once every index is evaluated and valid, the result is the cell at the stride offset of the tuple. */
  lemma IndexElement(p: Prims, at: Tok, inner: Path, idx: seq<Expr>, ctx: ScopeId, st: Store, fuel: nat, a: ArrId)
    requires fuel > 0
    requires Resolve(p, inner, ctx, st, fuel - 1).out == Done(ArrHolder(a))
    requires a in Resolve(p, inner, ctx, st, fuel - 1).st.arrays
    requires |idx| == |Resolve(p, inner, ctx, st, fuel - 1).st.arrays[a].dims|
    ensures var h := Resolve(p, inner, ctx, st, fuel - 1);
            var dims := h.st.arrays[a].dims;
            var ix := IndicesFrom(p, dims, idx, 0, [], ctx, h.st, fuel - 1);
            ix.out.Done? && a in ix.st.arrays && ElementAt(ix.st.arrays[a], ix.out.val).Some? ==>
              Resolve(p, Index(at, inner, idx), ctx, st, fuel)
              == Give(VarHolder(ElementAt(ix.st.arrays[a], ix.out.val).value), ix.st)
  {
  }

  /** Each index must be INTEGER and valid for its dimension; the first failure stops the evaluation. */
  lemma IndexChecked(p: Prims, dims: seq<Dim>, idx: seq<Expr>, i: nat, acc: seq<int>, ctx: ScopeId, st: Store, fuel: nat)
    requires fuel > 0 && |idx| == |dims| && i < |idx|
    requires Eval(p, idx[i], ctx, st, fuel - 1).out.Done?
    ensures var r := Eval(p, idx[i], ctx, st, fuel - 1);
            var w := IndicesFrom(p, dims, idx, i, acc, ctx, st, fuel);
            && (!r.out.val.data.IntV? ==> w == Ran(Throw(Runtime(IndexNotInteger), idx[i].at, ctx), r.st))
            && (r.out.val.data.IntV? && !IsValidIndex(dims[i], r.out.val.data.i) ==>
                  w == Ran(Throw(Runtime(IndexOutOfBounds), idx[i].at, ctx), r.st))
            && (r.out.val.data.IntV? && IsValidIndex(dims[i], r.out.val.data.i) ==>
                  w == IndicesFrom(p, dims, idx, i + 1, acc + [r.out.val.data.i], ctx, r.st, fuel - 1))
  {
  }

  /** The indices come back in order, one per index expression, each valid for its dimension. */
  lemma {:induction false} IndicesInBounds(p: Prims, dims: seq<Dim>, idx: seq<Expr>, i: nat, acc: seq<int>, ctx: ScopeId,
                                           st: Store, fuel: nat)
    requires |idx| == |dims| && i <= |idx| && |acc| == i && forall k :: 0 <= k < i ==> IsValidIndex(dims[k], acc[k])
    requires IndicesFrom(p, dims, idx, i, acc, ctx, st, fuel).out.Done?
    ensures InBounds(dims, IndicesFrom(p, dims, idx, i, acc, ctx, st, fuel).out.val)
    decreases fuel
  {
    if i < |idx| {
      var r := Eval(p, idx[i], ctx, st, fuel - 1);
      IndicesInBounds(p, dims, idx, i + 1, acc + [r.out.val.data.i], ctx, r.st, fuel - 1);
    }
  }

  // ===================================================================
  // Reading a variable
  // ===================================================================

  /** A name that resolves to nothing is read as the enum constant of that name, if there is one. */
  lemma ReadFallsBackToEnum(p: Prims, at: Tok, text: string, path: Path, ctx: ScopeId, st: Store, fuel: nat,
                            w: Undefined, eat: Tok, esc: ScopeId)
    requires fuel > 0
    requires Resolve(p, path, ctx, st, fuel - 1).out == Unwind(Raised(Error(NotDefined(w), eat, esc)))
    ensures var h := Resolve(p, path, ctx, st, fuel - 1);
            var e := GetEnumElement(h.st, ctx, text, true);
            && (e.Some? ==> EvalAccess(p, at, text, path, ctx, st, fuel)
                            == Give(NodeResult(EnumV(e.value.0, e.value.1), Some(e.value.0)), h.st))
            && (e.None? ==> EvalAccess(p, at, text, path, ctx, st, fuel) == Ran(Unwind(h.out.sig), h.st))
  {
  }

  /** A whole array is not a value. */
  lemma ReadArrayIsDirectAccess(p: Prims, at: Tok, text: string, path: Path, ctx: ScopeId, st: Store, fuel: nat, a: ArrId)
    requires fuel > 0
    requires Resolve(p, path, ctx, st, fuel - 1).out == Done(ArrHolder(a))
    ensures EvalAccess(p, at, text, path, ctx, st, fuel)
         == Ran(Throw(ArrayDirectAccess, at, ctx), Resolve(p, path, ctx, st, fuel - 1).st)
  {
  }

  /** Reading a variable yields its value (copied) named with the variable's type. */
  lemma ReadVariableValue(p: Prims, x: VarId, st: Store, fuel: nat)
    requires fuel > 1 && x in st.vars && Read(st, x).Some?
    requires st.vars[x].dtype.tag != NONE && TagOf(Read(st, x).value) == st.vars[x].dtype.tag
    requires !Read(st, x).value.CompV?
    ensures ReadVar(p, x, st, fuel) == Give(NodeResult(Read(st, x).value, st.vars[x].dtype.name), st)
  {
  }

  // ===================================================================
  // DECLARE and CONSTANT
  // ===================================================================

  /**
   * The checks of DECLARE for one identifier, in order: a local variable of
   * that name, a type or enum-constant name, an unknown type; a failed check
   * leaves the store as it was. An identifier that passes gets a default
   * variable of the type, added to the current scope.
   */
  lemma DeclareChecks(p: Prims, at: Tok, n: string, typ: TypeName, ctx: ScopeId, st: Store, fuel: nat)
    requires fuel > 0
    ensures var w := DeclareOne(p, at, n, typ, ctx, st, fuel);
            var t := GetType(st, ctx, typ, true);
            var free := GetVariable(st, ctx, n, false).None? && !IsIdentifierType(st, ctx, n, true);
            && (GetVariable(st, ctx, n, false).Some? ==> w == Ran(Throw(Redeclaration(n), at, ctx), st))
            && (GetVariable(st, ctx, n, false).None? && IsIdentifierType(st, ctx, n, true) ==>
                  w == Ran(Throw(Runtime(TypeAsVariable(n)), at, ctx), st))
            && (free && t.Ok? && t.value.tag == NONE ==> w == Ran(Throw(NotDefined(UndefinedType(typ.text)), at, ctx), st))
            && (free && t.Ok? && t.value.tag != NONE ==>
                  var v := NewDefault(p, n, t.value, false, ctx, st, fuel - 1);
                  && (v.out.Unwind? ==> w == Ran(Unwind(v.out.sig), v.st))
                  && (v.out.Done? ==> w == Give((), AddVariable(v.st, ctx, v.out.val))))
  {
  }

  /**
   * DECLARE handles its identifiers in order: a failure at one identifier
   * ends the statement in a store that keeps every earlier declaration, and
   * a success goes on with the next identifier.
   */
  lemma DeclareInOrder(p: Prims, at: Tok, names: seq<Ident>, typ: TypeName, i: nat, ctx: ScopeId, st: Store, fuel: nat)
    requires fuel > 0 && i < |names|
    ensures var d := DeclareOne(p, at, names[i].text, typ, ctx, st, fuel - 1);
            var w := DeclareFrom(p, at, names, typ, i, ctx, st, fuel);
            && (d.out.Unwind? ==> w == d)
            && (d.out.Done? ==> w == DeclareFrom(p, at, names, typ, i + 1, ctx, d.st, fuel - 1))
  {
  }

  /** CONSTANT evaluates its value before the redeclaration check, which looks at the store after the value. */
  lemma ConstValueFirst(p: Prims, at: Tok, ident: Ident, value: Expr, ctx: ScopeId, st: Store, fuel: nat)
    requires fuel > 0
    ensures var r := Eval(p, value, ctx, st, fuel - 1);
            var w := ExecConst(p, at, ident, value, ctx, st, fuel);
            && (r.out.Unwind? ==> w == Ran(Unwind(r.out.sig), r.st))
            && (r.out.Done? && GetVariable(r.st, ctx, ident.text, false).Some? ==>
                  w == Ran(Throw(Redeclaration(ident.text), at, ctx), r.st))
  {
  }

  /** A constant holds a copy of the value, with the value's type, flagged constant, in the current scope. */
  lemma ConstAdds(p: Prims, at: Tok, ident: Ident, value: Expr, ctx: ScopeId, st: Store, fuel: nat)
    requires fuel > 2
    requires Eval(p, value, ctx, st, fuel - 1).out.Done?
    requires !Eval(p, value, ctx, st, fuel - 1).out.val.data.CompV?
    requires GetVariable(Eval(p, value, ctx, st, fuel - 1).st, ctx, ident.text, false).None?
    ensures var r := Eval(p, value, ctx, st, fuel - 1);
            var c := Alloc(r.st, ident.text, r.out.val.Type(), true, ctx, r.out.val.data);
            ExecConst(p, at, ident, value, ctx, st, fuel) == Give((), AddVariable(c.st, ctx, c.out.val))
  {
    var r := Eval(p, value, ctx, st, fuel - 1);
    assert DeepCopyAs(p, r.out.val.Type().tag, r.out.val.data, r.st, fuel - 1) == Give(r.out.val.data, r.st);
  }

  // ===================================================================
  // Assignment
  // ===================================================================

  /**
   * The value is evaluated before the target is resolved: an error or
   * signal of the value, other than a whole-array read in this very scope,
   * ends the assignment with the target untouched.
   */
  lemma AssignValueFirst(p: Prims, at: Tok, target: Path, value: Expr, ctx: ScopeId, st: Store, fuel: nat)
    requires fuel > 0
    requires Eval(p, value, ctx, st, fuel - 1).out.Unwind?
    requires !(Eval(p, value, ctx, st, fuel - 1).out.sig.Raised?
               && Eval(p, value, ctx, st, fuel - 1).out.sig.err.kind == ArrayDirectAccess
               && Eval(p, value, ctx, st, fuel - 1).out.sig.err.scope == ctx)
    ensures ExecAssign(p, at, target, value, ctx, st, fuel)
         == Ran(Unwind(Eval(p, value, ctx, st, fuel - 1).out.sig), Eval(p, value, ctx, st, fuel - 1).st)
  {
  }

  /**
   * An undefined plain-name target is declared on the spot, locally, with
   * the value's type, unless the name is a type or enum constant; any other
   * undefined target passes the error on.
   */
  lemma AssignImplicitDeclare(p: Prims, at: Tok, target: Path, v: NodeResult, ctx: ScopeId, st: Store, fuel: nat,
                              w: Undefined, eat: Tok, esc: ScopeId)
    requires fuel > 0
    requires Resolve(p, target, ctx, st, fuel - 1).out == Unwind(Raised(Error(NotDefined(w), eat, esc)))
    ensures var h := Resolve(p, target, ctx, st, fuel - 1);
            var a := AssignTarget(p, at, target, v, ctx, st, fuel);
            && (!target.Name? || IsIdentifierType(h.st, ctx, target.name, true) ==> a == Ran(Unwind(h.out.sig), h.st))
            && (target.Name? && !IsIdentifierType(h.st, ctx, target.name, true) ==>
                  var nv := NewDefault(p, target.name, v.Type(), false, ctx, h.st, fuel - 1);
                  (nv.out.Unwind? ==> a == Ran(Unwind(nv.out.sig), nv.st))
                  && (nv.out.Done? ==> a == AssignToVar(p, at, nv.out.val, v, ctx, AddVariable(nv.st, ctx, nv.out.val), fuel - 1)))
  {
  }

  /** A resolved whole array cannot be assigned a value. */
  lemma AssignToArray(p: Prims, at: Tok, target: Path, v: NodeResult, ctx: ScopeId, st: Store, fuel: nat, a: ArrId)
    requires fuel > 0
    requires Resolve(p, target, ctx, st, fuel - 1).out == Done(ArrHolder(a))
    ensures AssignTarget(p, at, target, v, ctx, st, fuel)
         == Ran(Throw(ArrayDirectAccess, at, ctx), Resolve(p, target, ctx, st, fuel - 1).st)
  {
  }

  /**
   * The checks on the target variable: a constant is ConstAssign; after the
   * implicit cast a differing type is invalid usage; otherwise the value is
   * stored in place.
   */
  lemma AssignChecks(p: Prims, at: Tok, x: VarId, v: NodeResult, ctx: ScopeId, st: Store, fuel: nat)
    requires fuel > 0 && x in st.vars
    ensures var xv := st.vars[x];
            var c := ImplicitCast(p, v, xv.dtype);
            var a := AssignToVar(p, at, x, v, ctx, st, fuel);
            && (xv.isConst ==> a == Ran(Throw(ConstAssign(xv.name), at, ctx), st))
            && (!xv.isConst && !SameType(xv.dtype, c.Type()) ==> a == Ran(Throw(InvalidUsage(AssignIncompatible), at, ctx), st))
            && (!xv.isConst && SameType(xv.dtype, c.Type()) ==> a == AssignInto(p, x, c, st, fuel - 1))
  {
  }

  /** A primitive value is overwritten in the shared storage, so every alias of the variable sees it. */
  lemma AssignPrimitiveInPlace(p: Prims, x: VarId, r: NodeResult, st: Store, fuel: nat, y: VarId)
    requires fuel > 0 && x in st.vars && Read(st, x).Some?
    requires IsPrimitiveTag(st.vars[x].dtype.tag)
    requires TagOf(Read(st, x).value) == st.vars[x].dtype.tag && TagOf(r.data) == st.vars[x].dtype.tag
    requires Owner(st, y) == Owner(st, x)
    ensures AssignInto(p, x, r, st, fuel) == Give((), WriteValue(st, x, r.data))
    ensures Read(AssignInto(p, x, r, st, fuel).st, y) == Some(r.data)
  {
    WriteSharedByAliases(st, x, y, r.data);
  }

  /** An enum takes only the index, and the host aborts on differing definitions. */
  lemma AssignEnumIndex(p: Prims, x: VarId, r: NodeResult, st: Store, fuel: nat)
    requires fuel > 0 && x in st.vars && st.vars[x].dtype.tag == ENUM
    requires Read(st, x).Some? && Read(st, x).value.EnumV? && r.data.EnumV?
    ensures var d := Read(st, x).value.enumDef;
            && (r.data.enumDef != d ==> AssignInto(p, x, r, st, fuel) == Crash(st))
            && (r.data.enumDef == d ==> AssignInto(p, x, r, st, fuel) == Give((), WriteValue(st, x, EnumV(d, r.data.idx))))
  {
  }

  // ===================================================================
  // Array declarations and whole-array copies
  // ===================================================================

  /** An empty or odd list of bounds aborts. */
  lemma ArrayBoundsShape(p: Prims, at: Tok, names: seq<Ident>, typ: TypeName, bounds: seq<Expr>, ctx: ScopeId, st: Store,
                         fuel: nat)
    requires fuel > 0 && (|bounds| % 2 != 0 || |bounds| == 0)
    ensures ExecArrayDeclare(p, at, names, typ, bounds, ctx, st, fuel) == Crash(st)
  {
  }

  /** Every name is checked against the local arrays before any bound is evaluated; the first clash is reported. */
  lemma ArrayRedeclaredFirst(p: Prims, at: Tok, names: seq<Ident>, typ: TypeName, bounds: seq<Expr>, ctx: ScopeId,
                             st: Store, fuel: nat, k: nat)
    requires fuel > 0 && |bounds| % 2 == 0 && |bounds| > 0
    requires k < |names| && GetArray(st, ctx, names[k].text, false).Some?
    requires forall j :: 0 <= j < k ==> GetArray(st, ctx, names[j].text, false).None?
    ensures ExecArrayDeclare(p, at, names, typ, bounds, ctx, st, fuel) == Ran(Throw(Redeclaration(names[k].text), at, ctx), st)
  {
    var f := (n: Ident) => GetArray(st, ctx, n.text, false).Some?;
    assert f(names[k]);
    FirstIndexFinds(names, f, k);
  }

  /** The first index with the property, when every earlier one lacks it. */
  lemma FirstIndexFinds<T>(s: seq<T>, f: T -> bool, k: nat)
    requires k < |s| && f(s[k]) && forall j :: 0 <= j < k ==> !f(s[j])
    ensures FirstIndex(s, f) == Some(k)
  {
  }

  /** A dimension's lower bound is evaluated first; both are INTEGER; an upper bound below the lower is an error. */
  lemma BoundsChecked(p: Prims, bounds: seq<Expr>, i: nat, dims: seq<Dim>, ctx: ScopeId, st: Store, fuel: nat)
    requires fuel > 0 && |bounds| % 2 == 0 && i + 1 < |bounds|
    requires Eval(p, bounds[i], ctx, st, fuel - 1).out.Done?
    ensures var lo := Eval(p, bounds[i], ctx, st, fuel - 1);
            var w := BoundsFrom(p, bounds, i, dims, ctx, st, fuel);
            && (!lo.out.val.data.IntV? ==> w == Ran(Throw(Runtime(IndexNotInteger), bounds[i].at, ctx), lo.st))
            && (lo.out.val.data.IntV? && Eval(p, bounds[i + 1], ctx, lo.st, fuel - 1).out.Done? ==>
                  var hi := Eval(p, bounds[i + 1], ctx, lo.st, fuel - 1);
                  && (!hi.out.val.data.IntV? ==> w == Ran(Throw(Runtime(IndexNotInteger), bounds[i + 1].at, ctx), hi.st))
                  && (hi.out.val.data.IntV? && hi.out.val.data.i < lo.out.val.data.i ==>
                        w == Ran(Throw(Runtime(UpperBelowLower), bounds[i + 1].at, ctx), hi.st))
                  && (hi.out.val.data.IntV? && hi.out.val.data.i >= lo.out.val.data.i ==>
                        w == BoundsFrom(p, bounds, i + 2, dims + [Dim(i / 2, lo.out.val.data.i, hi.out.val.data.i)], ctx,
                                        hi.st, fuel - 1)))
  {
  }

  /** The dimensions come back one per pair of bounds, numbered by position, each with upper >= lower. */
  lemma {:induction false} BoundsNumbered(p: Prims, bounds: seq<Expr>, i: nat, dims: seq<Dim>, ctx: ScopeId, st: Store,
                                          fuel: nat)
    requires |bounds| % 2 == 0 && i % 2 == 0 && i <= |bounds| && |dims| == i / 2
    requires forall k :: 0 <= k < |dims| ==> dims[k].n == k && dims[k].lower <= dims[k].upper
    requires BoundsFrom(p, bounds, i, dims, ctx, st, fuel).out.Done?
    ensures var ds := BoundsFrom(p, bounds, i, dims, ctx, st, fuel).out.val;
            |ds| == |bounds| / 2 && forall k :: 0 <= k < |ds| ==> ds[k].n == k && ds[k].lower <= ds[k].upper
    decreases fuel
  {
    if i + 1 < |bounds| {
      var lo := Eval(p, bounds[i], ctx, st, fuel - 1);
      var hi := Eval(p, bounds[i + 1], ctx, lo.st, fuel - 1);
      var d := Dim(i / 2, lo.out.val.data.i, hi.out.val.data.i);
      BoundsNumbered(p, bounds, i + 2, dims + [d], ctx, hi.st, fuel - 1);
    }
  }

  /** A whole-array copy needs the same element type and the same dimensions. */
  lemma ArrayCopyChecks(p: Prims, at: Tok, target: Path, value: Expr, e: Error, ctx: ScopeId, st: Store, fuel: nat,
                        sa: ArrId, da: ArrId)
    requires fuel > 0 && value.Access?
    requires Resolve(p, value.path, ctx, st, fuel - 1).out == Done(ArrHolder(sa))
    requires Resolve(p, target, ctx, Resolve(p, value.path, ctx, st, fuel - 1).st, fuel - 1).out == Done(ArrHolder(da))
    requires var s := Resolve(p, target, ctx, Resolve(p, value.path, ctx, st, fuel - 1).st, fuel - 1).st;
             sa in s.arrays && da in s.arrays
    ensures var s := Resolve(p, target, ctx, Resolve(p, value.path, ctx, st, fuel - 1).st, fuel - 1).st;
            var w := AssignArray(p, at, target, value, e, ctx, st, fuel);
            && (!SameType(s.arrays[da].elemType, s.arrays[sa].elemType) ==> w == Ran(Throw(Runtime(ArrayTypeMismatch), at, ctx), s))
            && (SameType(s.arrays[da].elemType, s.arrays[sa].elemType) && s.arrays[da].dims != s.arrays[sa].dims ==>
                  w == Ran(Throw(Runtime(ArrayDimsMismatch), at, ctx), s))
            && (SameType(s.arrays[da].elemType, s.arrays[sa].elemType) && s.arrays[da].dims == s.arrays[sa].dims ==>
                  w == CopyCells(p, da, s.arrays[sa].cells, 0, s, fuel - 1))
  {
  }

  /** Only an access path can be copied as a whole array; any other value keeps the original error. */
  lemma ArrayCopyNeedsAccess(p: Prims, at: Tok, target: Path, value: Expr, e: Error, ctx: ScopeId, st: Store, fuel: nat)
    requires fuel > 0 && !value.Access?
    ensures AssignArray(p, at, target, value, e, ctx, st, fuel) == Ran(Unwind(Raised(e)), st)
  {
  }

  // ===================================================================
  // Pointer assignment
  // ===================================================================

  /** The pointer side is resolved first and must not be an array. */
  lemma PointerSideFirst(p: Prims, at: Tok, ptr: Path, source: Path, ctx: ScopeId, st: Store, fuel: nat, a: ArrId)
    requires fuel > 0
    requires Resolve(p, ptr, ctx, st, fuel - 1).out == Done(ArrHolder(a))
    ensures ExecPointerAssign(p, at, ptr, source, ctx, st, fuel)
         == Ran(Throw(ArrayDirectAccess, at, ctx), Resolve(p, ptr, ctx, st, fuel - 1).st)
  {
  }

  /** A value side that is an array is rejected: no pointer to a whole array. */
  lemma PointerToArrayRejected(p: Prims, at: Tok, ptr: Path, source: Path, ctx: ScopeId, st: Store, fuel: nat,
                               pv: VarId, a: ArrId)
    requires fuel > 0
    requires Resolve(p, ptr, ctx, st, fuel - 1).out == Done(VarHolder(pv))
    requires Resolve(p, source, ctx, Resolve(p, ptr, ctx, st, fuel - 1).st, fuel - 1).out == Done(ArrHolder(a))
    ensures ExecPointerAssign(p, at, ptr, source, ctx, st, fuel)
         == Ran(Throw(Runtime(PointerToArray), at, ctx),
                Resolve(p, source, ctx, Resolve(p, ptr, ctx, st, fuel - 1).st, fuel - 1).st)
  {
  }

  /**
   * The pointer side must be a PTR, and its definition's pointee type
   * must equal the value's type; otherwise the store is left as it was.
   */
  lemma PointerChecks(at: Tok, pv: VarId, sv: VarId, ctx: ScopeId, st: Store)
    requires pv in st.vars && sv in st.vars
    ensures st.vars[pv].dtype.tag != PTR ==>
              PointerStore(at, pv, sv, ctx, st) == Ran(Throw(Runtime(AssignToNonPointer), at, ctx), st)
    ensures st.vars[pv].dtype.tag == PTR && Read(st, pv).Some? && Read(st, pv).value.PtrV?
              && GetPointerDef(st, ctx, Read(st, pv).value.ptrDef, true).Some?
              && !SameType(GetPointerDef(st, ctx, Read(st, pv).value.ptrDef, true).value.target, st.vars[sv].dtype) ==>
              PointerStore(at, pv, sv, ctx, st) == Ran(Throw(Runtime(PointerTypeMismatch), at, ctx), st)
  {
  }

  /**
   * A successful pointer assignment stores the owning variable of the
   * value, never the alias it was reached through, and the first scope
   * above that owner that is not a record scope.
   */
  lemma PointerStoresOwner(at: Tok, pv: VarId, sv: VarId, ctx: ScopeId, st: Store)
    requires PointerStore(at, pv, sv, ctx, st).out.Done?
    ensures var o := Owner(st, sv);
            && pv in st.vars && Read(st, pv).Some? && Read(st, pv).value.PtrV?
            && o in st.vars && RecordFreeAncestor(st, st.vars[o].parent).Some?
            && PointerStore(at, pv, sv, ctx, st).st
               == WriteValue(st, pv, PtrV(Read(st, pv).value.ptrDef, Some(o), RecordFreeAncestor(st, st.vars[o].parent)))
            && (sv in st.vars && st.vars[sv].storage.Alias? ==> o == st.vars[sv].storage.owner)
  {
  }
}
