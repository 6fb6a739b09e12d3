/**
 * What the three type definitions (TYPE ... = ^T, TYPE ... = (...), and
 * TYPE ... ENDTYPE) promise: the order of their checks, that the clash
 * check looks at the defining scope only, and that a new definition is
 * the one the name resolves to afterwards, so defining it again fails.
 */
module DefinitionFacts {
  import opened Wrappers
  import opened Types
  import opened Values
  import opened Errors
  import opened Ast
  import opened Store
  import opened Engine
  import ResolverFacts

  // ===================================================================
  // Enumerations
  // ===================================================================

  /** A new enumeration is the one its name resolves to in the defining scope, values in source order. */
  lemma EnumDefinitionVisible(at: Tok, ident: Ident, values: seq<string>, ctx: ScopeId, st: Store)
    requires ctx in st.scopes && !IsIdentifierType(st, ctx, ident.text, false)
    ensures var r := EnumDefineStep(at, ident, values, ctx, st);
            && r.out.Done?
            && GetEnumDef(r.st, ctx, ident.text, false) == Some(EnumDef(ident.text, values))
            && IsIdentifierType(r.st, ctx, ident.text, false)
  {
    var d := EnumDef(ident.text, values);
    var es := st.scopes[ctx].enums;
    var st2 := CreateEnumDef(st, ctx, d);
    assert LocalEnumDef(st, ctx, ident.text).None?;
    forall j | 0 <= j < |es| ensures es[j].name != ident.text {
      assert es[j] in es;
    }
    ResolverFacts.FirstIndexFinds(es + [d], (e: EnumDef) => e.name == ident.text, |es|);
    assert LocalEnumDef(st2, ctx, ident.text) == Some(d);
  }

  /**
   * Every run of the definition lists all its constants: in a scope with no
   * enumerations yet, each constant names the new definition afterwards.
   */
  lemma EnumEveryRunListsValues(at: Tok, ident: Ident, values: seq<string>, ctx: ScopeId, st: Store)
    requires ctx in st.scopes && st.scopes[ctx].enums == [] && !IsIdentifierType(st, ctx, ident.text, false)
    ensures var r := EnumDefineStep(at, ident, values, ctx, st);
            && r.out.Done?
            && forall v :: v in values ==> LocalEnumElement(r.st, ctx, v).Some? && LocalEnumElement(r.st, ctx, v).value.0 == ident.text
  {
    var r := EnumDefineStep(at, ident, values, ctx, st);
    assert r.st.scopes[ctx].enums == [EnumDef(ident.text, values)];
    forall v | v in values
      ensures LocalEnumElement(r.st, ctx, v).Some? && LocalEnumElement(r.st, ctx, v).value.0 == ident.text
    {
      var e := LocalEnumElement(r.st, ctx, v);
      assert EnumDef(ident.text, values) in r.st.scopes[ctx].enums;
      assert e.Some?;
    }
  }

  /**
   * The definition as written empties its own list: the first run registers
   * the constants, and a second run of the same node (a procedure called
   * twice, each call with a fresh scope) registers an enumeration with no
   * constants, so no name is one of its values there.
   */
  lemma EnumSecondRunHasNoValues(at: Tok, ident: Ident, values: seq<string>, ctx1: ScopeId, st: Store,
                                 ctx2: ScopeId, st2: Store)
    requires ctx1 in st.scopes && !IsIdentifierType(st, ctx1, ident.text, false)
    requires ctx2 in st2.scopes && st2.scopes[ctx2].enums == [] && !IsIdentifierType(st2, ctx2, ident.text, false)
    ensures var first := EnumDefineStepAsWritten(at, ident, values, ctx1, st);
            && first.0.out.Done?
            && GetEnumDef(first.0.st, ctx1, ident.text, false) == Some(EnumDef(ident.text, values))
            && first.1 == []
            && var second := EnumDefineStepAsWritten(at, ident, first.1, ctx2, st2);
               && second.0.out.Done?
               && GetEnumDef(second.0.st, ctx2, ident.text, false) == Some(EnumDef(ident.text, []))
               && forall v :: LocalEnumElement(second.0.st, ctx2, v).None?
  {
    EnumDefinitionVisible(at, ident, values, ctx1, st);
    EnumDefinitionVisible(at, ident, [], ctx2, st2);
    var second := EnumDefineStep(at, ident, [], ctx2, st2);
    assert second.st.scopes[ctx2].enums == [EnumDef(ident.text, [])];
    NoValuesNoElements(second.st, ctx2, ident.text);
  }

  /** A scope whose one enumeration has no constants knows no enum constant. */
  lemma NoValuesNoElements(st: Store, s: ScopeId, name: string)
    requires s in st.scopes && st.scopes[s].enums == [EnumDef(name, [])]
    ensures forall v :: LocalEnumElement(st, s, v).None?
  {
    forall v ensures LocalEnumElement(st, s, v).None? {
      var es := st.scopes[s].enums;
      assert forall k :: 0 <= k < |es| ==> es[k].values == [];
    }
  }

  /** Defining the same enumeration name twice in one scope is a redefinition, whatever the values. */
  lemma EnumRedefinitionRefused(at: Tok, at2: Tok, ident: Ident, values: seq<string>, values2: seq<string>,
                                ctx: ScopeId, st: Store)
    requires ctx in st.scopes && !IsIdentifierType(st, ctx, ident.text, false)
    ensures var r := EnumDefineStep(at, ident, values, ctx, st);
            EnumDefineStep(at2, ident, values2, ctx, r.st) == Ran(Throw(Redefinition(ident.text), at2, ctx), r.st)
  {
    EnumDefinitionVisible(at, ident, values, ctx, st);
  }

  /**
   * The clash check is local: a scope that defines no types itself accepts
   * any name, even one the root already defines; the values are not checked.
   */
  lemma EnumClashIsLocal(at: Tok, ident: Ident, values: seq<string>, ctx: ScopeId, st: Store)
    requires ctx in st.scopes && st.scopes[ctx].enums == [] && st.scopes[ctx].pointers == []
             && st.scopes[ctx].composites == []
    ensures EnumDefineStep(at, ident, values, ctx, st).out.Done?
  {
  }

  // ===================================================================
  // Pointer types
  // ===================================================================

  /** The pointee type is resolved before the name clash: an undefined pointee is reported even for a taken name. */
  lemma PointerTargetFirst(at: Tok, ident: Ident, pointee: TypeName, ctx: ScopeId, st: Store)
    requires GetType(st, ctx, pointee, true).Ok? && GetType(st, ctx, pointee, true).value.tag == NONE
    ensures PointerDefineStep(at, ident, pointee, ctx, st) == Ran(Throw(NotDefined(UndefinedType(pointee.text)), at, ctx), st)
  {
  }

  /** A taken name (a local type or enum constant) is a redefinition once the pointee resolves. */
  lemma PointerNameClash(at: Tok, ident: Ident, pointee: TypeName, ctx: ScopeId, st: Store)
    requires GetType(st, ctx, pointee, true).Ok? && GetType(st, ctx, pointee, true).value.tag != NONE
    requires IsIdentifierType(st, ctx, ident.text, false)
    ensures PointerDefineStep(at, ident, pointee, ctx, st) == Ran(Throw(Redefinition(ident.text), at, ctx), st)
  {
  }

  /** A new pointer type is the one its name resolves to, with the resolved pointee type. */
  lemma PointerDefinitionVisible(at: Tok, ident: Ident, pointee: TypeName, ctx: ScopeId, st: Store)
    requires ctx in st.scopes && !IsIdentifierType(st, ctx, ident.text, false)
    requires GetType(st, ctx, pointee, true).Ok? && GetType(st, ctx, pointee, true).value.tag != NONE
    ensures var r := PointerDefineStep(at, ident, pointee, ctx, st);
            && r.out.Done?
            && GetPointerDef(r.st, ctx, ident.text, false) == Some(PointerDef(ident.text, GetType(st, ctx, pointee, true).value))
            && IsIdentifierType(r.st, ctx, ident.text, false)
  {
    var d := PointerDef(ident.text, GetType(st, ctx, pointee, true).value);
    var ps := st.scopes[ctx].pointers;
    var st2 := CreatePointerDef(st, ctx, d);
    assert LocalPointerDef(st, ctx, ident.text).None?;
    forall j | 0 <= j < |ps| ensures ps[j].name != ident.text {
      assert ps[j] in ps;
    }
    ResolverFacts.FirstIndexFinds(ps + [d], (q: PointerDef) => q.name == ident.text, |ps|);
    assert LocalPointerDef(st2, ctx, ident.text) == Some(d);
    assert LocalEnumDef(st2, ctx, ident.text) == LocalEnumDef(st, ctx, ident.text);
  }

  /** Defining the same pointer type name twice in one scope is a redefinition. */
  lemma PointerRedefinitionRefused(at: Tok, at2: Tok, ident: Ident, pointee: TypeName, ctx: ScopeId, st: Store)
    requires ctx in st.scopes && !IsIdentifierType(st, ctx, ident.text, false)
    requires GetType(st, ctx, pointee, true).Ok? && GetType(st, ctx, pointee, true).value.tag != NONE
    ensures var r := PointerDefineStep(at, ident, pointee, ctx, st);
            GetType(r.st, ctx, pointee, true).Ok? && GetType(r.st, ctx, pointee, true).value.tag != NONE ==>
              PointerDefineStep(at2, ident, pointee, ctx, r.st) == Ran(Throw(Redefinition(ident.text), at2, ctx), r.st)
  {
    PointerDefinitionVisible(at, ident, pointee, ctx, st);
  }

  // ===================================================================
  // Record types
  // ===================================================================

  /**
   * A new record type is the one its name resolves to, holding the init
   * block; the block is not run, so no variable or scope is created.
   */
  lemma CompositeDefinitionVisible(at: Tok, ident: Ident, init: seq<Stmt>, ctx: ScopeId, st: Store)
    requires ctx in st.scopes && !IsIdentifierType(st, ctx, ident.text, false)
    ensures var r := CompositeDefineStep(at, ident, init, ctx, st);
            && r.out.Done?
            && GetCompositeDef(r.st, ctx, ident.text, false) == Some(CompositeDef(ident.text, init))
            && IsIdentifierType(r.st, ctx, ident.text, false)
            && r.st.vars == st.vars && r.st.next == st.next && r.st.scopes.Keys == st.scopes.Keys
  {
    var d := CompositeDef(ident.text, init);
    var cs := st.scopes[ctx].composites;
    var st2 := CreateCompositeDef(st, ctx, d);
    assert LocalCompositeDef(st, ctx, ident.text).None?;
    forall j | 0 <= j < |cs| ensures cs[j].name != ident.text {
      assert cs[j] in cs;
    }
    ResolverFacts.FirstIndexFinds(cs + [d], (c: CompositeDef) => c.name == ident.text, |cs|);
    assert LocalCompositeDef(st2, ctx, ident.text) == Some(d);
    assert LocalEnumDef(st2, ctx, ident.text) == LocalEnumDef(st, ctx, ident.text);
    assert LocalPointerDef(st2, ctx, ident.text) == LocalPointerDef(st, ctx, ident.text);
  }

  /** Defining the same record name twice in one scope is a redefinition. */
  lemma CompositeRedefinitionRefused(at: Tok, at2: Tok, ident: Ident, init: seq<Stmt>, init2: seq<Stmt>, ctx: ScopeId,
                                     st: Store)
    requires ctx in st.scopes && !IsIdentifierType(st, ctx, ident.text, false)
    ensures var r := CompositeDefineStep(at, ident, init, ctx, st);
            CompositeDefineStep(at2, ident, init2, ctx, r.st) == Ran(Throw(Redefinition(ident.text), at2, ctx), r.st)
  {
    CompositeDefinitionVisible(at, ident, init, ctx, st);
  }
}
