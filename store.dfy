/**
 * The runtime store: scopes (Context, src/interpreter/scope/context.cpp),
 * variables (src/interpreter/variable.cpp), arrays and user type
 * definitions, held in an arena keyed by identities that are never reused.
 * A scope keeps its ancestors nearest first, so its parent is the head of
 * that chain and the global scope is its last element.
 */
module Store {
  import opened Wrappers
  import opened Types
  import opened Values
  import opened Errors
  import opened Arrays
  import opened Builtins
  import opened Ast

  type ArrId = nat

  /** The two flags and the return type of a Context. */
  datatype ScopeKind = PlainScope | FunctionScope(returnType: DataType) | RecordScope

  /** A parameter of a procedure or function: name, resolved type and pass mode. */
  datatype Parameter = Parameter(name: string, dtype: DataType, byRef: bool)

  datatype Procedure = Procedure(name: string, params: seq<Parameter>, body: seq<Stmt>)

  /** A user function runs its block; a built-in one runs its own code. */
  datatype FunctionBody = UserBody(block: seq<Stmt>) | BuiltinBody(builtin: Builtin)

  /** `defTok` is the token of the FUNCTION statement; built-ins have none. */
  datatype Function = Function(name: string, params: seq<Parameter>, body: FunctionBody,
                               returnType: DataType, defTok: Option<Tok>)

  datatype EnumDef = EnumDef(name: string, values: seq<string>)
  datatype PointerDef = PointerDef(name: string, target: DataType)
  datatype CompositeDef = CompositeDef(name: string, init: seq<Stmt>)

  datatype Scope = Scope(
    name: string,
    chain: seq<ScopeId>,
    kind: ScopeKind,
    vars: seq<VarId>,
    arrays: seq<ArrId>,
    procs: seq<Procedure>,
    funcs: seq<Function>,
    enums: seq<EnumDef>,
    pointers: seq<PointerDef>,
    composites: seq<CompositeDef>,
    returnValue: Option<NodeResult>)

  /** An owning variable holds its value; an alias reads and writes its owner's. */
  datatype Storage = Owned(value: Value) | Alias(owner: VarId)

  datatype Variable = Variable(name: string, dtype: DataType, isConst: bool, parent: ScopeId, storage: Storage)

  /** What a name resolves to: a variable or a whole array. */
  datatype Holder = VarHolder(v: VarId) | ArrHolder(a: ArrId)

  /** The arena. Every new entry takes `next` as its identity. */
  datatype Store = Store(scopes: map<ScopeId, Scope>, vars: map<VarId, Variable>,
                         arrays: map<ArrId, ArrayObj>, next: nat)

  /** A scope with no entries. */
  function EmptyScope(name: string, chain: seq<ScopeId>, kind: ScopeKind): (sc: Scope)
    ensures sc.name == name && sc.chain == chain && sc.kind == kind && sc.returnValue.None?
    ensures sc.vars == [] && sc.arrays == [] && sc.procs == [] && sc.funcs == []
    ensures sc.enums == [] && sc.pointers == [] && sc.composites == []
  {
    Scope(name, chain, kind, [], [], [], [], [], [], [], None)
  }

  // ---------------------------------------------------------- generic search

  /** The position of the first element satisfying `f`. */
  function FirstIndex<T>(s: seq<T>, f: T -> bool): (r: Option<nat>)
    ensures r.Some? ==> r.value < |s| && f(s[r.value]) && forall j :: 0 <= j < r.value ==> !f(s[j])
    ensures r.None? ==> forall j :: 0 <= j < |s| ==> !f(s[j])
  {
    if s == [] then None
    else if f(s[0]) then Some(0)
    else match FirstIndex(s[1..], f)
      case None => None
      case Some(k) => Some(k + 1)
  }

  // ------------------------------------------------------------- the chain

  /** The ancestors of a scope, nearest first; none for an unknown scope. */
  function Chain(st: Store, s: ScopeId): seq<ScopeId>
  {
    if s in st.scopes then st.scopes[s].chain else []
  }

  /** Context::getGlobalContext: the last ancestor, or the scope itself at the root. */
  function Root(st: Store, s: ScopeId): (g: ScopeId)
    ensures Chain(st, s) == [] ==> g == s
    ensures Chain(st, s) != [] ==> g == Chain(st, s)[|Chain(st, s)| - 1]
  {
    var c := Chain(st, s);
    if c == [] then s else c[|c| - 1]
  }

  predicate IsRecord(st: Store, s: ScopeId)
  {
    s in st.scopes && st.scopes[s].kind.RecordScope?
  }

  // ----------------------------------------------------- variables, arrays

  predicate Named(vars: map<VarId, Variable>, name: string, id: VarId)
  {
    id in vars && vars[id].name == name
  }

  predicate VarNamed(st: Store, name: string, id: VarId)
  {
    Named(st.vars, name, id)
  }

  /** The first variable of the scope itself with that name. */
  function LocalVariable(st: Store, s: ScopeId, name: string): (r: Option<VarId>)
    ensures r.Some? ==> s in st.scopes && r.value in st.scopes[s].vars && VarNamed(st, name, r.value)
    ensures r.None? && s in st.scopes ==> forall v :: v in st.scopes[s].vars ==> !VarNamed(st, name, v)
  {
    if s !in st.scopes then None
    else
      var ids := st.scopes[s].vars;
      match FirstIndex(ids, id => Named(st.vars, name, id))
      case None => None
      case Some(k) => Some(ids[k])
  }

  /** Context::getVariable: the scope itself first, then (if `global`) the global scope only. */
  function GetVariable(st: Store, s: ScopeId, name: string, global: bool): Option<VarId>
  {
    match LocalVariable(st, s, name)
    case Some(v) => Some(v)
    case None => if global && Chain(st, s) != [] then LocalVariable(st, Root(st, s), name) else None
  }

  predicate ArrayNamed(arrays: map<ArrId, ArrayObj>, name: string, id: ArrId)
  {
    id in arrays && arrays[id].name == name
  }

  predicate ArrNamed(st: Store, name: string, id: ArrId)
  {
    ArrayNamed(st.arrays, name, id)
  }

  function LocalArray(st: Store, s: ScopeId, name: string): (r: Option<ArrId>)
    ensures r.Some? ==> s in st.scopes && r.value in st.scopes[s].arrays && ArrNamed(st, name, r.value)
    ensures r.None? && s in st.scopes ==> forall a :: a in st.scopes[s].arrays ==> !ArrNamed(st, name, a)
  {
    if s !in st.scopes then None
    else
      var ids := st.scopes[s].arrays;
      match FirstIndex(ids, id => ArrayNamed(st.arrays, name, id))
      case None => None
      case Some(k) => Some(ids[k])
  }

  /** Context::getArray, with the same two tiers as getVariable. */
  function GetArray(st: Store, s: ScopeId, name: string, global: bool): Option<ArrId>
  {
    match LocalArray(st, s, name)
    case Some(a) => Some(a)
    case None => if global && Chain(st, s) != [] then LocalArray(st, Root(st, s), name) else None
  }

  /** A local match wins over everything else. */
  lemma GetVariableLocalFirst(st: Store, s: ScopeId, name: string, global: bool, v: VarId)
    requires s in st.scopes && v in st.scopes[s].vars && VarNamed(st, name, v)
    ensures GetVariable(st, s, name, global).Some?
    ensures GetVariable(st, s, name, global) == LocalVariable(st, s, name)
  {
  }

  /**
   * Whatever getVariable finds is a variable with that name held by the scope
   * itself or, when `global` is set, by the global scope.
   */
  lemma GetVariableFound(st: Store, s: ScopeId, name: string, global: bool)
    requires GetVariable(st, s, name, global).Some?
    ensures var v := GetVariable(st, s, name, global).value;
      VarNamed(st, name, v) &&
      ((s in st.scopes && v in st.scopes[s].vars) ||
       (global && Root(st, s) in st.scopes && v in st.scopes[Root(st, s)].vars))
  {
  }

  /** Two stores that agree on the scope and on the global scope give the same answer: intermediate ancestors are never searched. */
  lemma LookupIgnoresIntermediate(st: Store, st2: Store, s: ScopeId, name: string, global: bool)
    requires st2.vars == st.vars && st2.arrays == st.arrays
    requires s in st.scopes && s in st2.scopes && st2.scopes[s] == st.scopes[s]
    requires Root(st, s) in st.scopes <==> Root(st, s) in st2.scopes
    requires Root(st, s) in st.scopes ==> st2.scopes[Root(st, s)] == st.scopes[Root(st, s)]
    ensures GetVariable(st2, s, name, global) == GetVariable(st, s, name, global)
    ensures GetArray(st2, s, name, global) == GetArray(st, s, name, global)
  {
    assert Chain(st2, s) == Chain(st, s);
  }

  /** Without `global`, or at the global scope itself, only local names are seen. */
  lemma LocalOnlyLookup(st: Store, s: ScopeId, name: string, global: bool)
    requires !global || Chain(st, s) == []
    ensures GetVariable(st, s, name, global) == LocalVariable(st, s, name)
    ensures GetArray(st, s, name, global) == LocalArray(st, s, name)
  {
  }

  // ------------------------------------------------ procedures and functions

  /** Context::getProcedure: only the global scope's list is searched. */
  function GetProcedure(st: Store, s: ScopeId, name: string): (r: Option<Procedure>)
    ensures r.Some? ==> r.value.name == name && Root(st, s) in st.scopes && r.value in st.scopes[Root(st, s)].procs
    ensures r.None? && Root(st, s) in st.scopes ==> forall p :: p in st.scopes[Root(st, s)].procs ==> p.name != name
  {
    var g := Root(st, s);
    if g !in st.scopes then None
    else
      var ps := st.scopes[g].procs;
      match FirstIndex(ps, (p: Procedure) => p.name == name)
      case None => None
      case Some(k) => Some(ps[k])
  }

  /** Context::getFunction: only the global scope's list is searched. */
  function GetFunction(st: Store, s: ScopeId, name: string): (r: Option<Function>)
    ensures r.Some? ==> r.value.name == name && Root(st, s) in st.scopes && r.value in st.scopes[Root(st, s)].funcs
    ensures r.None? && Root(st, s) in st.scopes ==> forall f :: f in st.scopes[Root(st, s)].funcs ==> f.name != name
  {
    var g := Root(st, s);
    if g !in st.scopes then None
    else
      var fs := st.scopes[g].funcs;
      match FirstIndex(fs, (f: Function) => f.name == name)
      case None => None
      case Some(k) => Some(fs[k])
  }

  /** A routine registered in a scope below the global one is never found, whatever its name. */
  lemma NestedRoutineInvisible(st: Store, s: ScopeId, f: Function, p: Procedure)
    requires Root(st, s) in st.scopes
    requires f !in st.scopes[Root(st, s)].funcs && p !in st.scopes[Root(st, s)].procs
    ensures GetFunction(st, s, f.name) != Some(f)
    ensures GetProcedure(st, s, p.name) != Some(p)
  {
  }

  // ---------------------------------------------------- type definitions

  function LocalEnumDef(st: Store, s: ScopeId, name: string): (r: Option<EnumDef>)
    ensures r.Some? ==> r.value.name == name && s in st.scopes && r.value in st.scopes[s].enums
    ensures r.None? && s in st.scopes ==> forall e :: e in st.scopes[s].enums ==> e.name != name
  {
    if s !in st.scopes then None
    else
      var es := st.scopes[s].enums;
      match FirstIndex(es, (e: EnumDef) => e.name == name)
      case None => None
      case Some(k) => Some(es[k])
  }

  function LocalPointerDef(st: Store, s: ScopeId, name: string): (r: Option<PointerDef>)
    ensures r.Some? ==> r.value.name == name && s in st.scopes && r.value in st.scopes[s].pointers
    ensures r.None? && s in st.scopes ==> forall p :: p in st.scopes[s].pointers ==> p.name != name
  {
    if s !in st.scopes then None
    else
      var ps := st.scopes[s].pointers;
      match FirstIndex(ps, (p: PointerDef) => p.name == name)
      case None => None
      case Some(k) => Some(ps[k])
  }

  function LocalCompositeDef(st: Store, s: ScopeId, name: string): (r: Option<CompositeDef>)
    ensures r.Some? ==> r.value.name == name && s in st.scopes && r.value in st.scopes[s].composites
    ensures r.None? && s in st.scopes ==> forall c :: c in st.scopes[s].composites ==> c.name != name
  {
    if s !in st.scopes then None
    else
      var cs := st.scopes[s].composites;
      match FirstIndex(cs, (c: CompositeDef) => c.name == name)
      case None => None
      case Some(k) => Some(cs[k])
  }

  /** Context::getEnumDefinition. */
  function GetEnumDef(st: Store, s: ScopeId, name: string, global: bool): Option<EnumDef>
  {
    match LocalEnumDef(st, s, name)
    case Some(d) => Some(d)
    case None => if global && Chain(st, s) != [] then LocalEnumDef(st, Root(st, s), name) else None
  }

  /** Context::getPointerDefinition. */
  function GetPointerDef(st: Store, s: ScopeId, name: string, global: bool): Option<PointerDef>
  {
    match LocalPointerDef(st, s, name)
    case Some(d) => Some(d)
    case None => if global && Chain(st, s) != [] then LocalPointerDef(st, Root(st, s), name) else None
  }

  /** Context::getCompositeDefinition. */
  function GetCompositeDef(st: Store, s: ScopeId, name: string, global: bool): Option<CompositeDef>
  {
    match LocalCompositeDef(st, s, name)
    case Some(d) => Some(d)
    case None => if global && Chain(st, s) != [] then LocalCompositeDef(st, Root(st, s), name) else None
  }

  /** The descriptor an identifier names: an enum, else a pointer, else a record type, else NONE. */
  function IdentifierType(st: Store, s: ScopeId, name: string, global: bool): (t: DataType)
    ensures t.tag == ENUM <==> GetEnumDef(st, s, name, global).Some?
    ensures t.tag == PTR <==> GetEnumDef(st, s, name, global).None? && GetPointerDef(st, s, name, global).Some?
    ensures t.tag == COMPOSITE <==> GetEnumDef(st, s, name, global).None? && GetPointerDef(st, s, name, global).None?
                                    && GetCompositeDef(st, s, name, global).Some?
    ensures t.tag in {NONE, ENUM, PTR, COMPOSITE}
    ensures t.tag != NONE ==> t.name == Some(name)
  {
    match GetEnumDef(st, s, name, global)
    case Some(e) => DataType(ENUM, Some(e.name))
    case None =>
      match GetPointerDef(st, s, name, global)
      case Some(p) => DataType(PTR, Some(p.name))
      case None =>
        match GetCompositeDef(st, s, name, global)
        case Some(c) => DataType(COMPOSITE, Some(c.name))
        case None => Plain(NONE)
  }

  /** The six type keywords. */
  function KeywordType(text: string): Option<Tag>
  {
    if text == "INTEGER" then Some(INTEGER)
    else if text == "REAL" then Some(REAL)
    else if text == "BOOLEAN" then Some(BOOLEAN)
    else if text == "CHAR" then Some(CHAR)
    else if text == "STRING" then Some(STRING)
    else if text == "DATE" then Some(DATE)
    else None
  }

  /** Context::getType: the host aborts on an unknown keyword and on a token that is neither keyword nor identifier. */
  function GetType(st: Store, s: ScopeId, t: TypeName, global: bool): (r: Result<DataType>)
    ensures t.kind == TypeIdentifier ==> r == Ok(IdentifierType(st, s, t.text, global))
    ensures t.kind == TypeOther ==> r == Fail(Abort)
    ensures t.kind == TypeKeyword ==>
      (KeywordType(t.text).Some? ==> r == Ok(Plain(KeywordType(t.text).value))) &&
      (KeywordType(t.text).None? ==> r == Fail(Abort))
  {
    match t.kind
    case TypeKeyword =>
      (match KeywordType(t.text)
       case Some(tag) => Ok(Plain(tag))
       case None => Fail(Abort))
    case TypeIdentifier => Ok(IdentifierType(st, s, t.text, global))
    case TypeOther => Fail(Abort)
  }

  /** A keyword always names a primitive type. */
  lemma KeywordTypesArePrimitive(text: string)
    requires KeywordType(text).Some?
    ensures IsPrimitiveTag(KeywordType(text).value)
  {
  }

  /** The first definition of a scope, in declaration order, listing `value`, and the value's position in it. */
  function LocalEnumElement(st: Store, s: ScopeId, value: string): (r: Option<(string, nat)>)
    ensures r.Some? ==> (s in st.scopes &&
      exists k :: 0 <= k < |st.scopes[s].enums| && st.scopes[s].enums[k].name == r.value.0 &&
        r.value.1 < |st.scopes[s].enums[k].values| && st.scopes[s].enums[k].values[r.value.1] == value &&
        (forall j :: 0 <= j < r.value.1 ==> st.scopes[s].enums[k].values[j] != value) &&
        (forall j :: 0 <= j < k ==> value !in st.scopes[s].enums[j].values))
    ensures r.None? && s in st.scopes ==> forall e :: e in st.scopes[s].enums ==> value !in e.values
  {
    if s !in st.scopes then None
    else
      var es := st.scopes[s].enums;
      match FirstIndex(es, (e: EnumDef) => value in e.values)
      case None => None
      case Some(k) =>
        match FirstIndex(es[k].values, (v: string) => v == value)
        case None => None
        case Some(i) => Some((es[k].name, i))
  }

  /** Context::getEnumElement: the definition name and index of an enum constant. */
  function GetEnumElement(st: Store, s: ScopeId, value: string, global: bool): Option<(string, nat)>
  {
    match LocalEnumElement(st, s, value)
    case Some(e) => Some(e)
    case None => if global && Chain(st, s) != [] then LocalEnumElement(st, Root(st, s), value) else None
  }

  /** Context::isIdentifierType: the name is a type or an enum constant. */
  predicate IsIdentifierType(st: Store, s: ScopeId, name: string, global: bool)
  {
    IdentifierType(st, s, name, global).tag != NONE || GetEnumElement(st, s, name, global).Some?
  }

  /** A name is an identifier type exactly when some definition of that name, or some enum listing it, is visible. */
  lemma IsIdentifierTypeExactly(st: Store, s: ScopeId, name: string, global: bool)
    ensures IsIdentifierType(st, s, name, global) <==>
      GetEnumDef(st, s, name, global).Some? || GetPointerDef(st, s, name, global).Some? ||
      GetCompositeDef(st, s, name, global).Some? || GetEnumElement(st, s, name, global).Some?
  {
  }

  predicate DistinctEnumNames(es: seq<EnumDef>)
  {
    forall i, j :: 0 <= i < j < |es| ==> es[i].name != es[j].name
  }

  /** Enum::getString: the value text at the enum's index in its definition. */
  function EnumString(st: Store, s: ScopeId, v: Value): (r: Option<string>)
    ensures r.Some? ==> v.EnumV? && GetEnumDef(st, s, v.enumDef, true).Some?
  {
    match v
    case EnumV(d, idx) =>
      (match GetEnumDef(st, s, d, true)
       case Some(def) => if 0 <= idx < |def.values| then Some(def.values[idx]) else None
       case None => None)
    case _ => None
  }

  /**
   * An enum constant found locally reads back as its own text: getString
   * undoes getEnumElement when the scope's definitions have distinct names.
   */
  lemma EnumElementRoundTrip(st: Store, s: ScopeId, value: string)
    requires s in st.scopes && DistinctEnumNames(st.scopes[s].enums)
    requires LocalEnumElement(st, s, value).Some?
    ensures var e := LocalEnumElement(st, s, value).value; EnumString(st, s, EnumV(e.0, e.1)) == Some(value)
  {
    var e := LocalEnumElement(st, s, value).value;
    var es := st.scopes[s].enums;
    var k :| 0 <= k < |es| && es[k].name == e.0 && e.1 < |es[k].values| && es[k].values[e.1] == value;
    var d := LocalEnumDef(st, s, e.0);
    assert d.Some?;
    var k2 :| 0 <= k2 < |es| && es[k2] == d.value;
    assert k2 == k;
  }

  // ------------------------------------------------------------- appends

  /** Every list of `a` is a prefix of the same list of `b`, and nothing else differs. */
  predicate Extends(a: Scope, b: Scope)
  {
    a.name == b.name && a.chain == b.chain && a.kind == b.kind && a.returnValue == b.returnValue &&
    a.vars <= b.vars && a.arrays <= b.arrays && a.procs <= b.procs && a.funcs <= b.funcs &&
    a.enums <= b.enums && a.pointers <= b.pointers && a.composites <= b.composites
  }

  /** Only the scope `s` changes, and it only grows. */
  predicate Grows(st: Store, st2: Store, s: ScopeId)
  {
    st2.vars == st.vars && st2.arrays == st.arrays && st2.next == st.next &&
    st2.scopes.Keys == st.scopes.Keys &&
    (forall t :: t in st.scopes && t != s ==> st2.scopes[t] == st.scopes[t]) &&
    (s in st.scopes ==> Extends(st.scopes[s], st2.scopes[s]))
  }

  function UpdateScope(st: Store, s: ScopeId, sc: Scope): Store
  {
    if s in st.scopes then st.(scopes := st.scopes[s := sc]) else st
  }

  /** Context::addVariable. */
  function AddVariable(st: Store, s: ScopeId, v: VarId): (st2: Store)
    ensures Grows(st, st2, s)
    ensures s in st.scopes ==> st2.scopes[s].vars == st.scopes[s].vars + [v]
    ensures s in st.scopes ==> st2.scopes[s].arrays == st.scopes[s].arrays
  {
    if s in st.scopes then UpdateScope(st, s, st.scopes[s].(vars := st.scopes[s].vars + [v])) else st
  }

  /** Context::addArray. */
  function AddArray(st: Store, s: ScopeId, a: ArrId): (st2: Store)
    ensures Grows(st, st2, s)
    ensures s in st.scopes ==> st2.scopes[s].arrays == st.scopes[s].arrays + [a]
    ensures s in st.scopes ==> st2.scopes[s].vars == st.scopes[s].vars
  {
    if s in st.scopes then UpdateScope(st, s, st.scopes[s].(arrays := st.scopes[s].arrays + [a])) else st
  }

  /** Context::addProcedure. */
  function AddProcedure(st: Store, s: ScopeId, p: Procedure): (st2: Store)
    ensures Grows(st, st2, s)
    ensures s in st.scopes ==> st2.scopes[s].procs == st.scopes[s].procs + [p]
  {
    if s in st.scopes then UpdateScope(st, s, st.scopes[s].(procs := st.scopes[s].procs + [p])) else st
  }

  /** Context::addFunction. */
  function AddFunction(st: Store, s: ScopeId, f: Function): (st2: Store)
    ensures Grows(st, st2, s)
    ensures s in st.scopes ==> st2.scopes[s].funcs == st.scopes[s].funcs + [f]
  {
    if s in st.scopes then UpdateScope(st, s, st.scopes[s].(funcs := st.scopes[s].funcs + [f])) else st
  }

  /** Context::createEnumDefinition. */
  function CreateEnumDef(st: Store, s: ScopeId, d: EnumDef): (st2: Store)
    ensures Grows(st, st2, s)
    ensures s in st.scopes ==> st2.scopes[s].enums == st.scopes[s].enums + [d]
  {
    if s in st.scopes then UpdateScope(st, s, st.scopes[s].(enums := st.scopes[s].enums + [d])) else st
  }

  /** Context::createPointerDefinition. */
  function CreatePointerDef(st: Store, s: ScopeId, d: PointerDef): (st2: Store)
    ensures Grows(st, st2, s)
    ensures s in st.scopes ==> st2.scopes[s].pointers == st.scopes[s].pointers + [d]
  {
    if s in st.scopes then UpdateScope(st, s, st.scopes[s].(pointers := st.scopes[s].pointers + [d])) else st
  }

  /** Context::createCompositeDefinition. */
  function CreateCompositeDef(st: Store, s: ScopeId, d: CompositeDef): (st2: Store)
    ensures Grows(st, st2, s)
    ensures s in st.scopes ==> st2.scopes[s].composites == st.scopes[s].composites + [d]
  {
    if s in st.scopes then UpdateScope(st, s, st.scopes[s].(composites := st.scopes[s].composites + [d])) else st
  }

  /** Growing never hides a local variable: whatever was found locally is still found. */
  lemma GrowsKeepsLocalVariable(st: Store, st2: Store, s: ScopeId, t: ScopeId, name: string)
    requires Grows(st, st2, s)
    requires LocalVariable(st, t, name).Some?
    ensures LocalVariable(st2, t, name) == LocalVariable(st, t, name)
  {
    var ids := st.scopes[t].vars;
    var ids2 := st2.scopes[t].vars;
    assert ids <= ids2;
    var k := FirstIndex(ids, id => Named(st.vars, name, id)).value;
    var k2 := FirstIndex(ids2, id => Named(st2.vars, name, id));
    assert forall j :: 0 <= j <= k ==> ids2[j] == ids[j];
    assert k2.Some?;
    assert k2.value == k;
  }

  /** A variable added to a scope with no variable of that name is found there afterwards. */
  lemma AddVariableFound(st: Store, s: ScopeId, v: VarId)
    requires s in st.scopes && v in st.vars
    requires LocalVariable(st, s, st.vars[v].name).None?
    ensures LocalVariable(AddVariable(st, s, v), s, st.vars[v].name) == Some(v)
  {
    var st2 := AddVariable(st, s, v);
    var name := st.vars[v].name;
    var ids2 := st2.scopes[s].vars;
    var k2 := FirstIndex(ids2, id => Named(st2.vars, name, id));
    assert ids2[|ids2| - 1] == v;
    assert forall j :: 0 <= j < |ids2| - 1 ==> ids2[j] in st.scopes[s].vars;
    assert k2.Some?;
    assert k2.value == |ids2| - 1;
  }

  // ---------------------------------------------------------- allocation

  /** Allocate an entry under the next identity. */
  function NewVar(st: Store, v: Variable): (r: (VarId, Store))
    ensures r.0 == st.next && r.1.next == st.next + 1
    ensures r.1.vars == st.vars[st.next := v] && r.1.scopes == st.scopes && r.1.arrays == st.arrays
  {
    (st.next, st.(vars := st.vars[st.next := v], next := st.next + 1))
  }

  function NewScope(st: Store, sc: Scope): (r: (ScopeId, Store))
    ensures r.0 == st.next && r.1.next == st.next + 1
    ensures r.1.scopes == st.scopes[st.next := sc] && r.1.vars == st.vars && r.1.arrays == st.arrays
  {
    (st.next, st.(scopes := st.scopes[st.next := sc], next := st.next + 1))
  }

  function NewArray(st: Store, a: ArrayObj): (r: (ArrId, Store))
    ensures r.0 == st.next && r.1.next == st.next + 1
    ensures r.1.arrays == st.arrays[st.next := a] && r.1.scopes == st.scopes && r.1.vars == st.vars
  {
    (st.next, st.(arrays := st.arrays[st.next := a], next := st.next + 1))
  }

  /** A new scope below `parent`: Context(parent, name, ...). */
  function NewChildScope(st: Store, parent: ScopeId, name: string, kind: ScopeKind): (r: (ScopeId, Store))
    ensures r.0 == st.next && r.0 in r.1.scopes
    ensures Chain(r.1, r.0) == [parent] + Chain(st, parent)
    ensures r.1.scopes[r.0] == EmptyScope(name, [parent] + Chain(st, parent), kind)
    ensures r.1.scopes == st.scopes[st.next := r.1.scopes[r.0]]
    ensures r.1.vars == st.vars && r.1.arrays == st.arrays && r.1.next == st.next + 1
  {
    NewScope(st, EmptyScope(name, [parent] + Chain(st, parent), kind))
  }

  /** A child sees the same global scope as its parent. */
  lemma ChildSharesRoot(st: Store, parent: ScopeId, name: string, kind: ScopeKind)
    requires parent != st.next
    ensures var (c, st2) := NewChildScope(st, parent, name, kind);
      Root(st2, c) == Root(st, parent) && Root(st2, parent) == Root(st, parent)
  {
  }

  /** The identities in use are below `next`. */
  predicate Fresh(st: Store)
  {
    (forall s :: s in st.scopes ==> s < st.next) &&
    (forall v :: v in st.vars ==> v < st.next) &&
    (forall a :: a in st.arrays ==> a < st.next)
  }

  /** Allocation keeps identities fresh and never reuses one that is taken. */
  lemma AllocationIsFresh(st: Store, v: Variable, sc: Scope, a: ArrayObj)
    requires Fresh(st)
    ensures NewVar(st, v).0 !in st.vars && Fresh(NewVar(st, v).1)
    ensures NewScope(st, sc).0 !in st.scopes && Fresh(NewScope(st, sc).1)
    ensures NewArray(st, a).0 !in st.arrays && Fresh(NewArray(st, a).1)
  {
  }

  // --------------------------------------------------- variable storage

  /** The variable that owns the storage: the alias target, or the variable itself. */
  function Owner(st: Store, id: VarId): VarId
  {
    if id in st.vars && st.vars[id].storage.Alias? then st.vars[id].storage.owner else id
  }

  /** The value a variable holds: its own, or its owner's. */
  function Read(st: Store, id: VarId): (r: Option<Value>)
    ensures r.Some? ==> Owner(st, id) in st.vars && st.vars[Owner(st, id)].storage == Owned(r.value)
    ensures r.None? ==> Owner(st, id) !in st.vars || st.vars[Owner(st, id)].storage.Alias?
  {
    if id !in st.vars then None
    else match st.vars[id].storage
      case Owned(v) => Some(v)
      case Alias(o) => if o in st.vars && st.vars[o].storage.Owned? then Some(st.vars[o].storage.value) else None
  }

  /** An in-place write into the shared storage (`var->get<T>() = ...`). */
  function WriteValue(st: Store, id: VarId, v: Value): (st2: Store)
    ensures st2.scopes == st.scopes && st2.arrays == st.arrays && st2.next == st.next
    ensures st2.vars.Keys == st.vars.Keys
  {
    var o := Owner(st, id);
    if o in st.vars && st.vars[o].storage.Owned? then st.(vars := st.vars[o := st.vars[o].(storage := Owned(v))])
    else st
  }

  /** A write through one name is seen through every name that shares the owner. */
  lemma WriteSharedByAliases(st: Store, a: VarId, b: VarId, v: Value)
    requires Read(st, a).Some? && Owner(st, b) == Owner(st, a)
    ensures Read(WriteValue(st, a, v), b) == Some(v)
  {
  }

  /** A write changes no variable with another owner. */
  lemma WriteLeavesOthers(st: Store, a: VarId, b: VarId, v: Value)
    requires Owner(st, b) != Owner(st, a)
    ensures Read(WriteValue(st, a, v), b) == Read(st, b)
  {
  }

  /** Writing what was read changes nothing. */
  lemma WriteReadIdentity(st: Store, a: VarId)
    requires Read(st, a).Some?
    ensures WriteValue(st, a, Read(st, a).value) == st
  {
    var o := Owner(st, a);
    assert st.vars[o := st.vars[o]] == st.vars;
  }

  /** A write changes no name, type, constness or parent of any variable. */
  lemma WriteKeepsDeclarations(st: Store, a: VarId, v: Value, b: VarId)
    requires b in st.vars
    ensures var w := WriteValue(st, a, v).vars[b]; var x := st.vars[b];
      w.name == x.name && w.dtype == x.dtype && w.isConst == x.isConst && w.parent == x.parent
  {
  }

  /**
   * Variable::createReference: a new alias named `refName` of the owner,
   * with the owner's type, const flag and parent.
   */
  function CreateReference(st: Store, id: VarId, refName: string): (r: Option<Variable>)
    ensures r.Some? <==> Owner(st, id) in st.vars
    ensures r.Some? ==> r.value.storage == Alias(Owner(st, id)) && r.value.name == refName
  {
    var o := Owner(st, id);
    if o !in st.vars then None
    else
      var ov := st.vars[o];
      Some(Variable(refName, ov.dtype, ov.isConst, ov.parent, Alias(o)))
  }

  /** A reference to an alias of an owning variable aliases the owner itself, never the alias. */
  lemma ReferenceSkipsAlias(st: Store, id: VarId, refName: string)
    requires id in st.vars && st.vars[id].storage.Alias?
    requires Owner(st, id) in st.vars && st.vars[Owner(st, id)].storage.Owned?
    ensures var r := CreateReference(st, id, refName);
      r.Some? && r.value.storage == Alias(st.vars[id].storage.owner) &&
      st.vars[r.value.storage.owner].storage.Owned?
  {
  }

  /** A new reference shares everything but the name with its owner, and reads the owner's value. */
  lemma ReferenceSharesOwner(st: Store, id: VarId, refName: string, rid: VarId)
    requires Read(st, id).Some? && rid !in st.vars
    ensures var r := CreateReference(st, id, refName).value;
      var st2 := st.(vars := st.vars[rid := r]);
      var o := st.vars[Owner(st, id)];
      r.dtype == o.dtype && r.isConst == o.isConst && r.parent == o.parent &&
      Read(st2, rid) == Read(st, id) && Owner(st2, rid) == Owner(st, id)
  {
  }

  /** Variable::getReference: the owner an alias points at, none for an owning variable. */
  function GetReference(st: Store, id: VarId): (r: Option<VarId>)
    requires id in st.vars
    ensures r.None? <==> st.vars[id].storage.Owned?
    ensures r.Some? ==> r.value == Owner(st, id)
  {
    match st.vars[id].storage
    case Owned(_) => None
    case Alias(o) => Some(o)
  }

  // ------------------------------------------------------ pointer scopes

  /**
   * The scope Pointer::setValue records: the first of the target's parent
   * and its ancestors that is not a record scope. The host dereferences a
   * null parent when all of them are record scopes.
   */
  function RecordFreeAncestor(st: Store, s: ScopeId): (r: Option<ScopeId>)
    ensures r.Some? ==> r.value in [s] + Chain(st, s) && !IsRecord(st, r.value)
    ensures r.Some? ==> exists k :: 0 <= k < |[s] + Chain(st, s)| && ([s] + Chain(st, s))[k] == r.value &&
                          forall i :: 0 <= i < k ==> IsRecord(st, ([s] + Chain(st, s))[i])
    ensures r.None? ==> forall x :: x in [s] + Chain(st, s) ==> IsRecord(st, x)
  {
    var c := [s] + Chain(st, s);
    match FirstIndex(c, x => !IsRecord(st, x))
    case None => None
    case Some(k) => Some(c[k])
  }

  /** The deref check: the recorded scope is the current scope or one of its ancestors. */
  predicate Reaches(st: Store, from: ScopeId, target: ScopeId)
  {
    target in [from] + Chain(st, from)
  }

  // -------------------------------------------------------- scope copies

  /**
   * The part of the Context copy constructor that needs no deep copy: name,
   * chain, kind, procedures and functions; the variables and arrays are
   * copied one by one afterwards, and type definitions are not copied.
   */
  function CloneShell(sc: Scope): (c: Scope)
    ensures c.name == sc.name && c.chain == sc.chain && c.kind == sc.kind
    ensures c.procs == sc.procs && c.funcs == sc.funcs
    ensures c.vars == [] && c.arrays == [] && c.returnValue.None?
    ensures c.enums == [] && c.pointers == [] && c.composites == []
  {
    Scope(sc.name, sc.chain, sc.kind, [], [], sc.procs, sc.funcs, [], [], [], None)
  }

  // --------------------------------------------------- the global scope

  function BuiltinParameters(ps: seq<(string, Tag)>): (r: seq<Parameter>)
    ensures |r| == |ps|
    ensures forall i :: 0 <= i < |ps| ==> r[i] == Parameter(ps[i].0, Plain(ps[i].1), false)
  {
    if ps == [] then [] else [Parameter(ps[0].0, Plain(ps[0].1), false)] + BuiltinParameters(ps[1..])
  }

  /**
   * A built-in as registered in the global scope. Its parameter list is the
   * one its body reads from the call scope; it has no definition token.
   */
  function BuiltinFunction(b: Builtin): (f: Function)
    ensures f.name == BuiltinName(b) && f.body == BuiltinBody(b) && f.defTok.None?
    ensures |f.params| == |BuiltinParams(b)| && f.returnType == Plain(BuiltinReturn(b))
  {
    Function(BuiltinName(b), BuiltinParameters(BuiltinParams(b)), BuiltinBody(b), Plain(BuiltinReturn(b)), None)
  }

  function BuiltinFunctions(bs: seq<Builtin>): (fs: seq<Function>)
    ensures |fs| == |bs| && forall i :: 0 <= i < |bs| ==> fs[i] == BuiltinFunction(bs[i])
  {
    seq(|bs|, i requires 0 <= i < |bs| => BuiltinFunction(bs[i]))
  }

  /** Context::createGlobalContext: the scope "Program" holding the built-in functions. */
  function GlobalScope(): (sc: Scope)
    ensures sc.chain == [] && sc.name == "Program" && sc.kind == PlainScope
    ensures sc.funcs == BuiltinFunctions(AllBuiltins) && sc.vars == []
  {
    EmptyScope("Program", [], PlainScope).(funcs := BuiltinFunctions(AllBuiltins))
  }

  /** The store at program start: the global scope alone, under identity 0. */
  function InitialStore(): (st: Store)
    ensures st.scopes.Keys == {0} && st.scopes[0] == GlobalScope() && Fresh(st)
  {
    Store(map[0 := GlobalScope()], map[], map[], 1)
  }

  /** A name held by exactly one entry is found at that entry. */
  lemma UniqueNameFound(fs: seq<Function>, k: nat, n: string)
    requires k < |fs| && fs[k].name == n
    requires forall j :: 0 <= j < |fs| && fs[j].name == n ==> j == k
    ensures FirstIndex(fs, (f: Function) => f.name == n) == Some(k)
  {
  }

  lemma {:induction false} BuiltinsDistinct(i: nat, j: nat)
    requires i < |AllBuiltins| && j < |AllBuiltins| && AllBuiltins[i] == AllBuiltins[j]
    ensures i == j
  {
  }

  /** Every modelled built-in is found by name from any scope whose global scope is the initial one. */
  lemma BuiltinsVisible(st: Store, s: ScopeId, i: nat)
    requires i < |AllBuiltins|
    requires Root(st, s) in st.scopes && st.scopes[Root(st, s)] == GlobalScope()
    ensures GetFunction(st, s, BuiltinName(AllBuiltins[i])) == Some(BuiltinFunction(AllBuiltins[i]))
  {
    var fs := BuiltinFunctions(AllBuiltins);
    var n := BuiltinName(AllBuiltins[i]);
    forall j | 0 <= j < |fs| && fs[j].name == n
      ensures j == i
    {
      BuiltinNamesDistinct(AllBuiltins[j], AllBuiltins[i]);
      BuiltinsDistinct(i, j);
    }
    UniqueNameFound(fs, i, n);
  }
}
