/**
 * The loops of the execution engine in their imperative form. A `Machine`
 * holds the runtime store, as the interpreter's Context objects do, and each
 * method runs one loop of the source against it: the node loop of a block,
 * the WHILE, REPEAT and FOR loops, the component loops of IF and CASE, the
 * identifier loop of DECLARE, the argument and binding loops of a call, the
 * index, bound, array and cell loops.
 *
 * Each method is proved to leave the machine in the state, and to return
 * the outcome, that the step function of the same name in `Engine` gives
 * for the old state; the properties of those functions are the subject of
 * `EngineFacts`.
 */
module Machines {
  import opened Wrappers
  import opened Types
  import opened Values
  import opened Errors
  import opened Arrays
  import opened Ast
  import opened Store
  import opened Engine

  class Machine {
    var st: Store

    constructor (st0: Store)
      ensures st == st0
    {
      st := st0;
    }

    /** Block::_run: the nodes in order; the first signal or error stops the block. */
    method Run(p: Prims, body: seq<Stmt>, ctx: ScopeId, fuel: nat) returns (o: Outcome<()>)
      modifies this
      ensures Ran(o, st) == RunBlock(p, body, ctx, old(st), fuel)
    {
      if fuel == 0 {
        o := Unwind(OutOfFuel);
        return;
      }
      var i: nat, f: nat := 0, fuel - 1;
      while true
        invariant RunFrom(p, body, i, ctx, st, f) == RunBlock(p, body, ctx, old(st), fuel)
        decreases f
      {
        if f == 0 {
          o := Unwind(OutOfFuel);
          return;
        }
        if i >= |body| {
          o := Done(());
          return;
        }
        var r := Exec(p, body[i], ctx, st, f - 1);
        st := r.st;
        if r.out.Unwind? {
          o := r.out;
          return;
        }
        i, f := i + 1, f - 1;
      }
    }

    /** MainBlock::run: the program block, with escaping BREAK and CONTINUE turned into errors. */
    method RunProgram(p: Prims, body: seq<Stmt>, ctx: ScopeId, fuel: nat) returns (o: Outcome<()>)
      modifies this
      ensures Ran(o, st) == RunMain(p, body, ctx, old(st), fuel)
    {
      o := Run(p, body, ctx, fuel);
      match o
      case Unwind(BreakSig(t)) =>
        o := Throw(InvalidUsage(BreakStatement), t, ctx);
      case Unwind(ContinueSig(t)) =>
        o := Throw(InvalidUsage(ContinueStatement), t, ctx);
      case _ =>
    }

    /** WhileLoopNode::evaluate. */
    method While(p: Prims, at: Tok, cond: Expr, body: seq<Stmt>, ctx: ScopeId, fuel: nat) returns (o: Outcome<()>)
      modifies this
      ensures Ran(o, st) == WhileLoop(p, at, cond, body, ctx, old(st), fuel)
    {
      var f := fuel;
      while true
        invariant WhileLoop(p, at, cond, body, ctx, st, f) == WhileLoop(p, at, cond, body, ctx, old(st), fuel)
        decreases f
      {
        if f == 0 {
          o := Unwind(OutOfFuel);
          return;
        }
        var c := Eval(p, cond, ctx, st, f - 1);
        st := c.st;
        if c.out.Unwind? {
          o := Unwind(c.out.sig);
          return;
        }
        if !c.out.val.data.BoolV? {
          o := Throw(ConditionType, at, ctx);
          return;
        }
        if !c.out.val.data.b {
          o := Done(());
          return;
        }
        var r := Run(p, body, ctx, f - 1);
        match r {
          case Unwind(BreakSig(_)) =>
            o := Done(());
            return;
          case Unwind(ContinueSig(_)) =>
          case Unwind(_) =>
            o := r;
            return;
          case Done(_) =>
        }
        f := f - 1;
      }
    }

    /** RepeatUntilNode::evaluate. */
    method RepeatUntil(p: Prims, at: Tok, cond: Expr, body: seq<Stmt>, ctx: ScopeId, fuel: nat)
      returns (o: Outcome<()>)
      modifies this
      ensures Ran(o, st) == RepeatLoop(p, at, cond, body, ctx, old(st), fuel)
    {
      var f := fuel;
      while true
        invariant RepeatLoop(p, at, cond, body, ctx, st, f) == RepeatLoop(p, at, cond, body, ctx, old(st), fuel)
        decreases f
      {
        if f == 0 {
          o := Unwind(OutOfFuel);
          return;
        }
        var r := Run(p, body, ctx, f - 1);
        match r {
          case Unwind(BreakSig(_)) =>
            o := Done(());
            return;
          case Unwind(ContinueSig(_)) =>
          case Unwind(_) =>
            o := r;
            return;
          case Done(_) =>
            var c := Eval(p, cond, ctx, st, f - 1);
            st := c.st;
            if c.out.Unwind? {
              o := Unwind(c.out.sig);
              return;
            }
            if !c.out.val.data.BoolV? {
              o := Throw(ConditionType, at, ctx);
              return;
            }
            if c.out.val.data.b {
              o := Done(());
              return;
            }
        }
        f := f - 1;
      }
    }

    /** The loop of ForLoopNode once the iterator holds the start value: test, body, advance. */
    method ForLoop(p: Prims, x: VarId, stop: int, step: int, body: seq<Stmt>, ctx: ScopeId, fuel: nat)
      returns (o: Outcome<()>)
      modifies this
      ensures Ran(o, st) == ForFrom(p, x, stop, step, body, ctx, old(st), fuel)
    {
      var f := fuel;
      while true
        invariant ForFrom(p, x, stop, step, body, ctx, st, f) == ForFrom(p, x, stop, step, body, ctx, old(st), fuel)
        decreases f
      {
        if f == 0 {
          o := Unwind(OutOfFuel);
          return;
        }
        var cur := Read(st, x);
        if !cur.Some? || !cur.value.IntV? {
          o := Unwind(Aborted);
          return;
        }
        if !ForContinues(cur.value.i, stop, step) {
          o := Done(());
          return;
        }
        var r := Run(p, body, ctx, f - 1);
        match r {
          case Unwind(BreakSig(_)) =>
            o := Done(());
            return;
          case Unwind(ContinueSig(_)) =>
          case Unwind(_) =>
            o := r;
            return;
          case Done(_) =>
        }
        if f - 1 == 0 {
          o := Unwind(OutOfFuel);
          return;
        }
        var now := Read(st, x);
        if !now.Some? || !now.value.IntV? {
          o := Unwind(Aborted);
          return;
        }
        st := WriteValue(st, x, IntV(now.value.i + step));
        f := f - 2;
      }
    }

    /** IfStatementNode::evaluate: the components in order until one runs. */
    method If(p: Prims, at: Tok, arms: seq<IfArm>, ctx: ScopeId, fuel: nat) returns (o: Outcome<()>)
      modifies this
      ensures Ran(o, st) == IfArms(p, at, arms, 0, ctx, old(st), fuel)
    {
      var i, f := 0, fuel;
      while true
        invariant IfArms(p, at, arms, i, ctx, st, f) == IfArms(p, at, arms, 0, ctx, old(st), fuel)
        decreases f
      {
        if f == 0 {
          o := Unwind(OutOfFuel);
          return;
        }
        if i >= |arms| {
          o := Done(());
          return;
        }
        if arms[i].cond.None? {
          o := Run(p, arms[i].body, ctx, f - 1);
          return;
        }
        var c := Eval(p, arms[i].cond.value, ctx, st, f - 1);
        st := c.st;
        if c.out.Unwind? {
          o := Unwind(c.out.sig);
          return;
        }
        if !c.out.val.data.BoolV? {
          o := Throw(ConditionType, at, ctx);
          return;
        }
        if c.out.val.data.b {
          o := Run(p, arms[i].body, ctx, f - 1);
          return;
        }
        i, f := i + 1, f - 1;
      }
    }

    /** CaseNode::evaluate after the scrutinee: the components in order until one matches. */
    method Case(p: Prims, v: NodeResult, arms: seq<CaseArm>, ctx: ScopeId, fuel: nat) returns (o: Outcome<()>)
      modifies this
      ensures Ran(o, st) == CaseArms(p, v, arms, 0, ctx, old(st), fuel)
    {
      var i, f := 0, fuel;
      while true
        invariant CaseArms(p, v, arms, i, ctx, st, f) == CaseArms(p, v, arms, 0, ctx, old(st), fuel)
        decreases f
      {
        if f == 0 {
          o := Unwind(OutOfFuel);
          return;
        }
        if i >= |arms| {
          o := Done(());
          return;
        }
        var m := MatchArm(p, v, arms[i], ctx, st, f - 1);
        st := m.st;
        if m.out.Unwind? {
          o := Unwind(m.out.sig);
          return;
        }
        if m.out.val {
          o := Run(p, arms[i].body, ctx, f - 1);
          return;
        }
        i, f := i + 1, f - 1;
      }
    }

    /** DeclareNode::evaluate: the identifiers in order, each checked, created and added. */
    method Declare(p: Prims, at: Tok, names: seq<Ident>, typ: TypeName, ctx: ScopeId, fuel: nat)
      returns (o: Outcome<()>)
      modifies this
      ensures Ran(o, st) == DeclareFrom(p, at, names, typ, 0, ctx, old(st), fuel)
    {
      ghost var whole := DeclareFrom(p, at, names, typ, 0, ctx, st, fuel);
      var s, i, f := st, 0, fuel;
      while true
        invariant DeclaresAs(p, at, names, typ, i, ctx, s, f, whole)
        decreases f
      {
        DeclareEnds(p, at, names, typ, i, ctx, s, f, whole);
        if f == 0 {
          o := Unwind(OutOfFuel);
          break;
        }
        if i >= |names| {
          o := Done(());
          break;
        }
        var d := DeclareNext(p, at, names, typ, i, ctx, s, f, whole);
        s := d.st;
        if d.out.Unwind? {
          o := d.out;
          break;
        }
        i, f := i + 1, f - 1;
      }
      st := s;
    }

    /** The argument loop of CallNode and FunctionCallNode: left to right, in the caller's scope. */
    method Arguments(p: Prims, args: seq<Expr>, ctx: ScopeId, fuel: nat) returns (o: Outcome<seq<NodeResult>>)
      modifies this
      ensures Ran(o, st) == EvalArgs(p, args, 0, [], ctx, old(st), fuel)
      ensures o.Done? ==> |o.val| == |args|
    {
      var i, f := 0, fuel;
      var acc: seq<NodeResult> := [];
      while true
        invariant EvalArgs(p, args, i, acc, ctx, st, f) == EvalArgs(p, args, 0, [], ctx, old(st), fuel)
        invariant i <= |args| && |acc| == i
        decreases f
      {
        if f == 0 {
          o := Unwind(OutOfFuel);
          return;
        }
        if i >= |args| {
          o := Done(acc);
          return;
        }
        var r := Eval(p, args[i], ctx, st, f - 1);
        st := r.st;
        if r.out.Unwind? {
          o := Unwind(r.out.sig);
          return;
        }
        acc := acc + [r.out.val];
        i, f := i + 1, f - 1;
      }
    }

    /** The binding loop of a call: every parameter against its argument, into the callee scope. */
    method Bind(p: Prims, at: Tok, params: seq<Parameter>, args: seq<Expr>, vals: seq<NodeResult>, ctx: ScopeId,
                callee: ScopeId, fuel: nat) returns (o: Outcome<()>)
      requires |params| == |args| == |vals|
      modifies this
      ensures Ran(o, st) == BindFrom(p, at, params, args, vals, 0, ctx, callee, old(st), fuel)
    {
      ghost var whole := BindFrom(p, at, params, args, vals, 0, ctx, callee, st, fuel);
      var s, i, f := st, 0, fuel;
      while true
        invariant BindsAs(p, at, params, args, vals, i, ctx, callee, s, f, whole)
        decreases f
      {
        if f == 0 {
          o := Unwind(OutOfFuel);
          break;
        }
        if i >= |params| {
          o := Done(());
          break;
        }
        var b := BindOne(p, at, params, args, vals, i, ctx, callee, s, f - 1);
        BindRound(p, at, params, args, vals, i, ctx, callee, s, f);
        s := b.st;
        if b.out.Unwind? {
          o := b.out;
          break;
        }
        i, f := i + 1, f - 1;
      }
      st := s;
    }

    /** The index loop of ArrayElementResolver: each index INTEGER and valid for its dimension. */
    method Indices(p: Prims, dims: seq<Dim>, idx: seq<Expr>, ctx: ScopeId, fuel: nat) returns (o: Outcome<seq<int>>)
      requires |idx| == |dims|
      modifies this
      ensures Ran(o, st) == IndicesFrom(p, dims, idx, 0, [], ctx, old(st), fuel)
    {
      var i, f := 0, fuel;
      var acc: seq<int> := [];
      while true
        invariant IndicesFrom(p, dims, idx, i, acc, ctx, st, f) == IndicesFrom(p, dims, idx, 0, [], ctx, old(st), fuel)
        decreases f
      {
        if f == 0 {
          o := Unwind(OutOfFuel);
          return;
        }
        if i >= |idx| {
          o := Done(acc);
          return;
        }
        var r := Eval(p, idx[i], ctx, st, f - 1);
        st := r.st;
        if r.out.Unwind? {
          o := Unwind(r.out.sig);
          return;
        }
        if !r.out.val.data.IntV? {
          o := Throw(Runtime(IndexNotInteger), idx[i].at, ctx);
          return;
        }
        if !IsValidIndex(dims[i], r.out.val.data.i) {
          o := Throw(Runtime(IndexOutOfBounds), idx[i].at, ctx);
          return;
        }
        acc := acc + [r.out.val.data.i];
        i, f := i + 1, f - 1;
      }
    }

    /** The bound-pair loop of ArrayDeclareNode. */
    method Bounds(p: Prims, bounds: seq<Expr>, ctx: ScopeId, fuel: nat) returns (o: Outcome<seq<Dim>>)
      requires |bounds| % 2 == 0
      modifies this
      ensures Ran(o, st) == BoundsFrom(p, bounds, 0, [], ctx, old(st), fuel)
    {
      var i, f := 0, fuel;
      var dims: seq<Dim> := [];
      while true
        invariant BoundsFrom(p, bounds, i, dims, ctx, st, f) == BoundsFrom(p, bounds, 0, [], ctx, old(st), fuel)
        decreases f
      {
        if f == 0 {
          o := Unwind(OutOfFuel);
          return;
        }
        if i + 1 >= |bounds| {
          o := Done(dims);
          return;
        }
        var lo := Eval(p, bounds[i], ctx, st, f - 1);
        st := lo.st;
        if lo.out.Unwind? {
          o := Unwind(lo.out.sig);
          return;
        }
        if !lo.out.val.data.IntV? {
          o := Throw(Runtime(IndexNotInteger), bounds[i].at, ctx);
          return;
        }
        var hi := Eval(p, bounds[i + 1], ctx, st, f - 1);
        st := hi.st;
        if hi.out.Unwind? {
          o := Unwind(hi.out.sig);
          return;
        }
        if !hi.out.val.data.IntV? {
          o := Throw(Runtime(IndexNotInteger), bounds[i + 1].at, ctx);
          return;
        }
        if hi.out.val.data.i < lo.out.val.data.i {
          o := Throw(Runtime(UpperBelowLower), bounds[i + 1].at, ctx);
          return;
        }
        dims := dims + [Dim(i / 2, lo.out.val.data.i, hi.out.val.data.i)];
        i, f := i + 2, f - 1;
      }
    }

    /** Array::init: default cells, one per slot up to the capacity. */
    method InitArray(p: Prims, name: string, t: DataType, cap: nat, ctx: ScopeId, fuel: nat)
      returns (o: Outcome<seq<VarId>>)
      modifies this
      ensures Ran(o, st) == InitCells(p, name, t, cap, ctx, [], old(st), fuel)
    {
      var f := fuel;
      var cells: seq<VarId> := [];
      while true
        invariant InitCells(p, name, t, cap, ctx, cells, st, f) == InitCells(p, name, t, cap, ctx, [], old(st), fuel)
        decreases f
      {
        if f == 0 {
          o := Unwind(OutOfFuel);
          return;
        }
        if |cells| >= cap {
          o := Done(cells);
          return;
        }
        var v := NewDefault(p, name, t, false, ctx, st, f - 1);
        st := v.st;
        if v.out.Unwind? {
          o := Unwind(v.out.sig);
          return;
        }
        cells := cells + [v.out.val];
        f := f - 1;
      }
    }

    /** Array::copyData: every cell of the target replaced by a copy of the source's cell. */
    method CopyData(p: Prims, dst: ArrId, src: seq<VarId>, fuel: nat) returns (o: Outcome<()>)
      modifies this
      ensures Ran(o, st) == CopyCells(p, dst, src, 0, old(st), fuel)
    {
      var i, f := 0, fuel;
      while true
        invariant CopyCells(p, dst, src, i, st, f) == CopyCells(p, dst, src, 0, old(st), fuel)
        decreases f
      {
        if f == 0 {
          o := Unwind(OutOfFuel);
          return;
        }
        if dst !in st.arrays {
          o := Unwind(Aborted);
          return;
        }
        if i >= |st.arrays[dst].cells| {
          o := Done(());
          return;
        }
        if i >= |src| || src[i] !in st.vars {
          o := Unwind(Aborted);
          return;
        }
        var sv := st.vars[src[i]];
        var v := Read(st, src[i]);
        if v.None? {
          o := Unwind(Aborted);
          return;
        }
        var c := DeepCopyAs(p, sv.dtype.tag, v.value, st, f - 1);
        st := c.st;
        if c.out.Unwind? {
          o := Unwind(c.out.sig);
          return;
        }
        var n := Alloc(st, sv.name, sv.dtype, sv.isConst, sv.parent, c.out.val);
        st := n.st;
        if dst !in st.arrays || i >= |st.arrays[dst].cells| {
          o := Unwind(Aborted);
          return;
        }
        var a := st.arrays[dst];
        st := st.(arrays := st.arrays[dst := a.(cells := a.cells[i := n.out.val])]);
        i, f := i + 1, f - 1;
      }
    }

    /** Context::copyVariableData: variable i of `dst` takes a copy of the value of variable i of `src`. */
    method CopyVariables(p: Prims, dst: ScopeId, src: ScopeId, fuel: nat) returns (o: Outcome<()>)
      modifies this
      ensures Ran(o, st) == CopyVariableData(p, dst, src, old(st), fuel)
    {
      if fuel == 0 {
        o := Unwind(OutOfFuel);
        return;
      }
      if dst !in st.scopes || src !in st.scopes {
        o := Unwind(Aborted);
        return;
      }
      var dvars, svars := st.scopes[dst].vars, st.scopes[src].vars;
      var i: nat, f: nat := 0, fuel - 1;
      while true
        invariant CopyDataFrom(p, dvars, svars, i, st, f) == CopyVariableData(p, dst, src, old(st), fuel)
        decreases f
      {
        if f == 0 {
          o := Unwind(OutOfFuel);
          return;
        }
        if i >= |dvars| {
          o := Done(());
          return;
        }
        if i >= |svars| {
          o := Unwind(Aborted);
          return;
        }
        var r := SetCopy(p, dvars[i], svars[i], st, f - 1);
        st := r.st;
        if r.out.Unwind? {
          o := r.out;
          return;
        }
        i, f := i + 1, f - 1;
      }
    }
  }

  /** The rest of a DECLARE, from identifier `i` in store `s`, comes out as `r`. */
  ghost predicate DeclaresAs(p: Prims, at: Tok, names: seq<Ident>, typ: TypeName, i: nat, ctx: ScopeId, s: Store, f: nat,
                             r: Ran<()>)
  {
    DeclareFrom(p, at, names, typ, i, ctx, s, f) == r
  }

  /**
   * One round of the DECLARE loop: declaring identifier `i` either fails, and
   * that failure is the whole DECLARE's result, or leaves the rest to do.
   */
  lemma DeclareRound(p: Prims, at: Tok, names: seq<Ident>, typ: TypeName, i: nat, ctx: ScopeId, s: Store, f: nat,
                     whole: Ran<()>, d: Ran<()>)
    requires i < |names| && f > 0
    requires DeclaresAs(p, at, names, typ, i, ctx, s, f, whole)
    requires d == DeclareOne(p, at, names[i].text, typ, ctx, s, f - 1)
    ensures d.out.Unwind? ==> whole == Ran(d.out, d.st)
    ensures !d.out.Unwind? ==> DeclaresAs(p, at, names, typ, i + 1, ctx, d.st, f - 1, whole)
  {
  }

  /** One round of the DECLARE loop, run: DeclareOne on identifier `i`, with what DeclareRound says of it. */
  method DeclareNext(p: Prims, at: Tok, names: seq<Ident>, typ: TypeName, i: nat, ctx: ScopeId, s: Store, f: nat,
                     ghost whole: Ran<()>) returns (d: Ran<()>)
    requires i < |names| && f > 0
    requires DeclaresAs(p, at, names, typ, i, ctx, s, f, whole)
    ensures d.out.Unwind? ==> whole == Ran(d.out, d.st)
    ensures !d.out.Unwind? ==> DeclaresAs(p, at, names, typ, i + 1, ctx, d.st, f - 1, whole)
  {
    d := DeclareOne(p, at, names[i].text, typ, ctx, s, f - 1);
    DeclareRound(p, at, names, typ, i, ctx, s, f, whole, d);
  }

  /** The DECLARE loop's exits: out of fuel, or every identifier declared. */
  lemma DeclareEnds(p: Prims, at: Tok, names: seq<Ident>, typ: TypeName, i: nat, ctx: ScopeId, s: Store, f: nat,
                    whole: Ran<()>)
    requires DeclaresAs(p, at, names, typ, i, ctx, s, f, whole)
    ensures f == 0 ==> whole == Ran(Unwind(OutOfFuel), s)
    ensures f > 0 && i >= |names| ==> whole == Ran(Done(()), s)
  {
  }

  /** The rest of a binding loop, from parameter `i` in store `s`, comes out as `r`. */
  ghost predicate BindsAs(p: Prims, at: Tok, params: seq<Parameter>, args: seq<Expr>, vals: seq<NodeResult>, i: nat,
                          ctx: ScopeId, callee: ScopeId, s: Store, f: nat, r: Ran<()>)
    requires |params| == |args| == |vals|
  {
    BindFrom(p, at, params, args, vals, i, ctx, callee, s, f) == r
  }

  /** One round of the binding loop: bind parameter `i`, then the rest unless it failed. */
  lemma BindRound(p: Prims, at: Tok, params: seq<Parameter>, args: seq<Expr>, vals: seq<NodeResult>, i: nat,
                  ctx: ScopeId, callee: ScopeId, s: Store, f: nat)
    requires |params| == |args| == |vals|
    requires i < |params| && f > 0
    ensures var b := BindOne(p, at, params, args, vals, i, ctx, callee, s, f - 1);
            BindFrom(p, at, params, args, vals, i, ctx, callee, s, f)
            == if b.out.Unwind? then Ran(b.out, b.st)
               else BindFrom(p, at, params, args, vals, i + 1, ctx, callee, b.st, f - 1)
  {
  }

  /** Procedure::getTypes: the parameter types pushed one by one. */
  method GetTypes(ps: seq<Parameter>) returns (ts: seq<DataType>)
    ensures |ts| == |ps|
    ensures forall i :: 0 <= i < |ps| ==> ts[i] == ps[i].dtype
  {
    ts := [];
    var i := 0;
    while i < |ps|
      invariant 0 <= i <= |ps|
      invariant |ts| == i
      invariant forall k :: 0 <= k < i ==> ts[k] == ps[k].dtype
    {
      ts := ts + [ps[i].dtype];
      i := i + 1;
    }
  }

  /**
   * The walk of PointerDereferencer: from the current scope up the parent
   * links until the pointer's recorded scope is met or the root is passed.
   */
  method Reachable(st: Store, from: ScopeId, target: ScopeId) returns (found: bool)
    ensures found <==> Reaches(st, from, target)
  {
    var path := [from] + Chain(st, from);
    var i := 0;
    while i < |path| && path[i] != target
      invariant 0 <= i <= |path|
      invariant forall k :: 0 <= k < i ==> path[k] != target
    {
      i := i + 1;
    }
    found := i < |path|;
  }

  /** The walk of Pointer::setValue: up from the target's scope past every record scope. */
  method HomeScope(st: Store, s: ScopeId) returns (r: Option<ScopeId>)
    ensures r == RecordFreeAncestor(st, s)
  {
    var path := [s] + Chain(st, s);
    var i := 0;
    while i < |path| && IsRecord(st, path[i])
      invariant 0 <= i <= |path|
      invariant forall k :: 0 <= k < i ==> IsRecord(st, path[k])
    {
      i := i + 1;
    }
    r := if i < |path| then Some(path[i]) else None;
  }
}
