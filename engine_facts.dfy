/**
 * What the execution engine promises, stated one node at a time: the order
 * in which a node evaluates its parts, which signals it intercepts, which
 * errors it raises and what it leaves in the store. Each lemma fixes the
 * results of the sub-steps it depends on in its `requires` and states the
 * node's outcome in terms of them.
 */
module EngineFacts {
  import opened Wrappers
  import opened Types
  import opened Values
  import opened Errors
  import opened Operators
  import opened Coercion
  import opened Ast
  import opened Store
  import opened Engine

  // ===================================================================
  // Blocks
  // ===================================================================

  /** A block runs its nodes in order: once node `i` is done, the block goes on with node `i + 1` in the new store. */
  lemma BlockRunsInOrder(p: Prims, body: seq<Stmt>, i: nat, ctx: ScopeId, st: Store, fuel: nat)
    requires fuel > 0 && i < |body|
    requires Exec(p, body[i], ctx, st, fuel - 1).out.Done?
    ensures RunFrom(p, body, i, ctx, st, fuel)
         == RunFrom(p, body, i + 1, ctx, Exec(p, body[i], ctx, st, fuel - 1).st, fuel - 1)
  {
  }

  /** A plain block intercepts nothing: the first signal or error of a node is the block's, and the rest is not run. */
  lemma BlockStopsAtSignal(p: Prims, body: seq<Stmt>, i: nat, ctx: ScopeId, st: Store, fuel: nat)
    requires fuel > 0 && i < |body|
    requires Exec(p, body[i], ctx, st, fuel - 1).out.Unwind?
    ensures RunFrom(p, body, i, ctx, st, fuel) == Exec(p, body[i], ctx, st, fuel - 1)
  {
  }

  /** Running `b1 + b2` from position `|b1| + j` is running `b2` from position `j`. */
  lemma {:induction false} RunFromShift(p: Prims, b1: seq<Stmt>, b2: seq<Stmt>, j: nat, ctx: ScopeId, st: Store,
                                        fuel: nat)
    ensures RunFrom(p, b1 + b2, |b1| + j, ctx, st, fuel) == RunFrom(p, b2, j, ctx, st, fuel)
    decreases fuel
  {
    if fuel > 0 && j < |b2| {
      assert (b1 + b2)[|b1| + j] == b2[j];
      var e := Exec(p, b2[j], ctx, st, fuel - 1);
      if e.out.Done? {
        RunFromShift(p, b1, b2, j + 1, ctx, e.st, fuel - 1);
      }
    }
  }

  /**
   * Running `b1 + b2` from position `i` of `b1` first runs the rest of
   * `b1`; if that completes, which takes more fuel than there are nodes
   * left, `b2` runs in the store it left; otherwise its signal or error is
   * the outcome and `b2` is not run.
   */
  lemma {:induction false} RunFromConcat(p: Prims, b1: seq<Stmt>, b2: seq<Stmt>, i: nat, ctx: ScopeId, st: Store,
                                         fuel: nat)
    requires i <= |b1|
    ensures var r := RunFrom(p, b1, i, ctx, st, fuel);
            && (r.out.Done? ==>
                  fuel > |b1| - i && RunFrom(p, b1 + b2, i, ctx, st, fuel) == RunFrom(p, b2, 0, ctx, r.st, fuel - (|b1| - i)))
            && (r.out.Unwind? ==> RunFrom(p, b1 + b2, i, ctx, st, fuel) == r)
    decreases |b1| - i
  {
    if i == |b1| {
      RunFromShift(p, b1, b2, 0, ctx, st, fuel);
    } else if fuel > 0 {
      assert (b1 + b2)[i] == b1[i];
      var e := Exec(p, b1[i], ctx, st, fuel - 1);
      if e.out.Done? {
        RunFromConcat(p, b1, b2, i + 1, ctx, e.st, fuel - 1);
      }
    }
  }

  /**
   * A block that is two blocks one after the other runs the first; if it
   * completes, the second runs in the store it left with the fuel the
   * first did not use; otherwise the first's signal or error ends the whole.
   */
  lemma RunBlockConcat(p: Prims, b1: seq<Stmt>, b2: seq<Stmt>, ctx: ScopeId, st: Store, fuel: nat)
    ensures var r := RunBlock(p, b1, ctx, st, fuel);
            && (r.out.Done? ==>
                  fuel > |b1| && RunBlock(p, b1 + b2, ctx, st, fuel) == RunBlock(p, b2, ctx, r.st, fuel - |b1|))
            && (r.out.Unwind? ==> RunBlock(p, b1 + b2, ctx, st, fuel) == r)
  {
    if fuel > 0 {
      RunFromConcat(p, b1, b2, 0, ctx, st, fuel - 1);
    }
  }

  /** An escaping BREAK becomes invalid usage at the BREAK's own token. */
  lemma MainBlockBreak(p: Prims, body: seq<Stmt>, ctx: ScopeId, st: Store, fuel: nat, t: Tok)
    requires RunBlock(p, body, ctx, st, fuel).out == Unwind(BreakSig(t))
    ensures RunMain(p, body, ctx, st, fuel).out == Throw(InvalidUsage(BreakStatement), t, ctx)
    ensures RunMain(p, body, ctx, st, fuel).st == RunBlock(p, body, ctx, st, fuel).st
  {
  }

  /** An escaping CONTINUE becomes invalid usage at the CONTINUE's own token. */
  lemma MainBlockContinue(p: Prims, body: seq<Stmt>, ctx: ScopeId, st: Store, fuel: nat, t: Tok)
    requires RunBlock(p, body, ctx, st, fuel).out == Unwind(ContinueSig(t))
    ensures RunMain(p, body, ctx, st, fuel).out == Throw(InvalidUsage(ContinueStatement), t, ctx)
    ensures RunMain(p, body, ctx, st, fuel).st == RunBlock(p, body, ctx, st, fuel).st
  {
  }

  /** Completion, errors and the RETURN signal pass through the program block unchanged. */
  lemma MainBlockPassesOthers(p: Prims, body: seq<Stmt>, ctx: ScopeId, st: Store, fuel: nat)
    requires !RunBlock(p, body, ctx, st, fuel).out.Unwind?
          || !(RunBlock(p, body, ctx, st, fuel).out.sig.BreakSig? || RunBlock(p, body, ctx, st, fuel).out.sig.ContinueSig?)
    ensures RunMain(p, body, ctx, st, fuel) == RunBlock(p, body, ctx, st, fuel)
  {
  }

  // ===================================================================
  // BREAK and CONTINUE
  // ===================================================================

  /** BREAK never completes: it raises a BREAK signal carrying its token, and the store is untouched. */
  lemma BreakSignals(p: Prims, at: Tok, ctx: ScopeId, st: Store, fuel: nat)
    requires fuel > 0
    ensures Exec(p, Break(at), ctx, st, fuel) == Ran(Unwind(BreakSig(at)), st)
  {
  }

  /** CONTINUE never completes: it raises a CONTINUE signal carrying its token, and the store is untouched. */
  lemma ContinueSignals(p: Prims, at: Tok, ctx: ScopeId, st: Store, fuel: nat)
    requires fuel > 0
    ensures Exec(p, Continue(at), ctx, st, fuel) == Ran(Unwind(ContinueSig(at)), st)
  {
  }

  // ===================================================================
  // WHILE
  // ===================================================================

  /** The condition comes first: a FALSE condition ends the loop before the body runs. */
  lemma WhileFalseSkipsBody(p: Prims, at: Tok, cond: Expr, body: seq<Stmt>, ctx: ScopeId, st: Store, fuel: nat)
    requires fuel > 0
    requires Eval(p, cond, ctx, st, fuel - 1).out.Done? && Eval(p, cond, ctx, st, fuel - 1).out.val.data == BoolV(false)
    ensures WhileLoop(p, at, cond, body, ctx, st, fuel) == Give((), Eval(p, cond, ctx, st, fuel - 1).st)
  {
  }

  /** A condition that is not BOOLEAN is a condition type error at the loop's token. */
  lemma WhileConditionType(p: Prims, at: Tok, cond: Expr, body: seq<Stmt>, ctx: ScopeId, st: Store, fuel: nat)
    requires fuel > 0
    requires Eval(p, cond, ctx, st, fuel - 1).out.Done? && !Eval(p, cond, ctx, st, fuel - 1).out.val.data.BoolV?
    ensures WhileLoop(p, at, cond, body, ctx, st, fuel).out == Throw(ConditionType, at, ctx)
  {
  }

  /** The error or signal of the condition ends the loop (the condition is outside the body's handler). */
  lemma WhileConditionUnwinds(p: Prims, at: Tok, cond: Expr, body: seq<Stmt>, ctx: ScopeId, st: Store, fuel: nat)
    requires fuel > 0
    requires Eval(p, cond, ctx, st, fuel - 1).out.Unwind?
    ensures WhileLoop(p, at, cond, body, ctx, st, fuel)
         == Ran(Unwind(Eval(p, cond, ctx, st, fuel - 1).out.sig), Eval(p, cond, ctx, st, fuel - 1).st)
  {
  }

  /**
   * After a TRUE condition the body runs: a BREAK ends the loop normally, a
   * CONTINUE or a completed body goes back to the test, and any other signal
   * or error leaves the loop unchanged.
   */
  lemma WhileBody(p: Prims, at: Tok, cond: Expr, body: seq<Stmt>, ctx: ScopeId, st: Store, fuel: nat)
    requires fuel > 0
    requires Eval(p, cond, ctx, st, fuel - 1).out.Done? && Eval(p, cond, ctx, st, fuel - 1).out.val.data == BoolV(true)
    ensures var r := RunBlock(p, body, ctx, Eval(p, cond, ctx, st, fuel - 1).st, fuel - 1);
            var w := WhileLoop(p, at, cond, body, ctx, st, fuel);
            && (r.out.Unwind? && r.out.sig.BreakSig? ==> w == Give((), r.st))
            && (r.out.Done? || r.out.sig.ContinueSig? ==> w == WhileLoop(p, at, cond, body, ctx, r.st, fuel - 1))
            && (r.out.Unwind? && !r.out.sig.BreakSig? && !r.out.sig.ContinueSig? ==> w == r)
  {
  }

  // ===================================================================
  // REPEAT ... UNTIL
  // ===================================================================

  /** The body runs first; BREAK ends the loop, CONTINUE restarts the body without testing UNTIL, other signals leave. */
  lemma RepeatBody(p: Prims, at: Tok, cond: Expr, body: seq<Stmt>, ctx: ScopeId, st: Store, fuel: nat)
    requires fuel > 0
    ensures var r := RunBlock(p, body, ctx, st, fuel - 1);
            var w := RepeatLoop(p, at, cond, body, ctx, st, fuel);
            && (r.out.Unwind? && r.out.sig.BreakSig? ==> w == Give((), r.st))
            && (r.out.Unwind? && r.out.sig.ContinueSig? ==> w == RepeatLoop(p, at, cond, body, ctx, r.st, fuel - 1))
            && (r.out.Unwind? && !r.out.sig.BreakSig? && !r.out.sig.ContinueSig? ==> w == r)
  {
  }

  /** After a completed body the UNTIL test runs: TRUE ends the loop, FALSE goes round, anything else is an error. */
  lemma RepeatUntilTest(p: Prims, at: Tok, cond: Expr, body: seq<Stmt>, ctx: ScopeId, st: Store, fuel: nat)
    requires fuel > 0
    requires RunBlock(p, body, ctx, st, fuel - 1).out.Done?
    requires Eval(p, cond, ctx, RunBlock(p, body, ctx, st, fuel - 1).st, fuel - 1).out.Done?
    ensures var c := Eval(p, cond, ctx, RunBlock(p, body, ctx, st, fuel - 1).st, fuel - 1);
            var w := RepeatLoop(p, at, cond, body, ctx, st, fuel);
            && (c.out.val.data == BoolV(true) ==> w == Give((), c.st))
            && (c.out.val.data == BoolV(false) ==> w == RepeatLoop(p, at, cond, body, ctx, c.st, fuel - 1))
            && (!c.out.val.data.BoolV? ==> w.out == Throw(ConditionType, at, ctx))
  {
  }

  // ===================================================================
  // FOR
  // ===================================================================

  /** A visible iterator that is not INTEGER is an error before start, stop or step is evaluated. */
  lemma ForIteratorFirst(p: Prims, at: Tok, iter: Ident, start: Expr, stop: Expr, step: Option<Expr>, body: seq<Stmt>,
                         ctx: ScopeId, st: Store, fuel: nat)
    requires fuel > 1
    requires GetVariable(st, ctx, iter.text, true).Some?
    requires GetVariable(st, ctx, iter.text, true).value in st.vars
    requires st.vars[GetVariable(st, ctx, iter.text, true).value].dtype.tag != INTEGER
    ensures ExecFor(p, at, iter, start, stop, step, body, ctx, st, fuel) == Raise(Runtime(IteratorNotInteger), at, ctx, st)
  {
  }

  /** Without a STEP the step is 1, and the iterator holds the start value when the loop proper begins. */
  lemma ForStepDefault(p: Prims, at: Tok, x: VarId, first: int, stop: int, body: seq<Stmt>, ctx: ScopeId, st: Store,
                       fuel: nat)
    requires fuel > 0
    ensures ForStep(p, at, x, first, stop, None, body, ctx, st, fuel)
         == ForFrom(p, x, stop, 1, body, ctx, WriteValue(st, x, IntV(first)), fuel - 1)
  {
  }

  /** The test before each round: the loop ends normally once the stored iterator is past the stop value. */
  lemma ForTestEnds(p: Prims, x: VarId, stop: int, step: int, body: seq<Stmt>, ctx: ScopeId, st: Store, fuel: nat)
    requires fuel > 0
    requires Read(st, x).Some? && Read(st, x).value.IntV? && !ForContinues(Read(st, x).value.i, stop, step)
    ensures ForFrom(p, x, stop, step, body, ctx, st, fuel) == Give((), st)
  {
  }

  /** A round: BREAK exits, CONTINUE or a completed body advances the iterator, other signals leave. */
  lemma ForRound(p: Prims, x: VarId, stop: int, step: int, body: seq<Stmt>, ctx: ScopeId, st: Store, fuel: nat)
    requires fuel > 0
    requires Read(st, x).Some? && Read(st, x).value.IntV? && ForContinues(Read(st, x).value.i, stop, step)
    ensures var r := RunBlock(p, body, ctx, st, fuel - 1);
            var w := ForFrom(p, x, stop, step, body, ctx, st, fuel);
            && (r.out.Unwind? && r.out.sig.BreakSig? ==> w == Give((), r.st))
            && (r.out.Done? || r.out.sig.ContinueSig? ==> w == ForAdvance(p, x, stop, step, body, ctx, r.st, fuel - 1))
            && (r.out.Unwind? && !r.out.sig.BreakSig? && !r.out.sig.ContinueSig? ==> w == r)
  {
  }

  /** The advance adds the step to the iterator's own storage, as the body left it, and tests again. */
  lemma ForAdvanceAddsStep(p: Prims, x: VarId, stop: int, step: int, body: seq<Stmt>, ctx: ScopeId, st: Store, fuel: nat)
    requires fuel > 0
    requires Read(st, x).Some? && Read(st, x).value.IntV?
    ensures ForAdvance(p, x, stop, step, body, ctx, st, fuel)
         == ForFrom(p, x, stop, step, body, ctx, WriteValue(st, x, IntV(Read(st, x).value.i + step)), fuel - 1)
  {
  }

  /**
   * The number of rounds a FOR loop with a non-zero step makes from the
   * iterator value `cur` when the body leaves the iterator alone.
   */
  function ForRounds(cur: int, stop: int, step: int): nat
    requires step != 0
    decreases if step > 0 then stop - cur else cur - stop
  {
    if !ForContinues(cur, stop, step) then 0 else 1 + ForRounds(cur + step, stop, step)
  }

  lemma ProductNonNegative(a: int, d: int)
    requires a >= 0 && d > 0
    ensures a * d >= 0
  {
  }

  /** Euclidean division by a positive divisor is the one quotient that brackets the dividend. */
  lemma DivUnique(x: int, d: int, q: int)
    requires d > 0 && q * d <= x < (q + 1) * d
    ensures x / d == q
  {
    var q0 := x / d;
    var r0 := x % d;
    assert x == q0 * d + r0 && 0 <= r0 < d;
    if q0 > q {
      assert (q0 - q - 1) * d == q0 * d - (q + 1) * d;
      ProductNonNegative(q0 - q - 1, d);
    } else if q0 < q {
      assert (q - q0 - 1) * d == q * d - (q0 + 1) * d;
      ProductNonNegative(q - q0 - 1, d);
    }
  }

  /** Euclidean division by a positive divisor, one divisor less. */
  lemma DivLessOne(a: int, b: int)
    requires b > 0 && a >= b
    ensures (a - b) / b == a / b - 1
  {
    var q := a / b;
    var r := a % b;
    assert a == q * b + r && 0 <= r < b;
    assert (q - 1) * b == q * b - b;
    DivUnique(a - b, b, q - 1);
  }

  /** One more round is one more step: `(k + 1) * step` splits off a step. */
  lemma StepsSplit(cur: int, step: int, k: int)
    ensures cur + (k + 1) * step == (cur + step) + k * step
  {
    assert (k + 1) * step == k * step + step;
  }

  /** By a positive step, floor((stop - cur) / step) + 1 rounds, none when `cur` is past `stop`. */
  lemma {:induction false} ForRoundsUp(cur: int, stop: int, step: int)
    requires step > 0
    ensures ForRounds(cur, stop, step) == if cur > stop then 0 else (stop - cur) / step + 1
    decreases stop - cur
  {
    if cur <= stop {
      ForRoundsUp(cur + step, stop, step);
      if cur + step <= stop {
        DivLessOne(stop - cur, step);
      } else {
        DivUnique(stop - cur, step, 0);
      }
    }
  }

  /** By a negative step, floor((cur - stop) / -step) + 1 rounds, none when `cur` is below `stop`. */
  lemma {:induction false} ForRoundsDown(cur: int, stop: int, step: int)
    requires step < 0
    ensures ForRounds(cur, stop, step) == if cur < stop then 0 else (cur - stop) / (-step) + 1
    decreases cur - stop
  {
    if cur >= stop {
      ForRoundsDown(cur + step, stop, step);
      if cur + step >= stop {
        DivLessOne(cur - stop, -step);
      } else {
        DivUnique(cur - stop, -step, 0);
      }
    }
  }

  /** The value after the last round is the first past `stop`; the value of the last round is not past it. */
  lemma {:induction false} ForRoundsLast(cur: int, stop: int, step: int)
    requires step != 0
    ensures !ForContinues(cur + ForRounds(cur, stop, step) * step, stop, step)
    ensures ForRounds(cur, stop, step) > 0 ==> ForContinues(cur + (ForRounds(cur, stop, step) - 1) * step, stop, step)
    decreases if step > 0 then stop - cur else cur - stop
  {
    if ForContinues(cur, stop, step) {
      ForRoundsLast(cur + step, stop, step);
      var k := ForRounds(cur + step, stop, step);
      StepsSplit(cur, step, k);
      if k > 0 {
        StepsSplit(cur, step, k - 1);
      }
    }
  }

  /**
   * A loop from `cur` to `stop` by a positive step makes
   * floor((stop - cur) / step) + 1 rounds, none when `cur` is past `stop`,
   * and symmetrically for a negative step. The value after the last round
   * is the first one past `stop`, and the value of the last round is not.
   */
  lemma ForRoundsCount(cur: int, stop: int, step: int)
    requires step != 0
    ensures step > 0 ==> ForRounds(cur, stop, step) == if cur > stop then 0 else (stop - cur) / step + 1
    ensures step < 0 ==> ForRounds(cur, stop, step) == if cur < stop then 0 else (cur - stop) / (-step) + 1
    ensures !ForContinues(cur + ForRounds(cur, stop, step) * step, stop, step)
    ensures ForRounds(cur, stop, step) > 0 ==> ForContinues(cur + (ForRounds(cur, stop, step) - 1) * step, stop, step)
  {
    if step > 0 {
      ForRoundsUp(cur, stop, step);
    } else {
      ForRoundsDown(cur, stop, step);
    }
    ForRoundsLast(cur, stop, step);
  }

  /**
   * The body completes from every store that holds an Integer in `x`,
   * given at least `need` fuel, and leaves `x` holding what it held.
   */
  ghost predicate BodyKeepsIterator(p: Prims, body: seq<Stmt>, ctx: ScopeId, x: VarId, need: nat)
  {
    forall s: Store, f: nat {:trigger RunBlock(p, body, ctx, s, f)} ::
      f >= need && Read(s, x).Some? && Read(s, x).value.IntV? ==>
        RunBlock(p, body, ctx, s, f).out.Done? && Read(RunBlock(p, body, ctx, s, f).st, x) == Read(s, x)
  }

  /** An empty body keeps the iterator once it has two units of fuel. */
  lemma EmptyBodyKeepsIterator(p: Prims, ctx: ScopeId, x: VarId)
    ensures BodyKeepsIterator(p, [], ctx, x, 2)
  {
  }

  /** One round of a FOR loop whose body keeps the iterator `c`: the body, then the step, then the next test. */
  lemma ForOneRound(p: Prims, x: VarId, stop: int, step: int, body: seq<Stmt>, ctx: ScopeId, st: Store, fuel: nat,
                    need: nat, c: int)
    requires BodyKeepsIterator(p, body, ctx, x, need)
    requires Read(st, x) == Some(IntV(c)) && ForContinues(c, stop, step) && fuel >= need + 2
    ensures var st2 := WriteValue(RunBlock(p, body, ctx, st, fuel - 1).st, x, IntV(c + step));
            Read(st2, x) == Some(IntV(c + step))
            && ForFrom(p, x, stop, step, body, ctx, st, fuel) == ForFrom(p, x, stop, step, body, ctx, st2, fuel - 2)
  {
    var r := RunBlock(p, body, ctx, st, fuel - 1);
    assert r.out.Done? && Read(r.st, x) == Some(IntV(c));
    WriteSharedByAliases(r.st, x, x, IntV(c + step));
  }

  /** The fuel for `k` rounds covers this round and the remaining `k - 1`. */
  lemma RoundFuel(k: nat, need: nat, fuel: nat)
    requires k > 0 && fuel > k * (need + 2)
    ensures fuel >= need + 2 && fuel - 2 > (k - 1) * (need + 2)
  {
    assert k * (need + 2) == (k - 1) * (need + 2) + need + 2;
  }

  /** The FOR loop from `st` completes, with the iterator holding the Integer `v`. */
  ghost predicate ForEndsWith(p: Prims, x: VarId, stop: int, step: int, body: seq<Stmt>, ctx: ScopeId, st: Store,
                              fuel: nat, v: int)
  {
    var w := ForFrom(p, x, stop, step, body, ctx, st, fuel);
    w.out.Done? && Read(w.st, x) == Some(IntV(v))
  }

  /**
   * A FOR loop whose body completes and leaves the iterator alone makes
   * exactly `ForRounds` rounds and completes with the iterator holding the
   * start value plus that many steps, given enough fuel.
   */
  lemma {:induction false} ForRunsRounds(p: Prims, x: VarId, stop: int, step: int, body: seq<Stmt>, ctx: ScopeId,
                                         st: Store, fuel: nat, need: nat)
    requires step != 0 && BodyKeepsIterator(p, body, ctx, x, need)
    requires Read(st, x).Some? && Read(st, x).value.IntV?
    requires fuel > ForRounds(Read(st, x).value.i, stop, step) * (need + 2)
    ensures var c := Read(st, x).value.i;
            ForEndsWith(p, x, stop, step, body, ctx, st, fuel, c + ForRounds(c, stop, step) * step)
    decreases fuel
  {
    var c := Read(st, x).value.i;
    if ForContinues(c, stop, step) {
      var k := ForRounds(c, stop, step);
      RoundFuel(k, need, fuel);
      ForOneRound(p, x, stop, step, body, ctx, st, fuel, need, c);
      var st2 := WriteValue(RunBlock(p, body, ctx, st, fuel - 1).st, x, IntV(c + step));
      assert ForRounds(c + step, stop, step) == k - 1;
      StepsSplit(c, step, k - 1);
      ForRunsRounds(p, x, stop, step, body, ctx, st2, fuel - 2, need);
    }
  }

  // ===================================================================
  // IF and CASE
  // ===================================================================

  /** An ELSE arm always runs its block and ends the statement. */
  lemma IfElseRuns(p: Prims, at: Tok, arms: seq<IfArm>, i: nat, ctx: ScopeId, st: Store, fuel: nat)
    requires fuel > 0 && i < |arms| && arms[i].cond.None?
    ensures IfArms(p, at, arms, i, ctx, st, fuel) == RunBlock(p, arms[i].body, ctx, st, fuel - 1)
  {
  }

  /**
   * A condition is evaluated and, if TRUE, its block runs and no later
   * condition is evaluated; if FALSE the next arm is tried; otherwise it is
   * a condition type error.
   */
  lemma IfCondition(p: Prims, at: Tok, arms: seq<IfArm>, i: nat, ctx: ScopeId, st: Store, fuel: nat)
    requires fuel > 0 && i < |arms| && arms[i].cond.Some?
    requires Eval(p, arms[i].cond.value, ctx, st, fuel - 1).out.Done?
    ensures var c := Eval(p, arms[i].cond.value, ctx, st, fuel - 1);
            var w := IfArms(p, at, arms, i, ctx, st, fuel);
            && (c.out.val.data == BoolV(true) ==> w == RunBlock(p, arms[i].body, ctx, c.st, fuel - 1))
            && (c.out.val.data == BoolV(false) ==> w == IfArms(p, at, arms, i + 1, ctx, c.st, fuel - 1))
            && (!c.out.val.data.BoolV? ==> w.out == Throw(ConditionType, at, ctx))
  {
  }

  /** With no arm left, nothing runs and nothing changes. */
  lemma IfNoArmLeft(p: Prims, at: Tok, arms: seq<IfArm>, i: nat, ctx: ScopeId, st: Store, fuel: nat)
    requires fuel > 0 && i >= |arms|
    ensures IfArms(p, at, arms, i, ctx, st, fuel) == Give((), st)
  {
  }

  /** CASE tries the arms in order: the first matching arm runs its block and later arms are not evaluated. */
  lemma CaseFirstMatch(p: Prims, v: NodeResult, arms: seq<CaseArm>, i: nat, ctx: ScopeId, st: Store, fuel: nat)
    requires fuel > 0 && i < |arms|
    requires MatchArm(p, v, arms[i], ctx, st, fuel - 1).out.Done?
    ensures var m := MatchArm(p, v, arms[i], ctx, st, fuel - 1);
            var w := CaseArms(p, v, arms, i, ctx, st, fuel);
            && (m.out.val ==> w == RunBlock(p, arms[i].body, ctx, m.st, fuel - 1))
            && (!m.out.val ==> w == CaseArms(p, v, arms, i + 1, ctx, m.st, fuel - 1))
  {
  }

  /** With no arm left, nothing runs and nothing changes. */
  lemma CaseNoArmLeft(p: Prims, v: NodeResult, arms: seq<CaseArm>, i: nat, ctx: ScopeId, st: Store, fuel: nat)
    requires fuel > 0 && i >= |arms|
    ensures CaseArms(p, v, arms, i, ctx, st, fuel) == Give((), st)
  {
  }

  /** The scrutinee is evaluated once, before any arm. */
  lemma CaseScrutineeOnce(p: Prims, scrutinee: Expr, arms: seq<CaseArm>, ctx: ScopeId, st: Store, fuel: nat)
    requires fuel > 0
    requires Eval(p, scrutinee, ctx, st, fuel - 1).out.Done?
    ensures var v := Eval(p, scrutinee, ctx, st, fuel - 1);
            ExecCase(p, scrutinee, arms, ctx, st, fuel) == CaseArms(p, v.out.val, arms, 0, ctx, v.st, fuel - 1)
  {
  }

  /** OTHERWISE matches without evaluating anything. */
  lemma OtherwiseMatches(p: Prims, v: NodeResult, body: seq<Stmt>, ctx: ScopeId, st: Store, fuel: nat)
    requires fuel > 0
    ensures MatchArm(p, v, OtherwiseArm(body), ctx, st, fuel) == Give(true, st)
  {
  }

  /** A range arm with a scrutinee that is not a number fails without evaluating its bounds. */
  lemma RangeNonNumeric(p: Prims, v: NodeResult, lower: Expr, upper: Expr, body: seq<Stmt>, ctx: ScopeId, st: Store,
                        fuel: nat)
    requires fuel > 0 && AsReal(p, v.data).None?
    ensures MatchArm(p, v, RangeArm(lower, upper, body), ctx, st, fuel) == Give(false, st)
  {
  }

  /** The lower bound is evaluated first and must be a number; then the upper; the test is inclusive on both ends. */
  lemma RangeBounds(p: Prims, v: NodeResult, lower: Expr, upper: Expr, body: seq<Stmt>, ctx: ScopeId, st: Store,
                    fuel: nat)
    requires fuel > 0 && AsReal(p, v.data).Some?
    requires Eval(p, lower, ctx, st, fuel - 1).out.Done?
    ensures var lo := Eval(p, lower, ctx, st, fuel - 1);
            var m := MatchArm(p, v, RangeArm(lower, upper, body), ctx, st, fuel);
            && (AsReal(p, lo.out.val.data).None? ==> m.out == Throw(Runtime(LowerBoundType), lower.at, ctx))
            && (AsReal(p, lo.out.val.data).Some? && Eval(p, upper, ctx, lo.st, fuel - 1).out.Done? ==>
                  var hi := Eval(p, upper, ctx, lo.st, fuel - 1);
                  && (AsReal(p, hi.out.val.data).None? ==> m.out == Throw(Runtime(UpperBoundType), upper.at, ctx))
                  && (AsReal(p, hi.out.val.data).Some? ==>
                        m == Give(AsReal(p, lo.out.val.data).value <= AsReal(p, v.data).value <= AsReal(p, hi.out.val.data).value,
                                  hi.st)))
  {
  }

  /** An equals arm evaluates its value and matches by CASE equality. */
  lemma EqualsArmMatch(p: Prims, v: NodeResult, value: Expr, body: seq<Stmt>, ctx: ScopeId, st: Store, fuel: nat)
    requires fuel > 0
    requires Eval(p, value, ctx, st, fuel - 1).out.Done?
    ensures var c := Eval(p, value, ctx, st, fuel - 1);
            MatchArm(p, v, EqualsArm(value, body), ctx, st, fuel) == Give(CaseEquals(p, v, c.out.val), c.st)
  {
  }
}
