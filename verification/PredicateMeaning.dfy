/**
  What the rewritten selections decide. The inserted instructions are run by an evaluator for one
  lane; every redirected branch then tests whether both lane coordinates are multiples of the step
  of its selection, at every level of the pass and however the masks were obtained.
*/
module PredicateMeaning {
  import opened BitMasks
  import opened Options
  import opened SpirvStream
  import opened PredicateRewrite
  import opened PredicateTheorems

  datatype Value = Vec(x: Word, y: Word, z: Word) | UInt(word: Word) | Bool(truth: bool)

  type Env = map<Word, Value>

  /** The value of an operation on two operands. */
  function Binary(op: nat, resultType: Word, a: Value, b: Value): Option<Value> {
    if a.UInt? && b.UInt? then
      if op == OP_U_MOD && resultType == TYPE_UINT && b.word != 0 then Some(UInt(a.word % b.word))
      else if op == OP_BITWISE_AND && resultType == TYPE_UINT then Some(UInt(And(a.word, b.word)))
      else if op == OP_BITWISE_OR && resultType == TYPE_UINT then Some(UInt(WordOr(a.word, b.word)))
      else if op == OP_I_EQUAL && resultType == TYPE_BOOL then Some(Bool(a == b))
      else None
    else if a.Bool? && b.Bool? && op == OP_LOGICAL_AND && resultType == TYPE_BOOL then
      Some(Bool(a.truth && b.truth))
    else None
  }

  /** The value an operation computes from its result type, result id and operands. */
  function Compute(op: nat, args: seq<Word>, env: Env, lane: Value): Option<Value> {
    if |args| == 3 && op == OP_CONSTANT && args[0] == TYPE_UINT then Some(UInt(args[2]))
    else if |args| == 3 && op == OP_LOAD && args[0] == TYPE_V3_UINT && args[2] == LOCAL_INVOCATION_ID then
      Some(lane)
    else if |args| != 4 || args[2] !in env then None
    else if op == OP_COMPOSITE_EXTRACT then
      if !env[args[2]].Vec? || args[0] != TYPE_UINT then None
      else if args[3] == 0 then Some(UInt(env[args[2]].x))
      else if args[3] == 1 then Some(UInt(env[args[2]].y))
      else if args[3] == 2 then Some(UInt(env[args[2]].z))
      else None
    else if args[3] !in env then None
    else Binary(op, args[0], env[args[2]], env[args[3]])
  }

  /** Run a block of inserted instructions. */
  function Exec(code: seq<Instr>, env: Env, lane: Value): Option<Env> {
    if code == [] then Some(env)
    else if !Inserted(code[0]) then None
    else
      match Compute(Op(code[0]), code[0][1..], env, lane)
      case None => None
      case Some(v) => Exec(code[1..], env[code[0][2] := v], lane)
  }

  /**
    The conditions read by the redirected branches, in stream order. Instructions of the original
    body are passed over: they define and read only ids below the old bound.
  */
  function Conditions(code: seq<Instr>, env: Env, lane: Value): Option<seq<bool>> {
    if code == [] then Some([])
    else if Inserted(code[0]) then
      match Compute(Op(code[0]), code[0][1..], env, lane)
      case None => None
      case Some(v) => Conditions(code[1..], env[code[0][2] := v], lane)
    else if Redirected(code[0]) then
      if code[0][1] in env && env[code[0][1]].Bool? then
        match Conditions(code[1..], env, lane)
        case None => None
        case Some(rest) => Some([env[code[0][1]].truth] + rest)
      else None
    else Conditions(code[1..], env, lane)
  }

  lemma {:induction false} ConditionsAfter(a: seq<Instr>, b: seq<Instr>, env: Env, lane: Value)
    requires Exec(a, env, lane).Some?
    ensures Conditions(a + b, env, lane) == Conditions(b, Exec(a, env, lane).value, lane)
  {
    if a == [] {
      assert a + b == b;
    } else {
      assert (a + b)[1..] == a[1..] + b && (a + b)[0] == a[0];
      var v := Compute(Op(a[0]), a[0][1..], env, lane).value;
      ConditionsAfter(a[1..], b, env[a[0][2] := v], lane);
    }
  }

  lemma {:induction false} ExecAppend(a: seq<Instr>, b: seq<Instr>, env: Env, lane: Value)
    requires Exec(a, env, lane).Some?
    ensures Exec(a + b, env, lane) == Exec(b, Exec(a, env, lane).value, lane)
  {
    if a == [] {
      assert a + b == b;
    } else {
      assert (a + b)[1..] == a[1..] + b && (a + b)[0] == a[0];
      var v := Compute(Op(a[0]), a[0][1..], env, lane).value;
      ExecAppend(a[1..], b, env[a[0][2] := v], lane);
    }
  }

  predicate Keeps(env: Env, after: Env, below: nat) {
    forall id :: id in env && id < below ==> id in after && after[id] == env[id]
  }

  lemma {:induction false} ExecKeepsOld(code: seq<Instr>, env: Env, lane: Value)
    requires Exec(code, env, lane).Some?
    ensures Keeps(env, Exec(code, env, lane).value, OLD_BOUND)
  {
    if code != [] {
      var v := Compute(Op(code[0]), code[0][1..], env, lane).value;
      ExecKeepsOld(code[1..], env[code[0][2] := v], lane);
    }
  }

  lemma ExecEmit(code: seq<Instr>, k: nat, op: nat, args: seq<Word>, env: Env, lane: Value, v: Value)
    requires op in {OP_LOAD, OP_COMPOSITE_EXTRACT, OP_U_MOD, OP_LOGICAL_AND, OP_I_EQUAL,
                    OP_BITWISE_OR, OP_BITWISE_AND, OP_CONSTANT}
    requires 3 <= |args| <= 4 && args[1] >= OLD_BOUND && Compute(op, args, env, lane) == Some(v)
    requires k < |code| && code[k] == Emit(op, args)
    ensures Exec(code[k..], env, lane) == Exec(code[k + 1..], env[args[1] := v], lane)
  {
    hide Compute;
    var i := code[k];
    assert i[1..] == args;
    assert i[2] == i[1..][1];
    assert code[k..][1..] == code[k + 1..];
    assert Inserted(code[k..][0]);
  }

  lemma ExecBinary(code: seq<Instr>, k: nat, op: nat, args: seq<Word>, env: Env, lane: Value, v: Value)
    requires op in {OP_U_MOD, OP_LOGICAL_AND, OP_I_EQUAL, OP_BITWISE_OR, OP_BITWISE_AND}
    requires |args| == 4 && args[1] >= OLD_BOUND && args[2] in env && args[3] in env
    requires Binary(op, args[0], env[args[2]], env[args[3]]) == Some(v)
    requires k < |code| && code[k] == Emit(op, args)
    ensures Exec(code[k..], env, lane) == Exec(code[k + 1..], env[args[1] := v], lane)
  {
    hide Binary, Exec, Emit;
    ExecEmit(code, k, op, args, env, lane, v);
  }

  lemma ExecEnd(code: seq<Instr>, env: Env, lane: Value)
    ensures Exec(code[|code|..], env, lane) == Some(env)
  {
  }

  /** What one coordinate's test leaves of it: the remainder, or the masked bits. */
  function Left(op: nat, coordinate: Word, rhs: Word): Word
    requires op == OP_U_MOD ==> rhs != 0
  {
    if op == OP_U_MOD then coordinate % rhs else And(coordinate, rhs)
  }

  lemma SeparateComputes(op: nat, rhs: Word, n: Word, env: Env, lane: Value, r: Word, z: Word)
    requires op in {OP_U_MOD, OP_BITWISE_AND} && (op == OP_U_MOD ==> r != 0)
    requires OLD_BOUND <= n && n + 8 < 0x1_0000_0000 && rhs < n && lane.Vec?
    requires rhs in env && env[rhs] == UInt(r) && ZERO in env && env[ZERO] == UInt(z)
    ensures var after := Exec(SeparateTests(op, rhs, n), env, lane);
            && after.Some? && Keeps(env, after.value, n)
            && n + 7 in after.value
            && after.value[n + 7] == Bool(Left(op, lane.x, r) == z && Left(op, lane.y, r) == z)
  {
    hide Exec, Emit, Left;
    var c := SeparateTests(op, rhs, n);
    var e1 := env[n := lane];
    var e2 := e1[n + 1 := UInt(lane.x)];
    var e3 := e2[n + 2 := UInt(lane.y)];
    ExecEmit(c, 0, OP_LOAD, [TYPE_V3_UINT, n, LOCAL_INVOCATION_ID], env, lane, lane);
    ExecEmit(c, 1, OP_COMPOSITE_EXTRACT, [TYPE_UINT, n + 1, n, 0], e1, lane, UInt(lane.x));
    ExecEmit(c, 2, OP_COMPOSITE_EXTRACT, [TYPE_UINT, n + 2, n, 1], e2, lane, UInt(lane.y));
    assert e3[rhs] == UInt(r) && e3[n + 1] == UInt(lane.x) && e3[n + 2] == UInt(lane.y);
    TestsCompute(op, rhs, n, e3, lane, r, z);
    assert c[0..] == c;
  }

  lemma TestsCompute(op: nat, rhs: Word, n: Word, env: Env, lane: Value, r: Word, z: Word)
    requires op in {OP_U_MOD, OP_BITWISE_AND} && (op == OP_U_MOD ==> r != 0)
    requires OLD_BOUND <= n && n + 8 < 0x1_0000_0000 && rhs < n && lane.Vec?
    requires rhs in env && env[rhs] == UInt(r) && ZERO in env && env[ZERO] == UInt(z)
    requires n + 1 in env && env[n + 1] == UInt(lane.x) && n + 2 in env && env[n + 2] == UInt(lane.y)
    ensures var after := Exec(SeparateTests(op, rhs, n)[3..], env, lane);
            && after.Some? && Keeps(env, after.value, n)
            && n + 7 in after.value
            && after.value[n + 7] == Bool(Left(op, lane.x, r) == z && Left(op, lane.y, r) == z)
  {
    hide Exec, Emit, And, Compute;
    var c := SeparateTests(op, rhs, n);
    var a, b := Left(op, lane.x, r), Left(op, lane.y, r);
    var e4 := env[n + 3 := UInt(a)];
    var e5 := e4[n + 4 := UInt(b)];
    ExecBinary(c, 3, op, [TYPE_UINT, n + 3, n + 1, rhs], env, lane, UInt(a));
    ExecBinary(c, 4, op, [TYPE_UINT, n + 4, n + 2, rhs], e4, lane, UInt(b));
    EqualitiesCompute(op, rhs, n, e5, lane, a, b, z);
  }

  lemma EqualitiesCompute(op: nat, rhs: Word, n: Word, env: Env, lane: Value, a: Word, b: Word, z: Word)
    requires op < 0x1_0000 && OLD_BOUND <= n && n + 8 < 0x1_0000_0000
    requires ZERO in env && env[ZERO] == UInt(z)
    requires n + 3 in env && env[n + 3] == UInt(a) && n + 4 in env && env[n + 4] == UInt(b)
    ensures var after := Exec(SeparateTests(op, rhs, n)[5..], env, lane);
            && after.Some? && Keeps(env, after.value, n)
            && n + 7 in after.value && after.value[n + 7] == Bool(a == z && b == z)
  {
    hide Exec, Emit, And, Or, WordOr, Compute;
    var c := SeparateTests(op, rhs, n);
    var e6 := env[n + 5 := Bool(a == z)];
    var e7 := e6[n + 6 := Bool(b == z)];
    var e8 := e7[n + 7 := Bool(a == z && b == z)];
    ExecBinary(c, 5, OP_I_EQUAL, [TYPE_BOOL, n + 5, n + 3, ZERO], env, lane, Bool(a == z));
    ExecBinary(c, 6, OP_I_EQUAL, [TYPE_BOOL, n + 6, n + 4, ZERO], e6, lane, Bool(b == z));
    ExecBinary(c, 7, OP_LOGICAL_AND, [TYPE_BOOL, n + 7, n + 5, n + 6], e7, lane, Bool(a == z && b == z));
    ExecEnd(c, e8, lane);
  }

  lemma CoordinatesCompute(n: Word, env: Env, lane: Value)
    requires OLD_BOUND <= n && n + 4 < 0x1_0000_0000 && lane.Vec?
    ensures var after := Exec(Coordinates(n), env, lane);
            && after.Some? && Keeps(env, after.value, n)
            && n + 3 in after.value && after.value[n + 3] == UInt(WordOr(lane.x, lane.y))
  {
    hide Exec, Emit, Or, WordOr;
    var c := Coordinates(n);
    var e1 := env[n := lane];
    var e2 := e1[n + 1 := UInt(lane.x)];
    var e3 := e2[n + 2 := UInt(lane.y)];
    var xy := UInt(WordOr(lane.x, lane.y));
    ExecEmit(c, 0, OP_LOAD, [TYPE_V3_UINT, n, LOCAL_INVOCATION_ID], env, lane, lane);
    ExecEmit(c, 1, OP_COMPOSITE_EXTRACT, [TYPE_UINT, n + 1, n, 0], e1, lane, UInt(lane.x));
    ExecEmit(c, 2, OP_COMPOSITE_EXTRACT, [TYPE_UINT, n + 2, n, 1], e2, lane, UInt(lane.y));
    ExecEmit(c, 3, OP_BITWISE_OR, [TYPE_UINT, n + 3, n + 1, n + 2], e3, lane, xy);
    ExecEnd(c, e3[n + 3 := xy], lane);
    assert c[0..] == c;
  }

  lemma FusedComputes(union: Word, mask: Word, n: Word, env: Env, lane: Value, u: Word, m: Word, z: Word)
    requires OLD_BOUND <= n && n + 2 < 0x1_0000_0000 && union < n && mask < n
    requires union in env && env[union] == UInt(u) && mask in env && env[mask] == UInt(m)
    requires ZERO in env && env[ZERO] == UInt(z)
    ensures var after := Exec(FusedTest(union, mask, n), env, lane);
            && after.Some? && Keeps(env, after.value, n)
            && n + 1 in after.value && after.value[n + 1] == Bool(And(u, m) == z)
  {
    hide Exec, Emit, And;
    var c := FusedTest(union, mask, n);
    var e1 := env[n := UInt(And(u, m))];
    ExecEmit(c, 0, OP_BITWISE_AND, [TYPE_UINT, n, union, mask], env, lane, UInt(And(u, m)));
    ExecEmit(c, 1, OP_I_EQUAL, [TYPE_BOOL, n + 1, n, ZERO], e1, lane, Bool(And(u, m) == z));
    ExecEnd(c, e1[n + 1 := Bool(And(u, m) == z)], lane);
    assert c[0..] == c;
  }

  // ---- The invariant of the walk ----

  /** Every selection has a constant step to divide by, and a constant to compare with. */
  predicate StepsKnown(table: map<Word, Word>) {
    && ZERO in table
    && forall p :: 0 <= p < PREDICATES ==> STEP_CONSTANTS[p] in table && table[STEP_CONSTANTS[p]] != 0
  }

  /** What selection `p` tests: both remainders by its step, or what its mask keeps of the union. */
  predicate Tested(fused: bool, table: map<Word, Word>, p: nat, lane: Value)
    requires StepsKnown(table) && p < PREDICATES && lane.Vec?
  {
    var step, z := table[STEP_CONSTANTS[p]], table[ZERO];
    if fused then And(WordOr(lane.x, lane.y), step - 1) == z else lane.x % step == z && lane.y % step == z
  }

  /** Both coordinates of the lane are multiples of the step of selection `p`. */
  predicate Aligned(table: map<Word, Word>, p: nat, lane: Value)
    requires StepsKnown(table) && p < PREDICATES && lane.Vec?
  {
    lane.x % table[STEP_CONSTANTS[p]] == 0 && lane.y % table[STEP_CONSTANTS[p]] == 0
  }

  predicate Fuses(plan: Plan) { plan.Masks? && plan.fused }

  predicate FitsTable(plan: Plan, table: map<Word, Word>) {
    plan.Valid() && StepsKnown(table) &&
    (plan.Masks? ==>
       forall p :: 0 <= p < PREDICATES ==> Reducible(table, p) && plan.values[p] == MaskValue(table, p))
  }

  predicate MasksHeld(plan: Plan, env: Env) {
    plan.Valid() && (plan.Masks? ==>
      forall p :: 0 <= p < PREDICATES ==> plan.ids[p] in env && env[plan.ids[p]] == UInt(plan.values[p]))
  }

  predicate TableHeld(table: map<Word, Word>, env: Env) {
    forall id :: id in table ==> id < OLD_BOUND && id in env && env[id] == UInt(table[id])
  }

  predicate WalkHolds(fused: bool, st: State, env: Env, table: map<Word, Word>, lane: Value)
    requires st.Valid() && StepsKnown(table) && lane.Vec?
  {
    && TableHeld(table, env)
    && (st.shared.Some? ==>
          st.shared.value in env && env[st.shared.value] == UInt(WordOr(lane.x, lane.y)))
    && (st.pending.Some? ==>
          st.pending.value in env && env[st.pending.value] == Bool(Tested(fused, table, st.index, lane)))
  }

  /** One selection's code leaves its alignment in the id its branch will test. */
  lemma PredicateComputes(plan: Plan, st: State, env: Env, table: map<Word, Word>, lane: Value)
    requires Ready(plan, st) && st.pending.None? && st.index < PREDICATES && lane.Vec?
    requires FitsTable(plan, table) && MasksHeld(plan, env) && WalkHolds(Fuses(plan), st, env, table, lane)
    ensures var after := Exec(Predicate(plan, st).0, env, lane);
            && after.Some? && MasksHeld(plan, after.value)
            && WalkHolds(Fuses(plan), Predicate(plan, st).1, after.value, table, lane)
  {
    hide Exec, SeparateTests, FusedTest, Coordinates, And, Or, WordOr, PassesPowerTest, Compute;
    var p := st.index;
    var step, z := table[STEP_CONSTANTS[p]], table[ZERO];
    assert env[STEP_CONSTANTS[p]] == UInt(step) && env[ZERO] == UInt(z);
    if plan.Masks? {
      var m := plan.values[p];
      assert Reducible(table, p) && env[plan.ids[p]] == UInt(m);
      FusedMask(lane.x, lane.y, step);
      if plan.fused {
        var n := if st.shared.Some? then st.nextId else st.nextId + 4;
        var union := if st.shared.Some? then st.shared.value else st.nextId + 3;
        var test := FusedTest(union, plan.ids[p], n);
        if st.shared.None? {
          CoordinatesCompute(st.nextId, env, lane);
          var mid := Exec(Coordinates(st.nextId), env, lane).value;
          FusedComputes(union, plan.ids[p], n, mid, lane, WordOr(lane.x, lane.y), m, z);
          ExecAppend(Coordinates(st.nextId), test, env, lane);
        } else {
          FusedComputes(union, plan.ids[p], n, env, lane, WordOr(lane.x, lane.y), m, z);
          assert [] + test == test;
        }
      } else {
        SeparateComputes(OP_BITWISE_AND, plan.ids[p], st.nextId, env, lane, m, z);
      }
    } else {
      SeparateComputes(OP_U_MOD, STEP_CONSTANTS[p], st.nextId, env, lane, step, z);
    }
  }

  // ---- Masks, found, shared or declared ----

  predicate PlanConsistent(table: map<Word, Word>, values: seq<Word>, ids: seq<Word>)
    requires |ids| <= |values|
  {
    && (forall p :: 0 <= p < |ids| && ids[p] < OLD_BOUND ==> ids[p] in table && table[ids[p]] == values[p])
    && (forall p, q :: 0 <= p < |ids| && 0 <= q < |ids| && ids[p] == ids[q] ==> values[p] == values[q])
  }

  /** A mask added to a plan is a constant that was found, is shared, or is new. */
  lemma PlanExtends(table: map<Word, Word>, values: seq<Word>, ids: seq<Word>, id: Word)
    requires |ids| < |values| && PlanConsistent(table, values, ids)
    requires id < OLD_BOUND ==> id in table && table[id] == values[|ids|]
    requires id >= OLD_BOUND ==> id !in ids || exists q :: 0 <= q < |ids| && ids[q] == id && values[q] == values[|ids|]
    ensures PlanConsistent(table, values, ids + [id])
  {
  }

  lemma {:induction false} PlanIsConsistent(table: map<Word, Word>, values: seq<Word>, n: nat)
    requires n <= PREDICATES == |values|
    ensures PlanConsistent(table, values, PlanMasks(table, values, n).ids)
  {
    hide FirstHolding, SharedMask, PlanConsistent;
    if n == 0 {
      NothingPlanned(table, values);
    } else {
      PlanIsConsistent(table, values, n - 1);
      var plan := PlanMasks(table, values, n - 1);
      var found := FirstHolding(table, values[n - 1], 1);
      var shared := SharedMask(values, plan.ids, values[n - 1], 0);
      PlanExtends(table, values, plan.ids, if found != 0 then found else if shared != 0 then shared else plan.nextId);
    }
  }

  lemma NothingPlanned(table: map<Word, Word>, values: seq<Word>)
    ensures PlanConsistent(table, values, [])
  {
  }

  lemma {:induction false} MasksCompute(ids: seq<Word>, values: seq<Word>, n: nat, env: Env, lane: Value)
    requires n <= |ids| == |values|
    requires forall p, q :: 0 <= p < |ids| && 0 <= q < |ids| && ids[p] == ids[q] ==> values[p] == values[q]
    ensures var after := Exec(MaskConstants(ids, values, n), env, lane);
            && after.Some?
            && forall p :: 0 <= p < n && ids[p] >= OLD_BOUND ==>
                             ids[p] in after.value && after.value[ids[p]] == UInt(values[p])
  {
    hide Emit, Exec, Compute;
    var code := MaskConstants(ids, values, n);
    if n == 0 {
      ExecEnd(code, env, lane);
      assert code[|code|..] == code;
    } else {
      MasksCompute(ids, values, n - 1, env, lane);
      if ids[n - 1] < OLD_BOUND {
      } else if ids[n - 1] in ids[..n - 1] {
        var q :| 0 <= q < n - 1 && ids[..n - 1][q] == ids[n - 1];
        assert ids[q] == ids[n - 1];
      } else {
        var before := MaskConstants(ids, values, n - 1);
        var last := [Emit(OP_CONSTANT, [TYPE_UINT, ids[n - 1], values[n - 1]])];
        var mid := Exec(before, env, lane).value;
        DeclarationComputes(ids[n - 1], values[n - 1], mid, lane);
        ExecAppend(before, last, env, lane);
        assert forall p :: 0 <= p < n - 1 ==> ids[p] == ids[..n - 1][p];
      }
    }
  }

  lemma DeclarationComputes(id: Word, value: Word, env: Env, lane: Value)
    requires id >= OLD_BOUND
    ensures Exec([Emit(OP_CONSTANT, [TYPE_UINT, id, value])], env, lane) == Some(env[id := UInt(value)])
  {
    hide Exec, Emit;
    var code := [Emit(OP_CONSTANT, [TYPE_UINT, id, value])];
    ExecEmit(code, 0, OP_CONSTANT, [TYPE_UINT, id, value], env, lane, UInt(value));
    ExecEnd(code, env[id := UInt(value)], lane);
    assert code[0..] == code;
  }

  // ---- The whole walk ----

  function AllTested(fused: bool, table: map<Word, Word>, from: nat, to: nat, lane: Value): (tests: seq<bool>)
    requires StepsKnown(table) && from <= to <= PREDICATES && lane.Vec?
    ensures |tests| == to - from
    ensures forall p :: from <= p < to ==> tests[p - from] == Tested(fused, table, p, lane)
    decreases PREDICATES - from
  {
    if from == to then []
    else [Tested(fused, table, from, lane)] + AllTested(fused, table, from + 1, to, lane)
  }

  lemma ImageConditions(st: State, i: Instr, rest: seq<Instr>, env: Env, lane: Value)
    requires st.Valid() && WellSized(i) && BelowBound(i) && Accepts(st, i) && lane.Vec?
    requires st.pending.Some? ==> st.pending.value in env && env[st.pending.value].Bool?
    requires Conditions(rest, env, lane).Some?
    ensures Conditions([Image(st, i)] + rest, env, lane)
            == Some(if st.pending.Some? then [env[st.pending.value].truth] + Conditions(rest, env, lane).value
                    else Conditions(rest, env, lane).value)
  {
    hide Compute;
    var image := Image(st, i);
    assert ([image] + rest)[1..] == rest;
    if st.pending.Some? {
      assert Op(image) == Op(i) == OP_BRANCH_CONDITIONAL;
    } else {
      var condition := if |i| == 4 then i[1] else 0;
      assert |i| == 4 && Op(i) == OP_BRANCH_CONDITIONAL ==> condition in Uses(i);
    }
  }

  lemma BeforeComputes(plan: Plan, st: State, i: Instr, env: Env, table: map<Word, Word>, lane: Value)
    requires Ready(plan, st) && |i| > 0 && Accepts(st, i) && lane.Vec?
    requires FitsTable(plan, table) && MasksHeld(plan, env) && WalkHolds(Fuses(plan), st, env, table, lane)
    ensures var after := Exec(Before(plan, st, i), env, lane);
            && after.Some? && MasksHeld(plan, after.value) && Ready(plan, Next(plan, st, i))
            && (st.pending.Some? ==> after.value == env)
            && WalkHolds(Fuses(plan), Next(plan, st, i), after.value, table, lane)
  {
    hide Exec, Predicate, MaskConstants, MasksHeld, WordOr;
    BeforeIsSequential(plan, st, i);
    if OpensSelection(st, i) {
      PredicateComputes(plan, st, env, table, lane);
    } else {
      ExecEnd([], env, lane);
      NothingRuns(env, lane);
    }
  }

  lemma NothingRuns(env: Env, lane: Value)
    ensures Exec([], env, lane) == Some(env)
  {
  }

  /** From any point of the walk on, the branches make the tests of the selections still to come. */
  lemma {:induction false} RewriteMeans(plan: Plan, st: State, code: seq<Instr>, env: Env,
                                        table: map<Word, Word>, lane: Value)
    requires Ready(plan, st) && AllWellSized(code) && AllBelowBound(code) && lane.Vec?
    requires FitsTable(plan, table) && MasksHeld(plan, env) && WalkHolds(Fuses(plan), st, env, table, lane)
    requires Rewrite(plan, st, code).Some? && Rewrite(plan, st, code).value.1.pending.None?
    ensures var (out, last) := Rewrite(plan, st, code).value;
            && st.index <= last.index
            && Conditions(out, env, lane) == Some(AllTested(Fuses(plan), table, st.index, last.index, lane))
    decreases |code|
  {
    hide Before, Next, Image, Accepts, BelowBound, Exec, Ready, FitsTable, MasksHeld, Conditions, WalkHolds;
    if code == [] {
      NoConditions(env, lane);
    } else {
      var i := code[0];
      assert WellSized(i) && BelowBound(i);
      StaysValid(plan, st, table);
      var next := Next(plan, st, i);
      var (rest, last) := Rewrite(plan, next, code[1..]).value;
      var before, image := Before(plan, st, i), Image(st, i);
      BeforeComputes(plan, st, i, env, table, lane);
      var after := Exec(before, env, lane).value;
      RewriteMeans(plan, next, code[1..], after, table, lane);
      PendingHolds(plan, st, env, table, lane);
      ImageConditions(st, i, rest, after, lane);
      ConditionsAfter(before, [image] + rest, env, lane);
      assert before + [image] + rest == before + ([image] + rest);
    }
  }

  lemma StaysValid(plan: Plan, st: State, table: map<Word, Word>)
    requires Ready(plan, st) && FitsTable(plan, table)
    ensures plan.Valid() && st.Valid() && StepsKnown(table)
  {
  }

  lemma NoConditions(env: Env, lane: Value)
    ensures Conditions([], env, lane) == Some([])
  {
  }

  lemma PendingHolds(plan: Plan, st: State, env: Env, table: map<Word, Word>, lane: Value)
    requires st.Valid() && StepsKnown(table) && lane.Vec? && WalkHolds(Fuses(plan), st, env, table, lane)
    ensures st.pending.Some? ==>
              st.pending.value in env && env[st.pending.value] == Bool(Tested(Fuses(plan), table, st.index, lane))
  {
  }

  lemma MasksAreHeld(plan: Plan, env: Env, table: map<Word, Word>, lane: Value)
    requires plan.Masks? && plan.Valid() && FitsTable(plan, table) && TableHeld(table, env)
    requires PlanConsistent(table, plan.values, plan.ids)
    ensures var after := Exec(MaskConstants(plan.ids, plan.values, PREDICATES), env, lane);
            after.Some? && MasksHeld(plan, after.value) && TableHeld(table, after.value)
  {
    hide MaskConstants, Exec, PassesPowerTest, Reducible;
    MasksCompute(plan.ids, plan.values, PREDICATES, env, lane);
    ExecKeepsOld(MaskConstants(plan.ids, plan.values, PREDICATES), env, lane);
  }

  /** The same from the start of a walk that has masks to declare. */
  lemma {:induction false} PrologueMeans(plan: Plan, st: State, code: seq<Instr>, env: Env,
                                         table: map<Word, Word>, lane: Value)
    requires plan.Valid() && st.Valid() && AllWellSized(code) && AllBelowBound(code)
    requires FunctionFirst(code) && st.pending.None? && st.shared.None? && st.index == 0 && lane.Vec?
    requires plan.Masks? && !st.masksInserted && Ready(plan, st.(masksInserted := true))
    requires FitsTable(plan, table) && TableHeld(table, env) && PlanConsistent(table, plan.values, plan.ids)
    requires Rewrite(plan, st, code).Some? && Rewrite(plan, st, code).value.1.pending.None?
    ensures var (out, last) := Rewrite(plan, st, code).value;
            Conditions(out, env, lane) == Some(AllTested(Fuses(plan), table, 0, last.index, lane))
    decreases |code|
  {
    hide MaskConstants, BelowBound, MasksHeld, TableHeld, FitsTable, PlanConsistent, Conditions, Exec,
         Predicate, PassesPowerTest;
    if code == [] {
      NoConditions(env, lane);
    } else {
      var i := code[0];
      assert WellSized(i) && BelowBound(i);
      var next := Next(plan, st, i);
      var (rest, last) := Rewrite(plan, next, code[1..]).value;
      var before := Before(plan, st, i);
      if Op(i) == OP_FUNCTION {
        MasksAreHeld(plan, env, table, lane);
        var after := Exec(before, env, lane).value;
        StaysValid(plan, next, table);
        RewriteMeans(plan, next, code[1..], after, table, lane);
        ImageConditions(st, i, rest, after, lane);
        ConditionsAfter(before, [i] + rest, env, lane);
        assert before + [i] + rest == before + ([i] + rest);
      } else {
        PrologueMeans(plan, st, code[1..], env, table, lane);
        ImageConditions(st, i, rest, env, lane);
        assert before + [i] + rest == [i] + rest;
      }
    }
  }

  /** The module's own constants, which every inserted instruction may read. */
  function Constants(table: map<Word, Word>): Env {
    map id | id in table :: UInt(table[id])
  }

  lemma {:induction false} TableBelow(code: seq<Instr>, seen: map<Word, Word>)
    requires Table(code, seen).Some? && forall id :: id in seen ==> id < OLD_BOUND
    ensures forall id :: id in Table(code, seen).value ==> id < OLD_BOUND
  {
    if code != [] {
      if |code[0]| > 0 && IsUintConstant(code[0]) {
        TableBelow(code[1..], seen[code[0][2] := code[0][3]]);
      } else {
        TableBelow(code[1..], seen);
      }
    }
  }

  /** What the five redirected branches test, in order, at every level. */
  lemma BodyMeans(level: Level, code: seq<Instr>, lane: Value)
    requires AllWellSized(code) && AllBelowBound(code) && FunctionFirst(code) && lane.Vec?
    requires Table(code, map[]).Some? && StepsKnown(Table(code, map[]).value)
    requires RewriteBody(level, code).Some?
    ensures var table := Table(code, map[]).value;
            Conditions(RewriteBody(level, code).value.0, Constants(table), lane)
            == Some(AllTested(Fuses(Choose(level, code).0), table, 0, PREDICATES, lane))
  {
    hide Table, BelowBound, FunctionFirst, Rewrite, PlanMasks, Conditions, AllTested, Reducible, MaskValue;
    var table := Table(code, map[]).value;
    var choice := Choose(level, code);
    var st := Start(choice);
    TableBelow(code, map[]);
    if choice.0.Masks? {
      var planned := PlanMasks(table, choice.0.values, PREDICATES);
      assert choice.0.ids == planned.ids;
      PlanIsConsistent(table, choice.0.values, PREDICATES);
      if st.masksInserted {
        RewriteMeans(choice.0, st, code, Constants(table), table, lane);
      } else {
        PrologueMeans(choice.0, st, code, Constants(table), table, lane);
      }
    } else {
      RewriteMeans(choice.0, st, code, Constants(table), table, lane);
    }
  }

  // ---- The levels agree ----

  /** Two walks over the same code stand at the same selection, whatever they wrote. */
  predicate InStep(a: State, b: State) {
    a.index == b.index && (a.pending.Some? <==> b.pending.Some?)
  }

  /** A fused walk has read the coordinates once it has opened a selection. */
  predicate CoordinatesRead(plan: Plan, st: State) {
    plan.Masks? && plan.fused && (st.index > 0 || st.pending.Some?) ==> st.shared.Some?
  }

  lemma {:induction false} WalksAccept(a: Plan, sa: State, b: Plan, sb: State, code: seq<Instr>)
    requires a.Valid() && sa.Valid() && b.Valid() && sb.Valid() && AllWellSized(code)
    requires InStep(sa, sb) && CoordinatesRead(a, sa) && CoordinatesRead(b, sb)
    ensures Rewrite(a, sa, code).Some? <==> Rewrite(b, sb, code).Some?
    ensures Rewrite(a, sa, code).Some? ==>
              var la, lb := Rewrite(a, sa, code).value.1, Rewrite(b, sb, code).value.1;
              InStep(la, lb) && CoordinatesRead(a, la) && CoordinatesRead(b, lb)
    decreases |code|
  {
    hide Before, Image, SeparateTests, FusedTest, Coordinates;
    if code != [] {
      var i := code[0];
      assert WellSized(i);
      if Accepts(sa, i) {
        WalksAccept(a, Next(a, sa, i), b, Next(b, sb, i), code[1..]);
      }
    }
  }

  /** No level accepts more or fewer modules than another. */
  lemma LevelsAccept(one: Level, other: Level, code: seq<Instr>)
    requires AllWellSized(code)
    ensures RewriteBody(one, code).Some? <==> RewriteBody(other, code).Some?
  {
    hide Rewrite, Choose;
    var a, b := Choose(one, code), Choose(other, code);
    WalksAccept(a.0, Start(a), b.0, Start(b), code);
  }

  /** A module with a step that is no known power of two is rewritten alike at every level. */
  lemma LevelsCoincide(one: Level, other: Level, code: seq<Instr>)
    requires AllWellSized(code)
    requires Table(code, map[]).Some? ==> !AllReducible(Table(code, map[]).value)
    ensures RewriteBody(one, code) == RewriteBody(other, code)
  {
    hide Table, AllReducible, Rewrite;
  }

  /** Known powers of two are steps one can divide by. */
  lemma ReducibleIsKnown(table: map<Word, Word>)
    requires AllReducible(table) && ZERO in table
    ensures StepsKnown(table)
  {
    hide And;
    forall p | 0 <= p < PREDICATES
      ensures STEP_CONSTANTS[p] in table && table[STEP_CONSTANTS[p]] != 0
    {
      assert Reducible(table, p);
    }
  }

  /** A module the theorems speak of: its ids are within its bound and a function comes first. */
  predicate WellFormed(code: seq<Instr>) {
    AllWellSized(code) && AllBelowBound(code) && FunctionFirst(code)
  }

  /** The steps are known powers of two, and the constant they are compared with is known. */
  predicate Reduces(code: seq<Instr>) {
    var table := Table(code, map[]);
    table.Some? && AllReducible(table.value) && ZERO in table.value
  }

  /** What the branches of a written module decide, run with the module's own constants. */
  function Decisions(level: Level, code: seq<Instr>, lane: Value): Option<seq<bool>>
    requires AllWellSized(code) && Table(code, map[]).Some? && RewriteBody(level, code).Some?
  {
    Conditions(RewriteBody(level, code).value.0, Constants(Table(code, map[]).value), lane)
  }

  lemma ReducedMeans(level: Level, code: seq<Instr>, lane: Value)
    requires WellFormed(code) && Reduces(code) && RewriteBody(level, code).Some? && lane.Vec?
    ensures var table := Table(code, map[]).value;
            && StepsKnown(table)
            && Decisions(level, code, lane) == Some(AllTested(level.Fused?, table, 0, PREDICATES, lane))
  {
    hide Table, AllReducible, StepsKnown, Conditions, FunctionFirst, AllBelowBound, AllTested, Rewrite;
    ReducibleIsKnown(Table(code, map[]).value);
    BodyMeans(level, code, lane);
  }

  /**
    Where what is compared with is zero, every level branches on the alignment of the lane to the
    five steps, in order.
  */
  lemma BodyTestsAlignment(level: Level, code: seq<Instr>, lane: Value, p: nat)
    requires WellFormed(code) && Reduces(code) && RewriteBody(level, code).Some? && lane.Vec? && p < PREDICATES
    requires Table(code, map[]).value[ZERO] == 0
    ensures StepsKnown(Table(code, map[]).value)
    ensures var tests := Decisions(level, code, lane);
            tests.Some? && |tests.value| == PREDICATES
            && tests.value[p] == Aligned(Table(code, map[]).value, p, lane)
  {
    hide Table, Decisions, FunctionFirst, AllBelowBound, AllTested, RewriteBody, And, Or, PassesPowerTest;
    ReducedMeans(level, code, lane);
    var table := Table(code, map[]).value;
    assert Reducible(table, p);
    FusedMask(lane.x, lane.y, table[STEP_CONSTANTS[p]]);
    assert AllTested(level.Fused?, table, 0, PREDICATES, lane)[p - 0] == Tested(level.Fused?, table, p, lane);
  }

  /** Masks instead of remainders change nothing, whatever is compared with. */
  lemma MaskedIsCanonical(code: seq<Instr>, lane: Value)
    requires WellFormed(code) && Reduces(code) && RewriteBody(Canonical, code).Some? && lane.Vec?
    ensures RewriteBody(Masked, code).Some?
    ensures Decisions(Masked, code, lane) == Decisions(Canonical, code, lane)
  {
    hide Table, RewriteBody, Decisions, FunctionFirst, AllBelowBound;
    LevelsAccept(Canonical, Masked, code);
    ReducedMeans(Canonical, code, lane);
    ReducedMeans(Masked, code, lane);
  }

  /** The fused form decides every lane as the canonical one does. */
  ghost predicate FusedAgrees(code: seq<Instr>)
    requires AllWellSized(code) && Table(code, map[]).Some?
    requires RewriteBody(Canonical, code).Some? && RewriteBody(Fused, code).Some?
  {
    forall lane: Value :: lane.Vec? ==> Decisions(Fused, code, lane) == Decisions(Canonical, code, lane)
  }

  lemma TestedAlike(table: map<Word, Word>, p: nat, lane: Value)
    requires StepsKnown(table) && AllReducible(table) && p < PREDICATES && lane.Vec?
    requires table[ZERO] == 0 || table[ZERO] >= table[STEP_CONSTANTS[p]]
    ensures Tested(true, table, p, lane) == Tested(false, table, p, lane)
  {
    hide And, Or, PassesPowerTest;
    assert Reducible(table, p);
    FusedComparison(lane.x, lane.y, table[STEP_CONSTANTS[p]], table[ZERO]);
    assert WordOr(lane.x, lane.y) == Or(lane.x, lane.y);
  }

  /** The lane that tells the two forms apart where the comparison is with something else. */
  lemma TestedApart(table: map<Word, Word>, p: nat, lane: Value)
    requires StepsKnown(table) && AllReducible(table) && p < PREDICATES
    requires 0 < table[ZERO] < table[STEP_CONSTANTS[p]] && lane == Vec(table[ZERO], 0, 0)
    ensures Tested(true, table, p, lane)
    ensures !Tested(false, table, p, lane)
  {
    hide And, Or, PassesPowerTest;
    assert Reducible(table, p);
    var z, step := table[ZERO], table[STEP_CONSTANTS[p]];
    FusedMask(z, 0, step);
    OrZero(z);
    RemainderRange(z, step);
    RemainderRange(0, step);
    assert WordOr(z, 0) == Or(z, 0) == z;
    assert And(WordOr(z, 0), step - 1) == z % step == z;
  }

  /**
    Strength reduction and fusion keep the meaning of a module, in every lane, if and only if the
    constant the tests are compared with is zero or not below any of the five steps.
  */
  lemma FusedAgreesIff(code: seq<Instr>)
    requires WellFormed(code) && Reduces(code) && RewriteBody(Canonical, code).Some?
    ensures RewriteBody(Fused, code).Some?
    ensures var table := Table(code, map[]).value;
            && StepsKnown(table)
            && (FusedAgrees(code) <==> Harmless(table))
  {
    hide Table, RewriteBody, Decisions, FunctionFirst, AllBelowBound, Tested, AllReducible;
    LevelsAccept(Canonical, Fused, code);
    var table := Table(code, map[]).value;
    ReducibleIsKnown(table);
    if Harmless(table) {
      forall lane: Value | lane.Vec?
        ensures Decisions(Fused, code, lane) == Decisions(Canonical, code, lane)
      {
        ReducedMeans(Fused, code, lane);
        ReducedMeans(Canonical, code, lane);
        forall p | 0 <= p < PREDICATES
          ensures Tested(true, table, p, lane) == Tested(false, table, p, lane)
        {
          TestedAlike(table, p, lane);
        }
        assert AllTested(true, table, 0, PREDICATES, lane) == AllTested(false, table, 0, PREDICATES, lane);
      }
    } else {
      var p :| 0 <= p < PREDICATES && !(table[ZERO] == 0 || table[ZERO] >= table[STEP_CONSTANTS[p]]);
      var lane := Vec(table[ZERO], 0, 0);
      ReducedMeans(Fused, code, lane);
      ReducedMeans(Canonical, code, lane);
      TestedApart(table, p, lane);
      assert AllTested(true, table, 0, PREDICATES, lane)[p - 0] != AllTested(false, table, 0, PREDICATES, lane)[p - 0];
    }
  }

  /** What is compared with is zero, or not below any step. */
  predicate Harmless(table: map<Word, Word>)
    requires ZERO in table
  {
    forall p :: 0 <= p < PREDICATES && STEP_CONSTANTS[p] in table ==>
                  table[ZERO] == 0 || table[ZERO] >= table[STEP_CONSTANTS[p]]
  }

  /**
    Any two levels agree in every lane: always where some step is no known power of two, always
    between levels that test the coordinates alike, and otherwise where the comparison is harmless.
  */
  lemma LevelsAgree(one: Level, other: Level, code: seq<Instr>, lane: Value, env: Env)
    requires WellFormed(code) && lane.Vec? && RewriteBody(one, code).Some?
    requires var table := Table(code, map[]);
             table.Some? && AllReducible(table.value) ==>
               ZERO in table.value && ((one.Fused? <==> other.Fused?) || Harmless(table.value)) && env == Constants(table.value)
    ensures RewriteBody(other, code).Some?
    ensures Conditions(RewriteBody(one, code).value.0, env, lane)
            == Conditions(RewriteBody(other, code).value.0, env, lane)
  {
    hide Table, RewriteBody, AllReducible, Conditions, FunctionFirst, AllBelowBound, Tested;
    LevelsAccept(one, other, code);
    var table := Table(code, map[]);
    if table.Some? && AllReducible(table.value) {
      ReducedMeans(one, code, lane);
      ReducedMeans(other, code, lane);
      if one.Fused? != other.Fused? {
        forall p | 0 <= p < PREDICATES
          ensures Tested(true, table.value, p, lane) == Tested(false, table.value, p, lane)
        {
          TestedAlike(table.value, p, lane);
        }
        assert AllTested(true, table.value, 0, PREDICATES, lane) == AllTested(false, table.value, 0, PREDICATES, lane);
      }
    } else {
      LevelsCoincide(one, other, code);
    }
  }
}
