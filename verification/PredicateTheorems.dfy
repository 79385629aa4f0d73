/** The predicate rewriter changes nothing but the five conditions, and keeps their meaning. */
module PredicateTheorems {
  import opened BitMasks
  import opened Options
  import opened SpirvStream
  import opened PredicateRewrite

  /** Instructions of the kinds the pass emits name their result in word 2. */
  predicate DefinesId(i: Instr) {
    && |i| >= 3
    && Op(i) in {OP_LOAD, OP_COMPOSITE_EXTRACT, OP_U_MOD, OP_LOGICAL_AND, OP_I_EQUAL,
                 OP_BITWISE_OR, OP_BITWISE_AND, OP_CONSTANT}
  }

  predicate Inserted(i: Instr) { DefinesId(i) && i[2] >= OLD_BOUND }

  predicate Redirected(i: Instr) {
    |i| == 4 && Op(i) == OP_BRANCH_CONDITIONAL && i[1] >= OLD_BOUND
  }

  /** The ids an instruction of these kinds reads. */
  function Uses(i: Instr): set<Word> {
    if |i| == 4 && Op(i) == OP_LOAD then {i[3]}
    else if |i| == 5 && Op(i) == OP_COMPOSITE_EXTRACT then {i[3]}
    else if |i| == 5 && Op(i) in {OP_U_MOD, OP_LOGICAL_AND, OP_I_EQUAL, OP_BITWISE_OR, OP_BITWISE_AND}
    then {i[3], i[4]}
    else if |i| == 4 && Op(i) == OP_BRANCH_CONDITIONAL then {i[1]}
    else {}
  }

  /** The bound a module declares is above every id in it (section 2.3 of SPIR-V). */
  predicate BelowBound(i: Instr) {
    && (DefinesId(i) ==> i[2] < OLD_BOUND)
    && forall id :: id in Uses(i) ==> id < OLD_BOUND
  }

  predicate AllBelowBound(code: seq<Instr>) {
    forall k :: 0 <= k < |code| ==> BelowBound(code[k])
  }

  // ---- Undoing the pass ----

  /** Drop what was inserted and put the recorded conditions back, from condition `index` on. */
  function Restored(code: seq<Instr>, index: nat): seq<Instr> {
    if code == [] then []
    else if Inserted(code[0]) then Restored(code[1..], index)
    else if Redirected(code[0]) && index < PREDICATES then
      [code[0][1 := OLD_CONDITIONS[index]]] + Restored(code[1..], index + 1)
    else [code[0]] + Restored(code[1..], index)
  }

  predicate AllInserted(code: seq<Instr>) { forall k :: 0 <= k < |code| ==> Inserted(code[k]) }

  lemma {:induction false} RestoredSkips(a: seq<Instr>, b: seq<Instr>, index: nat)
    requires AllInserted(a)
    ensures Restored(a + b, index) == Restored(b, index)
  {
    if a == [] {
      assert a + b == b;
    } else {
      assert (a + b)[1..] == a[1..] + b;
      assert Inserted((a + b)[0]);
      RestoredSkips(a[1..], b, index);
    }
  }

  lemma {:induction false} MasksAreInserted(ids: seq<Word>, values: seq<Word>, n: nat)
    requires n <= |ids| == |values|
    ensures AllInserted(MaskConstants(ids, values, n))
  {
    if n > 0 {
      MasksAreInserted(ids, values, n - 1);
    }
  }

  lemma PredicateIsInserted(plan: Plan, st: State)
    requires plan.Valid() && st.Valid() && st.pending.None? && st.index < PREDICATES
    ensures AllInserted(Predicate(plan, st).0)
  {
    hide SeparateTests, Coordinates, FusedTest, Inserted;
    var n := st.nextId;
    if plan.Masks? && plan.fused {
      var rhs := plan.ids[st.index];
      if st.shared.None? {
        CoordinatesAreInserted(n);
        FusedTestIsInserted(n + 3, rhs, n + 4);
      } else {
        FusedTestIsInserted(st.shared.value, rhs, n);
      }
    } else {
      SeparateTestsAreInserted(if plan.Masks? then OP_BITWISE_AND else OP_U_MOD,
                               if plan.Masks? then plan.ids[st.index] else STEP_CONSTANTS[st.index], n);
    }
  }

  lemma SeparateTestsAreInserted(op: nat, rhs: Word, n: Word)
    requires op in {OP_BITWISE_AND, OP_U_MOD} && OLD_BOUND <= n && n + 8 < 0x1_0000_0000
    ensures AllInserted(SeparateTests(op, rhs, n))
  {
    hide Emit;
  }

  lemma CoordinatesAreInserted(n: Word)
    requires OLD_BOUND <= n && n + 4 < 0x1_0000_0000
    ensures AllInserted(Coordinates(n))
  {
    hide Emit;
  }

  lemma FusedTestIsInserted(union: Word, mask: Word, n: Word)
    requires OLD_BOUND <= n && n + 2 < 0x1_0000_0000
    ensures AllInserted(FusedTest(union, mask, n))
  {
    hide Emit;
  }

  lemma NothingRestored(index: nat)
    ensures Restored([], index) == []
  {
  }

  lemma BeforeIsInserted(plan: Plan, st: State, i: Instr)
    requires plan.Valid() && st.Valid() && |i| > 0 && Accepts(st, i)
    ensures AllInserted(Before(plan, st, i))
  {
    if NeedsMasks(plan, st, i) {
      MasksAreInserted(plan.ids, plan.values, PREDICATES);
    } else if OpensSelection(st, i) {
      PredicateIsInserted(plan, st);
    }
  }

  lemma ImageRestores(st: State, i: Instr, rest: seq<Instr>)
    requires st.Valid() && WellSized(i) && BelowBound(i) && Accepts(st, i)
    ensures Restored([Image(st, i)] + rest, st.index)
            == [i] + Restored(rest, if st.pending.Some? then st.index + 1 else st.index)
  {
    var image := Image(st, i);
    assert ([image] + rest)[1..] == rest;
    if st.pending.Some? {
      assert Op(image) == Op(i) == OP_BRANCH_CONDITIONAL;
      assert image[1 := OLD_CONDITIONS[st.index]] == i;
    } else {
      var condition := if |i| == 4 then i[1] else 0;
      assert |i| == 4 && Op(i) == OP_BRANCH_CONDITIONAL ==> condition in Uses(i);
    }
  }

  /** Undoing the pass on the code it wrote gives back the code it read. */
  lemma {:induction false} RewriteRestores(plan: Plan, st: State, code: seq<Instr>)
    requires plan.Valid() && st.Valid() && AllWellSized(code) && AllBelowBound(code)
    requires Rewrite(plan, st, code).Some?
    ensures Restored(Rewrite(plan, st, code).value.0, st.index) == code
    decreases |code|
  {
    hide Before, Image, Next, Accepts, Inserted, Redirected, Restored;
    if code == [] {
      NothingRestored(st.index);
    } else {
      var i := code[0];
      assert WellSized(i) && BelowBound(i);
      var next := Next(plan, st, i);
      var rest := Rewrite(plan, next, code[1..]).value.0;
      var before, image := Before(plan, st, i), Image(st, i);
      RewriteRestores(plan, next, code[1..]);
      BeforeIsInserted(plan, st, i);
      assert before + [image] + rest == before + ([image] + rest);
      RestoredSkips(before, [image] + rest, st.index);
      ImageRestores(st, i, rest);
      assert code == [i] + code[1..];
    }
  }

  // ---- Fresh ids ----

  /**
    Ids at or above the bound are handed out consecutively in stream order, starting at `next`
    and ending before `last`, and no instruction reads one before it was handed out.
  */
  predicate Sequential(code: seq<Instr>, next: nat, last: nat) {
    if code == [] then next == last
    else
      && (forall id :: id in Uses(code[0]) && id >= OLD_BOUND ==> id < next)
      && if Inserted(code[0]) then code[0][2] == next && Sequential(code[1..], next + 1, last)
         else Sequential(code[1..], next, last)
  }

  lemma {:induction false} SequentialAppend(a: seq<Instr>, b: seq<Instr>, next: nat, mid: nat, last: nat)
    requires Sequential(a, next, mid) && Sequential(b, mid, last)
    ensures Sequential(a + b, next, last)
  {
    if a == [] {
      assert a + b == b;
    } else {
      assert (a + b)[1..] == a[1..] + b;
      SequentialAppend(a[1..], b, if Inserted(a[0]) then next + 1 else next, mid, last);
    }
  }

  lemma EmptyIsSequential(n: nat)
    ensures Sequential([], n, n)
  {
  }

  lemma ConstantIsNext(id: Word, value: Word)
    requires id >= OLD_BOUND
    ensures Sequential([Emit(OP_CONSTANT, [TYPE_UINT, id, value])], id, id + 1)
  {
    var i := Emit(OP_CONSTANT, [TYPE_UINT, id, value]);
    assert i[2] == id && Uses(i) == {};
    var none: seq<Instr> := [];
    assert [i][1..] == none;
  }

  lemma {:induction false} MasksAreSequential(table: map<Word, Word>, values: seq<Word>, ids: seq<Word>, n: nat)
    requires n <= PREDICATES == |values| == |ids|
    requires ids[..n] == PlanMasks(table, values, n).ids
    ensures Sequential(MaskConstants(ids, values, n), OLD_BOUND, PlanMasks(table, values, n).nextId)
  {
    hide Sequential, FirstHolding, SharedMask, Emit;
    if n == 0 {
      EmptyIsSequential(OLD_BOUND);
    } else {
      var before := PlanMasks(table, values, n - 1);
      var plan := PlanMasks(table, values, n);
      assert ids[..n - 1] == ids[..n][..n - 1] == before.ids;
      assert ids[n - 1] == plan.ids[n - 1];
      MasksAreSequential(table, values, ids, n - 1);
      if plan.nextId != before.nextId {
        assert ids[n - 1] == before.nextId && ids[n - 1] !in ids[..n - 1];
        ConstantIsNext(ids[n - 1], values[n - 1]);
        SequentialAppend(MaskConstants(ids, values, n - 1),
                         [Emit(OP_CONSTANT, [TYPE_UINT, ids[n - 1], values[n - 1]])],
                         OLD_BOUND, before.nextId, plan.nextId);
      } else if ids[n - 1] >= OLD_BOUND {
        assert ids[n - 1] in ids[..n - 1];
      }
    }
  }

  /** Masks are declared: the walk has passed the first function, or declares none. */
  predicate Ready(plan: Plan, st: State) {
    && st.Valid() && plan.Valid()
    && (plan.Masks? ==>
          && (st.masksInserted)
          && forall p :: 0 <= p < PREDICATES ==> plan.ids[p] < st.nextId)
  }

  /** An emitted instruction takes the next id and reads earlier ones. */
  lemma EmitIsNext(code: seq<Instr>, k: nat, op: nat, operands: seq<Word>, n: nat, last: nat)
    requires op in {OP_LOAD, OP_COMPOSITE_EXTRACT, OP_U_MOD, OP_LOGICAL_AND, OP_I_EQUAL,
                    OP_BITWISE_OR, OP_BITWISE_AND}
    requires |operands| == (if op == OP_LOAD then 3 else 4)
    requires operands[1] == n >= OLD_BOUND && operands[2] < n
    requires op !in {OP_LOAD, OP_COMPOSITE_EXTRACT} ==> operands[3] < n
    requires k < |code| && code[k] == Emit(op, operands) && Sequential(code[k + 1..], n + 1, last)
    ensures Sequential(code[k..], n, last)
  {
    var i := code[k];
    assert i[1..] == operands;
    assert i[2] == i[1..][1] && i[3] == i[1..][2];
    assert |operands| == 4 ==> i[4] == i[1..][3];
    assert code[k..][1..] == code[k + 1..];
  }

  lemma TailIsSequential(code: seq<Instr>, n: nat)
    ensures Sequential(code[|code|..], n, n)
  {
  }

  lemma TestsAreSequential(op: nat, rhs: Word, n: Word)
    requires op in {OP_U_MOD, OP_BITWISE_AND} && OLD_BOUND <= n && n + 8 < 0x1_0000_0000 && rhs < n
    ensures Sequential(SeparateTests(op, rhs, n)[3..], n + 3, n + 8)
  {
    hide Sequential, Inserted, Uses, Emit;
    var c := SeparateTests(op, rhs, n);
    TailIsSequential(c, n + 8);
    EmitIsNext(c, 7, OP_LOGICAL_AND, [TYPE_BOOL, n + 7, n + 5, n + 6], n + 7, n + 8);
    EmitIsNext(c, 6, OP_I_EQUAL, [TYPE_BOOL, n + 6, n + 4, ZERO], n + 6, n + 8);
    EmitIsNext(c, 5, OP_I_EQUAL, [TYPE_BOOL, n + 5, n + 3, ZERO], n + 5, n + 8);
    EmitIsNext(c, 4, op, [TYPE_UINT, n + 4, n + 2, rhs], n + 4, n + 8);
    EmitIsNext(c, 3, op, [TYPE_UINT, n + 3, n + 1, rhs], n + 3, n + 8);
  }

  lemma SeparateIsSequential(op: nat, rhs: Word, n: Word)
    requires op in {OP_U_MOD, OP_BITWISE_AND} && OLD_BOUND <= n && n + 8 < 0x1_0000_0000 && rhs < n
    ensures Sequential(SeparateTests(op, rhs, n), n, n + 8)
  {
    hide Sequential, Inserted, Uses, Emit;
    var c := SeparateTests(op, rhs, n);
    TestsAreSequential(op, rhs, n);
    EmitIsNext(c, 2, OP_COMPOSITE_EXTRACT, [TYPE_UINT, n + 2, n, 1], n + 2, n + 8);
    EmitIsNext(c, 1, OP_COMPOSITE_EXTRACT, [TYPE_UINT, n + 1, n, 0], n + 1, n + 8);
    EmitIsNext(c, 0, OP_LOAD, [TYPE_V3_UINT, n, LOCAL_INVOCATION_ID], n, n + 8);
    assert c[0..] == c;
  }

  lemma FusedIsSequential(union: Word, mask: Word, n: Word)
    requires OLD_BOUND <= n && n + 2 < 0x1_0000_0000 && union < n && mask < n
    ensures Sequential(FusedTest(union, mask, n), n, n + 2)
  {
    hide Sequential, Inserted, Uses, Emit;
    var c := FusedTest(union, mask, n);
    TailIsSequential(c, n + 2);
    EmitIsNext(c, 1, OP_I_EQUAL, [TYPE_BOOL, n + 1, n, ZERO], n + 1, n + 2);
    EmitIsNext(c, 0, OP_BITWISE_AND, [TYPE_UINT, n, union, mask], n, n + 2);
    assert c[0..] == c;
  }

  lemma CoordinatesAreSequential(n: Word)
    requires OLD_BOUND <= n && n + 4 < 0x1_0000_0000
    ensures Sequential(Coordinates(n), n, n + 4)
  {
    hide Sequential, Inserted, Uses, Emit;
    var c := Coordinates(n);
    TailIsSequential(c, n + 4);
    EmitIsNext(c, 3, OP_BITWISE_OR, [TYPE_UINT, n + 3, n + 1, n + 2], n + 3, n + 4);
    EmitIsNext(c, 2, OP_COMPOSITE_EXTRACT, [TYPE_UINT, n + 2, n, 1], n + 2, n + 4);
    EmitIsNext(c, 1, OP_COMPOSITE_EXTRACT, [TYPE_UINT, n + 1, n, 0], n + 1, n + 4);
    EmitIsNext(c, 0, OP_LOAD, [TYPE_V3_UINT, n, LOCAL_INVOCATION_ID], n, n + 4);
    assert c[0..] == c;
  }

  lemma PredicateIsSequential(plan: Plan, st: State)
    requires Ready(plan, st) && st.pending.None? && st.index < PREDICATES
    ensures Sequential(Predicate(plan, st).0, st.nextId, Predicate(plan, st).1.nextId)
    ensures Ready(plan, Predicate(plan, st).1)
  {
    hide Sequential, SeparateTests, FusedTest, Coordinates;
    if plan.Masks? && plan.fused {
      var n := if st.shared.Some? then st.nextId else st.nextId + 4;
      var union := if st.shared.Some? then st.shared.value else st.nextId + 3;
      FusedIsSequential(union, plan.ids[st.index], n);
      if st.shared.None? {
        CoordinatesAreSequential(st.nextId);
        SequentialAppend(Coordinates(st.nextId), FusedTest(union, plan.ids[st.index], n),
                         st.nextId, n, n + 2);
      } else {
        assert [] + FusedTest(union, plan.ids[st.index], n) == FusedTest(union, plan.ids[st.index], n);
      }
    } else {
      SeparateIsSequential(if plan.Masks? then OP_BITWISE_AND else OP_U_MOD,
                           if plan.Masks? then plan.ids[st.index] else STEP_CONSTANTS[st.index],
                           st.nextId);
    }
  }

  lemma ImageIsSequential(st: State, i: Instr, n: nat)
    requires st.Valid() && WellSized(i) && BelowBound(i) && Accepts(st, i)
    requires OLD_BOUND <= n && (st.pending.Some? ==> st.pending.value < n)
    ensures Sequential([Image(st, i)], n, n)
  {
    var image := Image(st, i);
    if st.pending.Some? {
      assert Op(image) == OP_BRANCH_CONDITIONAL && Uses(image) == {st.pending.value};
    }
  }

  lemma BeforeIsSequential(plan: Plan, st: State, i: Instr)
    requires Ready(plan, st) && |i| > 0 && Accepts(st, i)
    ensures Sequential(Before(plan, st, i), st.nextId, Next(plan, st, i).nextId)
    ensures Ready(plan, Next(plan, st, i))
    ensures st.pending.Some? ==> st.pending.value < Next(plan, st, i).nextId
  {
    hide Sequential, Predicate, MaskConstants;
    if OpensSelection(st, i) {
      PredicateIsSequential(plan, st);
    } else {
      EmptyIsSequential(st.nextId);
    }
  }

  /** Past the declarations, every new id is the next one and is read only after it. */
  lemma {:induction false} RewriteIsSequential(plan: Plan, st: State, code: seq<Instr>)
    requires Ready(plan, st) && AllWellSized(code) && AllBelowBound(code)
    requires Rewrite(plan, st, code).Some?
    ensures Sequential(Rewrite(plan, st, code).value.0, st.nextId, Rewrite(plan, st, code).value.1.nextId)
    decreases |code|
  {
    hide Sequential, Before, Next, Image, Accepts, BelowBound;
    if code == [] {
      EmptyIsSequential(st.nextId);
    } else {
      var i := code[0];
      assert WellSized(i) && BelowBound(i);
      var next := Next(plan, st, i);
      var (rest, last) := Rewrite(plan, next, code[1..]).value;
      var before, image := Before(plan, st, i), Image(st, i);
      BeforeIsSequential(plan, st, i);
      RewriteIsSequential(plan, next, code[1..]);
      ImageIsSequential(st, i, next.nextId);
      SequentialAppend([image], rest, next.nextId, next.nextId, last.nextId);
      SequentialAppend(before, [image] + rest, st.nextId, next.nextId, last.nextId);
      assert before + [image] + rest == before + ([image] + rest);
    }
  }

  /** The stream has an OpFunction before its first structured selection. */
  predicate FunctionFirst(code: seq<Instr>)
    requires AllWellSized(code)
  {
    code == [] || (
      assert WellSized(code[0]);
      Op(code[0]) == OP_FUNCTION || (Op(code[0]) != OP_SELECTION_MERGE && FunctionFirst(code[1..])))
  }

  /** An instruction that opens nothing and closes nothing is copied. */
  lemma PlainStep(plan: Plan, st: State, i: Instr)
    requires plan.Valid() && st.Valid() && WellSized(i) && st.pending.None?
    requires !NeedsMasks(plan, st, i) && !OpensSelection(st, i)
    ensures Accepts(st, i) && Next(plan, st, i) == st && Image(st, i) == i && Before(plan, st, i) == []
  {
  }

  lemma FunctionStep(plan: Plan, st: State, i: Instr)
    requires plan.Valid() && st.Valid() && WellSized(i) && st.pending.None? && NeedsMasks(plan, st, i)
    ensures Accepts(st, i) && Next(plan, st, i) == st.(masksInserted := true) && Image(st, i) == i
    ensures Before(plan, st, i) == MaskConstants(plan.ids, plan.values, PREDICATES)
  {
  }

  /** Before the first function a walk with masks to declare only copies. */
  lemma {:induction false} PrologueIsSequential(plan: Plan, st: State, code: seq<Instr>)
    requires plan.Valid() && st.Valid() && AllWellSized(code) && AllBelowBound(code)
    requires FunctionFirst(code) && st.pending.None? && st.index == 0
    requires plan.Masks? && !st.masksInserted && Ready(plan, st.(masksInserted := true))
    requires Sequential(MaskConstants(plan.ids, plan.values, PREDICATES), OLD_BOUND, st.nextId)
    requires Rewrite(plan, st, code).Some? && Rewrite(plan, st, code).value.1.index > 0
    ensures Sequential(Rewrite(plan, st, code).value.0, OLD_BOUND, Rewrite(plan, st, code).value.1.nextId)
    decreases |code|
  {
    hide Sequential, MaskConstants, BelowBound, Next, Before, Image, Accepts;
    var i := code[0];
    assert WellSized(i) && BelowBound(i);
    var next := Next(plan, st, i);
    var (rest, last) := Rewrite(plan, next, code[1..]).value;
    var before := Before(plan, st, i);
    if Op(i) == OP_FUNCTION {
      FunctionStep(plan, st, i);
      RewriteIsSequential(plan, next, code[1..]);
      ImageIsSequential(st, i, next.nextId);
      SequentialAppend([i], rest, next.nextId, next.nextId, last.nextId);
      SequentialAppend(before, [i] + rest, OLD_BOUND, next.nextId, last.nextId);
      assert before + [i] + rest == before + ([i] + rest);
    } else {
      PlainStep(plan, st, i);
      PrologueIsSequential(plan, st, code[1..]);
      ImageIsSequential(st, i, OLD_BOUND);
      SequentialAppend([i], rest, OLD_BOUND, OLD_BOUND, last.nextId);
      assert before + [i] + rest == [i] + rest;
    }
  }

  /**
    Every id the pass writes is fresh: new ids run from the old bound to the written one without
    gap or repetition, in stream order, and each is defined before it is read.
  */
  lemma BodyIsSequential(level: Level, code: seq<Instr>)
    requires AllWellSized(code) && AllBelowBound(code) && FunctionFirst(code)
    requires RewriteBody(level, code).Some?
    ensures Sequential(RewriteBody(level, code).value.0, OLD_BOUND, RewriteBody(level, code).value.1.nextId)
  {
    hide Sequential, MaskConstants, BelowBound, FirstHolding, SharedMask, Table, AllReducible, MaskValues,
         PlanMasks, Rewrite, FunctionFirst;
    var choice := Choose(level, code);
    var st := Start(choice);
    if choice.0.Masks? {
      var table := Table(code, map[]).value;
      var values := choice.0.values;
      var planned := PlanMasks(table, values, PREDICATES);
      assert choice.0.ids[..PREDICATES] == planned.ids;
      MasksAreSequential(table, values, planned.ids, PREDICATES);
      if st.masksInserted {
        RewriteIsSequential(choice.0, st, code);
      } else {
        PrologueIsSequential(choice.0, st, code);
      }
    } else {
      RewriteIsSequential(choice.0, st, code);
    }
  }

  /** What consecutive numbering means for the ids themselves. */
  lemma {:induction false} SequentialIds(code: seq<Instr>, next: nat, last: nat)
    requires Sequential(code, next, last)
    ensures next <= last
    ensures forall k :: 0 <= k < |code| && Inserted(code[k]) ==> next <= code[k][2] < last
    ensures forall j, k :: 0 <= j < k < |code| && Inserted(code[j]) && Inserted(code[k]) ==>
                             code[j][2] < code[k][2]
    ensures forall k, id :: 0 <= k < |code| && id in Uses(code[k]) && id >= OLD_BOUND && id >= next ==>
                              exists j :: 0 <= j < k && Inserted(code[j]) && code[j][2] == id
  {
    hide Uses;
    if code != [] {
      var i, rest := code[0], code[1..];
      SequentialIds(rest, if Inserted(i) then next + 1 else next, last);
      forall k | 0 <= k < |code| && Inserted(code[k])
        ensures next <= code[k][2] < last
      {
        assert k > 0 ==> code[k] == rest[k - 1];
      }
      forall j, k | 0 <= j < k < |code| && Inserted(code[j]) && Inserted(code[k])
        ensures code[j][2] < code[k][2]
      {
        assert code[k] == rest[k - 1];
        assert j > 0 ==> code[j] == rest[j - 1];
      }
      forall k, id | 0 <= k < |code| && id in Uses(code[k]) && id >= OLD_BOUND && id >= next
        ensures exists j :: 0 <= j < k && Inserted(code[j]) && code[j][2] == id
      {
        assert k > 0;
        assert code[k] == rest[k - 1];
        if Inserted(i) && id == next {
          assert Inserted(code[0]) && code[0][2] == id;
        } else {
          var j :| 0 <= j < k - 1 && Inserted(rest[j]) && rest[j][2] == id;
          assert code[j + 1] == rest[j];
        }
      }
    }
  }

  // ---- Structured control flow ----

  predicate IsMerge(i: Instr) { |i| > 0 && Op(i) in {OP_SELECTION_MERGE, OP_LOOP_MERGE} }

  predicate IsBranch(i: Instr) { |i| > 0 && Op(i) in {OP_BRANCH, OP_BRANCH_CONDITIONAL, OP_SWITCH} }

  /** Every merge instruction is immediately followed by a branch (section 2.11 of SPIR-V). */
  predicate MergesAdjacent(code: seq<Instr>) {
    code == [] || (
      && (IsMerge(code[0]) ==> |code| > 1 && IsBranch(code[1]))
      && MergesAdjacent(code[1..]))
  }

  lemma {:induction false} InsertedKeepsMerges(a: seq<Instr>, b: seq<Instr>)
    requires AllInserted(a) && MergesAdjacent(b)
    ensures MergesAdjacent(a + b)
  {
    if a == [] {
      assert a + b == b;
    } else {
      assert (a + b)[1..] == a[1..] + b;
      assert Inserted(a[0]);
      InsertedKeepsMerges(a[1..], b);
    }
  }

  lemma BranchStaysFirst(plan: Plan, st: State, code: seq<Instr>)
    requires plan.Valid() && st.Valid() && AllWellSized(code)
    requires Rewrite(plan, st, code).Some? && code != [] && IsBranch(code[0])
    ensures Rewrite(plan, st, code).value.0 != [] && IsBranch(Rewrite(plan, st, code).value.0[0])
  {
    hide MaskConstants, Predicate;
    assert WellSized(code[0]) && Before(plan, st, code[0]) == [];
    assert Op(Image(st, code[0])) == Op(code[0]);
  }

  lemma {:induction false} RewriteKeepsMerges(plan: Plan, st: State, code: seq<Instr>)
    requires plan.Valid() && st.Valid() && AllWellSized(code) && MergesAdjacent(code)
    requires Rewrite(plan, st, code).Some?
    ensures MergesAdjacent(Rewrite(plan, st, code).value.0)
    decreases |code|
  {
    hide Before, Next, Accepts, Inserted, IsBranch;
    if code != [] {
      var i := code[0];
      assert WellSized(i);
      var next := Next(plan, st, i);
      var rest := Rewrite(plan, next, code[1..]).value.0;
      var before, image := Before(plan, st, i), Image(st, i);
      RewriteKeepsMerges(plan, next, code[1..]);
      BeforeIsInserted(plan, st, i);
      assert image[0] == i[0] && |image| == |i|;
      if IsMerge(i) {
        BranchStaysFirst(plan, next, code[1..]);
      }
      assert ([image] + rest)[1..] == rest;
      InsertedKeepsMerges(before, [image] + rest);
      assert before + [image] + rest == before + ([image] + rest);
    }
  }

  // ---- The whole module ----

  /** Undo the pass on a written module: erase new ids, restore the conditions and the bound. */
  function Undo(words: seq<Word>): Option<seq<Word>> {
    if |words| < HEADER_WORDS then None
    else
      match Tile(words[HEADER_WORDS..])
      case None => None
      case Some(code) => Some(words[..HEADER_WORDS][BOUND_WORD := OLD_BOUND] + Flatten(Restored(code, 0)))
  }

  /** The pass is undone exactly, at every level, for every module it accepts. */
  lemma UndoRewrite(level: Level, words: seq<Word>)
    requires RewriteModule(level, words).Some?
    requires AllBelowBound(Tile(words[HEADER_WORDS..]).value)
    ensures Undo(RewriteModule(level, words).value) == Some(words)
  {
    hide Rewrite, Choose, Restored, AllBelowBound, AllWellSized;
    var code := Tile(words[HEADER_WORDS..]).value;
    var (out, st) := RewriteBody(level, code).value;
    var written := RewriteModule(level, words).value;
    var choice := Choose(level, code);
    RewriteRestores(choice.0, Start(choice), code);
    FlattenTile(words[HEADER_WORDS..]);
    TileFlatten(out);
    assert written[HEADER_WORDS..] == Flatten(out);
    assert written[..HEADER_WORDS][BOUND_WORD := OLD_BOUND] == words[..HEADER_WORDS];
    assert words == words[..HEADER_WORDS] + words[HEADER_WORDS..];
  }

  /**
    What a written module is: its bound is above every id in it, its new ids are pairwise distinct
    and defined before use, and merges are still next to their branches.
  */
  lemma WrittenModule(level: Level, words: seq<Word>)
    requires RewriteModule(level, words).Some?
    requires var code := Tile(words[HEADER_WORDS..]).value;
             AllBelowBound(code) && FunctionFirst(code) && MergesAdjacent(code)
    ensures var written := RewriteModule(level, words).value;
            && |written| >= HEADER_WORDS && Tile(written[HEADER_WORDS..]).Some?
            && var out := Tile(written[HEADER_WORDS..]).value;
            && Sequential(out, OLD_BOUND, written[BOUND_WORD])
            && MergesAdjacent(out)
  {
    hide Rewrite, Choose, Restored, AllBelowBound, FunctionFirst, MergesAdjacent, Sequential;
    var code := Tile(words[HEADER_WORDS..]).value;
    var (out, st) := RewriteBody(level, code).value;
    var written := RewriteModule(level, words).value;
    var choice := Choose(level, code);
    TileFlatten(out);
    assert written[HEADER_WORDS..] == Flatten(out);
    BodyIsSequential(level, code);
    RewriteKeepsMerges(choice.0, Start(choice), code);
  }
}
