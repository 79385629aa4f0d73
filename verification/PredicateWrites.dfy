/** What the predicate rewriter writes at each level, and a module it writes something for. */
module PredicateWrites {
  import opened BitMasks
  import opened Options
  import opened SpirvStream
  import opened PredicateRewrite
  import opened PredicateTheorems
  import opened PredicateMeaning
  import opened PredicateRewriter
  import opened PredicateAccepts

  // ---- Constants, as the instruction list declares them ----

  predicate IsUint(i: Instr) { |i| == 4 && Op(i) == 43 && i[1] == 10 }

  /** Some instruction is the unsigned constant `id` of this value. */
  predicate Declares(code: seq<Instr>, id: Word, value: Word) {
    exists k :: 0 <= k < |code| && IsUint(code[k]) && code[k][2..] == [id, value]
  }

  /** The ids of unsigned constants are below the old bound, and no two are the same. */
  predicate DistinctConstants(code: seq<Instr>) {
    && (forall k :: 0 <= k < |code| && IsUint(code[k]) ==> code[k][2] < 2311)
    && (forall j, k :: 0 <= j < k < |code| && IsUint(code[j]) && IsUint(code[k]) ==> code[j][2] != code[k][2])
  }

  /** No constant of the code has an id that was seen. */
  predicate Unseen(code: seq<Instr>, seen: map<Word, Word>) {
    forall k :: 0 <= k < |code| && IsUint(code[k]) ==> code[k][2] !in seen
  }

  lemma DistinctRest(code: seq<Instr>, seen: map<Word, Word>)
    requires AllWellSized(code) && code != []
    ensures DistinctConstants(code) && Unseen(code, seen) <==>
              if IsUint(code[0]) then
                && code[0][2] < 2311 && code[0][2] !in seen
                && DistinctConstants(code[1..]) && Unseen(code[1..], seen[code[0][2] := code[0][3]])
              else DistinctConstants(code[1..]) && Unseen(code[1..], seen)
  {
    var rest := code[1..];
    assert forall k :: 0 <= k < |rest| ==> rest[k] == code[k + 1];
    assert forall k :: 0 < k < |code| ==> code[k] == rest[k - 1];
  }

  lemma DeclaresRest(code: seq<Instr>, id: Word, value: Word)
    requires code != []
    ensures Declares(code, id, value)
            <==> (IsUint(code[0]) && code[0][2..] == [id, value]) || Declares(code[1..], id, value)
  {
    var rest := code[1..];
    if k :| 0 <= k < |code| && IsUint(code[k]) && code[k][2..] == [id, value] {
      assert k > 0 ==> rest[k - 1] == code[k];
    }
    if k :| 0 <= k < |rest| && IsUint(rest[k]) && rest[k][2..] == [id, value] {
      assert code[k + 1] == rest[k];
    }
  }

  lemma UintAgain(i: Instr)
    requires WellSized(i)
    ensures IsUint(i) <==> IsUintConstant(i)
    ensures IsUint(i) ==> i[2..] == [i[2], i[3]]
  {
  }

  lemma {:induction false} TableReadsConstants(code: seq<Instr>, seen: map<Word, Word>)
    requires AllWellSized(code)
    ensures Table(code, seen).Some? <==> DistinctConstants(code) && Unseen(code, seen)
    decreases |code|
  {
    hide IsUint, DistinctConstants, Unseen;
    if code == [] {
      NothingDeclared(seen);
    } else {
      assert WellSized(code[0]);
      UintAgain(code[0]);
      DistinctRest(code, seen);
      if !IsUint(code[0]) {
        TableReadsConstants(code[1..], seen);
      } else {
        TableReadsConstants(code[1..], seen[code[0][2] := code[0][3]]);
      }
    }
  }

  lemma NothingDeclared(seen: map<Word, Word>)
    ensures DistinctConstants([]) && Unseen([], seen)
  {
  }

  lemma {:induction false} TableHolds(code: seq<Instr>, seen: map<Word, Word>, id: Word, value: Word)
    requires AllWellSized(code) && Table(code, seen).Some?
    ensures var table := Table(code, seen).value;
            id in table && table[id] == value <==> (id in seen && seen[id] == value) || Declares(code, id, value)
    decreases |code|
  {
    hide IsUint, Declares;
    if code == [] {
      NothingHeld(id, value);
    } else {
      assert WellSized(code[0]);
      UintAgain(code[0]);
      DeclaresRest(code, id, value);
      if !IsUint(code[0]) {
        TableHolds(code[1..], seen, id, value);
      } else {
        TableHolds(code[1..], seen[code[0][2] := code[0][3]], id, value);
      }
    }
  }

  lemma NothingHeld(id: Word, value: Word)
    ensures !Declares([], id, value)
  {
  }

  // ---- When masks are used, and which of them are new ----

  const STEPS: seq<Word> := [1007, 986, 1403, 1667, 1930]

  ghost predicate StepIsPower(code: seq<Instr>, p: nat)
    requires p < 5
  {
    exists v: Word :: Declares(code, STEPS[p], v) && IsPower(v)
  }

  /** Masks replace remainders: at a later level, where every step is a declared power of two. */
  ghost predicate Masked(level: Level, code: seq<Instr>) {
    !level.Canonical? && DistinctConstants(code) && forall p: nat :: p < 5 ==> StepIsPower(code, p)
  }

  /** The mask of some step that no constant of the module holds. */
  ghost predicate Missing(code: seq<Instr>, v: Word) {
    && v + 1 < 0x1_0000_0000 && (exists p :: 0 <= p < 5 && Declares(code, STEPS[p], v + 1))
    && forall id: Word :: Declares(code, id, v) ==> id == 0
  }

  lemma ReducibleIff(code: seq<Instr>, p: nat)
    requires AllWellSized(code) && p < 5 && Table(code, map[]).Some?
    ensures Reducible(Table(code, map[]).value, p) <==> StepIsPower(code, p)
  {
    hide Declares, Table, PassesPowerTest, IsPower;
    var table := Table(code, map[]).value;
    if STEPS[p] in table {
      TableHolds(code, map[], STEPS[p], table[STEPS[p]]);
      PowerOrNot(table[STEPS[p]]);
    }
    if v: Word :| Declares(code, STEPS[p], v) && IsPower(v) {
      TableHolds(code, map[], STEPS[p], v);
      PowerOrNot(v);
    }
  }

  lemma PowerOrNot(v: nat)
    ensures PassesPowerTest(v) <==> IsPower(v)
  {
    hide And, Pow2;
    if v > 0 {
      PowerTestIsExact(v);
    }
  }

  lemma MaskedIff(level: Level, code: seq<Instr>)
    requires AllWellSized(code)
    ensures Choose(level, code).0.Masks? <==> Masked(level, code)
    ensures Choose(level, code).0.Masks? ==> Choose(level, code).0.fused == level.Fused?
  {
    hide Table, Reducible, StepIsPower, DistinctConstants, PlanMasks, MaskValues;
    TableReadsConstants(code, map[]);
    NothingSeen(code);
    if Table(code, map[]).Some? {
      forall p: nat | p < 5
        ensures Reducible(Table(code, map[]).value, p) <==> StepIsPower(code, p)
      {
        ReducibleIff(code, p);
      }
    }
  }

  lemma NothingSeen(code: seq<Instr>)
    ensures Unseen(code, map[])
  {
  }

  lemma {:induction false} FirstIsExact(table: map<Word, Word>, value: Word, from: Word)
    requires 1 <= from <= OLD_BOUND
    ensures FirstHolding(table, value, from) == 0
            <==> forall id: Word :: from <= id < OLD_BOUND && id in table ==> table[id] != value
    decreases OLD_BOUND - from
  {
    if from < OLD_BOUND {
      FirstIsExact(table, value, from + 1);
    }
  }

  lemma {:induction false} SharedIsExact(values: seq<Word>, ids: seq<Word>, value: Word, from: nat)
    requires from <= |ids| <= |values|
    ensures SharedMask(values, ids, value, from) == 0
            <==> forall q :: from <= q < |ids| ==> !(values[q] == value && ids[q] >= OLD_BOUND)
    decreases |ids| - from
  {
    if from < |ids| {
      SharedIsExact(values, ids, value, from + 1);
    }
  }

  /** The ids given so far: new ones exactly for the values that no constant holds. */
  predicate NewWhereAbsent(table: map<Word, Word>, values: seq<Word>, ids: seq<Word>)
    requires |ids| <= |values|
  {
    forall q :: 0 <= q < |ids| ==> (ids[q] >= OLD_BOUND <==> FirstHolding(table, values[q], 1) == 0)
  }

  lemma SharesIff(table: map<Word, Word>, values: seq<Word>, ids: seq<Word>, value: Word)
    requires |ids| <= |values| && NewWhereAbsent(table, values, ids) && FirstHolding(table, value, 1) == 0
    ensures SharedMask(values, ids, value, 0) != 0 <==> value in values[..|ids|]
  {
    hide FirstHolding, SharedMask;
    SharedIsExact(values, ids, value, 0);
  }

  lemma AddsId(table: map<Word, Word>, values: seq<Word>, ids: seq<Word>, id: Word)
    requires |ids| < |values| && NewWhereAbsent(table, values, ids)
    requires id >= OLD_BOUND <==> FirstHolding(table, values[|ids|], 1) == 0
    ensures NewWhereAbsent(table, values, ids + [id])
  {
    hide FirstHolding;
  }

  lemma NoIds(table: map<Word, Word>, values: seq<Word>)
    ensures NewWhereAbsent(table, values, [])
  {
  }

  predicate AbsentFrom(table: map<Word, Word>, values: seq<Word>, absent: set<Word>) {
    forall v: Word :: v in absent <==> v in values && FirstHolding(table, v, 1) == 0
  }

  lemma AbsentGrows(table: map<Word, Word>, values: seq<Word>, absent: set<Word>, value: Word)
    requires AbsentFrom(table, values, absent)
    ensures AbsentFrom(table, values + [value], if FirstHolding(table, value, 1) == 0 then absent + {value} else absent)
    ensures FirstHolding(table, value, 1) == 0 ==> (value in absent <==> value in values)
  {
    hide FirstHolding;
  }

  lemma NoneAbsent(table: map<Word, Word>)
    ensures AbsentFrom(table, [], {})
  {
  }

  /** Every value that no constant holds takes one new id, however often it occurs. */
  lemma {:induction false} PlanCounts(table: map<Word, Word>, values: seq<Word>, n: nat) returns (absent: set<Word>)
    requires n <= PREDICATES == |values|
    ensures AbsentFrom(table, values[..n], absent)
    ensures PlanMasks(table, values, n).nextId == OLD_BOUND + |absent|
    ensures NewWhereAbsent(table, values, PlanMasks(table, values, n).ids)
  {
    hide FirstHolding, SharedMask, NewWhereAbsent, AbsentFrom, PlanMasks;
    absent := {};
    if n == 0 {
      PlanNone(table, values);
      NoIds(table, values);
      NoneAbsent(table);
      assert values[..0] == [];
    } else {
      absent := PlanCounts(table, values, n - 1);
      var plan, value := PlanMasks(table, values, n - 1), values[n - 1];
      PlanStep(table, values, n - 1);
      AbsentGrows(table, values[..n - 1], absent, value);
      assert values[..n] == values[..n - 1] + [value];
      var found, shared := FirstHolding(table, value, 1), SharedMask(values, plan.ids, value, 0);
      AddsId(table, values, plan.ids, if found != 0 then found else if shared != 0 then shared else plan.nextId);
      if found == 0 {
        SharesIff(table, values, plan.ids, value);
        absent := absent + {value};
      }
    }
  }

  /** The values the plan must find or declare, and whether they are found, are those of the module. */
  lemma AbsentIsMissing(code: seq<Instr>, v: Word)
    requires AllWellSized(code) && Table(code, map[]).Some? && AllReducible(Table(code, map[]).value)
    ensures var table := Table(code, map[]).value;
            v in MaskValues(table) && FirstHolding(table, v, 1) == 0 <==> Missing(code, v)
  {
    hide Declares, Table, FirstHolding, Reducible, MaskValues;
    var table := Table(code, map[]).value;
    FirstIsExact(table, v, 1);
    HoldsBelowBound(code);
    assert forall id: Word :: id in table && table[id] == v <==> Declares(code, id, v) by {
      forall id: Word
        ensures id in table && table[id] == v <==> Declares(code, id, v)
      {
        TableHolds(code, map[], id, v);
      }
    }
    forall p | 0 <= p < 5
      ensures MaskValues(table)[p] == v <==> v + 1 < 0x1_0000_0000 && Declares(code, STEPS[p], v + 1)
    {
      StepValue(code, p, v);
    }
  }

  lemma StepValue(code: seq<Instr>, p: nat, v: Word)
    requires AllWellSized(code) && Table(code, map[]).Some? && AllReducible(Table(code, map[]).value) && p < 5
    ensures MaskValues(Table(code, map[]).value)[p] == v
            <==> v + 1 < 0x1_0000_0000 && Declares(code, STEPS[p], v + 1)
  {
    hide Declares, Table, PassesPowerTest;
    var table := Table(code, map[]).value;
    assert Reducible(table, p);
    if v + 1 < 0x1_0000_0000 {
      TableHolds(code, map[], STEPS[p], v + 1);
    }
  }

  lemma HoldsBelowBound(code: seq<Instr>)
    requires AllWellSized(code) && Table(code, map[]).Some?
    ensures forall id: Word :: id in Table(code, map[]).value ==> id < OLD_BOUND
  {
    TableBelow(code, map[]);
  }

  // ---- Ids and operations of the walk ----

  /** Ids a walk has taken for predicates so far. */
  function Spent(plan: Plan, st: State): nat {
    var begun := st.index + if st.pending.Some? then 1 else 0;
    if plan.Masks? && plan.fused then 2 * begun + (if st.shared.Some? then 4 else 0) else 8 * begun
  }

  lemma StepSpends(plan: Plan, st: State, i: Instr)
    requires plan.Valid() && st.Valid() && |i| > 0 && Accepts(st, i)
    ensures Next(plan, st, i).nextId - Spent(plan, Next(plan, st, i)) == st.nextId - Spent(plan, st)
  {
    hide SeparateTests, Coordinates, FusedTest, MaskConstants;
  }

  lemma {:induction false} WalkSpends(plan: Plan, st: State, code: seq<Instr>)
    requires plan.Valid() && st.Valid() && AllWellSized(code) && Rewrite(plan, st, code).Some?
    ensures var last := Rewrite(plan, st, code).value.1;
            last.nextId - Spent(plan, last) == st.nextId - Spent(plan, st)
    decreases |code|
  {
    hide Before, Image, Next, Spent;
    if code != [] {
      assert WellSized(code[0]);
      StepSpends(plan, st, code[0]);
      WalkSpends(plan, Next(plan, st, code[0]), code[1..]);
    }
  }

  lemma {:induction false} CountParts(a: seq<Instr>, b: Instr, c: Instr, d: seq<Instr>, op: nat)
    requires AllWellSized(a) && WellSized(b) && WellSized(c) && AllWellSized(d)
    requires Without(a, op) && Op(b) == op && Op(c) == op && Without(d, op)
    ensures CountOp(a + [b] + [c] + d, op) == 2
  {
    hide CountOp, WellSized, Op, Without;
    CountNone(a, op);
    CountNone(d, op);
    CountOne(b, op);
    CountOne(c, op);
    CountAppend(a, [b], op);
    CountAppend(a + [b], [c], op);
    CountAppend(a + [b] + [c], d, op);
  }

  lemma TestsCount(op: nat, rhs: Word, n: Word)
    requires op in {OP_U_MOD, OP_BITWISE_AND} && n + 8 < 0x1_0000_0000
    ensures CountOp(SeparateTests(op, rhs, n), OP_U_MOD) == if op == OP_U_MOD then 2 else 0
  {
    hide CountOp, Emit;
    var c := SeparateTests(op, rhs, n);
    assert c == c[..3] + [c[3]] + [c[4]] + c[5..];
    if op == OP_U_MOD {
      CountParts(c[..3], c[3], c[4], c[5..], op);
    } else {
      CountNone(c, OP_U_MOD);
    }
  }

  lemma FusedCounts(union: Word, mask: Word, n: Word, m: Word, first: bool)
    requires n + 2 < 0x1_0000_0000 && m + 4 < 0x1_0000_0000
    ensures CountOp((if first then Coordinates(m) else []) + FusedTest(union, mask, n), OP_U_MOD) == 0
  {
    hide CountOp, Emit;
    CountNone((if first then Coordinates(m) else []) + FusedTest(union, mask, n), OP_U_MOD);
  }

  lemma PredicateCounts(plan: Plan, st: State)
    requires plan.Valid() && st.Valid() && st.pending.None? && st.index < PREDICATES
    ensures CountOp(Predicate(plan, st).0, OP_U_MOD) == if plan.Modulo? then 2 else 0
  {
    hide CountOp, SeparateTests, Coordinates, FusedTest;
    if plan.Masks? && plan.fused {
      var n := if st.shared.Some? then st.nextId else st.nextId + 4;
      var union := if st.shared.Some? then st.shared.value else st.nextId + 3;
      FusedCounts(union, plan.ids[st.index], n, st.nextId, st.shared.None?);
    } else {
      TestsCount(if plan.Masks? then OP_BITWISE_AND else OP_U_MOD,
                 if plan.Masks? then plan.ids[st.index] else STEP_CONSTANTS[st.index], st.nextId);
    }
  }

  lemma {:induction false} ConstantsCount(ids: seq<Word>, values: seq<Word>, n: nat)
    requires n <= |ids| == |values|
    ensures CountOp(MaskConstants(ids, values, n), OP_U_MOD) == 0
  {
    hide CountOp, Emit;
    if n == 0 {
      CountNone([], OP_U_MOD);
    } else {
      ConstantsCount(ids, values, n - 1);
      var i := Emit(OP_CONSTANT, [TYPE_UINT, ids[n - 1], values[n - 1]]);
      CountOne(i, OP_U_MOD);
      CountAppend(MaskConstants(ids, values, n - 1), [i], OP_U_MOD);
    }
  }

  /** How many selections were begun. */
  function Begun(st: State): nat { st.index + if st.pending.Some? then 1 else 0 }

  lemma StepCounts(plan: Plan, st: State, i: Instr)
    requires plan.Valid() && st.Valid() && WellSized(i) && Accepts(st, i)
    ensures CountOp(Before(plan, st, i), OP_U_MOD)
            == if plan.Modulo? then 2 * (Begun(Next(plan, st, i)) - Begun(st)) else 0
    ensures Op(Image(st, i)) == Op(i)
  {
    hide CountOp, MaskConstants;
    CountNone([], OP_U_MOD);
    if NeedsMasks(plan, st, i) {
      ConstantsCount(plan.ids, plan.values, PREDICATES);
    } else if OpensSelection(st, i) {
      PredicateCounts(plan, st);
      hide Predicate;
    }
  }

  /** Two remainders a selection are computed, or none at all. */
  lemma {:induction false} WalkCounts(plan: Plan, st: State, code: seq<Instr>)
    requires plan.Valid() && st.Valid() && AllWellSized(code) && Rewrite(plan, st, code).Some?
    ensures var (out, last) := Rewrite(plan, st, code).value;
            CountOp(out, OP_U_MOD)
            == CountOp(code, OP_U_MOD) + if plan.Modulo? then 2 * (Begun(last) - Begun(st)) else 0
    decreases |code|
  {
    hide Before, Image, Next, Begun, Accepts, CountOp;
    if code == [] {
      CountNone([], OP_U_MOD);
    } else {
      var i, rest := code[0], code[1..];
      assert WellSized(i);
      var before, image := Before(plan, st, i), Image(st, i);
      StepCounts(plan, st, i);
      WalkCounts(plan, Next(plan, st, i), rest);
      var out := Rewrite(plan, Next(plan, st, i), rest).value.0;
      CountOne(image, OP_U_MOD);
      CountOne(i, OP_U_MOD);
      CountAppend(before, [image], OP_U_MOD);
      CountAppend(before + [image], out, OP_U_MOD);
      CountAppend([i], rest, OP_U_MOD);
      assert code == [i] + rest;
    }
  }

  lemma ChoiceCounts(level: Level, code: seq<Instr>) returns (missing: set<Word>)
    requires AllWellSized(code)
    ensures forall v: Word :: v in missing <==> Masked(level, code) && Missing(code, v)
    ensures Choose(level, code).1 == 2311 + |missing|
  {
    hide Masked, Missing, Table, PlanMasks, MaskValues, AllReducible, FirstHolding;
    MaskedIff(level, code);
    missing := {};
    if Choose(level, code).0.Masks? {
      var table := Table(code, map[]).value;
      var values := MaskValues(table);
      missing := PlanCounts(table, values, PREDICATES);
      assert values[..PREDICATES] == values;
      forall v: Word
        ensures v in missing <==> Missing(code, v)
      {
        AbsentIsMissing(code, v);
      }
    }
  }

  /**
    What an accepted module becomes. Without masks each selection computes its two remainders and
    takes eight ids. With masks no remainder is computed, every mask that no constant holds takes an
    id, and a selection takes eight more, or two where the coordinates are read once, with four ids.
  */
  lemma Writes(level: Level, code: seq<Instr>) returns (missing: set<Word>)
    requires AllWellSized(code) && Recorded(code, 0)
    ensures forall v: Word :: v in missing <==> Masked(level, code) && Missing(code, v)
    ensures RewriteBody(level, code).Some?
    ensures var (out, st) := RewriteBody(level, code).value;
            && st.nextId == 2311 + |missing| + (if Masked(level, code) && level.Fused? then 14 else 40)
            && CountOp(out, 137) == CountOp(code, 137) + (if Masked(level, code) then 0 else 10)
  {
    hide Masked, Missing, Rewrite, Choose, Recorded, CountOp;
    AcceptsIff(level, code);
    MaskedIff(level, code);
    missing := ChoiceCounts(level, code);
    var choice := Choose(level, code);
    WalkSpends(choice.0, Start(choice), code);
    WalkCounts(choice.0, Start(choice), code);
  }

  // ---- A module to write ----

  function SampleStep(p: nat): Word {
    if p == 0 then 2 else if p == 1 then 4 else if p == 2 then 8 else if p == 3 then 16 else 32
  }

  function StepConstant(p: nat): (i: Instr)
    requires p < 5
    ensures WellSized(i) && IsUint(i) && i[2..] == [STEPS[p], SampleStep(p)]
  {
    var i := Emit(43, [10, STEPS[p], SampleStep(p)]);
    assert i[1..][1..] == i[2..];
    i
  }

  function Merge(k: nat): (i: Instr)
    requires k < 5
    ensures WellSized(i) && !IsUint(i) && SELECTIONS[k].Opens(i)
  {
    Emit(247, [SELECTIONS[k].merge, 0])
  }

  function Branch(k: nat): (i: Instr)
    requires k < 5
    ensures WellSized(i) && !IsUint(i) && SELECTIONS[k].Branches(i)
  {
    Emit(250, [SELECTIONS[k].condition, SELECTIONS[k].whenTrue, SELECTIONS[k].whenFalse])
  }

  /** Selections from the `k`-th on, each with its branch. */
  function Selections(k: nat): (code: seq<Instr>)
    requires k <= 5
    ensures AllWellSized(code) && forall j :: 0 <= j < |code| ==> !IsUint(code[j])
    decreases 5 - k
  {
    if k == 5 then [] else [Merge(k), Branch(k)] + Selections(k + 1)
  }

  function Steps(n: nat): (code: seq<Instr>)
    requires n <= 5
    ensures AllWellSized(code) && |code| == n && forall p :: 0 <= p < n ==> code[p] == StepConstant(p)
  {
    if n == 0 then [] else Steps(n - 1) + [StepConstant(n - 1)]
  }

  /** Five steps that are powers of two, and the five selections. */
  function Sample(): (code: seq<Instr>)
    ensures AllWellSized(code)
  {
    Steps(5) + Selections(0)
  }

  function SampleWords(): seq<Word> { [0x07230203, 0x10300, 0, 2311, 0] + Flatten(Sample()) }

  lemma {:induction false} SelectionsRecorded(k: nat)
    requires k <= 5
    ensures Recorded(Selections(k), k)
    decreases 5 - k
  {
    hide Recorded, Merge, Branch, Selection.Opens, Selection.Branches;
    if k == 5 {
      NothingRecorded(5);
    } else {
      SelectionsRecorded(k + 1);
      assert Selections(k)[2..] == Selections(k + 1);
      RecordedAt(Selections(k), k, 0);
    }
  }

  lemma {:induction false} StepsSkipped(n: nat, code: seq<Instr>)
    requires n <= 5 && Recorded(code, 0)
    ensures Recorded(Steps(n) + code, 0)
  {
    hide Recorded, StepConstant;
    if n == 0 {
      assert Steps(0) + code == code;
    } else {
      var i := StepConstant(n - 1);
      assert ([i] + code)[1..] == code;
      RecordedSkips([i] + code, 0);
      StepsSkipped(n - 1, [i] + code);
      assert Steps(n) + code == Steps(n - 1) + ([i] + code);
    }
  }

  lemma SampleDeclares(p: nat)
    requires p < 5
    ensures StepIsPower(Sample(), p)
  {
    hide StepConstant, Selections, Steps;
    var v := SampleStep(p);
    assert Sample()[p] == StepConstant(p) && IsUint(Sample()[p]);
    assert Declares(Sample(), STEPS[p], v);
    assert Pow2(1) == 2 && Pow2(2) == 4 && Pow2(3) == 8 && Pow2(4) == 16 && Pow2(5) == 32;
    assert v == Pow2(p + 1);
  }

  lemma SampleAt(k: nat)
    requires k < |Sample()|
    ensures IsUint(Sample()[k]) <==> k < 5
    ensures k < 5 ==> |Sample()[k]| == 4 && Sample()[k][2] == STEPS[k]
  {
    hide Selections, Steps;
    if k < 5 {
      assert Sample()[k] == StepConstant(k);
      assert StepConstant(k)[2..][0] == STEPS[k];
    } else {
      assert Sample()[k] == Selections(0)[k - 5];
    }
  }

  lemma SampleIsDistinct()
    ensures DistinctConstants(Sample())
  {
    hide Sample, IsUint;
    var code := Sample();
    forall k | 0 <= k < |code|
      ensures IsUint(code[k]) ==> k < 5 && |code[k]| == 4 && code[k][2] == STEPS[k]
    {
      SampleAt(k);
    }
  }

  /** The module is accepted at every level, and the later levels write it with masks. */
  lemma SampleIsWritten(level: Level)
    ensures RewriteModule(level, SampleWords()).Some?
    ensures Masked(level, Sample()) <==> !level.Canonical?
  {
    hide RewriteModule, Sample, Flatten, Recorded, StepIsPower, DistinctConstants, Selections, Steps;
    SelectionsRecorded(0);
    StepsSkipped(5, Selections(0));
    SampleIs();
    SampleIsModule();
    ModuleIff(level, SampleWords());
    SampleIsDistinct();
    forall p: nat | p < 5
      ensures StepIsPower(Sample(), p)
    {
      SampleDeclares(p);
    }
  }

  lemma SampleIsModule()
    requires Recorded(Sample(), 0)
    ensures RecordedModule(SampleWords())
  {
    hide Sample, Flatten, Recorded;
    assert SampleWords()[5..] == Flatten(Sample());
  }

  lemma SampleIs()
    ensures Sample() == Steps(5) + Selections(0)
  {
  }

  /** So there is a buffer on which a run reports success at every level, and it is changed. */
  lemma SampleApplies(level: Level)
    ensures Applied(level, "p_beta[4]", Bytes(SampleWords()), code => code == Bytes(SampleWords())).Some?
    ensures Applied(level, "p_beta[4]", Bytes(SampleWords()), code => code == Bytes(SampleWords())).value
            != Bytes(SampleWords())
  {
    hide RewriteModule, SampleWords, Bytes;
    SampleIsWritten(level);
    WordsBytes(SampleWords());
    SampleChanges(level);
  }

  lemma SampleChanges(level: Level)
    requires RewriteModule(level, SampleWords()).Some?
    ensures Bytes(RewriteModule(level, SampleWords()).value) != Bytes(SampleWords())
  {
    hide Bytes, RewriteBody, Tile, Recorded, Masked, Flatten, Sample, Missing, CountOp;
    var written := RewriteModule(level, SampleWords()).value;
    WordsBytes(SampleWords());
    WordsBytes(written);
    var code := Tile(SampleWords()[5..]).value;
    AcceptsIff(level, code);
    var missing := Writes(level, code);
    assert written[3] > 2311;
  }
}
