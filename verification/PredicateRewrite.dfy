/**
  The predicate rewriter for one reduction shader. It walks the instruction stream once, puts a
  fresh lane predicate in front of five recognised structured selections and redirects their
  branches to it. Three levels of the same pass exist: two remainders per selection, two masks
  per selection where every step is a power of two, and one mask of the union of both
  coordinates, which are then read once for the whole shader.
*/
module PredicateRewrite {
  import opened BitMasks
  import opened Options
  import opened SpirvStream

  const PREDICATES := 5
  const OLD_BOUND: Word := 2311
  const TARGET_SHADER := "p_beta[4]"

  const TYPE_V3_UINT: Word := 32
  const TYPE_UINT: Word := 10
  const TYPE_BOOL: Word := 61
  const LOCAL_INVOCATION_ID: Word := 34
  const ZERO: Word := 54

  const OLD_CONDITIONS: seq<Word> := [1080, 1353, 1617, 1880, 2143]
  const STEP_CONSTANTS: seq<Word> := [1007, 986, 1403, 1667, 1930]
  const MERGE_LABELS: seq<Word> := [1082, 1355, 1619, 1882, 2145]
  const TRUE_LABELS: seq<Word> := [1081, 1354, 1618, 1881, 2144]
  const FALSE_LABELS: seq<Word> := [1277, 1355, 1619, 1882, 2145]

  datatype Level = Canonical | Masked | Fused

  // ---- Which steps are powers of two, and which constants hold their masks ----

  predicate IsUintConstant(i: Instr) {
    |i| == 4 && Op(i) == OP_CONSTANT && i[1] == TYPE_UINT
  }

  /** The unsigned constants of a module by result id; none if an id is out of bound or reused. */
  function Table(code: seq<Instr>, seen: map<Word, Word>): Option<map<Word, Word>> {
    if code == [] then Some(seen)
    else if |code[0]| > 0 && IsUintConstant(code[0]) then
      var id := code[0][2];
      if id >= OLD_BOUND || id in seen then None
      else Table(code[1..], seen[id := code[0][3]])
    else Table(code[1..], seen)
  }

  /** The smallest id from `from` on that holds `value`, or 0. */
  function FirstHolding(table: map<Word, Word>, value: Word, from: Word): (id: Word)
    requires 1 <= from <= OLD_BOUND
    ensures id != 0 ==> from <= id < OLD_BOUND && id in table && table[id] == value
    decreases OLD_BOUND - from
  {
    if from == OLD_BOUND then 0
    else if from in table && table[from] == value then from
    else FirstHolding(table, value, from + 1)
  }

  predicate Reducible(table: map<Word, Word>, p: nat)
    requires p < PREDICATES
  {
    STEP_CONSTANTS[p] in table && PassesPowerTest(table[STEP_CONSTANTS[p]])
  }

  predicate AllReducible(table: map<Word, Word>) {
    forall p :: 0 <= p < PREDICATES ==> Reducible(table, p)
  }

  /** The value the mask of predicate `p` must have. */
  function MaskValue(table: map<Word, Word>, p: nat): Word
    requires p < PREDICATES && Reducible(table, p)
  {
    table[STEP_CONSTANTS[p]] - 1
  }

  // ---- Ids for masks no constant holds yet ----

  /** Mask ids by predicate, and the next fresh id. */
  datatype MaskPlan = MaskPlan(ids: seq<Word>, nextId: Word)

  /** An earlier predicate's fresh mask id for the same value, or 0. */
  function SharedMask(values: seq<Word>, ids: seq<Word>, value: Word, from: nat): (id: Word)
    requires from <= |ids| <= |values|
    ensures id != 0 ==>
              OLD_BOUND <= id && exists q :: from <= q < |ids| && ids[q] == id && values[q] == value
    decreases |ids| - from
  {
    if from == |ids| then 0
    else if values[from] == value && ids[from] >= OLD_BOUND then ids[from]
    else SharedMask(values, ids, value, from + 1)
  }

  /** Masks of the first `n` predicates: found, shared with an earlier predicate, or fresh. */
  function PlanMasks(table: map<Word, Word>, values: seq<Word>, n: nat): (plan: MaskPlan)
    requires n <= PREDICATES == |values|
    ensures |plan.ids| == n && OLD_BOUND <= plan.nextId <= OLD_BOUND + n
    ensures forall k :: 0 <= k < n ==> plan.ids[k] < plan.nextId
  {
    if n == 0 then MaskPlan([], OLD_BOUND)
    else
      var plan := PlanMasks(table, values, n - 1);
      var found := FirstHolding(table, values[n - 1], 1);
      var shared := SharedMask(values, plan.ids, values[n - 1], 0);
      if found != 0 then MaskPlan(plan.ids + [found], plan.nextId)
      else if shared != 0 then MaskPlan(plan.ids + [shared], plan.nextId)
      else MaskPlan(plan.ids + [plan.nextId], plan.nextId + 1)
  }

  /** Declarations of the fresh masks, each once, in order of first use. */
  function MaskConstants(ids: seq<Word>, values: seq<Word>, n: nat): (code: seq<Instr>)
    requires n <= |ids| == |values|
    ensures AllWellSized(code)
  {
    if n == 0 then []
    else if ids[n - 1] < OLD_BOUND || ids[n - 1] in ids[..n - 1] then MaskConstants(ids, values, n - 1)
    else MaskConstants(ids, values, n - 1)
         + [Emit(OP_CONSTANT, [TYPE_UINT, ids[n - 1], values[n - 1]])]
  }

  /** How predicates are written: by remainders, or by masks, fused or not. */
  datatype Plan =
    | Modulo
    | Masks(fused: bool, ids: seq<Word>, values: seq<Word>)
  {
    predicate Valid() { Masks? ==> |ids| == |values| == PREDICATES }
  }

  function MaskValues(table: map<Word, Word>): (values: seq<Word>)
    requires AllReducible(table)
    ensures |values| == PREDICATES
    ensures forall p :: 0 <= p < PREDICATES ==> values[p] == MaskValue(table, p)
  {
    seq(PREDICATES, p requires 0 <= p < PREDICATES => assert Reducible(table, p); MaskValue(table, p))
  }

  /** The plan a level chooses for a module, and the first id free for predicates. */
  function Choose(level: Level, code: seq<Instr>): (choice: (Plan, Word))
    ensures choice.0.Valid() && OLD_BOUND <= choice.1 <= OLD_BOUND + PREDICATES
  {
    var table := Table(code, map[]);
    if level.Canonical? || table.None? || !AllReducible(table.value) then (Modulo, OLD_BOUND)
    else
      var values := MaskValues(table.value);
      var plan := PlanMasks(table.value, values, PREDICATES);
      (Masks(level.Fused?, plan.ids, values), plan.nextId)
  }

  // ---- The walk ----

  /** Where the walk stands: selections done, ids used, and what the next instruction must be. */
  datatype State = State(
    index: nat, nextId: nat, pending: Option<Word>, masksInserted: bool, shared: Option<Word>)
  {
    predicate Valid() {
      && index <= PREDICATES
      && (pending.Some? ==> index < PREDICATES && OLD_BOUND <= pending.value < nextId)
      && (shared.Some? ==> OLD_BOUND <= shared.value < nextId)
      && OLD_BOUND <= nextId
      && nextId <= OLD_BOUND + PREDICATES + (if shared.Some? then 4 else 0)
                   + 8 * (if pending.Some? then index + 1 else index)
    }
  }

  /** Two tests, one per coordinate, by remainder or by mask. Uses eight ids from `n`. */
  function SeparateTests(op: nat, rhs: Word, n: Word): (code: seq<Instr>)
    requires op < 0x1_0000 && n + 8 < 0x1_0000_0000
    ensures AllWellSized(code) && |code| == 8
  {
    [Emit(OP_LOAD, [TYPE_V3_UINT, n, LOCAL_INVOCATION_ID]),
     Emit(OP_COMPOSITE_EXTRACT, [TYPE_UINT, n + 1, n, 0]),
     Emit(OP_COMPOSITE_EXTRACT, [TYPE_UINT, n + 2, n, 1]),
     Emit(op, [TYPE_UINT, n + 3, n + 1, rhs]),
     Emit(op, [TYPE_UINT, n + 4, n + 2, rhs]),
     Emit(OP_I_EQUAL, [TYPE_BOOL, n + 5, n + 3, ZERO]),
     Emit(OP_I_EQUAL, [TYPE_BOOL, n + 6, n + 4, ZERO]),
     Emit(OP_LOGICAL_AND, [TYPE_BOOL, n + 7, n + 5, n + 6])]
  }

  /** The coordinates and their union, read once. Uses four ids from `n`. */
  function Coordinates(n: Word): (code: seq<Instr>)
    requires n + 4 < 0x1_0000_0000
    ensures AllWellSized(code) && |code| == 4
  {
    [Emit(OP_LOAD, [TYPE_V3_UINT, n, LOCAL_INVOCATION_ID]),
     Emit(OP_COMPOSITE_EXTRACT, [TYPE_UINT, n + 1, n, 0]),
     Emit(OP_COMPOSITE_EXTRACT, [TYPE_UINT, n + 2, n, 1]),
     Emit(OP_BITWISE_OR, [TYPE_UINT, n + 3, n + 1, n + 2])]
  }

  /** One test of the union against a mask. Uses two ids from `n`. */
  function FusedTest(union: Word, mask: Word, n: Word): (code: seq<Instr>)
    requires n + 2 < 0x1_0000_0000
    ensures AllWellSized(code) && |code| == 2
  {
    [Emit(OP_BITWISE_AND, [TYPE_UINT, n, union, mask]),
     Emit(OP_I_EQUAL, [TYPE_BOOL, n + 1, n, ZERO])]
  }

  /** The code that computes the predicate of selection `st.index`, and the state after it. */
  function Predicate(plan: Plan, st: State): (r: (seq<Instr>, State))
    requires plan.Valid() && st.Valid() && st.pending.None? && st.index < PREDICATES
    ensures AllWellSized(r.0) && r.1.Valid() && r.1.pending.Some?
    ensures r.1.index == st.index && r.1.masksInserted == st.masksInserted
  {
    if plan.Masks? && plan.fused then
      var n := if st.shared.Some? then st.nextId else st.nextId + 4;
      var union := if st.shared.Some? then st.shared.value else st.nextId + 3;
      ((if st.shared.Some? then [] else Coordinates(st.nextId))
       + FusedTest(union, plan.ids[st.index], n),
       State(st.index, n + 2, Some(n + 1), st.masksInserted, Some(union)))
    else
      (SeparateTests(if plan.Masks? then OP_BITWISE_AND else OP_U_MOD,
                     if plan.Masks? then plan.ids[st.index] else STEP_CONSTANTS[st.index],
                     st.nextId),
       st.(nextId := st.nextId + 8, pending := Some(st.nextId + 7)))
  }

  predicate OpensSelection(st: State, i: Instr)
    requires |i| > 0
  {
    Op(i) == OP_SELECTION_MERGE && |i| == 3 && st.index < PREDICATES && i[1] == MERGE_LABELS[st.index]
  }

  /** The recorded branch of selection `index`. */
  predicate ExpectedBranch(index: nat, i: Instr)
    requires |i| > 0 && index < PREDICATES
  {
    && Op(i) == OP_BRANCH_CONDITIONAL && |i| == 4
    && i[1] == OLD_CONDITIONS[index] && i[2] == TRUE_LABELS[index] && i[3] == FALSE_LABELS[index]
  }

  predicate NeedsMasks(plan: Plan, st: State, i: Instr)
    requires |i| > 0
  {
    plan.Masks? && !st.masksInserted && Op(i) == OP_FUNCTION
  }

  /** Whether the walk may go on: a selection is not nested, and its branch comes right after it. */
  predicate Accepts(st: State, i: Instr)
    requires st.Valid() && |i| > 0
  {
    st.pending.Some? ==> !OpensSelection(st, i) && ExpectedBranch(st.index, i)
  }

  /** The code put in front of an instruction. */
  function Before(plan: Plan, st: State, i: Instr): (code: seq<Instr>)
    requires plan.Valid() && st.Valid() && |i| > 0 && Accepts(st, i)
    ensures AllWellSized(code)
  {
    if NeedsMasks(plan, st, i) then MaskConstants(plan.ids, plan.values, PREDICATES)
    else if OpensSelection(st, i) then Predicate(plan, st).0
    else []
  }

  /** The instruction itself: unchanged, or the pending selection's branch on its new condition. */
  function Image(st: State, i: Instr): (image: Instr)
    requires st.Valid() && WellSized(i) && Accepts(st, i)
    ensures WellSized(image)
  {
    if st.pending.Some? then [i[0], st.pending.value, i[2], i[3]] else i
  }

  function Next(plan: Plan, st: State, i: Instr): (next: State)
    requires plan.Valid() && st.Valid() && |i| > 0 && Accepts(st, i)
    ensures next.Valid()
    ensures next.index == if st.pending.Some? then st.index + 1 else st.index
  {
    if NeedsMasks(plan, st, i) then st.(masksInserted := true)
    else if OpensSelection(st, i) then Predicate(plan, st).1
    else if st.pending.Some? then st.(index := st.index + 1, pending := None)
    else st
  }

  function Rewrite(plan: Plan, st: State, code: seq<Instr>): (r: Option<(seq<Instr>, State)>)
    requires plan.Valid() && st.Valid() && AllWellSized(code)
    ensures r.Some? ==> r.value.1.Valid() && AllWellSized(r.value.0)
    decreases |code|
  {
    if code == [] then Some(([], st))
    else
      assert WellSized(code[0]);
      if !Accepts(st, code[0]) then None
      else
        match Rewrite(plan, Next(plan, st, code[0]), code[1..])
        case None => None
        case Some((rest, last)) =>
          Some((Before(plan, st, code[0]) + [Image(st, code[0])] + rest, last))
  }

  predicate Complete(plan: Plan, st: State) {
    && st.index == PREDICATES && st.pending.None?
    && (plan.Masks? && plan.fused ==> st.shared.Some?)
  }

  function Start(choice: (Plan, Word)): (st: State)
    requires choice.0.Valid() && OLD_BOUND <= choice.1 <= OLD_BOUND + PREDICATES
    ensures st.Valid()
  {
    State(0, choice.1, None, choice.1 == OLD_BOUND, None)
  }

  /** The rewritten body and its state, for a body of whole instructions. */
  function RewriteBody(level: Level, code: seq<Instr>): (r: Option<(seq<Instr>, State)>)
    requires AllWellSized(code)
    ensures r.Some? ==> r.value.1.Valid() && AllWellSized(r.value.0)
  {
    var choice := Choose(level, code);
    match Rewrite(choice.0, Start(choice), code)
    case None => None
    case Some((out, st)) => if Complete(choice.0, st) then Some((out, st)) else None
  }

  /** The rewritten module; none when any check fails. */
  function RewriteModule(level: Level, words: seq<Word>): Option<seq<Word>> {
    if |words| < HEADER_WORDS || words[0] != MAGIC || words[BOUND_WORD] != OLD_BOUND then None
    else
      match Tile(words[HEADER_WORDS..])
      case None => None
      case Some(code) =>
        match RewriteBody(level, code)
        case None => None
        case Some((out, st)) => Some(words[..HEADER_WORDS][BOUND_WORD := st.nextId] + Flatten(out))
  }
}
