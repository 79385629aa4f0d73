/**
  The fusion of a shader's last two reduction levels: everything between the fourth barrier and the
  return of a recognised module is replaced by code that needs no fifth barrier. The result is
  checked again from its words before it replaces the module.
*/
module TailFusion {
  import opened BitMasks
  import opened Options
  import opened SpirvStream

  const BASELINE_BYTES := 28832
  const BASELINE_BOUND: Word := 1270
  const APPLIED_MAGIC: Word := 0xb1400001
  const TYPE_UINT: Word := 10
  const WORKGROUP_ARRAY: Word := 39
  const EXECUTION_MODE_LOCAL_SIZE: Word := 17
  const EXECUTION_MODEL_GL_COMPUTE: Word := 5
  const CAPABILITY_GROUP_NON_UNIFORM: Word := 61
  const CAPABILITY_GROUP_NON_UNIFORM_BALLOT: Word := 64
  const DECORATION_BUILT_IN: Word := 11
  const BUILT_IN_SUBGROUP_ID: Word := 40
  const BUILT_IN_SUBGROUP_LOCAL_INVOCATION_ID: Word := 41
  const STORAGE_CLASS_INPUT: Word := 1

  const NEW_IDS := 69

  // ---- What is counted in a module ----

  predicate IsLocalSize32(i: Instr) {
    && |i| == 6 && Op(i) == OP_EXECUTION_MODE && i[2] == EXECUTION_MODE_LOCAL_SIZE
    && i[3] == 32 && i[4] == 32 && i[5] == 1
  }

  function CountLocalSize(code: seq<Instr>): nat {
    if code == [] then 0 else (if IsLocalSize32(code[0]) then 1 else 0) + CountLocalSize(code[1..])
  }

  predicate IsMagic(i: Instr) {
    |i| == 4 && Op(i) == OP_CONSTANT && i[1] == TYPE_UINT && i[3] == APPLIED_MAGIC
  }

  predicate HasMagic(code: seq<Instr>) { exists k :: 0 <= k < |code| && IsMagic(code[k]) }

  predicate IsCapability(i: Instr) { |i| == 2 && Op(i) == OP_CAPABILITY }

  function Capabilities(code: seq<Instr>): multiset<Word> {
    if code == [] then multiset{}
    else (if IsCapability(code[0]) then multiset{code[0][1]} else multiset{}) + Capabilities(code[1..])
  }

  /** Loads and stores through pointers into the workgroup array, and those pointers. */
  datatype Access = Access(pointers: set<Word>, loads: nat, stores: nat)
  {
    function After(i: Instr): Access
      requires |i| > 0
    {
      if Op(i) in {OP_ACCESS_CHAIN, OP_IN_BOUNDS_ACCESS_CHAIN} && |i| >= 4 && i[3] in pointers then
        this.(pointers := pointers + {i[2]})
      else if Op(i) == OP_LOAD && |i| >= 4 && i[3] in pointers then this.(loads := loads + 1)
      else if Op(i) == OP_STORE && |i| >= 3 && i[1] in pointers then this.(stores := stores + 1)
      else this
    }
  }

  function Accesses(code: seq<Instr>, from: Access): Access
    requires AllWellSized(code)
  {
    if code == [] then from else assert WellSized(code[0]); Accesses(code[1..], from.After(code[0]))
  }

  const NO_ACCESS := Access({WORKGROUP_ARRAY}, 0, 0)

  predicate AccessCounts(code: seq<Instr>, loads: nat, stores: nat)
    requires AllWellSized(code)
  {
    var a := Accesses(code, NO_ACCESS);
    a.loads == loads && a.stores == stores
  }

  // ---- Recognising a module ----

  predicate IsSpirv(words: seq<Word>) {
    |words| >= HEADER_WORDS && words[0] == MAGIC
    && var code := Tile(words[HEADER_WORDS..]); code.Some? && code.value != []
  }

  function Body(words: seq<Word>): (code: seq<Instr>)
    requires IsSpirv(words)
    ensures AllWellSized(code) && code != []
  {
    Tile(words[HEADER_WORDS..]).value
  }

  predicate IsBaseline(code: seq<Instr>)
    requires AllWellSized(code)
  {
    && CountOp(code, OP_CONTROL_BARRIER) == 5 && CountOp(code, OP_IMAGE_WRITE) == 10
    && AccessCounts(code, 15, 5)
    && Capabilities(code) == multiset{1, 50, 56, 5345}
    && CountLocalSize(code) == 1
  }

  predicate IsFused(code: seq<Instr>)
    requires AllWellSized(code)
  {
    && CountOp(code, OP_CONTROL_BARRIER) == 4 && CountOp(code, OP_IMAGE_WRITE) == 10
    && CountOp(code, OP_GROUP_NON_UNIFORM_BROADCAST) == 4
    && AccessCounts(code, 12, 4)
    && Capabilities(code) == multiset{1, 50, 56, 61, 64, 5345}
    && CountLocalSize(code) == 1
  }

  // ---- Where to cut ----

  /** The position of the first instruction with `op` from `from` on, or the length. */
  function FirstOp(code: seq<Instr>, op: nat, from: nat): (k: nat)
    requires AllWellSized(code) && from <= |code|
    ensures from <= k <= |code|
    ensures k < |code| ==> WellSized(code[k]) && Op(code[k]) == op
    decreases |code| - from
  {
    if from == |code| || (assert WellSized(code[from]); Op(code[from]) == op) then from
    else FirstOp(code, op, from + 1)
  }

  /** The position after the last instruction with `op` before `to`, or 0. */
  function AfterLastOp(code: seq<Instr>, op: nat, to: nat): (k: nat)
    requires AllWellSized(code) && to <= |code|
    ensures k <= to
    ensures k > 0 ==> WellSized(code[k - 1]) && Op(code[k - 1]) == op
  {
    if to == 0 || (assert WellSized(code[to - 1]); Op(code[to - 1]) == op) then to
    else AfterLastOp(code, op, to - 1)
  }

  /** The positions of the instructions with `op` from `from` on, in order. */
  function Positions(code: seq<Instr>, op: nat, from: nat): (ps: seq<nat>)
    requires AllWellSized(code) && from <= |code|
    ensures forall j :: 0 <= j < |ps| ==> from <= ps[j] < |code| && WellSized(code[ps[j]]) && Op(code[ps[j]]) == op
    ensures forall j, k :: 0 <= j < k < |ps| ==> ps[j] < ps[k]
    decreases |code| - from
  {
    if from == |code| then []
    else
      assert WellSized(code[from]);
      (if Op(code[from]) == op then [from] else []) + Positions(code, op, from + 1)
  }

  lemma NoPositions(code: seq<Instr>, op: nat)
    requires AllWellSized(code)
    ensures Positions(code, op, |code|) == []
  {
  }

  lemma PositionsStep(code: seq<Instr>, op: nat, k: nat)
    requires AllWellSized(code) && k < |code|
    ensures WellSized(code[k])
    ensures Positions(code, op, k) == (if Op(code[k]) == op then [k] else []) + Positions(code, op, k + 1)
  {
  }

  /** First function, first type, end of the kept body, label before it, and the kept return. */
  datatype Anchors = Anchors(function_: nat, type_: nat, keptEnd: nat, labelWord: nat, return_: nat)

  /** Word position of instruction `k` of a body. */
  function Offset(code: seq<Instr>, k: nat): nat
    requires k <= |code|
  {
    HEADER_WORDS + |Flatten(code[..k])|
  }

  datatype Found = Found(anchors: Anchors) | NoControlFlow | NoTail

  function FindAnchors(code: seq<Instr>): (found: Found)
    requires AllWellSized(code)
    ensures found.Found? ==>
              var a := found.anchors;
              && a.function_ < |code| && a.type_ < |code| && a.keptEnd < a.return_ < |code|
              && |Positions(code, OP_CONTROL_BARRIER, 0)| == 5
              && Positions(code, OP_CONTROL_BARRIER, 0)[3] + 1 == a.keptEnd
              && Positions(code, OP_CONTROL_BARRIER, 0)[4] < a.return_
              && Op(code[a.function_]) == OP_FUNCTION && Op(code[a.return_]) == OP_RETURN
              && a.labelWord < Offset(code, a.keptEnd)
  {
    var f, t := FirstOp(code, OP_FUNCTION, 0), FirstOp(code, OP_TYPE_VOID, 0);
    var barriers := Positions(code, OP_CONTROL_BARRIER, 0);
    if f == |code| || t == |code| || |barriers| != 5 then NoControlFlow
    else
      var fourth := barriers[3];
      var r := FirstOp(code, OP_RETURN, barriers[4] + 1);
      var afterLabel := AfterLastOp(code, OP_LABEL, fourth + 1);
      if r == |code| || afterLabel == 0 then NoTail
      else
        OffsetGrows(code, afterLabel - 1, fourth + 1);
        Found(Anchors(f, t, fourth + 1, Offset(code, afterLabel - 1), r))
  }

  lemma OffsetGrows(code: seq<Instr>, j: nat, k: nat)
    requires AllWellSized(code) && j < k <= |code|
    ensures Offset(code, j) + |code[j]| <= Offset(code, k)
    ensures |code[j]| > 0
  {
    assert WellSized(code[j]);
    assert code[..k] == code[..j] + code[j..k];
    FlattenAppend(code[..j], code[j..k]);
    assert Flatten(code[j..k]) == code[j] + Flatten(code[j..k][1..]);
  }

  // ---- What is written ----

  predicate Widens(i: Instr) {
    |i| >= 4 && Op(i) == OP_ENTRY_POINT && i[1] == EXECUTION_MODEL_GL_COMPUTE
  }

  /** An entry point that also lists the two new inputs. */
  function Widened(i: Instr, n: Word): (wider: Instr)
    requires WellSized(i) && |i| + 2 < 0x1_0000 && n + NEW_IDS < 0x1_0000_0000
    ensures WellSized(wider) && Op(wider) == Op(i)
  {
    if Widens(i) then [Pack(|i| + 2, OP_ENTRY_POINT)] + i[1..] + [n + 2, n + 3] else i
  }

  function NewCapabilities(): (code: seq<Instr>)
    ensures AllWellSized(code)
  {
    [Emit(OP_CAPABILITY, [CAPABILITY_GROUP_NON_UNIFORM]),
     Emit(OP_CAPABILITY, [CAPABILITY_GROUP_NON_UNIFORM_BALLOT])]
  }

  function NewDecorations(n: Word): (code: seq<Instr>)
    requires n + NEW_IDS < 0x1_0000_0000
    ensures AllWellSized(code)
  {
    [Emit(OP_DECORATE, [n + 2, DECORATION_BUILT_IN, BUILT_IN_SUBGROUP_ID]),
     Emit(OP_DECORATE, [n + 3, DECORATION_BUILT_IN, BUILT_IN_SUBGROUP_LOCAL_INVOCATION_ID])]
  }

  predicate Short(code: seq<Instr>) { forall k :: 0 <= k < |code| ==> |code[k]| + 2 < 0x1_0000 }

  /** One instruction of the prologue, with what goes in front of it. */
  function PrologueStep(i: Instr, isFirstType: bool, adds: bool, n: Word): (out: seq<Instr>)
    requires WellSized(i) && |i| + 2 < 0x1_0000 && n + NEW_IDS < 0x1_0000_0000
    ensures AllWellSized(out)
  {
    (if adds then NewCapabilities() else [])
    + (if isFirstType then NewDecorations(n) else [])
    + [Widened(i, n)]
  }

  /** Capabilities go before the first other instruction, decorations before the first type. */
  function Prologue(code: seq<Instr>, k: nat, last: nat, firstType: nat, added: bool, n: Word): (out: seq<Instr>)
    requires AllWellSized(code) && Short(code) && k <= last <= |code| && n + NEW_IDS < 0x1_0000_0000
    ensures AllWellSized(out)
    decreases |code| - k
  {
    if k == last then []
    else
      assert WellSized(code[k]);
      var adds := !added && Op(code[k]) != OP_CAPABILITY;
      PrologueStep(code[k], k == firstType, adds, n) + Prologue(code, k + 1, last, firstType, added || adds, n)
  }

  /** Both kinds of declaration find their place in front of the first function. */
  predicate PrologueComplete(code: seq<Instr>, last: nat, firstType: nat)
    requires AllWellSized(code) && last <= |code|
  {
    firstType < last && exists k :: 0 <= k < last && WellSized(code[k]) && Op(code[k]) != OP_CAPABILITY
  }

  function Declarations(n: Word): (code: seq<Instr>)
    requires n + NEW_IDS < 0x1_0000_0000
    ensures AllWellSized(code)
  {
    [Emit(OP_TYPE_POINTER, [n + 1, STORAGE_CLASS_INPUT, TYPE_UINT]),
     Emit(OP_CONSTANT, [TYPE_UINT, n, APPLIED_MAGIC]),
     Emit(OP_CONSTANT, [TYPE_UINT, n + 4, 256]),
     Emit(OP_CONSTANT, [TYPE_UINT, n + 5, 264]),
     Emit(OP_CONSTANT, [TYPE_UINT, n + 6, 512]),
     Emit(OP_VARIABLE, [n + 1, n + 2, STORAGE_CLASS_INPUT]),
     Emit(OP_VARIABLE, [n + 1, n + 3, STORAGE_CLASS_INPUT])]
  }

  /** Lane position and whether the lane takes part. */
  function LaneCode(n: Word): (code: seq<Instr>)
    requires n + NEW_IDS < 0x1_0000_0000
    ensures AllWellSized(code)
  {
    [Emit(OP_LOAD, [32, n + 7, 34]),
     Emit(OP_LOAD, [32, n + 8, 35]),
     Emit(OP_I_SUB, [32, n + 9, n + 8, n + 7]),
     Emit(OP_LOAD, [10, n + 10, n + 2]),
     Emit(OP_LOAD, [10, n + 11, n + 3]),
     Emit(OP_I_EQUAL, [48, n + 12, n + 10, 40]),
     Emit(OP_U_LESS_THAN, [48, n + 13, n + 11, 699]),
     Emit(OP_LOGICAL_AND, [48, n + 14, n + 12, n + 13]),
     Emit(OP_BITCAST, [8, n + 15, 606]),
     Emit(OP_VECTOR_SHUFFLE, [63, n + 16, n + 9, n + 9, 0, 1, 1, 1])]
  }

  function RoleCode(n: Word): (code: seq<Instr>)
    requires n + NEW_IDS < 0x1_0000_0000
    ensures AllWellSized(code)
  {
    [Emit(OP_SELECTION_MERGE, [n + 18, 0]),
     Emit(OP_BRANCH_CONDITIONAL, [n + 14, n + 17, n + 18]),
     Emit(OP_LABEL, [n + 17]),
     Emit(OP_BITWISE_AND, [10, n + 19, n + 11, 67]),
     Emit(OP_SHIFT_RIGHT_LOGICAL, [10, n + 20, n + 11, 67]),
     Emit(OP_I_MUL, [10, n + 21, n + 19, n + 6]),
     Emit(OP_I_MUL, [10, n + 22, n + 20, 960]),
     Emit(OP_I_ADD, [10, n + 23, n + 21, n + 22]),
     Emit(OP_LOAD, [9, n + 24, 59]),
     Emit(OP_COMPOSITE_EXTRACT, [8, n + 25, n + 24, 1])]
  }

  /** A workgroup load at an index from the base; four ids from `at`. */
  function LoadShared(n: Word, at: Word, index: Word): (code: seq<Instr>)
    requires n + NEW_IDS < 0x1_0000_0000 && at + 4 < 0x1_0000_0000
    ensures AllWellSized(code)
  {
    [Emit(OP_I_ADD, [10, at, n + 23, index]),
     Emit(OP_ACCESS_CHAIN, [628, at + 1, WORKGROUP_ARRAY, at]),
     Emit(OP_LOAD, [10, at + 2, at + 1, 32]),
     Emit(OP_BITCAST, [8, at + 3, at + 2])]
  }

  function Mip5Code(n: Word): (code: seq<Instr>)
    requires n + NEW_IDS < 0x1_0000_0000
    ensures AllWellSized(code)
  {
    [Emit(OP_F_ADD, [8, n + 38, n + 29, n + 25]),
     Emit(OP_F_ADD, [8, n + 39, n + 33, n + 38]),
     Emit(OP_F_ADD, [8, n + 40, n + 37, n + 39]),
     Emit(OP_F_MUL, [8, n + 41, n + 40, n + 15]),
     Emit(OP_SHIFT_RIGHT_LOGICAL, [63, n + 42, n + 16, 1144]),
     Emit(OP_BITCAST, [65, n + 43, n + 42]),
     Emit(OP_VECTOR_SHUFFLE, [558, n + 44, n + 43, n + 43, 0, 1]),
     Emit(OP_BITCAST, [41, n + 45, n + 19]),
     Emit(OP_BITCAST, [41, n + 46, n + 20]),
     Emit(OP_COMPOSITE_CONSTRUCT, [558, n + 47, n + 45, n + 46]),
     Emit(OP_I_ADD, [558, n + 48, n + 44, n + 47]),
     Emit(OP_COMPOSITE_CONSTRUCT, [9, n + 49, n + 41, n + 41, n + 41, n + 41]),
     Emit(OP_LOAD, [23, n + 50, 30])]
  }

  function JoinCode(n: Word, preTail: Word): (code: seq<Instr>)
    requires n + NEW_IDS < 0x1_0000_0000
    ensures AllWellSized(code)
  {
    [Emit(OP_BRANCH, [n + 18]),
     Emit(OP_LABEL, [n + 18]),
     Emit(OP_PHI, [8, n + 51, n + 41, n + 17, 55, preTail])]
  }

  function Broadcasts(n: Word): (code: seq<Instr>)
    requires n + NEW_IDS < 0x1_0000_0000
    ensures AllWellSized(code)
  {
    [Emit(OP_GROUP_NON_UNIFORM_BROADCAST, [8, n + 52, 644, n + 51, 40]),
     Emit(OP_GROUP_NON_UNIFORM_BROADCAST, [8, n + 53, 644, n + 51, 67]),
     Emit(OP_GROUP_NON_UNIFORM_BROADCAST, [8, n + 54, 644, n + 51, 11]),
     Emit(OP_GROUP_NON_UNIFORM_BROADCAST, [8, n + 55, 644, n + 51, 644])]
  }

  function Mip6Code(n: Word): (code: seq<Instr>)
    requires n + NEW_IDS < 0x1_0000_0000
    ensures AllWellSized(code)
  {
    [Emit(OP_I_EQUAL, [48, n + 56, n + 11, 40]),
     Emit(OP_LOGICAL_AND, [48, n + 57, n + 12, n + 56]),
     Emit(OP_SELECTION_MERGE, [n + 59, 0]),
     Emit(OP_BRANCH_CONDITIONAL, [n + 57, n + 58, n + 59]),
     Emit(OP_LABEL, [n + 58]),
     Emit(OP_F_ADD, [8, n + 60, n + 53, n + 52]),
     Emit(OP_F_ADD, [8, n + 61, n + 54, n + 60]),
     Emit(OP_F_ADD, [8, n + 62, n + 55, n + 61]),
     Emit(OP_F_MUL, [8, n + 63, n + 62, n + 15]),
     Emit(OP_SHIFT_RIGHT_LOGICAL, [63, n + 64, n + 16, 1259]),
     Emit(OP_BITCAST, [65, n + 65, n + 64]),
     Emit(OP_VECTOR_SHUFFLE, [558, n + 66, n + 65, n + 65, 0, 1]),
     Emit(OP_COMPOSITE_CONSTRUCT, [9, n + 67, n + 63, n + 63, n + 63, n + 63]),
     Emit(OP_LOAD, [23, n + 68, 31])]
  }

  function CloseCode(n: Word): (code: seq<Instr>)
    requires n + NEW_IDS < 0x1_0000_0000
    ensures AllWellSized(code)
  {
    [Emit(OP_BRANCH, [n + 59]),
     Emit(OP_LABEL, [n + 59])]
  }

  function ImageWrite(image: Word, coordinate: Word, texel: Word): (code: seq<Instr>)
    ensures AllWellSized(code)
  {
    [Emit(OP_IMAGE_WRITE, [image, coordinate, texel])]
  }

  /** The level-five half of the new tail, up to its image write. */
  function TailHead(n: Word): (code: seq<Instr>)
    requires n + NEW_IDS < 0x1_0000_0000
    ensures AllWellSized(code)
  {
    LaneCode(n) + RoleCode(n) + LoadShared(n, n + 26, n + 4) + LoadShared(n, n + 30, 819)
    + LoadShared(n, n + 34, n + 5) + Mip5Code(n)
  }

  function Tail(n: Word, preTail: Word): (code: seq<Instr>)
    requires n + NEW_IDS < 0x1_0000_0000
    ensures AllWellSized(code)
  {
    TailHead(n) + ImageWrite(n + 50, n + 48, n + 49) + JoinCode(n, preTail) + Broadcasts(n)
    + Mip6Code(n) + ImageWrite(n + 68, n + 66, n + 67) + CloseCode(n)
  }

  /** The body between the first function and the cut. Nothing is left of it if the cut is earlier. */
  function Kept(code: seq<Instr>, a: Anchors): (kept: seq<Instr>)
    requires AllWellSized(code) && a.function_ <= |code| && a.keptEnd <= |code|
    ensures AllWellSized(kept)
  {
    if a.function_ <= a.keptEnd then code[a.function_..a.keptEnd] else []
  }

  function Candidate(code: seq<Instr>, a: Anchors, preTail: Word, n: Word): (out: seq<Instr>)
    requires AllWellSized(code) && Short(code) && n + NEW_IDS < 0x1_0000_0000
    requires a.function_ <= |code| && a.keptEnd <= |code| && a.return_ <= |code|
    ensures AllWellSized(out)
  {
    Prologue(code, 0, a.function_, a.type_, false, n) + Declarations(n) + Kept(code, a)
    + Tail(n, preTail) + code[a.return_..]
  }

  // ---- The whole pass ----

  datatype Reason =
    | InvalidSpirv | AlreadyApplied | CandidateFingerprint | BaselineFingerprint | BaselineStructure
    | ControlFlowAnchor | TailAnchor | DeclarationAnchor | CandidateInvalid | CandidateBarriers
    | CandidateWrites | CandidateBroadcasts | CandidateAccesses | CandidateCapabilities
    | CandidateLocalSize | CandidateMarker | Applied

  /** The checks made on the instructions read back, in their order. */
  function CheckBody(code: seq<Instr>): Reason
    requires AllWellSized(code)
  {
    if CountOp(code, OP_CONTROL_BARRIER) != 4 then CandidateBarriers
    else if CountOp(code, OP_IMAGE_WRITE) != 10 then CandidateWrites
    else if CountOp(code, OP_GROUP_NON_UNIFORM_BROADCAST) != 4 then CandidateBroadcasts
    else if !AccessCounts(code, 12, 4) then CandidateAccesses
    else if Capabilities(code) != multiset{1, 50, 56, 61, 64, 5345} then CandidateCapabilities
    else if CountLocalSize(code) != 1 then CandidateLocalSize
    else if !HasMagic(code) then CandidateMarker
    else Applied
  }

  function Check(words: seq<Word>): Reason {
    if !IsSpirv(words) then CandidateInvalid else CheckBody(Body(words))
  }

  lemma {:induction false} BoundedMeansShort(code: seq<Instr>)
    requires AllWellSized(code) && |Flatten(code)| < 0x1_0000 - 2
    ensures Short(code)
  {
    if code != [] {
      BoundedMeansShort(code[1..]);
      assert forall k :: 1 <= k < |code| ==> code[k] == code[1..][k - 1];
    }
  }

  /** The anchors lie inside the module, and no instruction is too long to be widened. */
  predicate CandidateFitsAt(words: seq<Word>, a: Anchors)
    requires IsSpirv(words)
  {
    && Short(Body(words)) && a.labelWord + 1 < |words|
    && a.function_ <= |Body(words)| && a.keptEnd <= |Body(words)| && a.return_ <= |Body(words)|
  }

  lemma CandidateFits(words: seq<Word>, a: Anchors)
    requires IsSpirv(words) && |words| == BASELINE_BYTES / 4
    requires FindAnchors(Body(words)) == Found(a)
    ensures CandidateFitsAt(words, a)
  {
    hide Positions;
    var code := Body(words);
    FlattenTile(words[HEADER_WORDS..]);
    BoundedMeansShort(code);
    OffsetGrows(code, a.keptEnd, |code|);
    assert code[..|code|] == code;
  }

  /** The words written for a module with known anchors. */
  function CandidateWords(words: seq<Word>, code: seq<Instr>, a: Anchors): seq<Word>
    requires |words| >= HEADER_WORDS && AllWellSized(code) && Short(code) && a.labelWord + 1 < |words|
    requires a.function_ <= |code| && a.keptEnd <= |code| && a.return_ <= |code|
    requires words[BOUND_WORD] + NEW_IDS < 0x1_0000_0000
  {
    words[..HEADER_WORDS][BOUND_WORD := words[BOUND_WORD] + NEW_IDS]
    + Flatten(Candidate(code, a, words[a.labelWord + 1], words[BOUND_WORD]))
  }

  /** How the attempt on a recognised module ends, and the words it wrote if all checks pass. */
  function Attempt(words: seq<Word>): (Reason, seq<Word>)
    requires IsSpirv(words) && |words| == BASELINE_BYTES / 4
    requires words[BOUND_WORD] + NEW_IDS < 0x1_0000_0000
  {
    match FindAnchors(Body(words))
    case NoControlFlow => (ControlFlowAnchor, words)
    case NoTail => (TailAnchor, words)
    case Found(a) =>
      if !PrologueComplete(Body(words), a.function_, a.type_) then (DeclarationAnchor, words)
      else
        CandidateFits(words, a);
        var out := CandidateWords(words, Body(words), a);
        (Check(out), out)
  }

  /** Why a run ends as it does, and the bytes it leaves. */
  function Fuse(code: seq<Byte>, fingerprint: seq<Byte> -> bool): (r: (Reason, seq<Byte>))
    ensures r.0 != Applied ==> r.1 == code
  {
    var words := Words(code);
    if |code| % 4 != 0 || !IsSpirv(words) then (InvalidSpirv, code)
    else
      var body := Body(words);
      if HasMagic(body) then (if IsFused(body) then AlreadyApplied else CandidateFingerprint, code)
      else if |code| != BASELINE_BYTES || words[BOUND_WORD] != BASELINE_BOUND || !fingerprint(code) then
        (BaselineFingerprint, code)
      else if !IsBaseline(body) then (BaselineStructure, code)
      else
        var (reason, out) := Attempt(words);
        (reason, if reason == Applied then Bytes(out) else code)
  }

  // ---- Running it again ----

  /**
    Whenever the pass applies, running it again reports that it has been applied and leaves the
    bytes alone, whatever fingerprint is asked for.
  */
  lemma FuseIsIdempotent(code: seq<Byte>, fingerprint: seq<Byte> -> bool, other: seq<Byte> -> bool)
    requires Fuse(code, fingerprint).0 == Applied
    ensures Fuse(Fuse(code, fingerprint).1, other) == (AlreadyApplied, Fuse(code, fingerprint).1)
  {
    hide Attempt, IsSpirv, Body, Check, IsFused, HasMagic, IsBaseline, Words, Bytes;
    var out := Attempt(Words(code)).1;
    AppliedIsFused(Words(code));
    WordsBytes(out);
  }

  /** An attempt is only reported as applied when its words show a fused module. */
  lemma AppliedIsFused(words: seq<Word>)
    requires IsSpirv(words) && |words| == BASELINE_BYTES / 4
    requires words[BOUND_WORD] + NEW_IDS < 0x1_0000_0000
    requires Attempt(words).0 == Applied
    ensures var out := Attempt(words).1; IsSpirv(out) && HasMagic(Body(out)) && IsFused(Body(out))
  {
    hide Candidate, CandidateWords, FindAnchors, HasMagic, CountOp, CountLocalSize, AccessCounts, Capabilities,
         Tile, PrologueComplete;
  }
}
