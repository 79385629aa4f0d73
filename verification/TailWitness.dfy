/** A module the fusion applies to, so that what is proved about applied runs is about some run. */
module TailWitness {
  import opened BitMasks
  import opened Options
  import opened SpirvStream
  import opened TailFusion
  import opened TailChecks

  const LENGTH := 45
  const FILLER := 7092

  /** Declarations, nine loads, four stores, eight writes, four barriers, and then the part that is cut. */
  function At(k: nat): (i: Instr)
    requires k < LENGTH
    ensures WellSized(i)
  {
    if k < 4 then Emit(OP_CAPABILITY, [[1, 50, 56, 5345][k]])
    else if k == 4 then Emit(OP_EXECUTION_MODE, [4, EXECUTION_MODE_LOCAL_SIZE, 32, 32, 1])
    else if k == 5 then Emit(OP_TYPE_VOID, [2])
    else if k == 6 then Emit(OP_FUNCTION, [])
    else if k == 7 then Emit(OP_LABEL, [55])
    else if k < 17 || 33 <= k < 39 then Emit(OP_LOAD, [TYPE_UINT, 100, WORKGROUP_ARRAY])
    else if k < 21 || k == 39 then Emit(OP_STORE, [WORKGROUP_ARRAY, 100])
    else if k < 29 || 40 <= k < 42 then Emit(OP_IMAGE_WRITE, [])
    else if k < 33 || k == 42 then Emit(OP_CONTROL_BARRIER, [])
    else if k == 43 then Emit(OP_RETURN, [])
    else Emit(0, seq(FILLER, _ => 0))
  }

  function Opcode(k: nat): nat {
    if k < 4 then OP_CAPABILITY
    else if k == 4 then OP_EXECUTION_MODE
    else if k == 5 then OP_TYPE_VOID
    else if k == 6 then OP_FUNCTION
    else if k == 7 then OP_LABEL
    else if k < 17 || 33 <= k < 39 then OP_LOAD
    else if k < 21 || k == 39 then OP_STORE
    else if k < 29 || 40 <= k < 42 then OP_IMAGE_WRITE
    else if k < 33 || k == 42 then OP_CONTROL_BARRIER
    else if k == 43 then OP_RETURN
    else 0
  }

  function Sample(): (code: seq<Instr>)
    ensures |code| == LENGTH && AllWellSized(code)
    ensures forall k :: 0 <= k < LENGTH ==> code[k] == At(k)
  {
    seq(LENGTH, k requires 0 <= k < LENGTH => At(k))
  }

  // ---- Walking over a stretch of like instructions ----

  lemma {:induction false} CountRun(code: seq<Instr>, op: nat, from: nat, end: nat, hit: bool)
    requires AllWellSized(code) && from <= end <= |code|
    requires forall k :: from <= k < end ==> WellSized(code[k]) && (Op(code[k]) == op <==> hit)
    ensures CountOp(code[from..], op) == (if hit then end - from else 0) + CountOp(code[end..], op)
    decreases |code| - from
  {
    if from < end {
      assert code[from..][1..] == code[from + 1..];
      CountRun(code, op, from + 1, end, hit);
    }
  }

  lemma {:induction false} PositionsSkip(code: seq<Instr>, op: nat, from: nat, end: nat)
    requires AllWellSized(code) && from <= end <= |code|
    requires forall k :: from <= k < end ==> WellSized(code[k]) && Op(code[k]) != op
    ensures Positions(code, op, from) == Positions(code, op, end)
    decreases |code| - from
  {
    if from < end {
      PositionsSkip(code, op, from + 1, end);
    }
  }

  lemma {:induction false} FirstOpSkip(code: seq<Instr>, op: nat, from: nat, end: nat)
    requires AllWellSized(code) && from <= end <= |code|
    requires forall k :: from <= k < end ==> WellSized(code[k]) && Op(code[k]) != op
    ensures FirstOp(code, op, from) == FirstOp(code, op, end)
    decreases |code| - from
  {
    if from < end {
      FirstOpSkip(code, op, from + 1, end);
    }
  }

  lemma {:induction false} AfterLastSkip(code: seq<Instr>, op: nat, from: nat, end: nat)
    requires AllWellSized(code) && from <= end <= |code|
    requires forall k :: from <= k < end ==> WellSized(code[k]) && Op(code[k]) != op
    ensures AfterLastOp(code, op, end) == AfterLastOp(code, op, from)
    decreases end
  {
    if from < end {
      AfterLastSkip(code, op, from, end - 1);
    }
  }

  /** What an instruction does to the counts when the workgroup array is the only pointer. */
  predicate Does(i: Instr, loads: nat, stores: nat) {
    |i| > 0
    && if (loads, stores) == (1, 0) then IsLoad(i) && i[3] == WORKGROUP_ARRAY
       else if (loads, stores) == (0, 1) then IsStore(i) && i[1] == WORKGROUP_ARRAY
       else loads == 0 && stores == 0 && Spares(i, NO_ACCESS.pointers)
  }

  lemma {:induction false} AccessRun(code: seq<Instr>, from: nat, end: nat, l: nat, s: nat, loads: nat, stores: nat)
    requires AllWellSized(code) && from <= end <= |code| && loads <= 1 && stores <= 1
    requires forall k :: from <= k < end ==> Does(code[k], loads, stores)
    ensures Accesses(code[from..], Access(NO_ACCESS.pointers, l, s))
            == Accesses(code[end..], Access(NO_ACCESS.pointers, l + loads * (end - from), s + stores * (end - from)))
    decreases |code| - from
  {
    if from < end {
      assert Does(code[from], loads, stores) && WellSized(code[from]);
      assert code[from..][1..] == code[from + 1..];
      assert Access(NO_ACCESS.pointers, l, s).After(code[from]) == Access(NO_ACCESS.pointers, l + loads, s + stores);
      AccessRun(code, from + 1, end, l + loads, s + stores, loads, stores);
    }
  }

  lemma {:induction false} DeclaresRun(code: seq<Instr>, from: nat, end: nat)
    requires AllWellSized(code) && from <= end <= |code|
    requires forall k :: from <= k < end ==> WellSized(code[k]) && Op(code[k]) !in {OP_CAPABILITY, OP_EXECUTION_MODE}
    ensures Capabilities(code[from..]) == Capabilities(code[end..])
    ensures CountLocalSize(code[from..]) == CountLocalSize(code[end..])
    decreases |code| - from
  {
    if from < end {
      assert code[from..][1..] == code[from + 1..];
      DeclaresRun(code, from + 1, end);
    }
  }

  lemma {:induction false} LengthRun(code: seq<Instr>, from: nat, end: nat, n: nat)
    requires from <= end <= |code| && forall k :: from <= k < end ==> |code[k]| == n
    ensures |Flatten(code[from..])| == n * (end - from) + |Flatten(code[end..])|
    decreases |code| - from
  {
    if from < end {
      assert code[from..][1..] == code[from + 1..];
      LengthRun(code, from + 1, end, n);
      assert n * (end - from) == n + n * (end - (from + 1));
    }
  }

  // ---- The sample and what survives of it ----

  function Cut(): Anchors { Anchors(6, 5, 33, Offset(Sample(), 7), 43) }

  lemma SampleOps()
    ensures forall k :: 0 <= k < LENGTH ==> WellSized(Sample()[k]) && Op(Sample()[k]) == Opcode(k)
  {
    hide Emit;
  }

  lemma SampleBarriers()
    ensures Positions(Sample(), OP_CONTROL_BARRIER, 0) == [29, 30, 31, 32, 42]
  {
    hide Positions, Sample, At, WellSized, Op;
    SampleOps();
    var code, op := Sample(), OP_CONTROL_BARRIER;
    PositionsSkip(code, op, 0, 29);
    PositionsStep(code, op, 29);
    PositionsStep(code, op, 30);
    PositionsStep(code, op, 31);
    PositionsStep(code, op, 32);
    PositionsSkip(code, op, 33, 42);
    PositionsStep(code, op, 42);
    PositionsSkip(code, op, 43, LENGTH);
    NoPositions(code, op);
  }

  lemma SampleAnchors()
    ensures FindAnchors(Sample()) == Found(Cut()) && PrologueComplete(Sample(), 6, 5)
  {
    hide Positions, Sample, At, Op, Offset;
    SampleOps();
    SampleBarriers();
    var code := Sample();
    FirstOpSkip(code, OP_FUNCTION, 0, 6);
    FirstOpSkip(code, OP_TYPE_VOID, 0, 5);
    AfterLastSkip(code, OP_LABEL, 8, 33);
    assert WellSized(code[4]) && Op(code[4]) == Opcode(4);
  }

  lemma CountNothing(code: seq<Instr>, op: nat)
    ensures code[|code|..] == [] && CountOp([], op) == 0 && code[0..] == code
  {
  }

  lemma SampleCounts()
    ensures CountOp(Sample(), OP_CONTROL_BARRIER) == 5 && CountOp(Sample(), OP_IMAGE_WRITE) == 10
  {
    hide CountOp, Sample, At, WellSized, Op;
    SampleOps();
    var code, barrier, write := Sample(), OP_CONTROL_BARRIER, OP_IMAGE_WRITE;
    CountRun(code, barrier, 0, 29, false);
    CountRun(code, barrier, 29, 33, true);
    CountRun(code, barrier, 33, 42, false);
    CountRun(code, barrier, 42, 43, true);
    CountRun(code, barrier, 43, LENGTH, false);
    CountRun(code, write, 0, 21, false);
    CountRun(code, write, 21, 29, true);
    CountRun(code, write, 29, 40, false);
    CountRun(code, write, 40, 42, true);
    CountRun(code, write, 42, LENGTH, false);
    CountNothing(code, barrier);
    CountNothing(code, write);
  }

  lemma AtDoes()
    ensures forall k :: 0 <= k < LENGTH ==>
              Does(At(k), if Opcode(k) == OP_LOAD then 1 else 0, if Opcode(k) == OP_STORE then 1 else 0)
  {
    hide Emit;
  }

  lemma SampleAccesses()
    ensures AccessCounts(Sample(), 15, 5)
  {
    hide Accesses, Sample, At, WellSized, Op, Does;
    AtDoes();
    AccessNothing(Access(NO_ACCESS.pointers, 15, 5));
    var code := Sample();
    AccessRun(code, 0, 8, 0, 0, 0, 0);
    AccessRun(code, 8, 17, 0, 0, 1, 0);
    AccessRun(code, 17, 21, 9, 0, 0, 1);
    AccessRun(code, 21, 33, 9, 4, 0, 0);
    AccessRun(code, 33, 39, 9, 4, 1, 0);
    AccessRun(code, 39, 40, 15, 4, 0, 1);
    AccessRun(code, 40, LENGTH, 15, 5, 0, 0);
    assert code[0..] == code && code[LENGTH..] == [];
  }

  /** The first five instructions declare the same whatever follows them. */
  lemma FiveDeclare(code: seq<Instr>)
    requires AllWellSized(code) && |code| >= 8 && forall k :: 0 <= k < 8 ==> code[k] == At(k)
    requires forall k :: 8 <= k < |code| ==> WellSized(code[k]) && Op(code[k]) !in {OP_CAPABILITY, OP_EXECUTION_MODE}
    ensures Capabilities(code) == multiset{1, 50, 56, 5345} && CountLocalSize(code) == 1
  {
    hide Capabilities, CountLocalSize, At, Op, WellSized, IsCapability, IsLocalSize32;
    AtOps();
    DeclaresRun(code, 5, |code|);
    FirstFive();
    assert code[0..] == code && code[|code|..] == [];
    assert CountLocalSize(code) == 0 + (0 + (0 + (0 + (1 + 0)))) by {
      DeclaresNothing();
      FiveSteps(code);
    }
    assert Capabilities(code)
           == multiset{1} + (multiset{50} + (multiset{56} + (multiset{5345} + (multiset{} + multiset{})))) by {
      DeclaresNothing();
      FiveSteps(code);
    }
    DeclaresNothing();
  }

  lemma FiveSteps(code: seq<Instr>)
    requires |code| >= 5
    ensures forall k :: 0 <= k < 5 ==>
              Capabilities(code[k..])
              == (if IsCapability(code[k]) then multiset{code[k][1]} else multiset{}) + Capabilities(code[k + 1..])
    ensures forall k :: 0 <= k < 5 ==>
              CountLocalSize(code[k..]) == (if IsLocalSize32(code[k]) then 1 else 0) + CountLocalSize(code[k + 1..])
  {
    hide IsCapability, IsLocalSize32;
    forall k | 0 <= k < 5
      ensures code[k..][0] == code[k] && code[k..][1..] == code[k + 1..]
    {
    }
  }

  lemma AtOps()
    ensures forall k :: 0 <= k < LENGTH ==> Op(At(k)) == Opcode(k)
  {
    hide Emit;
  }

  lemma DeclaresNothing()
    ensures Capabilities([]) == multiset{} && CountLocalSize([]) == 0
    ensures multiset{1} + (multiset{50} + (multiset{56} + (multiset{5345} + (multiset{} + multiset{}))))
            == multiset{1, 50, 56, 5345}
  {
  }

  lemma AccessNothing(from: Access)
    ensures Accesses([], from) == from
  {
  }

  lemma FirstFive()
    ensures IsCapability(At(0)) && At(0)[1] == 1 && IsCapability(At(1)) && At(1)[1] == 50
    ensures IsCapability(At(2)) && At(2)[1] == 56 && IsCapability(At(3)) && At(3)[1] == 5345
    ensures !IsCapability(At(4)) && IsLocalSize32(At(4))
    ensures forall k :: 0 <= k < 4 ==> !IsLocalSize32(At(k))
  {
  }

  lemma SampleIsBaseline()
    ensures IsBaseline(Sample()) && !HasMagic(Sample())
  {
    hide CountOp, AccessCounts, Capabilities, CountLocalSize, Sample, At, Op;
    SampleOps();
    SampleCounts();
    SampleAccesses();
    FiveDeclare(Sample());
  }

  /** What survives of the sample. */
  function Staying(): (kept: seq<Instr>)
    ensures |kept| == 35 && AllWellSized(kept)
    ensures forall k :: 0 <= k < 35 ==> kept[k] == At(if k < 33 then k else k + 10)
  {
    Survivors(Sample(), Cut())
  }

  lemma SurvivorCounts()
    ensures CountOp(Staying(), OP_CONTROL_BARRIER) == 4
    ensures CountOp(Staying(), OP_IMAGE_WRITE) == 8
    ensures CountOp(Staying(), OP_GROUP_NON_UNIFORM_BROADCAST) == 0
  {
    hide CountOp, At, Op, Staying;
    AtOps();
    var code := Staying();
    CountRun(code, OP_CONTROL_BARRIER, 0, 29, false);
    CountRun(code, OP_CONTROL_BARRIER, 29, 33, true);
    CountRun(code, OP_CONTROL_BARRIER, 33, 35, false);
    CountRun(code, OP_IMAGE_WRITE, 0, 21, false);
    CountRun(code, OP_IMAGE_WRITE, 21, 29, true);
    CountRun(code, OP_IMAGE_WRITE, 29, 35, false);
    CountRun(code, OP_GROUP_NON_UNIFORM_BROADCAST, 0, 35, false);
    CountNothing(code, OP_CONTROL_BARRIER);
    CountNothing(code, OP_IMAGE_WRITE);
    CountNothing(code, OP_GROUP_NON_UNIFORM_BROADCAST);
  }

  lemma SurvivorAccesses()
    ensures AccessCounts(Staying(), 9, 4)
    ensures SingleDefinitions(Staying(), BASELINE_BOUND)
  {
    hide Accesses, At, Does, Staying;
    AtDoes();
    AccessNothing(Access(NO_ACCESS.pointers, 9, 4));
    var code := Staying();
    AccessRun(code, 0, 8, 0, 0, 0, 0);
    AccessRun(code, 8, 17, 0, 0, 1, 0);
    AccessRun(code, 17, 21, 9, 0, 0, 1);
    AccessRun(code, 21, 35, 9, 4, 0, 0);
    assert code[0..] == code && code[35..] == [];
    forall k | 0 <= k < 35
      ensures Keeps(code[k], BASELINE_BOUND)
    {
      AtKeeps(if k < 33 then k else k + 10);
    }
  }

  lemma AtKeeps(k: nat)
    requires k < LENGTH
    ensures Keeps(At(k), BASELINE_BOUND)
  {
    hide Emit;
  }

  lemma SampleVerdict()
    ensures Verdict(Staying(), true) == Applied
  {
    hide CountOp, Capabilities, CountLocalSize, At, Op, Staying;
    AtOps();
    SurvivorCounts();
    FiveDeclare(Staying());
  }

  lemma SampleLength()
    ensures |Flatten(Sample())| == BASELINE_BYTES / 4 - HEADER_WORDS
  {
    hide Flatten, Sample;
    var code := Sample();
    AtLengths();
    LengthRun(code, 0, 4, 2);
    LengthRun(code, 4, 5, 6);
    LengthRun(code, 5, 6, 2);
    LengthRun(code, 6, 7, 1);
    LengthRun(code, 7, 8, 2);
    LengthRun(code, 8, 17, 4);
    LengthRun(code, 17, 21, 3);
    LengthRun(code, 21, 33, 1);
    LengthRun(code, 33, 39, 4);
    LengthRun(code, 39, 40, 3);
    LengthRun(code, 40, 44, 1);
    LengthRun(code, 44, 45, FILLER + 1);
    FlattenNone();
    assert code[0..] == code && code[LENGTH..] == [];
  }

  lemma AtLengths()
    ensures forall k :: 0 <= k < LENGTH ==>
              |At(k)| == if k < 4 || k in {5, 7} then 2 else if k == 4 then 6
                         else if (k < 17 && k != 6) || 33 <= k < 39 then 4 else if 17 <= k < 21 || k == 39 then 3
                         else if k == 44 then FILLER + 1 else 1
  {
  }

  function SampleWords(): (words: seq<Word>)
    ensures |words| >= HEADER_WORDS && words[BOUND_WORD] == BASELINE_BOUND
  {
    [MAGIC, 0, 0, BASELINE_BOUND, 0] + Flatten(Sample())
  }

  lemma SampleReads()
    ensures |SampleWords()| == BASELINE_BYTES / 4 && IsSpirv(SampleWords()) && Body(SampleWords()) == Sample()
  {
    hide Sample, Flatten, Tile;
    SampleLength();
    TileFlatten(Sample());
    assert SampleWords()[HEADER_WORDS..] == Flatten(Sample());
  }

  lemma SampleAttempt()
    requires |SampleWords()| == BASELINE_BYTES / 4 && IsSpirv(SampleWords()) && Body(SampleWords()) == Sample()
    ensures Attempt(SampleWords()).0 == Applied
  {
    hide SampleWords, Sample, Cut, FindAnchors, CandidateWords, Check, Survivors, SingleDefinitions, AccessCounts,
         PrologueComplete, Verdict, IsSpirv, Body, Positions;
    SampleAnchors();
    CutIs();
    WhatCanFail(SampleWords(), Cut());
    SurvivorAccesses();
    SampleVerdict();
  }

  /** The fusion applies to the sample module when its fingerprint is accepted. */
  lemma FuseApplies(fingerprint: seq<Byte> -> bool)
    requires fingerprint(Bytes(SampleWords()))
    ensures Fuse(Bytes(SampleWords()), fingerprint).0 == Applied
  {
    hide SampleWords, Sample, IsBaseline, HasMagic, IsFused, Attempt, IsSpirv, Body, Words, Bytes;
    SampleReads();
    SampleIsBaseline();
    SampleAttempt();
    WordsBytes(SampleWords());
  }

  lemma CutIs()
    ensures Cut().function_ == 6 && Cut().type_ == 5
  {
  }
}
