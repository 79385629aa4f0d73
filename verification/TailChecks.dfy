/**
  Which of the checks made on a fused module can fail, and when: everything they count is what
  survives of the old module and what the new tail adds.
*/
module TailChecks {
  import opened BitMasks
  import opened Options
  import opened SpirvStream
  import opened TailFusion

  // ---- Counted operations ----

  lemma CountStep(code: seq<Instr>, op: nat, from: nat, to: nat)
    requires AllWellSized(code) && from < to <= |code|
    ensures WellSized(code[from])
    ensures CountOp(code[from..to], op)
            == (if Op(code[from]) == op then 1 else 0) + CountOp(code[from + 1..to], op)
  {
    assert WellSized(code[from]);
    assert code[from..to][1..] == code[from + 1..to];
  }

  /** How many positions come before `to`. */
  function PositionsBefore(ps: seq<nat>, to: nat): nat {
    if ps == [] then 0 else (if ps[0] < to then 1 else 0) + PositionsBefore(ps[1..], to)
  }

  lemma {:induction false} NoneBefore(ps: seq<nat>, to: nat)
    requires forall j :: 0 <= j < |ps| ==> ps[j] >= to
    ensures PositionsBefore(ps, to) == 0
  {
    if ps != [] {
      NoneBefore(ps[1..], to);
    }
  }

  lemma BeforeStep(p: nat, ps: seq<nat>, to: nat)
    ensures PositionsBefore([p] + ps, to) == (if p < to then 1 else 0) + PositionsBefore(ps, to)
  {
    assert ([p] + ps)[1..] == ps;
  }

  lemma {:induction false} CountIsPositions(code: seq<Instr>, op: nat, from: nat, to: nat)
    requires AllWellSized(code) && from <= to <= |code|
    ensures CountOp(code[from..to], op) == PositionsBefore(Positions(code, op, from), to)
    decreases |code| - from
  {
    hide CountOp, WellSized, Op, Positions, PositionsBefore;
    if from == to {
      CountNone(code[from..to], op);
      NoneBefore(Positions(code, op, from), to);
    } else {
      var rest := Positions(code, op, from + 1);
      CountStep(code, op, from, to);
      PositionsStep(code, op, from);
      CountIsPositions(code, op, from + 1, to);
      BeforeStep(from, rest, to);
      assert [] + rest == rest;
    }
  }

  lemma FiveBefore(ps: seq<nat>, to: nat, c: nat)
    requires |ps| == 5 && c <= 5 && (c > 0 ==> ps[c - 1] < to) && (c < 5 ==> to <= ps[c])
    requires ps[0] < ps[1] < ps[2] < ps[3] < ps[4]
    ensures PositionsBefore(ps, to) == c
  {
    var p1 := ps[1..];
    var p2 := p1[1..];
    var p3 := p2[1..];
    var p4 := p3[1..];
    assert p4 == [ps[4]];
    assert PositionsBefore(p4, to) == if ps[4] < to then 1 else 0;
    assert PositionsBefore(p3, to) == (if ps[3] < to then 1 else 0) + PositionsBefore(p4, to);
    assert PositionsBefore(p2, to) == (if ps[2] < to then 1 else 0) + PositionsBefore(p3, to);
    assert PositionsBefore(p1, to) == (if ps[1] < to then 1 else 0) + PositionsBefore(p2, to);
  }

  lemma CountUpTo(code: seq<Instr>, ps: seq<nat>, to: nat, c: nat)
    requires AllWellSized(code) && to <= |code| && ps == Positions(code, OP_CONTROL_BARRIER, 0)
    requires |ps| == 5 && c <= 5 && (c > 0 ==> ps[c - 1] < to) && (c < 5 ==> to <= ps[c])
    ensures CountOp(code[0..to], OP_CONTROL_BARRIER) == c
  {
    hide CountOp, WellSized, Op, Positions;
    CountIsPositions(code, OP_CONTROL_BARRIER, 0, to);
    FiveBefore(ps, to, c);
  }

  lemma CountPrologueStep(i: Instr, isFirstType: bool, adds: bool, n: Word, op: nat)
    requires WellSized(i) && |i| + 2 < 0x1_0000 && n + NEW_IDS < 0x1_0000_0000
    requires op !in {OP_CAPABILITY, OP_DECORATE}
    ensures CountOp(PrologueStep(i, isFirstType, adds, n), op) == CountOp([i], op)
  {
    hide Widened, CountOp, Emit;
    var capabilities := if adds then NewCapabilities() else [];
    var decorations := if isFirstType then NewDecorations(n) else [];
    assert Without(capabilities, op) && Without(decorations, op);
    CountNone(capabilities, op);
    CountNone(decorations, op);
    CountAppend(capabilities, decorations, op);
    CountAppend(capabilities + decorations, [Widened(i, n)], op);
    CountOne(Widened(i, n), op);
    CountOne(i, op);
  }

  lemma {:induction false} CountPrologue(code: seq<Instr>, k: nat, last: nat, firstType: nat, added: bool,
                                         n: Word, op: nat)
    requires AllWellSized(code) && Short(code) && k <= last <= |code| && n + NEW_IDS < 0x1_0000_0000
    requires op !in {OP_CAPABILITY, OP_DECORATE}
    ensures CountOp(Prologue(code, k, last, firstType, added, n), op) == CountOp(code[k..last], op)
    decreases |code| - k
  {
    if k == last {
      assert code[k..last] == [];
    } else {
      hide PrologueStep, CountOp;
      CountStep(code, op, k, last);
      CountOne(code[k], op);
      var adds := !added && Op(code[k]) != OP_CAPABILITY;
      CountPrologue(code, k + 1, last, firstType, added || adds, n, op);
      CountPrologueStep(code[k], k == firstType, adds, n, op);
      CountAppend(PrologueStep(code[k], k == firstType, adds, n),
                  Prologue(code, k + 1, last, firstType, added || adds, n), op);
    }
  }

  /** How often the new code holds an operation the checks count. */
  function Added(op: nat): nat {
    if op == OP_IMAGE_WRITE then 2 else if op == OP_GROUP_NON_UNIFORM_BROADCAST then 4 else 0
  }

  const COUNTED := {OP_CONTROL_BARRIER, OP_IMAGE_WRITE, OP_GROUP_NON_UNIFORM_BROADCAST}

  /** Operations the new tail holds none of outside its writes and broadcasts. */
  const QUIET := COUNTED + {OP_CAPABILITY, OP_EXECUTION_MODE}

  lemma QuietLevel5(n: Word, op: nat)
    requires n + NEW_IDS < 0x1_0000_0000 && op in QUIET
    ensures Without(LaneCode(n), op) && Without(RoleCode(n), op) && Without(Mip5Code(n), op)
  {
    hide Emit;
  }

  lemma QuietLoads(n: Word, at: Word, index: Word, op: nat)
    requires n + NEW_IDS < 0x1_0000_0000 && at + 4 < 0x1_0000_0000 && op in QUIET
    ensures Without(LoadShared(n, at, index), op)
  {
    hide Emit;
  }

  lemma QuietLevel6(n: Word, preTail: Word, op: nat)
    requires n + NEW_IDS < 0x1_0000_0000 && op in QUIET
    ensures Without(JoinCode(n, preTail), op) && Without(Mip6Code(n), op) && Without(CloseCode(n), op)
  {
    hide Emit;
  }

  lemma CountTailHead(n: Word, op: nat)
    requires n + NEW_IDS < 0x1_0000_0000 && op in COUNTED
    ensures CountOp(TailHead(n), op) == 0
  {
    hide Emit, CountOp, LaneCode, RoleCode, Mip5Code, LoadShared;
    QuietLevel5(n, op);
    QuietLoads(n, n + 26, n + 4, op);
    QuietLoads(n, n + 30, 819, op);
    QuietLoads(n, n + 34, n + 5, op);
    CountNone(TailHead(n), op);
  }

  lemma CountBroadcasts(n: Word, op: nat)
    requires n + NEW_IDS < 0x1_0000_0000 && op in COUNTED
    ensures CountOp(Broadcasts(n), op) == if op == OP_GROUP_NON_UNIFORM_BROADCAST then 4 else 0
  {
    hide Emit;
    var c := Broadcasts(n);
    assert c == [c[0]] + ([c[1]] + ([c[2]] + [c[3]]));
    CountOne(c[0], op);
    CountOne(c[1], op);
    CountOne(c[2], op);
    CountOne(c[3], op);
    CountAppend([c[2]], [c[3]], op);
    CountAppend([c[1]], [c[2]] + [c[3]], op);
    CountAppend([c[0]], [c[1]] + ([c[2]] + [c[3]]), op);
  }

  lemma CountTail(n: Word, preTail: Word, op: nat)
    requires n + NEW_IDS < 0x1_0000_0000 && op in COUNTED
    ensures CountOp(Tail(n, preTail), op) == Added(op)
  {
    hide Emit, TailHead, Broadcasts, JoinCode, Mip6Code, CloseCode, CountOp, Without;
    QuietLevel6(n, preTail, op);
    var t0, t1 := TailHead(n), ImageWrite(n + 50, n + 48, n + 49);
    var t2, t3 := JoinCode(n, preTail), Broadcasts(n);
    var t4, t5, t6 := Mip6Code(n), ImageWrite(n + 68, n + 66, n + 67), CloseCode(n);
    CountTailHead(n, op);
    CountOne(t1[0], op);
    CountNone(t2, op);
    CountBroadcasts(n, op);
    CountNone(t4, op);
    CountOne(t5[0], op);
    CountNone(t6, op);
    assert t1 == [t1[0]] && t5 == [t5[0]];
    CountAppend(t0, t1, op);
    CountAppend(t0 + t1, t2, op);
    CountAppend(t0 + t1 + t2, t3, op);
    CountAppend(t0 + t1 + t2 + t3, t4, op);
    CountAppend(t0 + t1 + t2 + t3 + t4, t5, op);
    CountAppend(t0 + t1 + t2 + t3 + t4 + t5, t6, op);
  }

  /** Everything of the module that stays. */
  function Survivors(code: seq<Instr>, a: Anchors): (kept: seq<Instr>)
    requires AllWellSized(code) && a.function_ <= |code| && a.keptEnd <= |code| && a.return_ <= |code|
    ensures AllWellSized(kept)
  {
    code[..a.function_] + Kept(code, a) + code[a.return_..]
  }

  /** The new module holds what survives of the old one and what the new tail adds. */
  lemma CountCandidate(code: seq<Instr>, a: Anchors, preTail: Word, n: Word, op: nat)
    requires AllWellSized(code) && Short(code) && n + NEW_IDS < 0x1_0000_0000 && op in COUNTED
    requires a.function_ <= |code| && a.keptEnd <= |code| && a.return_ <= |code|
    ensures CountOp(Candidate(code, a, preTail, n), op) == CountOp(Survivors(code, a), op) + Added(op)
  {
    hide Emit, CountOp, Prologue, Tail, Kept;
    var c0, c1, c2 := Prologue(code, 0, a.function_, a.type_, false, n), Declarations(n), Kept(code, a);
    var c3, c4 := Tail(n, preTail), code[a.return_..];
    CountPrologue(code, 0, a.function_, a.type_, false, n, op);
    assert Without(c1, op);
    CountNone(c1, op);
    CountTail(n, preTail, op);
    CountAppend(c0, c1, op);
    CountAppend(c0 + c1, c2, op);
    CountAppend(c0 + c1 + c2, c3, op);
    CountAppend(c0 + c1 + c2 + c3, c4, op);
    CountAppend(code[..a.function_], c2, op);
    CountAppend(code[..a.function_] + c2, c4, op);
  }

  lemma NoBarrierAfter(code: seq<Instr>, k: nat, ps: seq<nat>)
    requires AllWellSized(code) && k <= |code| && ps == Positions(code, OP_CONTROL_BARRIER, 0)
    requires |ps| == 5 && ps[4] < k
    ensures CountOp(code[k..], OP_CONTROL_BARRIER) == 0
  {
    hide CountOp, Positions, WellSized, Op;
    CountUpTo(code, ps, |code|, 5);
    CountUpTo(code, ps, k, 5);
    assert code[0..|code|] == code[0..k] + code[k..];
    CountAppend(code[0..k], code[k..], OP_CONTROL_BARRIER);
  }

  /** The barriers of a module are those before the first function and those kept of it. */
  lemma SurvivorsSplit(code: seq<Instr>, a: Anchors)
    requires AllWellSized(code) && FindAnchors(code) == Found(a)
    ensures CountOp(Survivors(code, a), OP_CONTROL_BARRIER)
            == CountOp(code[0..if a.function_ <= a.keptEnd then a.keptEnd else a.function_], OP_CONTROL_BARRIER)
  {
    hide CountOp, Positions, FirstOp, AfterLastOp, Offset, WellSized, Op;
    var kept := Kept(code, a);
    CountAppend(code[..a.function_], kept, OP_CONTROL_BARRIER);
    CountAppend(code[..a.function_] + kept, code[a.return_..], OP_CONTROL_BARRIER);
    NoBarrierAfter(code, a.return_, Positions(code, OP_CONTROL_BARRIER, 0));
    if a.function_ <= a.keptEnd {
      assert code[..a.function_] + kept == code[0..a.keptEnd];
    } else {
      assert code[..a.function_] + kept == code[0..a.function_];
    }
  }

  /** Of the five barriers four survive, exactly when the first function comes before the fifth. */
  lemma SurvivingBarriers(code: seq<Instr>, a: Anchors)
    requires AllWellSized(code) && FindAnchors(code) == Found(a)
    ensures CountOp(Survivors(code, a), OP_CONTROL_BARRIER) == 4
            <==> a.function_ < Positions(code, OP_CONTROL_BARRIER, 0)[4]
  {
    hide CountOp, Positions, FindAnchors, Survivors, WellSized, Op;
    var ps := Positions(code, OP_CONTROL_BARRIER, 0);
    SurvivorsSplit(code, a);
    assert WellSized(code[a.function_]) && WellSized(code[ps[4]]);
    if a.function_ <= a.keptEnd {
      CountUpTo(code, ps, a.keptEnd, 4);
    } else {
      CountUpTo(code, ps, a.function_, if a.function_ <= ps[4] then 4 else 5);
    }
  }

  lemma DeclaresMagic(code: seq<Instr>, a: Anchors, preTail: Word, n: Word)
    requires AllWellSized(code) && Short(code) && n + NEW_IDS < 0x1_0000_0000
    requires a.function_ <= |code| && a.keptEnd <= |code| && a.return_ <= |code|
    ensures HasMagic(Candidate(code, a, preTail, n)) && Candidate(code, a, preTail, n) != []
  {
    hide Prologue, Tail, Kept;
    var before := Prologue(code, 0, a.function_, a.type_, false, n);
    assert IsMagic(Declarations(n)[1]);
    assert Candidate(code, a, preTail, n)[|before| + 1] == Declarations(n)[1];
  }

  lemma CandidateBody(words: seq<Word>, a: Anchors)
    requires IsSpirv(words) && |words| == BASELINE_BYTES / 4 && FindAnchors(Body(words)) == Found(a)
    requires words[BOUND_WORD] + NEW_IDS < 0x1_0000_0000
    ensures CandidateFitsAt(words, a)
    ensures var out := CandidateWords(words, Body(words), a);
            && IsSpirv(out) && HasMagic(Body(out))
            && Body(out) == Candidate(Body(words), a, words[a.labelWord + 1], words[BOUND_WORD])
  {
    hide Candidate, HasMagic, Tile, Short, FindAnchors;
    CandidateFits(words, a);
    var code, preTail := Body(words), words[a.labelWord + 1];
    var body := Candidate(code, a, preTail, words[BOUND_WORD]);
    var out := CandidateWords(words, code, a);
    TileFlatten(body);
    assert out[HEADER_WORDS..] == Flatten(body);
    DeclaresMagic(code, a, preTail, words[BOUND_WORD]);
  }

  // ---- Capabilities and local size ----

  lemma {:induction false} CapabilitiesAppend(a: seq<Instr>, b: seq<Instr>)
    ensures Capabilities(a + b) == Capabilities(a) + Capabilities(b)
  {
    if a == [] {
      assert a + b == b;
    } else {
      assert (a + b)[1..] == a[1..] + b;
      CapabilitiesAppend(a[1..], b);
    }
  }

  lemma {:induction false} CapabilitiesNone(code: seq<Instr>)
    requires AllWellSized(code) && Without(code, OP_CAPABILITY)
    ensures Capabilities(code) == multiset{}
  {
    if code != [] {
      CapabilitiesNone(code[1..]);
    }
  }

  lemma {:induction false} LocalSizeAppend(a: seq<Instr>, b: seq<Instr>)
    ensures CountLocalSize(a + b) == CountLocalSize(a) + CountLocalSize(b)
  {
    if a == [] {
      assert a + b == b;
    } else {
      assert (a + b)[1..] == a[1..] + b;
      LocalSizeAppend(a[1..], b);
    }
  }

  lemma {:induction false} LocalSizeNone(code: seq<Instr>)
    requires AllWellSized(code) && Without(code, OP_EXECUTION_MODE)
    ensures CountLocalSize(code) == 0
  {
    if code != [] {
      LocalSizeNone(code[1..]);
    }
  }

  const ADDED_CAPABILITIES := multiset{CAPABILITY_GROUP_NON_UNIFORM, CAPABILITY_GROUP_NON_UNIFORM_BALLOT}

  lemma OneInstr(i: Instr)
    ensures Capabilities([i]) == if IsCapability(i) then multiset{i[1]} else multiset{}
    ensures CountLocalSize([i]) == if IsLocalSize32(i) then 1 else 0
  {
    assert [i][1..] == [];
  }

  lemma AddedCapabilities()
    ensures Capabilities(NewCapabilities()) == ADDED_CAPABILITIES
    ensures CountLocalSize(NewCapabilities()) == 0
  {
    var c := NewCapabilities();
    OneInstr(c[0]);
    OneInstr(c[1]);
    assert c == [c[0]] + [c[1]];
    CapabilitiesAppend([c[0]], [c[1]]);
    LocalSizeNone(c);
  }

  function Extra(adds: bool): multiset<Word> {
    if adds then ADDED_CAPABILITIES else multiset{}
  }

  function NewDeclared(adds: bool): seq<Instr> {
    if adds then NewCapabilities() else []
  }

  function NewDecorated(isFirstType: bool, n: Word): seq<Instr>
    requires n + NEW_IDS < 0x1_0000_0000
  {
    if isFirstType then NewDecorations(n) else []
  }

  lemma NewDeclaredIs(adds: bool)
    ensures Capabilities(NewDeclared(adds)) == Extra(adds) && CountLocalSize(NewDeclared(adds)) == 0
  {
    AddedCapabilities();
  }

  lemma DecorationsDeclareNothing(isFirstType: bool, n: Word)
    requires n + NEW_IDS < 0x1_0000_0000
    ensures Capabilities(NewDecorated(isFirstType, n)) == multiset{}
    ensures CountLocalSize(NewDecorated(isFirstType, n)) == 0
  {
    hide Emit;
    CapabilitiesNone(NewDecorated(isFirstType, n));
    LocalSizeNone(NewDecorated(isFirstType, n));
  }

  /** Widening an entry point makes neither a capability nor a local size of it. */
  lemma WidenedDeclares(i: Instr, n: Word)
    requires WellSized(i) && |i| + 2 < 0x1_0000 && n + NEW_IDS < 0x1_0000_0000
    ensures Capabilities([Widened(i, n)]) == Capabilities([i])
    ensures CountLocalSize([Widened(i, n)]) == CountLocalSize([i])
  {
    OneInstr(i);
    OneInstr(Widened(i, n));
  }

  lemma PrologueStepDeclares(i: Instr, isFirstType: bool, adds: bool, n: Word)
    requires WellSized(i) && |i| + 2 < 0x1_0000 && n + NEW_IDS < 0x1_0000_0000
    ensures Capabilities(PrologueStep(i, isFirstType, adds, n))
            == Capabilities([i]) + Extra(adds)
    ensures CountLocalSize(PrologueStep(i, isFirstType, adds, n)) == CountLocalSize([i])
  {
    hide NewDeclared, NewDecorated, Widened, WellSized, Capabilities, CountLocalSize, Extra;
    var declared, decorated, widened := NewDeclared(adds), NewDecorated(isFirstType, n), [Widened(i, n)];
    StepParts(i, isFirstType, adds, n);
    NewDeclaredIs(adds);
    DecorationsDeclareNothing(isFirstType, n);
    WidenedDeclares(i, n);
    CapabilitiesAppend(declared, decorated);
    CapabilitiesAppend(declared + decorated, widened);
    LocalSizeAppend(declared, decorated);
    LocalSizeAppend(declared + decorated, widened);
    NothingBetween(Extra(adds), Capabilities([i]));
  }

  lemma StepParts(i: Instr, isFirstType: bool, adds: bool, n: Word)
    requires WellSized(i) && |i| + 2 < 0x1_0000 && n + NEW_IDS < 0x1_0000_0000
    ensures PrologueStep(i, isFirstType, adds, n) == NewDeclared(adds) + NewDecorated(isFirstType, n) + [Widened(i, n)]
  {
  }

  lemma NothingBetween(a: multiset<Word>, b: multiset<Word>)
    ensures a + multiset{} + b == b + a
  {
  }

  /** Some instruction of the range is no capability. */
  predicate Opens(code: seq<Instr>, k: nat, last: nat)
    requires AllWellSized(code) && k <= last <= |code|
  {
    exists j :: k <= j < last && WellSized(code[j]) && Op(code[j]) != OP_CAPABILITY
  }

  lemma OpensStep(code: seq<Instr>, k: nat, last: nat)
    requires AllWellSized(code) && k < last <= |code|
    ensures WellSized(code[k])
    ensures Opens(code, k, last) <==> Op(code[k]) != OP_CAPABILITY || Opens(code, k + 1, last)
  {
    assert WellSized(code[k]);
  }

  lemma DeclaresStep(code: seq<Instr>, k: nat, last: nat)
    requires k < last <= |code|
    ensures Capabilities(code[k..last]) == Capabilities([code[k]]) + Capabilities(code[k + 1..last])
    ensures CountLocalSize(code[k..last]) == CountLocalSize([code[k]]) + CountLocalSize(code[k + 1..last])
  {
    assert code[k..last] == [code[k]] + code[k + 1..last];
    CapabilitiesAppend([code[k]], code[k + 1..last]);
    LocalSizeAppend([code[k]], code[k + 1..last]);
  }

  lemma ExtraOnce(step: multiset<Word>, now: bool, rest: multiset<Word>, later: bool)
    requires !(now && later)
    ensures (step + Extra(now)) + (rest + Extra(later)) == (step + rest) + Extra(now || later)
  {
  }

  /** One more instruction of the prologue adds what it declared, and the new capabilities at most once. */
  lemma PrologueCapabilitiesStep(code: seq<Instr>, k: nat, last: nat, firstType: nat, added: bool, n: Word)
    requires AllWellSized(code) && Short(code) && k < last <= |code| && n + NEW_IDS < 0x1_0000_0000
    ensures WellSized(code[k])
    ensures var adds := !added && Op(code[k]) != OP_CAPABILITY;
            Capabilities(Prologue(code, k, last, firstType, added, n))
            == (Capabilities([code[k]]) + Extra(adds))
               + Capabilities(Prologue(code, k + 1, last, firstType, added || adds, n))
  {
    hide PrologueStep, Capabilities, Op, Extra;
    assert WellSized(code[k]);
    var adds := !added && Op(code[k]) != OP_CAPABILITY;
    PrologueStepDeclares(code[k], k == firstType, adds, n);
    CapabilitiesAppend(PrologueStep(code[k], k == firstType, adds, n),
                       Prologue(code, k + 1, last, firstType, added || adds, n));
  }

  /** The copied prologue declares the capabilities of the old one, and the two new ones once. */
  lemma {:induction false} PrologueCapabilities(code: seq<Instr>, k: nat, last: nat, firstType: nat, added: bool,
                                                n: Word)
    requires AllWellSized(code) && Short(code) && k <= last <= |code| && n + NEW_IDS < 0x1_0000_0000
    ensures Capabilities(Prologue(code, k, last, firstType, added, n))
            == Capabilities(code[k..last]) + Extra(!added && Opens(code, k, last))
    decreases |code| - k
  {
    if k == last {
      assert code[k..last] == [];
    } else {
      hide Prologue, Capabilities, Opens, Op, Extra, AllWellSized, Short;
      OpensStep(code, k, last);
      DeclaresStep(code, k, last);
      var adds := !added && Op(code[k]) != OP_CAPABILITY;
      var later := !(added || adds) && Opens(code, k + 1, last);
      PrologueCapabilitiesStep(code, k, last, firstType, added, n);
      PrologueCapabilities(code, k + 1, last, firstType, added || adds, n);
      ExtraOnce(Capabilities([code[k]]), adds, Capabilities(code[k + 1..last]), later);
      assert (adds || later) == (!added && Opens(code, k, last));
    }
  }

  lemma {:induction false} PrologueLocalSize(code: seq<Instr>, k: nat, last: nat, firstType: nat, added: bool,
                                             n: Word)
    requires AllWellSized(code) && Short(code) && k <= last <= |code| && n + NEW_IDS < 0x1_0000_0000
    ensures CountLocalSize(Prologue(code, k, last, firstType, added, n)) == CountLocalSize(code[k..last])
    decreases |code| - k
  {
    if k == last {
      assert code[k..last] == [];
    } else {
      hide PrologueStep, CountLocalSize, Op;
      assert WellSized(code[k]);
      DeclaresStep(code, k, last);
      var adds := !added && Op(code[k]) != OP_CAPABILITY;
      PrologueLocalSize(code, k + 1, last, firstType, added || adds, n);
      PrologueStepDeclares(code[k], k == firstType, adds, n);
      LocalSizeAppend(PrologueStep(code[k], k == firstType, adds, n),
                      Prologue(code, k + 1, last, firstType, added || adds, n));
    }
  }

  lemma TailDeclaresNothing(n: Word, preTail: Word, op: nat)
    requires n + NEW_IDS < 0x1_0000_0000 && op in {OP_CAPABILITY, OP_EXECUTION_MODE}
    ensures Without(Declarations(n), op) && Without(Tail(n, preTail), op)
  {
    hide Emit, LaneCode, RoleCode, Mip5Code, LoadShared, JoinCode, Mip6Code, CloseCode;
    QuietLevel5(n, op);
    QuietLoads(n, n + 26, n + 4, op);
    QuietLoads(n, n + 30, 819, op);
    QuietLoads(n, n + 34, n + 5, op);
    QuietLevel6(n, preTail, op);
  }

  /** The new module declares what survives of the old one and the two new capabilities. */
  lemma CandidateDeclares(code: seq<Instr>, a: Anchors, preTail: Word, n: Word)
    requires AllWellSized(code) && Short(code) && n + NEW_IDS < 0x1_0000_0000
    requires a.function_ <= |code| && a.keptEnd <= |code| && a.return_ <= |code|
    requires PrologueComplete(code, a.function_, a.type_)
    ensures Capabilities(Candidate(code, a, preTail, n)) == Capabilities(Survivors(code, a)) + ADDED_CAPABILITIES
    ensures CountLocalSize(Candidate(code, a, preTail, n)) == CountLocalSize(Survivors(code, a))
  {
    hide Capabilities, CountLocalSize, Prologue, Tail, Kept, Declarations, Without;
    var c0, c1, c2 := Prologue(code, 0, a.function_, a.type_, false, n), Declarations(n), Kept(code, a);
    var c3, c4 := Tail(n, preTail), code[a.return_..];
    PrologueCapabilities(code, 0, a.function_, a.type_, false, n);
    PrologueLocalSize(code, 0, a.function_, a.type_, false, n);
    TailDeclaresNothing(n, preTail, OP_CAPABILITY);
    TailDeclaresNothing(n, preTail, OP_EXECUTION_MODE);
    CapabilitiesNone(c1);
    CapabilitiesNone(c3);
    LocalSizeNone(c1);
    LocalSizeNone(c3);
    CapabilitiesAppend(c0, c1);
    CapabilitiesAppend(c0 + c1, c2);
    CapabilitiesAppend(c0 + c1 + c2, c3);
    CapabilitiesAppend(c0 + c1 + c2 + c3, c4);
    CapabilitiesAppend(code[..a.function_], c2);
    CapabilitiesAppend(code[..a.function_] + c2, c4);
    LocalSizeAppend(c0, c1);
    LocalSizeAppend(c0 + c1, c2);
    LocalSizeAppend(c0 + c1 + c2, c3);
    LocalSizeAppend(c0 + c1 + c2 + c3, c4);
    LocalSizeAppend(code[..a.function_], c2);
    LocalSizeAppend(code[..a.function_] + c2, c4);
    assert code[0..a.function_] == code[..a.function_];
  }

  // ---- Workgroup accesses ----

  predicate IsChain(i: Instr)
    requires |i| > 0
  {
    Op(i) in {OP_ACCESS_CHAIN, OP_IN_BOUNDS_ACCESS_CHAIN} && |i| >= 4
  }

  predicate IsLoad(i: Instr)
    requires |i| > 0
  {
    Op(i) == OP_LOAD && |i| >= 4
  }

  predicate IsStore(i: Instr)
    requires |i| > 0
  {
    Op(i) == OP_STORE && |i| >= 3
  }

  /** The instruction reaches memory through none of `ids`. */
  predicate Spares(i: Instr, ids: set<Word>) {
    |i| > 0 && (IsChain(i) || IsLoad(i) ==> i[3] !in ids) && (IsStore(i) ==> i[1] !in ids)
  }

  predicate AllSpare(code: seq<Instr>, ids: set<Word>) {
    forall k :: 0 <= k < |code| ==> Spares(code[k], ids)
  }

  lemma {:induction false} AccessAppend(a: seq<Instr>, b: seq<Instr>, from: Access)
    requires AllWellSized(a) && AllWellSized(b)
    ensures Accesses(a + b, from) == Accesses(b, Accesses(a, from))
  {
    hide Access.After;
    if a == [] {
      assert a + b == b;
    } else {
      assert WellSized(a[0]);
      assert (a + b)[1..] == a[1..] + b;
      AccessAppend(a[1..], b, from.After(a[0]));
    }
  }

  lemma {:induction false} AccessSpared(code: seq<Instr>, from: Access)
    requires AllWellSized(code) && AllSpare(code, from.pointers)
    ensures Accesses(code, from) == from
  {
    if code != [] {
      assert Spares(code[0], from.pointers);
      AccessSpared(code[1..], from);
    }
  }

  lemma AccessOne(i: Instr, from: Access)
    requires WellSized(i)
    ensures Accesses([i], from) == from.After(i)
  {
    assert [i][1..] == [];
  }

  /** What `from` looks like with `ids` among its pointers and `more` further loads. */
  function Beside(from: Access, ids: set<Word>, more: nat): Access {
    Access(from.pointers + ids, from.loads + more, from.stores)
  }

  /** Further pointers that code spares change nothing it counts. */
  lemma {:induction false} AccessBeside(code: seq<Instr>, from: Access, ids: set<Word>, more: nat)
    requires AllWellSized(code) && AllSpare(code, ids)
    ensures Accesses(code, Beside(from, ids, more)) == Beside(Accesses(code, from), ids, more)
  {
    if code != [] {
      assert WellSized(code[0]) && Spares(code[0], ids);
      StepBeside(code[0], from, ids, more);
      AccessBeside(code[1..], from.After(code[0]), ids, more);
    }
  }

  lemma StepBeside(i: Instr, from: Access, ids: set<Word>, more: nat)
    requires Spares(i, ids)
    ensures Beside(from, ids, more).After(i) == Beside(from.After(i), ids, more)
  {
    if IsChain(i) && i[3] in from.pointers {
      assert from.pointers + ids + {i[2]} == from.pointers + {i[2]} + ids;
    }
  }

  /** The variables the new tail reads. */
  function Inputs(n: Word): set<Word>
    requires n + NEW_IDS < 0x1_0000_0000
  {
    {30, 31, 34, 35, 59, n + 2, n + 3}
  }

  /** The pointers into the workgroup array the new tail makes. */
  function NewPointers(n: Word): set<Word>
    requires n + NEW_IDS < 0x1_0000_0000
  {
    {n + 27, n + 31, n + 35}
  }

  lemma SharedAccess(n: Word, at: Word, index: Word, from: Access)
    requires n + NEW_IDS < 0x1_0000_0000 && at + 4 < 0x1_0000_0000
    requires WORKGROUP_ARRAY in from.pointers
    ensures Accesses(LoadShared(n, at, index), from) == Beside(from, {at + 1}, 1)
  {
    hide Emit, Accesses;
    var c := LoadShared(n, at, index);
    assert c == [c[0]] + ([c[1]] + ([c[2]] + [c[3]]));
    AccessOne(c[0], from);
    AccessOne(c[1], from);
    AccessOne(c[2], from.After(c[1]));
    AccessOne(c[3], from.After(c[1]).After(c[2]));
    AccessAppend([c[2]], [c[3]], from.After(c[1]));
    AccessAppend([c[1]], [c[2]] + [c[3]], from);
    AccessAppend([c[0]], [c[1]] + ([c[2]] + [c[3]]), from);
  }

  /** Code that spares `ids` and makes no pointer outside it leaves the accesses alone. */
  lemma HeadSpares(n: Word, ids: set<Word>)
    requires n + NEW_IDS < 0x1_0000_0000 && ids !! Inputs(n)
    ensures AllSpare(LaneCode(n), ids) && AllSpare(RoleCode(n), ids) && AllSpare(Mip5Code(n), ids)
  {
    hide Emit;
  }

  lemma RestSpares(n: Word, preTail: Word, ids: set<Word>)
    requires n + NEW_IDS < 0x1_0000_0000 && ids !! Inputs(n)
    ensures AllSpare(ImageWrite(n + 50, n + 48, n + 49), ids) && AllSpare(JoinCode(n, preTail), ids)
    ensures AllSpare(Broadcasts(n), ids) && AllSpare(Mip6Code(n), ids)
    ensures AllSpare(ImageWrite(n + 68, n + 66, n + 67), ids) && AllSpare(CloseCode(n), ids)
    ensures AllSpare(Declarations(n), ids)
  {
    hide Emit;
  }

  lemma TailHeadAccesses(n: Word, from: Access)
    requires n + NEW_IDS < 0x1_0000_0000 && n > 59
    requires WORKGROUP_ARRAY in from.pointers && from.pointers !! Inputs(n)
    ensures Accesses(TailHead(n), from) == Beside(from, NewPointers(n), 3)
  {
    hide Accesses, LaneCode, RoleCode, LoadShared, Mip5Code;
    var l1, l2, l3 := LoadShared(n, n + 26, n + 4), LoadShared(n, n + 30, 819), LoadShared(n, n + 34, n + 5);
    var p1 := Beside(from, {n + 27}, 1);
    var p2 := Beside(p1, {n + 31}, 1);
    var p3 := Beside(p2, {n + 35}, 1);
    assert p3 == Beside(from, NewPointers(n), 3);
    HeadSpares(n, from.pointers);
    HeadSpares(n, p3.pointers);
    AccessSpared(LaneCode(n), from);
    AccessSpared(RoleCode(n), from);
    SharedAccess(n, n + 26, n + 4, from);
    SharedAccess(n, n + 30, 819, p1);
    SharedAccess(n, n + 34, n + 5, p2);
    AccessSpared(Mip5Code(n), p3);
    AccessAppend(LaneCode(n), RoleCode(n), from);
    AccessAppend(LaneCode(n) + RoleCode(n), l1, from);
    AccessAppend(LaneCode(n) + RoleCode(n) + l1, l2, from);
    AccessAppend(LaneCode(n) + RoleCode(n) + l1 + l2, l3, from);
    AccessAppend(LaneCode(n) + RoleCode(n) + l1 + l2 + l3, Mip5Code(n), from);
  }

  /** The new tail loads three words through three pointers of its own and stores none. */
  lemma TailAccesses(n: Word, preTail: Word, from: Access)
    requires n + NEW_IDS < 0x1_0000_0000 && n > 59
    requires WORKGROUP_ARRAY in from.pointers && from.pointers !! Inputs(n)
    ensures Accesses(Tail(n, preTail), from) == Beside(from, NewPointers(n), 3)
  {
    hide Accesses, TailHead, Broadcasts, JoinCode, Mip6Code, CloseCode, ImageWrite;
    var t0, t1 := TailHead(n), ImageWrite(n + 50, n + 48, n + 49);
    var t2, t3 := JoinCode(n, preTail), Broadcasts(n);
    var t4, t5, t6 := Mip6Code(n), ImageWrite(n + 68, n + 66, n + 67), CloseCode(n);
    var after := Beside(from, NewPointers(n), 3);
    TailHeadAccesses(n, from);
    RestSpares(n, preTail, after.pointers);
    AccessSpared(t1, after);
    AccessSpared(t2, after);
    AccessSpared(t3, after);
    AccessSpared(t4, after);
    AccessSpared(t5, after);
    AccessSpared(t6, after);
    AccessAppend(t0, t1, from);
    AccessAppend(t0 + t1, t2, from);
    AccessAppend(t0 + t1 + t2, t3, from);
    AccessAppend(t0 + t1 + t2 + t3, t4, from);
    AccessAppend(t0 + t1 + t2 + t3 + t4, t5, from);
    AccessAppend(t0 + t1 + t2 + t3 + t4 + t5, t6, from);
  }

  lemma StepAccesses(i: Instr, isFirstType: bool, adds: bool, n: Word, from: Access)
    requires WellSized(i) && |i| + 2 < 0x1_0000 && n + NEW_IDS < 0x1_0000_0000
    ensures Accesses(PrologueStep(i, isFirstType, adds, n), from) == from.After(i)
  {
    hide Accesses, Emit, CountOf, OpOf;
    var capabilities := if adds then NewCapabilities() else [];
    var decorations := if isFirstType then NewDecorations(n) else [];
    assert AllSpare(capabilities, from.pointers) && AllSpare(decorations, from.pointers);
    AccessSpared(capabilities, from);
    AccessSpared(decorations, from);
    AccessOne(Widened(i, n), from);
    AccessAppend(capabilities, decorations, from);
    AccessAppend(capabilities + decorations, [Widened(i, n)], from);
  }

  lemma {:induction false} PrologueAccesses(code: seq<Instr>, k: nat, last: nat, firstType: nat, added: bool,
                                            n: Word, from: Access)
    requires AllWellSized(code) && Short(code) && k <= last <= |code| && n + NEW_IDS < 0x1_0000_0000
    ensures Accesses(Prologue(code, k, last, firstType, added, n), from) == Accesses(code[k..last], from)
    decreases |code| - k
  {
    if k == last {
      assert code[k..last] == [];
    } else {
      hide PrologueStep, Access.After, Op;
      assert WellSized(code[k]);
      var adds := !added && Op(code[k]) != OP_CAPABILITY;
      var step, rest := PrologueStep(code[k], k == firstType, adds, n),
                        Prologue(code, k + 1, last, firstType, added || adds, n);
      StepAccesses(code[k], k == firstType, adds, n, from);
      PrologueAccesses(code, k + 1, last, firstType, added || adds, n, from.After(code[k]));
      AccessAppend(step, rest, from);
      assert code[k..last][1..] == code[k + 1..last];
    }
  }

  /** No pointer chain ends in an input of the new tail, and no access goes through its new ids. */
  predicate Keeps(i: Instr, n: Word)
    requires n + NEW_IDS < 0x1_0000_0000
  {
    |i| > 0 && Spares(i, NewPointers(n)) && (IsChain(i) ==> i[2] !in Inputs(n))
  }

  /**
    What single definition and the id bound of a valid module give (section 2.16 of the SPIR-V
    specification): the variables the new tail reads are no pointer chains, and ids from the old
    bound on are not in use.
  */
  predicate SingleDefinitions(code: seq<Instr>, n: Word)
    requires n + NEW_IDS < 0x1_0000_0000
  {
    forall k :: 0 <= k < |code| ==> Keeps(code[k], n)
  }

  lemma {:induction false} PointersStayApart(code: seq<Instr>, n: Word, from: Access)
    requires AllWellSized(code) && n + NEW_IDS < 0x1_0000_0000 && SingleDefinitions(code, n)
    requires WORKGROUP_ARRAY in from.pointers && from.pointers !! Inputs(n)
    ensures var p := Accesses(code, from).pointers; WORKGROUP_ARRAY in p && p !! Inputs(n)
  {
    hide Inputs;
    if code != [] {
      assert WellSized(code[0]) && Keeps(code[0], n);
      PointersStayApart(code[1..], n, from.After(code[0]));
    }
  }

  lemma FrontAccesses(code: seq<Instr>, a: Anchors, n: Word)
    requires AllWellSized(code) && Short(code) && n + NEW_IDS < 0x1_0000_0000 && n > 59
    requires a.function_ <= |code| && a.keptEnd <= |code|
    requires SingleDefinitions(code[..a.function_], n)
    ensures Accesses(Prologue(code, 0, a.function_, a.type_, false, n) + Declarations(n) + Kept(code, a), NO_ACCESS)
            == Accesses(code[..a.function_] + Kept(code, a), NO_ACCESS)
  {
    hide Accesses, Prologue, Kept, Declarations, Inputs;
    var c0, c1, c2 := Prologue(code, 0, a.function_, a.type_, false, n), Declarations(n), Kept(code, a);
    var front := code[..a.function_];
    assert AllWellSized(front);
    var p := Accesses(front, NO_ACCESS);
    PrologueAccesses(code, 0, a.function_, a.type_, false, n, NO_ACCESS);
    assert code[0..a.function_] == front;
    NoInputYet(n);
    PointersStayApart(front, n, NO_ACCESS);
    RestSpares(n, 0, p.pointers);
    AccessSpared(c1, p);
    AccessAppend(c0, c1, NO_ACCESS);
    AccessAppend(c0 + c1, c2, NO_ACCESS);
    AccessAppend(front, c2, NO_ACCESS);
  }

  lemma NoInputYet(n: Word)
    requires n + NEW_IDS < 0x1_0000_0000 && n > 59
    ensures WORKGROUP_ARRAY in NO_ACCESS.pointers && NO_ACCESS.pointers !! Inputs(n)
  {
  }

  /** The new module loads three times more than what survives of the old one, and stores as often. */
  lemma CandidateLoads(code: seq<Instr>, a: Anchors, preTail: Word, n: Word)
    requires AllWellSized(code) && Short(code) && n + NEW_IDS < 0x1_0000_0000 && n > 59
    requires a.function_ <= |code| && a.keptEnd <= |code| && a.return_ <= |code|
    requires SingleDefinitions(Survivors(code, a), n)
    ensures Accesses(Candidate(code, a, preTail, n), NO_ACCESS)
            == Beside(Accesses(Survivors(code, a), NO_ACCESS), NewPointers(n), 3)
  {
    hide Accesses, Prologue, Tail, Kept, Declarations, Inputs, NewPointers;
    var c0, c1, c2 := Prologue(code, 0, a.function_, a.type_, false, n), Declarations(n), Kept(code, a);
    var c3, c4 := Tail(n, preTail), code[a.return_..];
    var kept := code[..a.function_] + c2;
    assert AllWellSized(c4);
    assert SingleDefinitions(kept, n) && AllSpare(c4, NewPointers(n)) by {
      assert forall k :: 0 <= k < |kept| ==> kept[k] == Survivors(code, a)[k];
      assert forall k :: 0 <= k < |c4| ==> c4[k] == Survivors(code, a)[|kept| + k];
      assert forall k :: 0 <= k < |c4| ==> Keeps(c4[k], n);
    }
    assert SingleDefinitions(code[..a.function_], n) by {
      assert forall k :: 0 <= k < a.function_ ==> code[..a.function_][k] == kept[k];
    }
    FrontAccesses(code, a, n);
    NoInputYet(n);
    var p := Accesses(kept, NO_ACCESS);
    PointersStayApart(kept, n, NO_ACCESS);
    TailAccesses(n, preTail, p);
    AccessBeside(c4, p, NewPointers(n), 3);
    AccessAppend(c0 + c1 + c2, c3, NO_ACCESS);
    AccessAppend(c0 + c1 + c2 + c3, c4, NO_ACCESS);
    AccessAppend(kept, c4, NO_ACCESS);
  }

  // ---- The verdict ----

  /** The verdict on a new module, from what survives of the old one and its access counts. */
  function Verdict(kept: seq<Instr>, accessesFit: bool): Reason
    requires AllWellSized(kept)
  {
    if CountOp(kept, OP_CONTROL_BARRIER) != 4 then CandidateBarriers
    else if CountOp(kept, OP_IMAGE_WRITE) != 8 then CandidateWrites
    else if CountOp(kept, OP_GROUP_NON_UNIFORM_BROADCAST) != 0 then CandidateBroadcasts
    else if !accessesFit then CandidateAccesses
    else if Capabilities(kept) != multiset{1, 50, 56, 5345} then Reason.CandidateCapabilities
    else if CountLocalSize(kept) != 1 then CandidateLocalSize
    else Applied
  }

  lemma Cancel(a: multiset<Word>, b: multiset<Word>, c: multiset<Word>)
    ensures a + c == b + c <==> a == b
  {
    if a + c == b + c {
      forall x
        ensures a[x] == b[x]
      {
        assert (a + c)[x] == a[x] + c[x];
        assert (b + c)[x] == b[x] + c[x];
      }
    }
  }

  lemma SameCapabilities(kept: multiset<Word>)
    ensures kept + ADDED_CAPABILITIES == multiset{1, 50, 56, 61, 64, 5345} <==> kept == multiset{1, 50, 56, 5345}
  {
    var before := multiset{1, 50, 56, 5345};
    assert before + ADDED_CAPABILITIES == multiset{1, 50, 56, 61, 64, 5345};
    Cancel(kept, before, ADDED_CAPABILITIES);
  }

  /** The checks, written on what survives. */
  lemma VerdictOn(code: seq<Instr>, a: Anchors, preTail: Word, n: Word)
    requires AllWellSized(code) && Short(code) && n + NEW_IDS < 0x1_0000_0000
    requires a.function_ <= |code| && a.keptEnd <= |code| && a.return_ <= |code|
    requires PrologueComplete(code, a.function_, a.type_)
    ensures CheckBody(Candidate(code, a, preTail, n))
            == Verdict(Survivors(code, a), AccessCounts(Candidate(code, a, preTail, n), 12, 4))
  {
    hide Candidate, HasMagic, CountOp, CountLocalSize, AccessCounts, Capabilities, Survivors, Short, PrologueComplete;
    CountCandidate(code, a, preTail, n, OP_CONTROL_BARRIER);
    CountCandidate(code, a, preTail, n, OP_IMAGE_WRITE);
    CountCandidate(code, a, preTail, n, OP_GROUP_NON_UNIFORM_BROADCAST);
    CandidateDeclares(code, a, preTail, n);
    SameCapabilities(Capabilities(Survivors(code, a)));
    DeclaresMagic(code, a, preTail, n);
  }

  /**
    Which of the seven checks of the written module fails, exactly: it is always a well-formed
    stream that carries the marker, and everything else is decided by what survives of the module.
    The first check fails exactly when the first function comes after the fifth barrier. In a
    module with single definitions the access check asks for nine surviving loads and four stores.
  */
  lemma WhatCanFail(words: seq<Word>, a: Anchors)
    requires IsSpirv(words) && |words| == BASELINE_BYTES / 4 && FindAnchors(Body(words)) == Found(a)
    requires words[BOUND_WORD] == BASELINE_BOUND && PrologueComplete(Body(words), a.function_, a.type_)
    ensures CandidateFitsAt(words, a)
    ensures var (code, out) := (Body(words), CandidateWords(words, Body(words), a));
            && IsSpirv(out)
            && Check(out) == Verdict(Survivors(code, a), AccessCounts(Body(out), 12, 4))
            && (Check(out) == CandidateBarriers <==> Positions(code, OP_CONTROL_BARRIER, 0)[4] < a.function_)
            && (SingleDefinitions(Survivors(code, a), BASELINE_BOUND) ==>
                  (AccessCounts(Body(out), 12, 4) <==> AccessCounts(Survivors(code, a), 9, 4)))
  {
    hide Candidate, CheckBody, CountOp, Tile, Survivors, Short, SingleDefinitions, PrologueComplete, Accesses,
         IsSpirv, Body, CandidateWords, FindAnchors, Positions, WellSized, Op, Capabilities, CountLocalSize;
    CandidateFits(words, a);
    CandidateBody(words, a);
    var code, preTail := Body(words), words[a.labelWord + 1];
    VerdictOn(code, a, preTail, BASELINE_BOUND);
    SurvivingBarriers(code, a);
    assert WellSized(code[Positions(code, OP_CONTROL_BARRIER, 0)[4]]);
    if SingleDefinitions(Survivors(code, a), BASELINE_BOUND) {
      CandidateLoads(code, a, preTail, BASELINE_BOUND);
    }
  }
}
