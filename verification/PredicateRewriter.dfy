/** The predicate rewriter as the walk over the buffer that performs it. */
module PredicateRewriter {
  import opened BitMasks
  import opened Options
  import opened SpirvStream
  import opened PredicateRewrite
  import opened PredicateTheorems

  /** What a run at `level` makes of a shader's bytes; none when any guard fails. */
  function Applied(level: Level, shaderName: string, code: seq<Byte>, fingerprint: seq<Byte> -> bool)
    : Option<seq<Byte>>
  {
    if shaderName != TARGET_SHADER || !fingerprint(code) || |code| % 4 != 0 then None
    else
      match RewriteModule(level, Words(code))
      case None => None
      case Some(words) => Some(Bytes(words))
  }

  /** From the bytes a run wrote, the bytes it read can be recovered. */
  lemma BytesRecovered(level: Level, shaderName: string, code: seq<Byte>, fingerprint: seq<Byte> -> bool)
    requires Applied(level, shaderName, code, fingerprint).Some?
    requires AllBelowBound(Tile(Words(code)[HEADER_WORDS..]).value)
    ensures var written := Words(Applied(level, shaderName, code, fingerprint).value);
            Undo(written).Some? && Bytes(Undo(written).value) == code
  {
    hide RewriteModule, Undo, AllBelowBound;
    WordsBytes(RewriteModule(level, Words(code)).value);
    IsModule(level, Words(code));
    UndoRewrite(level, Words(code));
    BytesWords(code);
  }

  lemma IsModule(level: Level, words: seq<Word>)
    requires RewriteModule(level, words).Some?
    ensures |words| >= HEADER_WORDS && Tile(words[HEADER_WORDS..]).Some?
  {
  }

  // ---- Resolving masks ----

  function ModuleTable(words: seq<Word>): Option<map<Word, Word>>
    requires |words| >= HEADER_WORDS
  {
    match Tile(words[HEADER_WORDS..])
    case None => None
    case Some(code) => Table(code, map[])
  }

  /** The two tables the resolver keeps, indexed by id, hold this map. */
  ghost predicate Describes(seen: seq<bool>, values: seq<Word>, table: map<Word, Word>) {
    && |seen| == OLD_BOUND && |values| == OLD_BOUND
    && (forall id :: id in table ==> id < OLD_BOUND)
    && forall id: Word :: id < OLD_BOUND ==> (seen[id] <==> id in table) && (seen[id] ==> values[id] == table[id])
  }

  lemma TableReads(i: Instr, rest: seq<Instr>, table: map<Word, Word>)
    requires |i| > 0
    ensures Table([i] + rest, table)
            == if !IsUintConstant(i) then Table(rest, table)
               else if i[2] >= OLD_BOUND || i[2] in table then None
               else Table(rest, table[i[2] := i[3]])
  {
    assert ([i] + rest)[1..] == rest;
  }

  lemma EntersTable(seen: seq<bool>, values: seq<Word>, table: map<Word, Word>, id: Word, value: Word)
    requires Describes(seen, values, table) && id < OLD_BOUND
    ensures Describes(seen[id := true], values[id := value], table[id := value])
  {
  }

  /** The stream word by word: whether the instruction at the cursor is a uint constant. */
  lemma ConstantAt(words: seq<Word>, cursor: nat, n: nat)
    requires cursor + n <= |words| && n > 0
    ensures var i := words[cursor..cursor + n];
            && (IsUintConstant(i) <==> OpOf(words[cursor]) == OP_CONSTANT && n == 4 && words[cursor + 1] == TYPE_UINT)
            && (IsUintConstant(i) ==> i[2] == words[cursor + 2] && i[3] == words[cursor + 3])
  {
    hide OpOf;
    InstrAt(words, cursor, n, 0);
    if n == 4 {
      InstrAt(words, cursor, n, 1);
      InstrAt(words, cursor, n, 2);
      InstrAt(words, cursor, n, 3);
    }
  }

  method ReadConstants(code: seq<Byte>) returns (ok: bool, constantSeen: array<bool>, constantValues: array<Word>)
    requires |code| / 4 >= HEADER_WORDS
    ensures fresh(constantSeen) && fresh(constantValues)
    ensures ok <==> ModuleTable(Words(code)).Some?
    ensures ok ==> Describes(constantSeen[..], constantValues[..], ModuleTable(Words(code)).value)
  {
    hide Tile, Table, ReadWord, Join;
    constantSeen := new bool[OLD_BOUND](_ => false);
    constantValues := new Word[OLD_BOUND](_ => 0);
    var wordCount := |code| / 4;
    ghost var words, table: map<Word, Word> := Words(code), map[];
    var cursor := HEADER_WORDS;
    while cursor < wordCount
      invariant HEADER_WORDS <= cursor <= wordCount
      invariant fresh(constantSeen) && fresh(constantValues)
      invariant Describes(constantSeen[..], constantValues[..], table)
      invariant Tile(words[HEADER_WORDS..]).Some? <==> Tile(words[cursor..]).Some?
      invariant Tile(words[cursor..]).Some? ==> ModuleTable(words) == Table(Tile(words[cursor..]).value, table)
    {
      var first := ReadWord(code, cursor);
      var n := CountOf(first);
      TileStep(words, cursor);
      if n == 0 || cursor + n > wordCount {
        return false, constantSeen, constantValues;
      }
      ghost var i := words[cursor..cursor + n];
      if Tile(words[cursor..]).Some? {
        TableReads(i, Tile(words[cursor + n..]).value, table);
      }
      ConstantAt(words, cursor, n);
      if OpOf(first) == OP_CONSTANT && n == 4 && ReadWord(code, cursor + 1) == TYPE_UINT {
        var id := ReadWord(code, cursor + 2);
        if id >= OLD_BOUND || constantSeen[id] {
          return false, constantSeen, constantValues;
        }
        EntersTable(constantSeen[..], constantValues[..], table, id, ReadWord(code, cursor + 3));
        constantSeen[id] := true;
        constantValues[id] := ReadWord(code, cursor + 3);
        table := table[id := i[3]];
      }
      cursor := cursor + n;
    }
    assert words[cursor..] == [];
    TileNothing();
    ok := true;
  }

  lemma TileNothing()
    ensures Tile([]) == Some([])
    ensures forall table :: Table([], table) == Some(table)
  {
  }

  /** Fill the mask tables when every step is a power of two; masks no constant holds get id 0. */
  method ResolvePow2Masks(code: seq<Byte>, maskConstants: array<Word>, maskValues: array<Word>)
    returns (enabled: bool)
    requires |code| / 4 >= HEADER_WORDS
    requires maskConstants.Length == PREDICATES == maskValues.Length && maskConstants != maskValues
    modifies maskConstants, maskValues
    ensures var table := ModuleTable(Words(code));
            && (enabled <==> table.Some? && AllReducible(table.value))
            && (enabled ==>
                  && maskValues[..] == MaskValues(table.value)
                  && forall p :: 0 <= p < PREDICATES ==>
                       maskConstants[p] == FirstHolding(table.value, maskValues[p], 1))
  {
    hide PassesPowerTest, ModuleTable, FirstHolding;
    var ok, constantSeen, constantValues := ReadConstants(code);
    if !ok {
      return false;
    }
    ghost var table := ModuleTable(Words(code)).value;
    var index := 0;
    while index < PREDICATES
      invariant 0 <= index <= PREDICATES
      invariant Describes(constantSeen[..], constantValues[..], table)
      invariant forall p :: 0 <= p < index ==>
                  && Reducible(table, p) && maskValues[p] == MaskValue(table, p)
                  && maskConstants[p] == FirstHolding(table, maskValues[p], 1)
    {
      var stepId := STEP_CONSTANTS[index];
      if stepId >= OLD_BOUND || !constantSeen[stepId] {
        assert !Reducible(table, index);
        return false;
      }
      var value := constantValues[stepId];
      if !PassesPowerTest(value) {
        assert !Reducible(table, index);
        return false;
      }
      PowerIsPositive(value);
      var maskId := FindConstant(constantSeen, constantValues, table, value - 1);
      maskValues[index] := value - 1;
      maskConstants[index] := maskId;
      index := index + 1;
    }
    enabled := true;
  }

  lemma PowerIsPositive(value: Word)
    requires PassesPowerTest(value)
    ensures value > 0
  {
  }

  /** The first id that holds a value. */
  method FindConstant(seen: array<bool>, values: array<Word>, ghost table: map<Word, Word>, value: Word)
    returns (maskId: Word)
    requires Describes(seen[..], values[..], table)
    ensures maskId == FirstHolding(table, value, 1)
  {
    maskId := 0;
    var id: Word := 1;
    while id < OLD_BOUND
      invariant 1 <= id <= OLD_BOUND
      invariant FirstHolding(table, value, 1) == FirstHolding(table, value, id)
    {
      if seen[id] && values[id] == value {
        return id;
      }
      id := id + 1;
    }
  }

  /** Give every missing mask an earlier predicate's fresh id for the same value, or a new one. */
  method PlanFreshMasks(maskConstants: array<Word>, maskValues: array<Word>, ghost table: map<Word, Word>)
    returns (nextId: Word, synthesized: nat)
    requires maskConstants.Length == PREDICATES == maskValues.Length && maskConstants != maskValues
    requires forall p :: 0 <= p < PREDICATES ==> maskConstants[p] == FirstHolding(table, maskValues[p], 1)
    modifies maskConstants
    ensures maskConstants[..] == PlanMasks(table, maskValues[..], PREDICATES).ids
    ensures nextId == PlanMasks(table, maskValues[..], PREDICATES).nextId == OLD_BOUND + synthesized
  {
    hide FirstHolding, SharedMask, PlanMasks;
    PlanNone(table, maskValues[..]);
    nextId, synthesized := OLD_BOUND, 0;
    ghost var values := maskValues[..];
    var p := 0;
    while p < PREDICATES
      invariant 0 <= p <= PREDICATES && maskValues[..] == values
      invariant maskConstants[..p] == PlanMasks(table, values, p).ids
      invariant forall q :: p <= q < PREDICATES ==> maskConstants[q] == FirstHolding(table, values[q], 1)
      invariant nextId == PlanMasks(table, values, p).nextId == OLD_BOUND + synthesized
    {
      ghost var ids := maskConstants[..p];
      PlanStep(table, values, p);
      var maskId := maskConstants[p];
      if maskId == 0 {
        maskId := ShareMask(maskConstants, maskValues, p);
        if maskId == 0 {
          maskId := nextId;
          nextId := nextId + 1;
          synthesized := synthesized + 1;
        }
      }
      maskConstants[p] := maskId;
      assert maskConstants[..p] == ids;
      assert maskConstants[..p + 1] == ids + [maskConstants[p]];
      p := p + 1;
    }
    assert maskConstants[..] == maskConstants[..p];
  }

  lemma PlanNone(table: map<Word, Word>, values: seq<Word>)
    requires PREDICATES == |values|
    ensures PlanMasks(table, values, 0) == MaskPlan([], OLD_BOUND)
  {
  }

  lemma PlanStep(table: map<Word, Word>, values: seq<Word>, p: nat)
    requires p < PREDICATES == |values|
    ensures var before, after := PlanMasks(table, values, p), PlanMasks(table, values, p + 1);
            var found := FirstHolding(table, values[p], 1);
            var shared := SharedMask(values, before.ids, values[p], 0);
            var unheld := found == 0 && shared == 0;
            && after.ids == before.ids + [if found != 0 then found else if shared != 0 then shared else before.nextId]
            && after.nextId == if unheld then before.nextId + 1 else before.nextId
  {
    hide FirstHolding, SharedMask;
  }

  method ShareMask(maskConstants: array<Word>, maskValues: array<Word>, p: nat) returns (shared: Word)
    requires p < PREDICATES == maskConstants.Length == maskValues.Length
    ensures shared == SharedMask(maskValues[..], maskConstants[..p], maskValues[p], 0)
  {
    shared := 0;
    ghost var values, ids := maskValues[..], maskConstants[..p];
    var previous := 0;
    while previous < p
      invariant 0 <= previous <= p
      invariant SharedMask(values, ids, maskValues[p], 0) == SharedMask(values, ids, maskValues[p], previous)
    {
      if maskValues[previous] == maskValues[p] && maskConstants[previous] >= OLD_BOUND {
        return maskConstants[previous];
      }
      previous := previous + 1;
    }
  }

  // ---- Writing ----

  method AppendOp3(words: seq<Word>, op: nat, a: Word, b: Word, c: Word) returns (longer: seq<Word>)
    requires op < 0x1_0000
    ensures longer == words + Emit(op, [a, b, c])
  {
    longer := words + [Pack(4, op), a, b, c];
    assert [Pack(4, op), a, b, c] == Emit(op, [a, b, c]);
  }

  method AppendOp4(words: seq<Word>, op: nat, a: Word, b: Word, c: Word, d: Word) returns (longer: seq<Word>)
    requires op < 0x1_0000
    ensures longer == words + Emit(op, [a, b, c, d])
  {
    longer := words + [Pack(5, op), a, b, c, d];
    assert [Pack(5, op), a, b, c, d] == Emit(op, [a, b, c, d]);
  }

  /** One more instruction written of a block. */
  lemma Written(base: seq<Word>, code: seq<Instr>, k: nat)
    requires k < |code|
    ensures base + Flatten(code[..k]) + code[k] == base + Flatten(code[..k + 1])
  {
    assert code[..k + 1] == code[..k] + [code[k]];
    FlattenAppend(code[..k], [code[k]]);
    FlattenOne(code[k]);
  }

  lemma NothingWritten(base: seq<Word>, code: seq<Instr>)
    ensures base == base + Flatten(code[..0]) && code[..|code|] == code
  {
  }

  /** The declarations of fresh masks, in front of the first function. */
  method DeclareMasks(words: seq<Word>, maskConstants: array<Word>, maskValues: array<Word>)
    returns (longer: seq<Word>)
    requires maskConstants.Length == PREDICATES == maskValues.Length
    ensures longer == words + Flatten(MaskConstants(maskConstants[..], maskValues[..], PREDICATES))
  {
    hide Emit;
    ghost var ids, values := maskConstants[..], maskValues[..];
    longer := words;
    var p := 0;
    while p < PREDICATES
      invariant 0 <= p <= PREDICATES
      invariant longer == words + Flatten(MaskConstants(ids, values, p))
    {
      var maskId := maskConstants[p];
      if maskId >= OLD_BOUND {
        var emitted := false;
        var previous := 0;
        while previous < p && !emitted
          invariant 0 <= previous <= p
          invariant emitted <==> maskId in ids[..previous]
        {
          assert ids[..previous + 1] == ids[..previous] + [ids[previous]];
          emitted := maskConstants[previous] == maskId;
          previous := previous + 1;
        }
        assert emitted ==> maskId in ids[..p] by {
          assert ids[..p] == ids[..previous] + ids[previous..p];
        }
        if !emitted {
          ghost var before, last := MaskConstants(ids, values, p), Emit(OP_CONSTANT, [TYPE_UINT, maskId, values[p]]);
          longer := AppendOp3(longer, OP_CONSTANT, TYPE_UINT, maskId, maskValues[p]);
          FlattenAppend(before, [last]);
          FlattenOne(last);
        }
      }
      p := p + 1;
    }
  }

  method WriteSeparateTests(words: seq<Word>, op: nat, rhs: Word, n: Word) returns (longer: seq<Word>)
    requires op < 0x1_0000 && n + 8 < 0x1_0000_0000
    ensures longer == words + Flatten(SeparateTests(op, rhs, n))
  {
    hide Emit, Flatten;
    ghost var c := SeparateTests(op, rhs, n);
    NothingWritten(words, c);
    longer := AppendOp3(words, OP_LOAD, TYPE_V3_UINT, n, LOCAL_INVOCATION_ID);
    Written(words, c, 0);
    longer := AppendOp4(longer, OP_COMPOSITE_EXTRACT, TYPE_UINT, n + 1, n, 0);
    Written(words, c, 1);
    longer := AppendOp4(longer, OP_COMPOSITE_EXTRACT, TYPE_UINT, n + 2, n, 1);
    Written(words, c, 2);
    longer := AppendOp4(longer, op, TYPE_UINT, n + 3, n + 1, rhs);
    Written(words, c, 3);
    longer := AppendOp4(longer, op, TYPE_UINT, n + 4, n + 2, rhs);
    Written(words, c, 4);
    longer := AppendOp4(longer, OP_I_EQUAL, TYPE_BOOL, n + 5, n + 3, ZERO);
    Written(words, c, 5);
    longer := AppendOp4(longer, OP_I_EQUAL, TYPE_BOOL, n + 6, n + 4, ZERO);
    Written(words, c, 6);
    longer := AppendOp4(longer, OP_LOGICAL_AND, TYPE_BOOL, n + 7, n + 5, n + 6);
    Written(words, c, 7);
  }

  method WriteCoordinates(words: seq<Word>, n: Word) returns (longer: seq<Word>)
    requires n + 4 < 0x1_0000_0000
    ensures longer == words + Flatten(Coordinates(n))
  {
    hide Emit, Flatten;
    ghost var c := Coordinates(n);
    NothingWritten(words, c);
    longer := AppendOp3(words, OP_LOAD, TYPE_V3_UINT, n, LOCAL_INVOCATION_ID);
    Written(words, c, 0);
    longer := AppendOp4(longer, OP_COMPOSITE_EXTRACT, TYPE_UINT, n + 1, n, 0);
    Written(words, c, 1);
    longer := AppendOp4(longer, OP_COMPOSITE_EXTRACT, TYPE_UINT, n + 2, n, 1);
    Written(words, c, 2);
    longer := AppendOp4(longer, OP_BITWISE_OR, TYPE_UINT, n + 3, n + 1, n + 2);
    Written(words, c, 3);
  }

  method WriteFusedTest(words: seq<Word>, union: Word, mask: Word, n: Word) returns (longer: seq<Word>)
    requires n + 2 < 0x1_0000_0000
    ensures longer == words + Flatten(FusedTest(union, mask, n))
  {
    hide Emit, Flatten;
    ghost var c := FusedTest(union, mask, n);
    NothingWritten(words, c);
    longer := AppendOp4(words, OP_BITWISE_AND, TYPE_UINT, n, union, mask);
    Written(words, c, 0);
    longer := AppendOp4(longer, OP_I_EQUAL, TYPE_BOOL, n + 1, n, ZERO);
    Written(words, c, 1);
  }

  // ---- The walk ----

  /** What is written so far and what is still to be written make up the rewritten module. */
  ghost predicate Walked(plan: Plan, words: seq<Word>, start: State, cursor: nat, st: State, written: seq<Word>)
    requires plan.Valid() && start.Valid() && st.Valid() && HEADER_WORDS <= cursor <= |words|
  {
    var body, tail := Tile(words[HEADER_WORDS..]), Tile(words[cursor..]);
    && (body.Some? <==> tail.Some?)
    && (tail.Some? ==>
          var all, rest := Rewrite(plan, start, body.value), Rewrite(plan, st, tail.value);
          && (all.Some? <==> rest.Some?)
          && (rest.Some? ==>
                && all.value.1 == rest.value.1
                && words[..HEADER_WORDS] + Flatten(all.value.0) == written + Flatten(rest.value.0)))
  }

  /** What a walk over a module's words is to report and to have written. */
  ghost predicate Result(level: Level, words: seq<Word>, complete: bool, nextId: nat, written: seq<Word>)
    requires |words| >= HEADER_WORDS
  {
    var body := Tile(words[HEADER_WORDS..]);
    && (complete <==> body.Some? && RewriteBody(level, body.value).Some?)
    && (complete ==>
          var (out, st) := RewriteBody(level, body.value).value;
          nextId == st.nextId && written == words[..HEADER_WORDS] + Flatten(out))
  }

  lemma WalkAdvances(plan: Plan, words: seq<Word>, start: State, cursor: nat, st: State, written: seq<Word>)
    requires plan.Valid() && start.Valid() && st.Valid() && HEADER_WORDS <= cursor < |words|
    requires Walked(plan, words, start, cursor, st, written)
    requires var n := CountOf(words[cursor]); n != 0 && cursor + n <= |words|
    ensures var n := CountOf(words[cursor]);
            var i := words[cursor..cursor + n];
            && WellSized(i)
            && if Accepts(st, i) then
                 Walked(plan, words, start, cursor + n, Next(plan, st, i),
                        written + Flatten(Before(plan, st, i)) + Image(st, i))
               else
                 Tile(words[HEADER_WORDS..]).Some? ==>
                   Rewrite(plan, start, Tile(words[HEADER_WORDS..]).value).None?
  {
    hide Accepts, Next, Before, Image, Tile;
    TileStep(words, cursor);
    var n := CountOf(words[cursor]);
    var i := words[cursor..cursor + n];
    if Accepts(st, i) && Tile(words[cursor..]).Some? {
      var next := Next(plan, st, i);
      var tail := Tile(words[cursor + n..]).value;
      assert ([i] + tail)[1..] == tail;
      if Rewrite(plan, next, tail).Some? {
        FlattenParts(Before(plan, st, i), Image(st, i), Rewrite(plan, next, tail).value.0);
      }
    }
  }

  lemma WalkStarts(plan: Plan, words: seq<Word>, start: State)
    requires plan.Valid() && start.Valid() && |words| >= HEADER_WORDS
    ensures Walked(plan, words, start, HEADER_WORDS, start, words[..HEADER_WORDS])
  {
  }

  lemma WalkBreaks(plan: Plan, words: seq<Word>, start: State, cursor: nat, st: State, written: seq<Word>)
    requires plan.Valid() && start.Valid() && st.Valid() && HEADER_WORDS <= cursor <= |words|
    requires Walked(plan, words, start, cursor, st, written) && Tile(words[cursor..]).None?
    ensures Tile(words[HEADER_WORDS..]).None?
  {
  }

  /** A walk that reached the end holds the whole result, if the state it ended in is complete. */
  lemma WalkEnds(level: Level, words: seq<Word>, st: State, written: seq<Word>)
    requires |words| >= HEADER_WORDS && st.Valid()
    requires Walked(ChosenFor(level, words).0, words, Start(ChosenFor(level, words)), |words|, st, written)
    ensures Result(level, words, Complete(ChosenFor(level, words).0, st), st.nextId, written)
  {
    assert words[|words|..] == [];
  }

  /** A walk that stopped at a bad count or an instruction it does not accept has no result. */
  lemma WalkFails(level: Level, words: seq<Word>, nextId: Word, written: seq<Word>)
    requires |words| >= HEADER_WORDS
    requires var body, choice := Tile(words[HEADER_WORDS..]), ChosenFor(level, words);
             body.Some? ==> Rewrite(choice.0, Start(choice), body.value).None?
    ensures Result(level, words, false, nextId, written)
  {
  }

  lemma FlattenParts(before: seq<Instr>, image: Instr, rest: seq<Instr>)
    ensures Flatten(before + [image] + rest) == Flatten(before) + image + Flatten(rest)
  {
    FlattenAppend(before + [image], rest);
    FlattenAppend(before, [image]);
    FlattenOne(image);
  }

  function ChosenFor(level: Level, words: seq<Word>): (choice: (Plan, Word))
    requires |words| >= HEADER_WORDS
    ensures choice.0.Valid() && OLD_BOUND <= choice.1 <= OLD_BOUND + PREDICATES
  {
    match Tile(words[HEADER_WORDS..])
    case None => (Modulo, OLD_BOUND)
    case Some(code) => Choose(level, code)
  }

  /** Rewrite a shader in place, or leave it as it is. */
  method Apply(level: Level, shaderName: string, code: Bytecode, fingerprint: seq<Byte> -> bool)
    returns (applied: bool)
    modifies code
    ensures var r := Applied(level, shaderName, old(code.bytes), fingerprint);
            applied == r.Some? && code.bytes == if r.Some? then r.value else old(code.bytes)
  {
    hide Tile, Rewrite, Choose, Flatten, ReadWord;
    if shaderName != TARGET_SHADER || !fingerprint(code.bytes) {
      return false;
    }
    var wordCount := |code.bytes| / 4;
    ghost var words := Words(code.bytes);
    if |code.bytes| % 4 != 0 || wordCount < HEADER_WORDS
       || ReadWord(code.bytes, 0) != MAGIC || ReadWord(code.bytes, BOUND_WORD) != OLD_BOUND {
      return false;
    }
    var complete, nextId, rewritten := WalkBody(level, code.bytes);
    if !complete {
      return false;
    }
    rewritten := rewritten[BOUND_WORD := nextId];
    ghost var out := RewriteBody(level, Tile(words[HEADER_WORDS..]).value).value.0;
    assert rewritten == words[..HEADER_WORDS][BOUND_WORD := nextId] + Flatten(out);
    code.bytes := Bytes(rewritten);
    applied := true;
  }

  /** Mask ids and values where the level uses masks, and the first id left for predicates. */
  method PrepareMasks(level: Level, code: seq<Byte>, maskConstants: array<Word>, maskValues: array<Word>)
    returns (enabled: bool, nextId: Word, inserted: bool)
    requires |code| / 4 >= HEADER_WORDS
    requires maskConstants.Length == PREDICATES == maskValues.Length && maskConstants != maskValues
    modifies maskConstants, maskValues
    ensures var choice := ChosenFor(level, Words(code));
            && enabled == choice.0.Masks? && nextId == choice.1 && inserted == (nextId == OLD_BOUND)
            && (!enabled ==> inserted) && (enabled ==> choice.0.fused == level.Fused?)
            && (enabled ==> maskConstants[..] == choice.0.ids && maskValues[..] == choice.0.values)
  {
    hide Tile, Table, AllReducible, FirstHolding, PlanMasks;
    nextId, inserted, enabled := OLD_BOUND, true, false;
    if !level.Canonical? {
      enabled := ResolvePow2Masks(code, maskConstants, maskValues);
    }
    if enabled {
      ghost var values := maskValues[..];
      var synthesized;
      nextId, synthesized := PlanFreshMasks(maskConstants, maskValues, ModuleTable(Words(code)).value);
      inserted := synthesized == 0;
      assert maskValues[..] == values;
    }
  }

  method CopyInstruction(rewritten: seq<Word>, code: seq<Byte>, cursor: nat, n: nat) returns (longer: seq<Word>)
    requires cursor + n <= |code| / 4
    ensures longer == rewritten + Words(code)[cursor..cursor + n]
  {
    longer := rewritten;
    ghost var words := Words(code);
    for k := 0 to n
      invariant longer == rewritten + words[cursor..cursor + k]
    {
      longer := longer + [ReadWord(code, cursor + k)];
      assert words[cursor..cursor + k + 1] == words[cursor..cursor + k] + [words[cursor + k]];
    }
  }

  /** The code of one selection, with the ids it takes and the coordinates it may read. */
  method WritePredicate(rewritten: seq<Word>, fused: bool, op: nat, rhs: Word, firstId: Word,
                        sharedXY: Word, coordinatesEmitted: bool, ghost plan: Plan, ghost st: State)
    returns (longer: seq<Word>, nextId: Word, activeLane: Word, union: Word, emitted: bool)
    requires plan.Valid() && st.Valid() && st.pending.None? && st.index < PREDICATES
    requires st.nextId == firstId && st.shared == if coordinatesEmitted then Some(sharedXY) else None
    requires fused == (plan.Masks? && plan.fused)
    requires op == if plan.Masks? then OP_BITWISE_AND else OP_U_MOD
    requires rhs == if plan.Masks? then plan.ids[st.index] else STEP_CONSTANTS[st.index]
    ensures longer == rewritten + Flatten(Predicate(plan, st).0)
    ensures Predicate(plan, st).1
            == State(st.index, nextId, Some(activeLane), st.masksInserted, if emitted then Some(union) else None)
  {
    hide SeparateTests, Coordinates, FusedTest, Flatten;
    longer, nextId, union, emitted := rewritten, firstId, sharedXY, coordinatesEmitted;
    if fused {
      if !emitted {
        longer := WriteCoordinates(longer, nextId);
        union := nextId + 3;
        nextId := nextId + 4;
        emitted := true;
      }
      ghost var head := if coordinatesEmitted then [] else Coordinates(firstId);
      longer := WriteFusedTest(longer, union, rhs, nextId);
      FlattenAppend(head, FusedTest(union, rhs, nextId));
      FlattenNone();
      activeLane := nextId + 1;
      nextId := nextId + 2;
    } else {
      longer := WriteSeparateTests(longer, op, rhs, nextId);
      activeLane := nextId + 7;
      nextId := nextId + 8;
    }
  }

  lemma NothingBefore(base: seq<Word>)
    ensures base + Flatten([]) == base
  {
  }

  lemma BranchStep(plan: Plan, st: State, i: Instr)
    requires plan.Valid() && st.Valid() && WellSized(i) && st.pending.Some?
    requires ExpectedBranch(st.index, i)
    ensures Accepts(st, i) && Next(plan, st, i) == st.(index := st.index + 1, pending := None)
    ensures Image(st, i) == [i[0], st.pending.value, TRUE_LABELS[st.index], FALSE_LABELS[st.index]]
    ensures Before(plan, st, i) == []
  {
  }

  lemma SelectionStep(plan: Plan, st: State, i: Instr)
    requires plan.Valid() && st.Valid() && WellSized(i) && st.pending.None? && OpensSelection(st, i)
    ensures Accepts(st, i) && Next(plan, st, i) == Predicate(plan, st).1 && Image(st, i) == i
    ensures Before(plan, st, i) == Predicate(plan, st).0
  {
    hide Predicate;
  }

  /** The walk stands at a whole instruction. */
  ghost predicate AtInstruction(plan: Plan, words: seq<Word>, start: State, cursor: nat, st: State, written: seq<Word>)
  {
    && plan.Valid() && start.Valid() && st.Valid() && HEADER_WORDS <= cursor < |words|
    && Walked(plan, words, start, cursor, st, written)
    && var n := CountOf(words[cursor]); n != 0 && cursor + n <= |words|
  }

  function InstrFrom(words: seq<Word>, cursor: nat): Instr
    requires cursor < |words| && cursor + CountOf(words[cursor]) <= |words|
  {
    words[cursor..cursor + CountOf(words[cursor])]
  }

  lemma SelectionAdvances(plan: Plan, words: seq<Word>, start: State, cursor: nat, st: State, written: seq<Word>)
    requires AtInstruction(plan, words, start, cursor, st, written) && st.pending.None?
    requires WellSized(InstrFrom(words, cursor)) && OpensSelection(st, InstrFrom(words, cursor))
    ensures Walked(plan, words, start, cursor + CountOf(words[cursor]), Predicate(plan, st).1,
                   written + Flatten(Predicate(plan, st).0) + InstrFrom(words, cursor))
  {
    hide Walked, Predicate, Flatten, Accepts, Next, Before, Image;
    WalkAdvances(plan, words, start, cursor, st, written);
    SelectionStep(plan, st, InstrFrom(words, cursor));
  }

  lemma BranchAdvances(plan: Plan, words: seq<Word>, start: State, cursor: nat, st: State, written: seq<Word>)
    requires AtInstruction(plan, words, start, cursor, st, written) && st.pending.Some?
    requires WellSized(InstrFrom(words, cursor)) && ExpectedBranch(st.index, InstrFrom(words, cursor))
    ensures Walked(plan, words, start, cursor + CountOf(words[cursor]), st.(index := st.index + 1, pending := None),
                   written + [words[cursor], st.pending.value, TRUE_LABELS[st.index], FALSE_LABELS[st.index]])
  {
    hide Walked, Flatten, Accepts, Next, Before, Image;
    WalkAdvances(plan, words, start, cursor, st, written);
    BranchStep(plan, st, InstrFrom(words, cursor));
    NothingBefore(written);
  }

  lemma CopyAdvances(plan: Plan, words: seq<Word>, start: State, cursor: nat, st: State, written: seq<Word>)
    requires AtInstruction(plan, words, start, cursor, st, written) && st.pending.None?
    requires WellSized(InstrFrom(words, cursor)) && !OpensSelection(st, InstrFrom(words, cursor))
    ensures var (i, declares) := (InstrFrom(words, cursor), NeedsMasks(plan, st, InstrFrom(words, cursor)));
            Walked(plan, words, start, cursor + CountOf(words[cursor]),
                   if declares then st.(masksInserted := true) else st,
                   (if declares then written + Flatten(MaskConstants(plan.ids, plan.values, PREDICATES)) else written) + i)
  {
    hide Walked, Flatten, Accepts, Next, Before, Image, MaskConstants, NeedsMasks;
    WalkAdvances(plan, words, start, cursor, st, written);
    var i := InstrFrom(words, cursor);
    if NeedsMasks(plan, st, i) {
      FunctionStep(plan, st, i);
    } else {
      PlainStep(plan, st, i);
      NothingBefore(written);
    }
  }

  /** While a selection waits for its branch, nothing else is accepted. */
  lemma WalkRejects(level: Level, words: seq<Word>, cursor: nat, st: State, written: seq<Word>,
                    nextId: Word, out: seq<Word>)
    requires |words| >= HEADER_WORDS
    requires var choice := ChosenFor(level, words);
             AtInstruction(choice.0, words, Start(choice), cursor, st, written)
    requires st.pending.Some? && WellSized(InstrFrom(words, cursor))
    requires OpensSelection(st, InstrFrom(words, cursor)) || !ExpectedBranch(st.index, InstrFrom(words, cursor))
    ensures Result(level, words, false, nextId, out)
  {
    hide Walked, Next, Before, Image, Rewrite, Start, Choose, Tile;
    var choice := ChosenFor(level, words);
    WalkAdvances(choice.0, words, Start(choice), cursor, st, written);
    WalkFails(level, words, nextId, out);
  }

  /** Whether the instruction at the cursor is the recorded branch of selection `index`. */
  method IsExpectedBranch(code: seq<Byte>, cursor: nat, n: nat, op: nat, index: nat) returns (expected: bool)
    requires 0 < n && cursor + n <= |code| / 4 && index < PREDICATES && op == OpOf(Words(code)[cursor])
    ensures expected <==> ExpectedBranch(index, Words(code)[cursor..cursor + n])
    ensures expected ==> op == OP_BRANCH_CONDITIONAL
  {
    hide OpOf, ReadWord;
    ghost var words := Words(code);
    InstrAt(words, cursor, n, 0);
    if n != 4 {
      return false;
    }
    InstrAt(words, cursor, n, 1);
    InstrAt(words, cursor, n, 2);
    InstrAt(words, cursor, n, 3);
    expected := op == OP_BRANCH_CONDITIONAL && ReadWord(code, cursor + 1) == OLD_CONDITIONS[index]
                && ReadWord(code, cursor + 2) == TRUE_LABELS[index] && ReadWord(code, cursor + 3) == FALSE_LABELS[index];
  }

  /** Whether the instruction at the cursor opens selection `index`. */
  method IsSelection(code: seq<Byte>, cursor: nat, n: nat, op: nat, index: nat, ghost st: State) returns (opens: bool)
    requires 0 < n && cursor + n <= |code| / 4 && op == OpOf(Words(code)[cursor]) && st.index == index
    ensures opens <==> OpensSelection(st, Words(code)[cursor..cursor + n])
    ensures opens ==> index < PREDICATES && op == OP_SELECTION_MERGE
  {
    hide OpOf, ReadWord;
    ghost var words := Words(code);
    InstrAt(words, cursor, n, 0);
    if n != 3 {
      return false;
    }
    InstrAt(words, cursor, n, 1);
    opens := op == OP_SELECTION_MERGE && index < PREDICATES && ReadWord(code, cursor + 1) == MERGE_LABELS[index];
  }

  /** A selection: its predicate, then the instruction itself. */
  method WriteSelection(code: seq<Byte>, cursor: nat, n: nat, written: seq<Word>, fused: bool, op: nat, rhs: Word,
                        firstId: Word, sharedXY: Word, coordinatesEmitted: bool,
                        ghost plan: Plan, ghost start: State, ghost st: State)
    returns (longer: seq<Word>, nextId: Word, activeLane: Word, union: Word, emitted: bool)
    requires AtInstruction(plan, Words(code), start, cursor, st, written) && n == CountOf(Words(code)[cursor])
    requires WellSized(InstrFrom(Words(code), cursor)) && OpensSelection(st, InstrFrom(Words(code), cursor))
    requires st.pending.None? && st.nextId == firstId && st.shared == if coordinatesEmitted then Some(sharedXY) else None
    requires fused == (plan.Masks? && plan.fused)
    requires op == if plan.Masks? then OP_BITWISE_AND else OP_U_MOD
    requires st.index < PREDICATES && rhs == if plan.Masks? then plan.ids[st.index] else STEP_CONSTANTS[st.index]
    ensures var next := State(st.index, nextId, Some(activeLane), st.masksInserted, if emitted then Some(union) else None);
            next.Valid() && Walked(plan, Words(code), start, cursor + n, next, longer)
  {
    hide Walked, Flatten, OpensSelection, CountOf, ReadWord;
    SelectionAdvances(plan, Words(code), start, cursor, st, written);
    longer, nextId, activeLane, union, emitted :=
      WritePredicate(written, fused, op, rhs, firstId, sharedXY, coordinatesEmitted, plan, st);
    longer := CopyInstruction(longer, code, cursor, n);
  }

  /** The branch of the pending selection, on its new condition. */
  method WriteBranch(code: seq<Byte>, cursor: nat, written: seq<Word>, activeLane: Word, index: nat,
                     ghost plan: Plan, ghost start: State, ghost st: State)
    returns (longer: seq<Word>)
    requires AtInstruction(plan, Words(code), start, cursor, st, written)
    requires st.pending == Some(activeLane) && st.index == index < PREDICATES
    requires WellSized(InstrFrom(Words(code), cursor)) && ExpectedBranch(index, InstrFrom(Words(code), cursor))
    ensures var next := st.(index := index + 1, pending := None);
            next.Valid() && Walked(plan, Words(code), start, cursor + CountOf(Words(code)[cursor]), next, longer)
  {
    hide Walked, Flatten, ExpectedBranch, CountOf, ReadWord;
    BranchAdvances(plan, Words(code), start, cursor, st, written);
    longer := written + [ReadWord(code, cursor), activeLane, TRUE_LABELS[index], FALSE_LABELS[index]];
  }

  /** Anything else is copied; the first function comes after the declarations of the masks. */
  method WriteOther(code: seq<Byte>, cursor: nat, n: nat, op: nat, written: seq<Word>, declared: seq<Word>,
                    ghost plan: Plan, ghost start: State, ghost st: State)
    returns (longer: seq<Word>)
    requires AtInstruction(plan, Words(code), start, cursor, st, written) && st.pending.None?
    requires n == CountOf(Words(code)[cursor]) && op == OpOf(Words(code)[cursor])
    requires WellSized(InstrFrom(Words(code), cursor)) && !OpensSelection(st, InstrFrom(Words(code), cursor))
    requires plan.Masks? || st.masksInserted
    requires declared == if !st.masksInserted && op == OP_FUNCTION
                         then written + Flatten(MaskConstants(plan.ids, plan.values, PREDICATES)) else written
    ensures var next := st.(masksInserted := st.masksInserted || op == OP_FUNCTION);
            next.Valid() && Walked(plan, Words(code), start, cursor + n, next, longer)
  {
    hide Walked, Flatten, OpensSelection, CountOf, OpOf, MaskConstants;
    CopyAdvances(plan, Words(code), start, cursor, st, written);
    longer := CopyInstruction(declared, code, cursor, n);
    DeclaresAt(plan, st, Words(code), cursor, n);
  }

  lemma DeclaresAt(plan: Plan, st: State, words: seq<Word>, cursor: nat, n: nat)
    requires 0 < n && cursor + n <= |words|
    ensures NeedsMasks(plan, st, words[cursor..cursor + n])
            <==> plan.Masks? && !st.masksInserted && OpOf(words[cursor]) == OP_FUNCTION
  {
    InstrAt(words, cursor, n, 0);
  }

  method WalkBody(level: Level, code: seq<Byte>) returns (complete: bool, nextId: Word, rewritten: seq<Word>)
    requires |code| / 4 >= HEADER_WORDS
    ensures Result(level, Words(code), complete, nextId, rewritten)
  {
    hide Tile, Rewrite, Choose, Flatten, ReadWord, Predicate, MaskConstants, Walked,
         CountOf, OpOf, Result, NeedsMasks, OpensSelection, ExpectedBranch, WellSized, ChosenFor, Words;
    ghost var words := Words(code);
    var wordCount := |code| / 4;
    var maskConstants, maskValues := new Word[PREDICATES](_ => 0), new Word[PREDICATES](_ => 0);
    var enabled, firstId, inserted := PrepareMasks(level, code, maskConstants, maskValues);
    ghost var choice := ChosenFor(level, words);
    ghost var plan, start := choice.0, Start(choice);
    var predicateIndex, pendingActiveLane, sharedXY := 0, 0, 0;
    var pendingPredicate, coordinatesEmitted := false, false;
    nextId := firstId;
    rewritten := CopyInstruction([], code, 0, HEADER_WORDS);
    assert rewritten == words[..HEADER_WORDS];
    ghost var st := start;
    var cursor := HEADER_WORDS;
    complete := false;
    WalkStarts(plan, words, start);
    while cursor < wordCount
      invariant HEADER_WORDS <= cursor <= wordCount && st.Valid() && predicateIndex <= PREDICATES
      invariant st == State(predicateIndex, nextId, if pendingPredicate then Some(pendingActiveLane) else None,
                            inserted, if coordinatesEmitted then Some(sharedXY) else None)
      invariant enabled ==> maskConstants[..] == plan.ids && maskValues[..] == plan.values
      invariant !enabled ==> inserted
      invariant Walked(plan, words, start, cursor, st, rewritten)
    {
      var first := ReadWord(code, cursor);
      var n, op := CountOf(first), OpOf(first);
      TileStep(words, cursor);
      if n == 0 || cursor + n > wordCount {
        WalkBreaks(plan, words, start, cursor, st, rewritten);
        WalkFails(level, words, nextId, rewritten);
        return;
      }
      var opens := IsSelection(code, cursor, n, op, predicateIndex, st);
      var declared := rewritten;
      if !inserted && op == OP_FUNCTION {
        declared := DeclareMasks(rewritten, maskConstants, maskValues);
        inserted := true;
      }
      if opens {
        if pendingPredicate {
          WalkRejects(level, words, cursor, st, rewritten, nextId, rewritten);
          return;
        }
        rewritten, nextId, pendingActiveLane, sharedXY, coordinatesEmitted :=
          WriteSelection(code, cursor, n, declared, enabled && level.Fused?, if enabled then OP_BITWISE_AND else OP_U_MOD,
                         if enabled then maskConstants[predicateIndex] else STEP_CONSTANTS[predicateIndex],
                         nextId, sharedXY, coordinatesEmitted, plan, start, st);
        pendingPredicate := true;
      } else if pendingPredicate {
        var expected := IsExpectedBranch(code, cursor, n, op, predicateIndex);
        if !expected {
          WalkRejects(level, words, cursor, st, rewritten, nextId, rewritten);
          return;
        }
        rewritten := WriteBranch(code, cursor, declared, pendingActiveLane, predicateIndex, plan, start, st);
        pendingActiveLane, pendingPredicate := 0, false;
        predicateIndex := predicateIndex + 1;
      } else {
        rewritten := WriteOther(code, cursor, n, op, rewritten, declared, plan, start, st);
      }
      st := State(predicateIndex, nextId, if pendingPredicate then Some(pendingActiveLane) else None,
                  inserted, if coordinatesEmitted then Some(sharedXY) else None);
      cursor := cursor + n;
    }
    WalkEnds(level, words, st, rewritten);
    complete := predicateIndex == PREDICATES && !pendingPredicate
                && !(enabled && level.Fused? && !coordinatesEmitted);
  }
}
