/** The tail fusion as the passes over the buffer that perform it. */
module TailFuser {
  import opened BitMasks
  import opened Options
  import opened SpirvStream
  import opened TailFusion

  /** Where an instruction starts, how many words it has, and what it does. */
  datatype Instruction = Instruction(word: nat, wordCount: nat, opCode: nat)

  /** The list of positions describes these instructions of the module. */
  ghost predicate Describes(list: seq<Instruction>, words: seq<Word>, code: seq<Instr>) {
    |list| == |code| && forall k :: 0 <= k < |list| ==> DescribesAt(list[k], words, code, k)
  }

  ghost predicate DescribesAt(ins: Instruction, words: seq<Word>, code: seq<Instr>, k: nat)
    requires k < |code|
  {
    && WellSized(code[k]) && ins == Instruction(Offset(code, k), |code[k]|, Op(code[k]))
    && ins.word + ins.wordCount <= |words| && words[ins.word..ins.word + ins.wordCount] == code[k]
  }

  lemma DescribesMore(list: seq<Instruction>, words: seq<Word>, code: seq<Instr>, n: nat)
    requires Describes(list, words, code) && |words| >= HEADER_WORDS
    requires HEADER_WORDS <= Offset(code, |code|) && Offset(code, |code|) + n <= |words|
    requires WellSized(words[Offset(code, |code|)..Offset(code, |code|) + n])
    ensures var at := Offset(code, |code|);
            var i := words[at..at + n];
            && Describes(list + [Instruction(at, n, Op(i))], words, code + [i])
            && Offset(code + [i], |code| + 1) == at + n
  {
    hide WellSized, Op;
    var at := Offset(code, |code|);
    var i := words[at..at + n];
    forall k | 0 <= k < |code|
      ensures DescribesAt(list[k], words, code + [i], k)
    {
      assert (code + [i])[..k] == code[..k];
      assert DescribesAt(list[k], words, code, k);
    }
    assert (code + [i])[..|code|] == code == code[..|code|];
    assert (code + [i])[..|code| + 1] == code + [i];
    FlattenAppend(code, [i]);
    FlattenOne(i);
  }

  /** Read the instructions of a module; exactly the modules that are whole streams are read. */
  method Parse(code: seq<Byte>) returns (ok: bool, instructions: seq<Instruction>)
    ensures ok <==> |code| % 4 == 0 && IsSpirv(Words(code))
    ensures ok ==> Describes(instructions, Words(code), Body(Words(code)))
  {
    hide ReadWord, Tile, Offset;
    instructions := [];
    if |code| < 4 * HEADER_WORDS || |code| % 4 != 0 || ReadWord(code, 0) != MAGIC {
      return false, [];
    }
    var words := |code| / 4;
    ghost var stream, done: seq<Instr> := Words(code), [];
    var cursor := HEADER_WORDS;
    StartOffset();
    while cursor < words
      invariant HEADER_WORDS <= cursor <= words && cursor == Offset(done, |done|)
      invariant Describes(instructions, stream, done)
      invariant Tile(stream[HEADER_WORDS..]).Some? <==> Tile(stream[cursor..]).Some?
      invariant Tile(stream[cursor..]).Some? ==>
                  Tile(stream[HEADER_WORDS..]).value == done + Tile(stream[cursor..]).value
    {
      var first := ReadWord(code, cursor);
      var count, op := CountOf(first), OpOf(first);
      TileStep(stream, cursor);
      if count == 0 || cursor + count > words {
        return false, [];
      }
      ghost var i := stream[cursor..cursor + count];
      DescribesMore(instructions, stream, done, count);
      instructions := instructions + [Instruction(cursor, count, op)];
      assert Tile(stream[cursor..]).Some? ==>
          done + Tile(stream[cursor..]).value == done + [i] + Tile(stream[cursor + count..]).value;
      done := done + [i];
      cursor := cursor + count;
    }
    EndOfStream(stream, done);
    ok := instructions != [];
  }

  lemma StartOffset()
    ensures Offset([], 0) == HEADER_WORDS
  {
  }

  lemma EndOfStream(stream: seq<Word>, done: seq<Instr>)
    ensures Tile(stream[|stream|..]) == Some([]) && done + [] == done
  {
  }

  // ---- Counting ----

  lemma Suffix(code: seq<Instr>, k: nat)
    requires k < |code|
    ensures code[k..] != [] && code[k..][0] == code[k] && code[k..][1..] == code[k + 1..]
  {
  }

  method Count(instructions: seq<Instruction>, op: nat, ghost words: seq<Word>, ghost code: seq<Instr>)
    returns (n: nat)
    requires AllWellSized(code) && Describes(instructions, words, code)
    ensures n == CountOp(code, op)
  {
    n := 0;
    assert code[0..] == code;
    for k := 0 to |instructions|
      invariant CountOp(code, op) == n + CountOp(code[k..], op)
    {
      Suffix(code, k);
      assert DescribesAt(instructions[k], words, code, k);
      if instructions[k].opCode == op {
        n := n + 1;
      }
    }
  }

  method HasLocalSize32(bytes: seq<Byte>, instructions: seq<Instruction>, ghost code: seq<Instr>)
    returns (one: bool)
    requires AllWellSized(code) && Describes(instructions, Words(bytes), code)
    ensures one <==> CountLocalSize(code) == 1
  {
    hide ReadWord, Offset;
    var matches := 0;
    ghost var words := Words(bytes);
    assert code[0..] == code;
    for k := 0 to |instructions|
      invariant CountLocalSize(code) == matches + CountLocalSize(code[k..])
    {
      Suffix(code, k);
      var ins := instructions[k];
      assert DescribesAt(ins, words, code, k);
      assert forall d :: 0 <= d < ins.wordCount ==> code[k][d] == words[ins.word + d];
      if ins.opCode == OP_EXECUTION_MODE && ins.wordCount == 6
         && ReadWord(bytes, ins.word + 2) == EXECUTION_MODE_LOCAL_SIZE && ReadWord(bytes, ins.word + 3) == 32
         && ReadWord(bytes, ins.word + 4) == 32 && ReadWord(bytes, ins.word + 5) == 1 {
        matches := matches + 1;
      }
    }
    one := matches == 1;
  }

  method HasAppliedMagic(bytes: seq<Byte>, instructions: seq<Instruction>, ghost code: seq<Instr>)
    returns (found: bool)
    requires AllWellSized(code) && Describes(instructions, Words(bytes), code)
    ensures found <==> HasMagic(code)
  {
    hide ReadWord, Offset;
    ghost var words := Words(bytes);
    for k := 0 to |instructions|
      invariant forall j :: 0 <= j < k ==> !IsMagic(code[j])
    {
      var ins := instructions[k];
      assert DescribesAt(ins, words, code, k);
      assert forall d :: 0 <= d < ins.wordCount ==> code[k][d] == words[ins.word + d];
      if ins.opCode == OP_CONSTANT && ins.wordCount == 4
         && ReadWord(bytes, ins.word + 1) == TYPE_UINT && ReadWord(bytes, ins.word + 3) == APPLIED_MAGIC {
        assert IsMagic(code[k]);
        return true;
      }
    }
    found := false;
  }

  /** Sorted lists are equal exactly when the lists hold the same capabilities equally often. */
  method HasExactCapabilities(bytes: seq<Byte>, instructions: seq<Instruction>, expected: multiset<Word>,
                              ghost code: seq<Instr>)
    returns (exact: bool)
    requires AllWellSized(code) && Describes(instructions, Words(bytes), code)
    ensures exact <==> Capabilities(code) == expected
  {
    hide ReadWord, Offset;
    var actual: seq<Word> := [];
    ghost var words := Words(bytes);
    assert code[0..] == code;
    for k := 0 to |instructions|
      invariant Capabilities(code) == multiset(actual) + Capabilities(code[k..])
    {
      Suffix(code, k);
      var ins := instructions[k];
      assert DescribesAt(ins, words, code, k);
      assert forall d :: 0 <= d < ins.wordCount ==> code[k][d] == words[ins.word + d];
      if ins.opCode == OP_CAPABILITY && ins.wordCount == 2 {
        actual := actual + [ReadWord(bytes, ins.word + 1)];
      }
    }
    exact := multiset(actual) == expected;
  }

  method StaticWorkgroupAccessCounts(bytes: seq<Byte>, instructions: seq<Instruction>, ghost code: seq<Instr>)
    returns (loads: nat, stores: nat)
    requires AllWellSized(code) && Describes(instructions, Words(bytes), code)
    ensures var a := Accesses(code, NO_ACCESS); loads == a.loads && stores == a.stores
  {
    hide ReadWord, Offset;
    var sharedPointers := {WORKGROUP_ARRAY};
    loads, stores := 0, 0;
    ghost var words := Words(bytes);
    assert code[0..] == code;
    for k := 0 to |instructions|
      invariant Accesses(code, NO_ACCESS) == Accesses(code[k..], Access(sharedPointers, loads, stores))
    {
      Suffix(code, k);
      var ins := instructions[k];
      assert DescribesAt(ins, words, code, k);
      assert forall d :: 0 <= d < ins.wordCount ==> code[k][d] == words[ins.word + d];
      var accessChain := ins.opCode == OP_ACCESS_CHAIN || ins.opCode == OP_IN_BOUNDS_ACCESS_CHAIN;
      if accessChain && ins.wordCount >= 4 && ReadWord(bytes, ins.word + 3) in sharedPointers {
        sharedPointers := sharedPointers + {ReadWord(bytes, ins.word + 2)};
      } else if ins.opCode == OP_LOAD && ins.wordCount >= 4 && ReadWord(bytes, ins.word + 3) in sharedPointers {
        loads := loads + 1;
      } else if ins.opCode == OP_STORE && ins.wordCount >= 3 && ReadWord(bytes, ins.word + 1) in sharedPointers {
        stores := stores + 1;
      }
    }
  }

  // ---- Anchors ----

  method FindCuts(instructions: seq<Instruction>, ghost words: seq<Word>, ghost code: seq<Instr>)
    returns (found: Found)
    requires AllWellSized(code) && Describes(instructions, words, code)
    ensures found == FindAnchors(code)
  {
    hide Offset, WellSized, Op, Positions;
    var n := |instructions|;
    NoPositions(code, OP_CONTROL_BARRIER);
    var firstFunction, firstType := n, n;
    var barriers: seq<nat> := [];
    for k := 0 to n
      invariant FirstOp(code, OP_FUNCTION, 0) == if firstFunction < n then firstFunction else FirstOp(code, OP_FUNCTION, k)
      invariant FirstOp(code, OP_TYPE_VOID, 0) == if firstType < n then firstType else FirstOp(code, OP_TYPE_VOID, k)
      invariant firstFunction <= n && firstType <= n
      invariant Positions(code, OP_CONTROL_BARRIER, 0) == barriers + Positions(code, OP_CONTROL_BARRIER, k)
    {
      assert DescribesAt(instructions[k], words, code, k);
      PositionsStep(code, OP_CONTROL_BARRIER, k);
      var op := instructions[k].opCode;
      if op == OP_FUNCTION && firstFunction == n {
        firstFunction := k;
      }
      if op == OP_TYPE_VOID && firstType == n {
        firstType := k;
      }
      if op == OP_CONTROL_BARRIER {
        barriers := barriers + [k];
      }
    }
    if firstFunction == n || firstType == n || |barriers| != 5 {
      return NoControlFlow;
    }
    found := FindTail(instructions, firstFunction, firstType, barriers, words, code);
  }

  /** A return after the fifth barrier starts after the end of the fourth. */
  lemma ReturnIsLater(instructions: seq<Instruction>, words: seq<Word>, code: seq<Instr>, fourth: nat, fifth: nat,
                      mainReturn: nat)
    requires AllWellSized(code) && Describes(instructions, words, code)
    requires fourth < fifth < mainReturn < |code|
    ensures instructions[fourth].word + instructions[fourth].wordCount < instructions[mainReturn].word
  {
    hide Offset, WellSized;
    assert DescribesAt(instructions[fourth], words, code, fourth);
    assert DescribesAt(instructions[mainReturn], words, code, mainReturn);
    OffsetOrder(code, fourth, fifth);
    OffsetOrder(code, fifth, mainReturn);
  }

  method FindTail(instructions: seq<Instruction>, firstFunction: nat, firstType: nat, barriers: seq<nat>,
                  ghost words: seq<Word>, ghost code: seq<Instr>)
    returns (found: Found)
    requires AllWellSized(code) && Describes(instructions, words, code)
    requires firstFunction == FirstOp(code, OP_FUNCTION, 0) < |code|
    requires firstType == FirstOp(code, OP_TYPE_VOID, 0) < |code|
    requires barriers == Positions(code, OP_CONTROL_BARRIER, 0) && |barriers| == 5
    ensures found == FindAnchors(code)
  {
    hide Offset, WellSized, Op, Positions;
    var n := |instructions|;
    ghost var fourth, fifth := barriers[3], barriers[4];
    assert DescribesAt(instructions[barriers[3]], words, code, barriers[3]);
    assert DescribesAt(instructions[barriers[4]], words, code, barriers[4]);
    var fourthBarrierEnd := instructions[barriers[3]].word + instructions[barriers[3]].wordCount;
    var mainReturn: nat, preTail: nat := n, n;
    var k := 0;
    while k < n && mainReturn == n
      invariant 0 <= k <= n && mainReturn <= n && preTail <= n
      invariant mainReturn < n ==> k > fifth && FirstOp(code, OP_RETURN, fifth + 1) == mainReturn
      invariant mainReturn == n ==>
                  FirstOp(code, OP_RETURN, fifth + 1) == FirstOp(code, OP_RETURN, if k <= fifth then fifth + 1 else k)
      invariant AfterLastOp(code, OP_LABEL, if k <= fourth then k else fourth + 1)
                == if preTail < n then preTail + 1 else 0
    {
      var ins := instructions[k];
      assert DescribesAt(ins, words, code, k);
      OffsetOrder(code, k, fourth);
      OffsetOrder(code, fifth, k);
      if ins.word < fourthBarrierEnd && ins.opCode == OP_LABEL {
        preTail := k;
      }
      if ins.word > instructions[barriers[4]].word && ins.opCode == OP_RETURN {
        mainReturn := k;
      }
      k := k + 1;
    }
    if mainReturn == n || preTail == n || fourthBarrierEnd >= instructions[mainReturn].word {
      if mainReturn < n {
        ReturnIsLater(instructions, words, code, fourth, fifth, mainReturn);
      }
      return NoTail;
    }
    assert DescribesAt(instructions[preTail], words, code, preTail);
    found := Found(Anchors(firstFunction, firstType, barriers[3] + 1, instructions[preTail].word, mainReturn));
  }

  /** Positions in words are ordered as positions in the list. */
  lemma OffsetOrder(code: seq<Instr>, j: nat, k: nat)
    requires AllWellSized(code) && j < |code| && k < |code|
    ensures j < k <==> Offset(code, j) < Offset(code, k)
    ensures j <= k <==> Offset(code, j) < Offset(code, k) + |code[k]|
    ensures j < k ==> Offset(code, j) + |code[j]| <= Offset(code, k)
    ensures |code[j]| > 0
  {
    hide Offset;
    OffsetGrows(code, j, j + 1);
    OffsetGrows(code, k, k + 1);
    if j < k {
      OffsetGrows(code, j, k);
    } else if k < j {
      OffsetGrows(code, k, j);
    }
  }

  // ---- Writing ----

  method AppendWords(out: seq<Word>, bytes: seq<Byte>, begin: nat, end: nat) returns (longer: seq<Word>)
    requires end <= |bytes| / 4
    ensures longer == out + if begin <= end then Words(bytes)[begin..end] else []
  {
    longer := out;
    ghost var words := Words(bytes);
    var index := begin;
    while index < end
      invariant begin <= index && (index <= end || index == begin)
      invariant longer == out + if index <= end then words[begin..index] else []
    {
      longer := longer + [ReadWord(bytes, index)];
      index := index + 1;
      assert words[begin..index] == words[begin..index - 1] + [words[index - 1]];
    }
  }

  method EmitAll(out: seq<Word>, code: seq<Instr>) returns (longer: seq<Word>)
    ensures longer == out + Flatten(code)
  {
    longer := out;
    assert code[0..] == code;
    for k := 0 to |code|
      invariant longer + Flatten(code[k..]) == out + Flatten(code)
    {
      Suffix(code, k);
      longer := longer + code[k];
    }
  }

  lemma MiddleOfThree(words: seq<Word>, h: seq<Word>, a: seq<Word>, b: seq<Word>, c: seq<Word>)
    requires words == h + (a + b + c)
    ensures words[|h| + |a|..|h| + |a| + |b|] == b && |words| == |h| + |a| + |b| + |c|
  {
  }

  lemma CutTwice(code: seq<Instr>, j: nat, k: nat)
    requires j <= k <= |code|
    ensures code == code[..k] + code[k..] && code[..k] == code[..j] + code[j..k]
  {
  }

  lemma ThreeParts(code: seq<Instr>, j: nat, k: nat)
    requires j <= k <= |code|
    ensures Flatten(code) == Flatten(code[..j]) + Flatten(code[j..k]) + Flatten(code[k..])
    ensures Flatten(code[..k]) == Flatten(code[..j]) + Flatten(code[j..k])
  {
    hide Flatten;
    var before, middle, rest := code[..j], code[j..k], code[k..];
    CutTwice(code, j, k);
    FlattenAppend(before, middle);
    FlattenAppend(before + middle, rest);
  }

  /** A run of instructions is a run of words. */
  lemma OffsetSlice(words: seq<Word>, code: seq<Instr>, j: nat, k: nat)
    requires IsSpirv(words) && code == Body(words) && j <= k <= |code|
    ensures HEADER_WORDS <= Offset(code, j) <= Offset(code, k) <= |words|
    ensures words[Offset(code, j)..Offset(code, k)] == Flatten(code[j..k])
    ensures Offset(code, |code|) == |words|
  {
    hide Tile, Flatten;
    FlattenTile(words[HEADER_WORDS..]);
    assert code[..|code|] == code && words == words[..HEADER_WORDS] + words[HEADER_WORDS..];
    ThreeParts(code, j, k);
    MiddleOfThree(words, words[..HEADER_WORDS], Flatten(code[..j]), Flatten(code[j..k]), Flatten(code[k..]));
  }

  /** Copy everything before the first function, with the new declarations in their places. */
  method CopyPrologue(out: seq<Word>, bytes: seq<Byte>, instructions: seq<Instruction>,
                      firstFunction: nat, firstType: nat, n: Word, ghost code: seq<Instr>)
    returns (longer: seq<Word>, complete: bool)
    requires AllWellSized(code) && Short(code) && n + NEW_IDS < 0x1_0000_0000
    requires Describes(instructions, Words(bytes), code) && firstFunction < |code| && firstType < |code|
    ensures complete <==> PrologueComplete(code, firstFunction, firstType)
    ensures longer == out + Flatten(Prologue(code, 0, firstFunction, firstType, false, n))
  {
    hide ReadWord, Offset, Prologue, Widened, Flatten, NewCapabilities, NewDecorations;
    longer := out;
    var addedCapabilities, addedDecorations := false, false;
    ghost var whole := Flatten(Prologue(code, 0, firstFunction, firstType, false, n));
    for k := 0 to firstFunction
      invariant addedCapabilities <==> exists j :: 0 <= j < k && Op(code[j]) != OP_CAPABILITY
      invariant addedDecorations <==> firstType < k
      invariant longer + Flatten(Prologue(code, k, firstFunction, firstType, addedCapabilities, n)) == out + whole
    {
      var ins := instructions[k];
      assert DescribesAt(ins, Words(bytes), code, k);
      ghost var i, adds := code[k], !addedCapabilities && Op(code[k]) != OP_CAPABILITY;
      ghost var before := longer;
      if !addedCapabilities && ins.opCode != OP_CAPABILITY {
        longer := EmitAll(longer, NewCapabilities());
        addedCapabilities := true;
      }
      if !addedDecorations && k == firstType {
        longer := EmitAll(longer, NewDecorations(n));
        addedDecorations := true;
      }
      longer := CopyWidened(longer, bytes, ins, n, i);
      PrologueUnfolds(code, k, firstFunction, firstType, addedCapabilities && !adds, n, before);
    }
    complete := addedCapabilities && addedDecorations;
    PrologueEnds(code, firstFunction, firstType, addedCapabilities, n);
  }

  lemma PrologueEnds(code: seq<Instr>, last: nat, firstType: nat, added: bool, n: Word)
    requires AllWellSized(code) && Short(code) && last <= |code| && n + NEW_IDS < 0x1_0000_0000
    ensures Flatten(Prologue(code, last, last, firstType, added, n)) == []
  {
  }

  lemma PrologueUnfolds(code: seq<Instr>, k: nat, last: nat, firstType: nat, added: bool, n: Word, before: seq<Word>)
    requires AllWellSized(code) && Short(code) && k < last <= |code| && n + NEW_IDS < 0x1_0000_0000
    requires WellSized(code[k])
    ensures var adds := !added && Op(code[k]) != OP_CAPABILITY;
            before + Flatten(Prologue(code, k, last, firstType, added, n))
            == before + (if adds then Flatten(NewCapabilities()) else [])
               + (if k == firstType then Flatten(NewDecorations(n)) else [])
               + Widened(code[k], n)
               + Flatten(Prologue(code, k + 1, last, firstType, added || adds, n))
  {
    hide Flatten, Widened, NewCapabilities, NewDecorations;
    var adds := !added && Op(code[k]) != OP_CAPABILITY;
    var a := if adds then NewCapabilities() else [];
    var b := if k == firstType then NewDecorations(n) else [];
    var rest := Prologue(code, k + 1, last, firstType, added || adds, n);
    FlattenAppend(a + b + [Widened(code[k], n)], rest);
    FlattenAppend(a + b, [Widened(code[k], n)]);
    FlattenAppend(a, b);
    FlattenOne(Widened(code[k], n));
    FlattenNone();
    HeadFirst(before, Flatten(a), Flatten(b), Widened(code[k], n), Flatten(rest), []);
  }

  method CopyWidened(out: seq<Word>, bytes: seq<Byte>, ins: Instruction, n: Word, ghost i: Instr)
    returns (longer: seq<Word>)
    requires WellSized(i) && |i| + 2 < 0x1_0000 && n + NEW_IDS < 0x1_0000_0000
    requires ins.wordCount == |i| && ins.opCode == Op(i) && ins.word + ins.wordCount <= |bytes| / 4
    requires Words(bytes)[ins.word..ins.word + ins.wordCount] == i
    ensures longer == out + Widened(i, n)
  {
    hide ReadWord;
    ghost var words := Words(bytes);
    assert |i| > 1 ==> i[1] == words[ins.word + 1];
    if ins.opCode == OP_ENTRY_POINT && ins.wordCount >= 4
       && ReadWord(bytes, ins.word + 1) == EXECUTION_MODEL_GL_COMPUTE {
      longer := out + [Pack(ins.wordCount + 2, OP_ENTRY_POINT)];
      longer := AppendWords(longer, bytes, ins.word + 1, ins.word + ins.wordCount);
      assert i[1..] == words[ins.word + 1..ins.word + ins.wordCount];
      longer := longer + [n + 2, n + 3];
      assert longer == out + ([Pack(|i| + 2, OP_ENTRY_POINT)] + i[1..] + [n + 2, n + 3]);
    } else {
      longer := AppendWords(out, bytes, ins.word, ins.word + ins.wordCount);
    }
  }

  /** The structure a written or an already fused module must have. */
  method CheckWritten(bytes: seq<Byte>) returns (reason: Reason)
    requires |bytes| % 4 == 0
    ensures reason == Check(Words(bytes))
  {
    hide Tile, CountOp, AccessCounts, Capabilities, CountLocalSize, HasMagic;
    var ok, instructions := Parse(bytes);
    if !ok {
      return CandidateInvalid;
    }
    ghost var code := Body(Words(bytes));
    var loads, stores := StaticWorkgroupAccessCounts(bytes, instructions, code);
    AccessesAre(code, loads, stores);
    var barriers := Count(instructions, OP_CONTROL_BARRIER, Words(bytes), code);
    if barriers != 4 {
      return CandidateBarriers;
    }
    var writes := Count(instructions, OP_IMAGE_WRITE, Words(bytes), code);
    if writes != 10 {
      return CandidateWrites;
    }
    var broadcasts := Count(instructions, OP_GROUP_NON_UNIFORM_BROADCAST, Words(bytes), code);
    if broadcasts != 4 {
      return CandidateBroadcasts;
    }
    if loads != 12 || stores != 4 {
      return CandidateAccesses;
    }
    var capabilities := HasExactCapabilities(bytes, instructions, multiset{1, 50, 56, 61, 64, 5345}, code);
    if !capabilities {
      return CandidateCapabilities;
    }
    var localSize := HasLocalSize32(bytes, instructions, code);
    if !localSize {
      return CandidateLocalSize;
    }
    var magic := HasAppliedMagic(bytes, instructions, code);
    reason := if magic then Applied else CandidateMarker;
  }

  lemma AccessesAre(code: seq<Instr>, loads: nat, stores: nat)
    requires AllWellSized(code)
    requires var a := Accesses(code, NO_ACCESS); loads == a.loads && stores == a.stores
    ensures forall l, s :: AccessCounts(code, l, s) <==> loads == l && stores == s
  {
  }

  method Recognise(bytes: seq<Byte>, instructions: seq<Instruction>, fingerprint: seq<Byte> -> bool,
                   ghost code: seq<Instr>)
    returns (reason: Reason)
    requires |bytes| % 4 == 0 && IsSpirv(Words(bytes)) && code == Body(Words(bytes))
    requires Describes(instructions, Words(bytes), code)
    ensures reason
            == if HasMagic(code) then (if IsFused(code) then AlreadyApplied else CandidateFingerprint)
               else if |bytes| != BASELINE_BYTES || Words(bytes)[BOUND_WORD] != BASELINE_BOUND || !fingerprint(bytes)
               then BaselineFingerprint
               else if !IsBaseline(code) then BaselineStructure else Applied
  {
    hide Tile, CountOp, AccessCounts, Capabilities, CountLocalSize, HasMagic, ReadWord;
    var barriers := Count(instructions, OP_CONTROL_BARRIER, Words(bytes), code);
    var writes := Count(instructions, OP_IMAGE_WRITE, Words(bytes), code);
    var loads, stores := StaticWorkgroupAccessCounts(bytes, instructions, code);
    AccessesAre(code, loads, stores);
    var localSize := HasLocalSize32(bytes, instructions, code);
    var magic := HasAppliedMagic(bytes, instructions, code);
    if magic {
      var broadcasts := Count(instructions, OP_GROUP_NON_UNIFORM_BROADCAST, Words(bytes), code);
      var fused := HasExactCapabilities(bytes, instructions, multiset{1, 50, 56, 61, 64, 5345}, code);
      return if barriers == 4 && writes == 10 && broadcasts == 4 && loads == 12 && stores == 4 && fused && localSize
        then AlreadyApplied else CandidateFingerprint;
    }
    if |bytes| != BASELINE_BYTES || ReadWord(bytes, BOUND_WORD) != BASELINE_BOUND || !fingerprint(bytes) {
      return BaselineFingerprint;
    }
    var exact := HasExactCapabilities(bytes, instructions, multiset{1, 50, 56, 5345}, code);
    reason := if barriers != 5 || writes != 10 || loads != 15 || stores != 5 || !exact || !localSize
      then BaselineStructure else Applied;
  }

  lemma PlaceOf(instructions: seq<Instruction>, words: seq<Word>, code: seq<Instr>, k: nat)
    requires Describes(instructions, words, code) && k < |code|
    ensures k < |instructions| && instructions[k].word == Offset(code, k)
    ensures instructions[k].word + instructions[k].wordCount == Offset(code, k + 1) <= |words|
  {
    assert DescribesAt(instructions[k], words, code, k);
    assert code[..k + 1] == code[..k] + [code[k]];
    FlattenAppend(code[..k], [code[k]]);
    FlattenOne(code[k]);
  }

  lemma CandidateFlattens(code: seq<Instr>, a: Anchors, preTail: Word, n: Word)
    requires AllWellSized(code) && Short(code) && n + NEW_IDS < 0x1_0000_0000
    requires a.function_ <= |code| && a.keptEnd <= |code| && a.return_ <= |code|
    ensures Flatten(Candidate(code, a, preTail, n))
            == Flatten(Prologue(code, 0, a.function_, a.type_, false, n)) + Flatten(Declarations(n))
               + Flatten(Kept(code, a)) + Flatten(Tail(n, preTail)) + Flatten(code[a.return_..])
  {
    hide Flatten, Prologue, Declarations, Kept, Tail, Short;
    var c0, c1 := Prologue(code, 0, a.function_, a.type_, false, n), Declarations(n);
    var c2, c3, c4 := Kept(code, a), Tail(n, preTail), code[a.return_..];
    FlattenAppend(c0, c1);
    FlattenAppend(c0 + c1, c2);
    FlattenAppend(c0 + c1 + c2, c3);
    FlattenAppend(c0 + c1 + c2 + c3, c4);
  }

  /** The words kept of the body; none when the cut comes before the first function. */
  lemma KeptWords(words: seq<Word>, code: seq<Instr>, a: Anchors)
    requires IsSpirv(words) && code == Body(words) && a.function_ < |code| && a.keptEnd <= |code|
    ensures var begin, end := Offset(code, a.function_), Offset(code, a.keptEnd);
            && end <= |words| && HEADER_WORDS <= begin <= |words|
            && Flatten(Kept(code, a)) == if begin <= end then words[begin..end] else []
  {
    hide Flatten, Offset, Tile;
    FlattenNone();
    if a.function_ <= a.keptEnd {
      OffsetSlice(words, code, a.function_, a.keptEnd);
    } else {
      OffsetSlice(words, code, a.keptEnd, a.function_);
      OffsetGrows(code, a.keptEnd, a.function_);
    }
  }

  lemma HeadFirst(h: seq<Word>, a: seq<Word>, b: seq<Word>, c: seq<Word>, d: seq<Word>, e: seq<Word>)
    ensures h + a + b + c + d + e == h + (a + b + c + d + e)
    ensures h + a + b + c + d == h + (a + b + c + d)
  {
  }

  lemma UpdateHead(head: seq<Word>, rest: seq<Word>, k: nat, w: Word)
    requires k < |head|
    ensures (head + rest)[k := w] == head[k := w] + rest
  {
  }

  lemma PutBound(h: seq<Word>, a: seq<Word>, b: seq<Word>, c: seq<Word>, d: seq<Word>, e: seq<Word>, bound: Word)
    requires BOUND_WORD < |h|
    ensures BOUND_WORD < |h + a + b + c + d + e|
    ensures (h + a + b + c + d + e)[BOUND_WORD := bound] == h[BOUND_WORD := bound] + (a + b + c + d + e)
  {
    HeadFirst(h, a, b, c, d, e);
    UpdateHead(h, a + b + c + d + e, BOUND_WORD, bound);
  }

  lemma WordsOf(words: seq<Word>, code: seq<Instr>, a: Anchors)
    requires |words| >= HEADER_WORDS && AllWellSized(code) && Short(code) && a.labelWord + 1 < |words|
    requires a.function_ <= |code| && a.keptEnd <= |code| && a.return_ <= |code|
    requires words[BOUND_WORD] + NEW_IDS < 0x1_0000_0000
    ensures CandidateWords(words, code, a)
            == words[..HEADER_WORDS][BOUND_WORD := words[BOUND_WORD] + NEW_IDS]
               + Flatten(Candidate(code, a, words[a.labelWord + 1], words[BOUND_WORD]))
  {
    hide Flatten, Candidate, Short, AllWellSized;
  }

  /** The pieces written one after the other, with the new bound in the header, are the candidate. */
  lemma PiecesJoin(words: seq<Word>, code: seq<Instr>, a: Anchors, head: seq<Word>, out: seq<Word>)
    requires |words| >= HEADER_WORDS && AllWellSized(code) && Short(code) && a.labelWord + 1 < |words|
    requires a.function_ <= |code| && a.keptEnd <= |code| && a.return_ <= |code|
    requires words[BOUND_WORD] + NEW_IDS < 0x1_0000_0000 && head == words[..HEADER_WORDS]
    requires var (n, preTail) := (words[BOUND_WORD], words[a.labelWord + 1]);
             out == head + Flatten(Prologue(code, 0, a.function_, a.type_, false, n)) + Flatten(Declarations(n))
                    + Flatten(Kept(code, a)) + Flatten(Tail(n, preTail)) + Flatten(code[a.return_..])
    ensures BOUND_WORD < |out|
    ensures out[BOUND_WORD := words[BOUND_WORD] + NEW_IDS] == CandidateWords(words, code, a)
  {
    hide Flatten, Prologue, Declarations, Kept, Tail, Short, Candidate, CandidateWords, AllWellSized;
    var n, preTail := words[BOUND_WORD], words[a.labelWord + 1];
    CandidateFlattens(code, a, preTail, n);
    WordsOf(words, code, a);
    PutBound(head, Flatten(Prologue(code, 0, a.function_, a.type_, false, n)), Flatten(Declarations(n)),
             Flatten(Kept(code, a)), Flatten(Tail(n, preTail)), Flatten(code[a.return_..]), n + NEW_IDS);
  }

  /** Write the fused module next to the old one. */
  method WriteCandidate(bytes: seq<Byte>, instructions: seq<Instruction>, a: Anchors, ghost code: seq<Instr>)
    returns (complete: bool, out: seq<Word>)
    requires |bytes| == BASELINE_BYTES && IsSpirv(Words(bytes)) && code == Body(Words(bytes))
    requires Words(bytes)[BOUND_WORD] + NEW_IDS < 0x1_0000_0000
    requires Describes(instructions, Words(bytes), code) && FindAnchors(code) == Found(a)
    ensures complete <==> PrologueComplete(code, a.function_, a.type_)
    ensures complete ==> CandidateFitsAt(Words(bytes), a) && out == CandidateWords(Words(bytes), code, a)
  {
    hide Tile, IsSpirv, Body, Words, ReadWord, FindAnchors, Describes, Prologue, PrologueComplete, Tail, Declarations,
         Flatten, Offset, CandidateWords, Kept;
    ghost var words := Words(bytes);
    CandidateFits(words, a);
    var n := ReadWord(bytes, BOUND_WORD);
    var head := AppendWords([], bytes, 0, HEADER_WORDS);
    out, complete := CopyPrologue(head, bytes, instructions, a.function_, a.type_, n, code);
    if !complete {
      return;
    }
    PlaceOf(instructions, words, code, a.function_);
    PlaceOf(instructions, words, code, a.keptEnd - 1);
    PlaceOf(instructions, words, code, a.return_);
    OffsetSlice(words, code, a.return_, |code|);
    KeptWords(words, code, a);
    out := EmitAll(out, Declarations(n));
    out := AppendWords(out, bytes, instructions[a.function_].word,
                       instructions[a.keptEnd - 1].word + instructions[a.keptEnd - 1].wordCount);
    var preTail := ReadWord(bytes, a.labelWord + 1);
    out := EmitAll(out, Tail(n, preTail));
    out := AppendWords(out, bytes, instructions[a.return_].word, |bytes| / 4);
    assert code[a.return_..|code|] == code[a.return_..];
    assert head == words[..HEADER_WORDS];
    PiecesJoin(words, code, a, head, out);
    out := out[BOUND_WORD := n + NEW_IDS];
  }

  /** Fuse a module in place, or leave it as it is and say why. */
  method FuseTail(code: Bytecode, fingerprint: seq<Byte> -> bool) returns (reason: Reason)
    modifies code
    ensures (reason, code.bytes) == Fuse(old(code.bytes), fingerprint)
  {
    hide Tile, IsSpirv, Body, Words, HasMagic, IsFused, IsBaseline, FindAnchors, PrologueComplete, CandidateWords,
         Check, Describes;
    var ok, instructions := Parse(code.bytes);
    if !ok {
      return InvalidSpirv;
    }
    ghost var words := Words(code.bytes);
    ghost var body := Body(words);
    reason := Recognise(code.bytes, instructions, fingerprint, body);
    if reason != Applied {
      return;
    }
    var found := FindCuts(instructions, words, body);
    if found.NoControlFlow? {
      return ControlFlowAnchor;
    }
    if found.NoTail? {
      return TailAnchor;
    }
    var complete, out := WriteCandidate(code.bytes, instructions, found.anchors, body);
    if !complete {
      return DeclarationAnchor;
    }
    var candidate := Bytes(out);
    WordsBytes(out);
    reason := CheckWritten(candidate);
    if reason == Applied {
      code.bytes := candidate;
    }
  }
}
