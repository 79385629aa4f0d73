/** Which modules the predicate rewriter accepts, read off the instruction list. */
module PredicateAccepts {
  import opened BitMasks
  import opened Options
  import opened SpirvStream
  import opened PredicateRewrite
  import opened PredicateTheorems
  import opened PredicateMeaning
  import opened PredicateRewriter

  /** A structured selection of the shader as it was recorded: the label it merges at, and its branch. */
  datatype Selection = Selection(merge: Word, condition: Word, whenTrue: Word, whenFalse: Word)
  {
    predicate Opens(i: Instr) { |i| == 3 && Op(i) == 247 && i[1] == merge }

    predicate Branches(i: Instr) { |i| == 4 && Op(i) == 250 && i[1..] == [condition, whenTrue, whenFalse] }
  }

  const SELECTIONS: seq<Selection> := [
    Selection(1082, 1080, 1081, 1277), Selection(1355, 1353, 1354, 1355), Selection(1619, 1617, 1618, 1619),
    Selection(1882, 1880, 1881, 1882), Selection(2145, 2143, 2144, 2145)]

  /** `q` is the first merge of selection `k`, and its branch comes right after it. */
  predicate Adjacent(code: seq<Instr>, k: nat, q: nat)
    requires k < 5
  {
    && q + 1 < |code| && SELECTIONS[k].Opens(code[q]) && SELECTIONS[k].Branches(code[q + 1])
    && forall r :: 0 <= r < q ==> !SELECTIONS[k].Opens(code[r])
  }

  /** From selection `k` on, each is found with its branch, in what comes after the branch before it. */
  ghost predicate Recorded(code: seq<Instr>, k: nat)
    requires k <= 5
    decreases 5 - k
  {
    k == 5 || exists q: nat :: Adjacent(code, k, q) && Recorded(code[q + 2..], k + 1)
  }

  // ---- What is accepted ----

  predicate Succeeds(plan: Plan, st: State, code: seq<Instr>)
    requires plan.Valid() && st.Valid() && AllWellSized(code)
  {
    var r := Rewrite(plan, st, code);
    r.Some? && Complete(plan, r.value.1)
  }

  lemma OpensIs(st: State, i: Instr)
    requires WellSized(i) && st.index < 5
    ensures OpensSelection(st, i) <==> SELECTIONS[st.index].Opens(i)
  {
  }

  lemma BranchesIs(k: nat, i: Instr)
    requires WellSized(i) && k < 5
    ensures ExpectedBranch(k, i) <==> SELECTIONS[k].Branches(i)
  {
    if |i| == 4 {
      assert i[1..] == [i[1], i[2], i[3]];
    }
  }

  lemma AdjacentShifts(code: seq<Instr>, k: nat, q: nat)
    requires k < 5 && code != [] && !SELECTIONS[k].Opens(code[0])
    ensures Adjacent(code[1..], k, q) <==> Adjacent(code, k, q + 1)
    ensures Adjacent(code, k, q + 1) ==> code[1..][q + 2..] == code[q + 3..]
  {
    hide Selection.Opens, Selection.Branches;
    var rest := code[1..];
    if Adjacent(code, k, q + 1) {
      forall r | 0 <= r < q
        ensures !SELECTIONS[k].Opens(rest[r])
      {
        assert rest[r] == code[r + 1];
      }
    }
  }

  lemma RecordedAt(code: seq<Instr>, k: nat, q: nat)
    requires k < 5 && q + 2 <= |code| && Adjacent(code, k, q) && Recorded(code[q + 2..], k + 1)
    ensures Recorded(code, k)
  {
    hide Adjacent;
  }

  lemma RecordedFirst(code: seq<Instr>, k: nat) returns (q: nat)
    requires k < 5 && Recorded(code, k)
    ensures q + 2 <= |code| && Adjacent(code, k, q) && Recorded(code[q + 2..], k + 1)
  {
    q :| Adjacent(code, k, q) && Recorded(code[q + 2..], k + 1);
  }

  /** An instruction that opens nothing leaves the selections that are still to come. */
  lemma RecordedSkips(code: seq<Instr>, k: nat)
    requires k < 5 && code != [] && !SELECTIONS[k].Opens(code[0])
    ensures Recorded(code, k) <==> Recorded(code[1..], k)
  {
    hide Selection.Opens, Recorded;
    var rest := code[1..];
    if Recorded(code, k) {
      var q := RecordedFirst(code, k);
      AdjacentShifts(code, k, q - 1);
      RecordedAt(rest, k, q - 1);
    }
    if Recorded(rest, k) {
      var q := RecordedFirst(rest, k);
      AdjacentShifts(code, k, q);
      RecordedAt(code, k, q + 1);
    }
  }

  /** An instruction that opens selection `k` must be followed by its branch. */
  lemma RecordedOpens(code: seq<Instr>, k: nat)
    requires k < 5 && code != [] && SELECTIONS[k].Opens(code[0])
    ensures Recorded(code, k) <==> |code| > 1 && SELECTIONS[k].Branches(code[1]) && Recorded(code[2..], k + 1)
  {
    hide Selection.Opens, Selection.Branches, Recorded;
    if Recorded(code, k) {
      var q := RecordedFirst(code, k);
      assert q == 0;
    }
    if |code| > 1 && SELECTIONS[k].Branches(code[1]) && Recorded(code[2..], k + 1) {
      RecordedAt(code, k, 0);
    }
  }

  lemma StepSucceeds(plan: Plan, st: State, code: seq<Instr>)
    requires plan.Valid() && st.Valid() && AllWellSized(code) && code != []
    ensures WellSized(code[0])
    ensures Succeeds(plan, st, code) <==> Accepts(st, code[0]) && Succeeds(plan, Next(plan, st, code[0]), code[1..])
  {
    hide Before, Image, Next, Accepts, Complete;
    assert WellSized(code[0]);
  }

  /** A selection is taken together with its branch. */
  lemma PairSucceeds(plan: Plan, st: State, code: seq<Instr>)
    requires plan.Valid() && st.Valid() && AllWellSized(code) && code != []
    requires st.pending.None? && CoordinatesRead(plan, st) && st.index < 5 && SELECTIONS[st.index].Opens(code[0])
    ensures Succeeds(plan, st, code) ==> |code| > 1 && SELECTIONS[st.index].Branches(code[1])
    ensures |code| > 1 && SELECTIONS[st.index].Branches(code[1]) ==>
              var next := Predicate(plan, st).1.(index := st.index + 1, pending := None);
              && next.Valid() && CoordinatesRead(plan, next)
              && (Succeeds(plan, st, code) <==> Succeeds(plan, next, code[2..]))
  {
    hide Succeeds, Before, Image;
    assert WellSized(code[0]);
    OpensIs(st, code[0]);
    SelectionStep(plan, st, code[0]);
    StepSucceeds(plan, st, code);
    var taken := Predicate(plan, st).1;
    if |code| == 1 {
      PendingIsIncomplete(plan, taken);
    } else {
      assert code[1..][0] == code[1] && WellSized(code[1]);
      StepSucceeds(plan, taken, code[1..]);
      BranchesIs(st.index, code[1]);
      assert code[1..][1..] == code[2..];
    }
  }

  lemma PendingIsIncomplete(plan: Plan, st: State)
    requires plan.Valid() && st.Valid() && st.pending.Some?
    ensures !Succeeds(plan, st, [])
  {
  }

  lemma EndSucceeds(plan: Plan, st: State)
    requires plan.Valid() && st.Valid() && st.pending.None? && CoordinatesRead(plan, st)
    ensures Succeeds(plan, st, []) <==> st.index == 5
  {
  }

  /** The walk succeeds exactly where the selections still to come are recorded. */
  lemma {:induction false} SucceedsIff(plan: Plan, st: State, code: seq<Instr>)
    requires plan.Valid() && st.Valid() && AllWellSized(code) && st.pending.None? && CoordinatesRead(plan, st)
    ensures Succeeds(plan, st, code) <==> Recorded(code, st.index)
    decreases |code|
  {
    hide Succeeds, Recorded, Selection.Opens, Selection.Branches, Predicate;
    if code == [] {
      EndSucceeds(plan, st);
      NothingRecorded(st.index);
    } else if st.index < 5 && SELECTIONS[st.index].Opens(code[0]) {
      PairSucceeds(plan, st, code);
      RecordedOpens(code, st.index);
      if |code| > 1 && SELECTIONS[st.index].Branches(code[1]) {
        SucceedsIff(plan, Predicate(plan, st).1.(index := st.index + 1, pending := None), code[2..]);
      }
    } else {
      StepSucceeds(plan, st, code);
      PlainNext(plan, st, code[0]);
      SucceedsIff(plan, Next(plan, st, code[0]), code[1..]);
      RecordedGoesOn(code, st.index);
    }
  }

  lemma NothingRecorded(k: nat)
    requires k <= 5
    ensures Recorded([], k) <==> k == 5
  {
  }

  lemma RecordedGoesOn(code: seq<Instr>, k: nat)
    requires k <= 5 && code != [] && (k < 5 ==> !SELECTIONS[k].Opens(code[0]))
    ensures Recorded(code, k) <==> Recorded(code[1..], k)
  {
    hide Selection.Opens;
    if k < 5 {
      RecordedSkips(code, k);
    }
  }

  lemma PlainNext(plan: Plan, st: State, i: Instr)
    requires plan.Valid() && st.Valid() && WellSized(i) && st.pending.None? && CoordinatesRead(plan, st)
    requires st.index < 5 ==> !SELECTIONS[st.index].Opens(i)
    ensures Accepts(st, i)
    ensures var next := Next(plan, st, i);
            next.Valid() && next.pending.None? && next.index == st.index && CoordinatesRead(plan, next)
  {
    if st.index < 5 {
      OpensIs(st, i);
    }
  }

  /** At every level, exactly the modules are accepted in which the five selections are recorded in order. */
  lemma AcceptsIff(level: Level, code: seq<Instr>)
    requires AllWellSized(code)
    ensures RewriteBody(level, code).Some? <==> Recorded(code, 0)
  {
    hide Rewrite, Choose, Recorded;
    var choice := Choose(level, code);
    SucceedsIff(choice.0, Start(choice), code);
  }

  /** The words are a module of the old bound whose instructions record the five selections. */
  ghost predicate RecordedModule(words: seq<Word>) {
    && |words| >= 5 && words[0] == 0x07230203 && words[3] == 2311
    && exists code :: AllWellSized(code) && words[5..] == Flatten(code) && Recorded(code, 0)
  }

  lemma ModuleIff(level: Level, words: seq<Word>)
    ensures RewriteModule(level, words).Some? <==> RecordedModule(words)
  {
    hide Tile, RewriteBody, Recorded;
    if |words| >= 5 {
      if Tile(words[5..]).Some? {
        var code := Tile(words[5..]).value;
        FlattenTile(words[5..]);
        AcceptsIff(level, code);
      }
      forall code | AllWellSized(code) && words[5..] == Flatten(code)
        ensures Tile(words[5..]) == Some(code)
      {
        TileFlatten(code);
      }
    }
  }

  /**
    Exactly when a run applies, at every level: it is the recorded shader with its fingerprint, a
    whole number of words, the header of a module with the recorded bound, and the five selections
    in order, each merge directly in front of its branch.
  */
  lemma AppliesIff(level: Level, shaderName: string, code: seq<Byte>, fingerprint: seq<Byte> -> bool)
    ensures Applied(level, shaderName, code, fingerprint).Some?
            <==> shaderName == "p_beta[4]" && fingerprint(code) && |code| % 4 == 0 && RecordedModule(Words(code))
  {
    hide RewriteModule, RecordedModule;
    ModuleIff(level, Words(code));
  }
}
