/**
  What the fused tail computes. An evaluator runs its instructions in lockstep over the lanes of one
  subgroup; numbers are exact reals, words wrap at 32 bits, and what a word's bits stand for as a
  number is a parameter.
*/
module TailMeaning {
  import opened BitMasks
  import opened Options
  import opened SpirvStream
  import opened TailFusion

  datatype Value =
    | U(word: Word) | Us(words: seq<Word>) | F(x: real) | Fs(xs: seq<real>) | B(truth: bool)
    | Place(index: Word) | Image(id: Word)

  type Env = map<Word, Value>

  /** What the pipeline gives an invocation, and the function state it carries into the tail. */
  datatype Input = Input(local: seq<Word>, global: seq<Word>, subgroup: Word, index: Word, state: seq<real>)

  datatype Texel = Texel(image: Word, at: seq<Word>, color: seq<real>)

  /** What lanes have in common: built-in variables, the workgroup array, and the reading of bits. */
  datatype Common = Common(builtIns: map<Word, Word>, memory: seq<Word>, decode: Word -> real)

  /** A lane: its values, the block it is in and the one before, where it goes on, what it wrote. */
  datatype Lane = Lane(
    input: Input, env: Env, block: Word, previous: Word, target: Option<Word>, written: seq<Texel>)
  {
    function With(id: Word, v: Value): Lane { this.(env := env[id := v]) }
  }

  // ---- One instruction ----

  function Product(x: nat, y: nat): Word { (x * y) % 0x1_0000_0000 }

  /** The word without its lowest bits: its quotient by a power of two. */
  function Shifted(x: Word, bits: nat): Word { Quotient(x, Pow2(bits)) }

  function Quotient(x: Word, d: nat): (q: Word)
    requires d > 0
  {
    x / d
  }

  function Arith(op: nat, x: Word, y: Word): Option<Word> {
    if op == OP_I_ADD then Some((x + y) % 0x1_0000_0000)
    else if op == OP_I_SUB then Some((x - y) % 0x1_0000_0000)
    else if op == OP_I_MUL then Some(Product(x, y))
    else if op == OP_BITWISE_AND then Some(And(x, y))
    else if op == OP_SHIFT_RIGHT_LOGICAL && y < 32 then Some(Shifted(x, y))
    else None
  }

  /** Component by component. */
  function Zip(op: nat, xs: seq<Word>, ys: seq<Word>): Option<seq<Word>> {
    if |xs| != |ys| then None
    else if xs == [] then Some([])
    else
      var first, rest := Arith(op, xs[0], ys[0]), Zip(op, xs[1..], ys[1..]);
      if first.None? || rest.None? then None else Some([first.value] + rest.value)
  }

  function Binary(op: nat, a: Value, b: Value): Option<Value> {
    if a.U? && b.U? then
      if op == OP_I_EQUAL then Some(B(a.word == b.word))
      else if op == OP_U_LESS_THAN then Some(B(a.word < b.word))
      else
        var r := Arith(op, a.word, b.word);
        if r.Some? then Some(U(r.value)) else None
    else if a.Us? && b.Us? then
      var r := Zip(op, a.words, b.words);
      if r.Some? then Some(Us(r.value)) else None
    else if a.F? && b.F? then
      if op == OP_F_ADD then Some(F(a.x + b.x)) else if op == OP_F_MUL then Some(F(a.x * b.x)) else None
    else if a.B? && b.B? && op == OP_LOGICAL_AND then Some(B(a.truth && b.truth))
    else None
  }

  /** The built-ins of the tail by their number: ids of the invocation, of its subgroup, and its lane. */
  function Given(builtIn: Word, input: Input): Option<Value> {
    if builtIn == 27 then Some(Us(input.local))
    else if builtIn == 28 then Some(Us(input.global))
    else if builtIn == 40 then Some(U(input.subgroup))
    else if builtIn == 41 then Some(U(input.index))
    else None
  }

  function Loaded(pointer: Word, lane: Lane, m: Common): Option<Value> {
    if pointer == 59 then Some(Fs(lane.input.state))
    else if pointer == 30 || pointer == 31 then Some(Image(pointer))
    else if pointer in m.builtIns then Given(m.builtIns[pointer], lane.input)
    else if pointer in lane.env && lane.env[pointer].Place? && lane.env[pointer].index < |m.memory| then
      Some(U(m.memory[lane.env[pointer].index]))
    else None
  }

  /** The same bits, or the number they stand for. */
  function Cast(resultType: Word, v: Value, m: Common): Option<Value> {
    if v.U? then Some(if resultType == 8 then F(m.decode(v.word)) else v)
    else if v.Us? then Some(v)
    else None
  }

  /** A vector of single words or of single numbers. */
  function Gathered(ids: seq<Word>, env: Env): Option<Value>
    requires |ids| > 0
  {
    if ids[0] !in env then None
    else if |ids| == 1 then
      if env[ids[0]].U? then Some(Us([env[ids[0]].word]))
      else if env[ids[0]].F? then Some(Fs([env[ids[0]].x]))
      else None
    else
      match Gathered(ids[1..], env)
      case Some(Us(words)) => if env[ids[0]].U? then Some(Us([env[ids[0]].word] + words)) else None
      case Some(Fs(xs)) => if env[ids[0]].F? then Some(Fs([env[ids[0]].x] + xs)) else None
      case _ => None
  }

  /** Components picked by position. */
  function Picked(words: seq<Word>, positions: seq<Word>): Option<seq<Word>> {
    if positions == [] then Some([])
    else if positions[0] >= |words| then None
    else
      var rest := Picked(words, positions[1..]);
      if rest.None? then None else Some([words[positions[0]]] + rest.value)
  }

  /** The value an instruction computes from its result type, result id and operands. */
  function Computed(op: nat, args: seq<Word>, lane: Lane, m: Common): Option<Value> {
    if |args| < 3 then None
    else if op == OP_LOAD then Loaded(args[2], lane, m)
    else if op == OP_COMPOSITE_CONSTRUCT then Gathered(args[2..], lane.env)
    else if op == OP_ACCESS_CHAIN then
      if |args| == 4 && args[2] == WORKGROUP_ARRAY && args[3] in lane.env && lane.env[args[3]].U?
      then Some(Place(lane.env[args[3]].word)) else None
    else if args[2] !in lane.env then None
    else if op == OP_BITCAST then Cast(args[0], lane.env[args[2]], m)
    else if |args| < 4 then None
    else if op == OP_COMPOSITE_EXTRACT then
      if lane.env[args[2]].Fs? && args[3] < |lane.env[args[2]].xs| then Some(F(lane.env[args[2]].xs[args[3]])) else None
    else if args[3] !in lane.env then None
    else if op == OP_VECTOR_SHUFFLE then
      if lane.env[args[2]].Us? && lane.env[args[3]].Us? then
        var r := Picked(lane.env[args[2]].words + lane.env[args[3]].words, args[4..]);
        if r.Some? then Some(Us(r.value)) else None
      else None
    else Binary(op, lane.env[args[2]], lane.env[args[3]])
  }

  /** The type ids of the recognised module. */
  predicate HasType(resultType: Word, v: Value) {
    match v
    case U(_) => resultType == 10 || resultType == 41
    case Us(words) => (resultType, |words|) in {(32, 3), (63, 4), (65, 4), (558, 2)}
    case F(_) => resultType == 8
    case Fs(xs) => resultType == 9 && |xs| == 4
    case B(_) => resultType == 48
    case Place(_) => resultType == 628
    case Image(_) => resultType == 23
  }

  /** The value a phi takes from the block its lane comes from. */
  function Incoming(i: Instr, lane: Lane): Option<Value>
    requires |i| == 7
  {
    var id := if lane.previous == i[4] then Some(i[3]) else if lane.previous == i[6] then Some(i[5]) else None;
    if id.Some? && id.value in lane.env then Some(lane.env[id.value]) else None
  }

  function Defined(i: Instr, lane: Lane, v: Option<Value>): Option<Lane> {
    if |i| > 2 && v.Some? && HasType(i[1], v.value) then Some(lane.With(i[2], v.value)) else None
  }

  /** One lane executes one instruction; a lane on its way to a label passes over everything else. */
  function Step(i: Instr, lane: Lane, m: Common): Option<Lane> {
    var op := if i == [] then 0 else Op(i);
    if i == [] then None
    else if lane.target.Some? then
      if op == OP_LABEL && |i| == 2 && i[1] == lane.target.value
      then Some(lane.(block := i[1], previous := lane.block, target := None)) else Some(lane)
    else if op == OP_SELECTION_MERGE then Some(lane)
    else if op == OP_BRANCH && |i| == 2 then Some(lane.(target := Some(i[1])))
    else if op == OP_BRANCH_CONDITIONAL && |i| == 4 then
      if i[1] in lane.env && lane.env[i[1]].B?
      then Some(lane.(target := Some(if lane.env[i[1]].truth then i[2] else i[3]))) else None
    else if op == OP_IMAGE_WRITE && |i| == 4 then
      if i[1] in lane.env && lane.env[i[1]].Image? && i[2] in lane.env && lane.env[i[2]].Us?
         && i[3] in lane.env && lane.env[i[3]].Fs?
      then Some(lane.(written := lane.written
                                 + [Texel(lane.env[i[1]].id, lane.env[i[2]].words, lane.env[i[3]].xs)]))
      else None
    else if op == OP_PHI && |i| == 7 then Defined(i, lane, Incoming(i, lane))
    else if op in {OP_LABEL, OP_PHI, OP_GROUP_NON_UNIFORM_BROADCAST, OP_BRANCH, OP_BRANCH_CONDITIONAL, OP_IMAGE_WRITE}
    then None
    else Defined(i, lane, Computed(op, i[1..], lane, m))
  }

  // ---- A subgroup ----

  /** The value of lane `source`, as a broadcast hands it to `lane`. */
  function Heard(i: Instr, lane: Lane, lanes: seq<Lane>): Option<Value> {
    if |i| != 6 || i[3] !in lane.env || lane.env[i[3]] != U(3) || i[5] !in lane.env || !lane.env[i[5]].U? then None
    else
      var source := lane.env[i[5]].word;
      if source >= |lanes| || lanes[source].target.Some? || i[4] !in lanes[source].env then None
      else Some(lanes[source].env[i[4]])
  }

  /** One lane's part of an instruction the whole subgroup executes. */
  function Part(i: Instr, lane: Lane, lanes: seq<Lane>, m: Common): Option<Lane> {
    if i != [] && Op(i) == OP_GROUP_NON_UNIFORM_BROADCAST && lane.target.None? then Defined(i, lane, Heard(i, lane, lanes))
    else Step(i, lane, m)
  }

  function Together(i: Instr, lanes: seq<Lane>, m: Common): (next: Option<seq<Lane>>)
    ensures next.Some? ==> |next.value| == |lanes|
  {
    if forall k :: 0 <= k < |lanes| ==> Part(i, lanes[k], lanes, m).Some?
    then Some(seq(|lanes|, k requires 0 <= k < |lanes| => Part(i, lanes[k], lanes, m).value)) else None
  }

  /** All lanes of a subgroup run the code, instruction by instruction. */
  function Group(code: seq<Instr>, lanes: seq<Lane>, m: Common): (after: Option<seq<Lane>>)
    ensures after.Some? ==> |after.value| == |lanes|
  {
    if code == [] then Some(lanes)
    else
      var next := Together(code[0], lanes, m);
      if next.None? then None else Group(code[1..], next.value, m)
  }

  lemma {:induction false} GroupAppend(a: seq<Instr>, b: seq<Instr>, lanes: seq<Lane>, m: Common)
    requires Group(a, lanes, m).Some?
    ensures Group(a + b, lanes, m) == Group(b, Group(a, lanes, m).value, m)
  {
    hide Together;
    if a == [] {
      assert a + b == b;
    } else {
      assert (a + b)[1..] == a[1..] + b && (a + b)[0] == a[0];
      GroupAppend(a[1..], b, Together(a[0], lanes, m).value, m);
    }
  }

  /** One lane on its own, for code without a broadcast. */
  function Run(code: seq<Instr>, lane: Lane, m: Common): Option<Lane> {
    if code == [] then Some(lane)
    else
      var next := Step(code[0], lane, m);
      if next.None? then None else Run(code[1..], next.value, m)
  }

  predicate NoBroadcast(code: seq<Instr>) {
    forall k :: 0 <= k < |code| ==> code[k] != [] && Op(code[k]) != OP_GROUP_NON_UNIFORM_BROADCAST
  }

  /** Without a broadcast, lanes do not depend on one another. */
  lemma {:induction false} GroupRuns(code: seq<Instr>, lanes: seq<Lane>, m: Common)
    requires NoBroadcast(code)
    requires forall k :: 0 <= k < |lanes| ==> Run(code, lanes[k], m).Some?
    ensures Group(code, lanes, m).Some?
    ensures forall k :: 0 <= k < |lanes| ==> Group(code, lanes, m).value[k] == Run(code, lanes[k], m).value
  {
    hide Step, Heard, Defined;
    if code != [] {
      assert forall k :: 0 <= k < |lanes| ==> Part(code[0], lanes[k], lanes, m) == Step(code[0], lanes[k], m);
      var next := Together(code[0], lanes, m).value;
      GroupRuns(code[1..], next, m);
    }
  }

  // ---- Reading off one step ----

  predicate Has(env: Env, id: nat, v: Value) { id in env && env[id] == v }

  /** Values of ids below a bound are kept. */
  predicate Keeps(env: Env, after: Env, below: nat) {
    forall id :: id in env && id < below ==> id in after && after[id] == env[id]
  }

  predicate IsControl(op: nat) {
    op in {OP_LABEL, OP_PHI, OP_GROUP_NON_UNIFORM_BROADCAST, OP_BRANCH, OP_BRANCH_CONDITIONAL, OP_IMAGE_WRITE,
           OP_SELECTION_MERGE}
  }

  predicate IsBinary(op: nat) {
    !IsControl(op) && op !in {OP_LOAD, OP_COMPOSITE_CONSTRUCT, OP_ACCESS_CHAIN, OP_BITCAST, OP_COMPOSITE_EXTRACT,
                              OP_VECTOR_SHUFFLE}
  }

  /** Running the code takes `lane` to `next`, whatever comes after it. */
  ghost predicate Runs(code: seq<Instr>, lane: Lane, next: Lane, m: Common) {
    forall more: seq<Instr> {:trigger Run(code + more, lane, m)} :: Run(code + more, lane, m) == Run(more, next, m)
  }

  /** Running instructions `k` to `end` of the code takes `lane` to `next`. */
  ghost predicate Reaches(code: seq<Instr>, k: nat, lane: Lane, end: nat, next: Lane, m: Common) {
    forall more: seq<Instr> {:trigger Run(From(code, k) + more, lane, m)} ::
      Run(From(code, k) + more, lane, m) == Run(From(code, end) + more, next, m)
  }

  function From(code: seq<Instr>, k: nat): seq<Instr> { if k <= |code| then code[k..] else [] }

  /** The lane has one value more, and keeps those of smaller ids. */
  predicate Gains(lane: Lane, next: Lane, id: nat, v: Value) {
    next == lane.(env := next.env) && Has(next.env, id, v) && Keeps(lane.env, next.env, id)
  }

  lemma StepsTo(code: seq<Instr>, k: nat, lane: Lane, m: Common, next: Lane)
    requires k < |code| && Step(code[k], lane, m) == Some(next)
    ensures Reaches(code, k, lane, k + 1, next, m)
  {
    hide Step;
    forall more: seq<Instr>
      ensures Run(From(code, k) + more, lane, m) == Run(From(code, k + 1) + more, next, m)
    {
      assert (code[k..] + more)[0] == code[k] && (code[k..] + more)[1..] == code[k + 1..] + more;
    }
  }

  /** From the first instruction to the end of the code. */
  lemma RunsAll(code: seq<Instr>, lane: Lane, next: Lane, m: Common)
    requires Reaches(code, 0, lane, |code|, next, m)
    ensures Runs(code, lane, next, m)
  {
    hide Run;
    forall more: seq<Instr>
      ensures Run(code + more, lane, m) == Run(more, next, m)
    {
      assert From(code, 0) + more == code + more && From(code, |code|) + more == more;
    }
  }

  lemma RunsBoth(a: seq<Instr>, b: seq<Instr>, lane: Lane, mid: Lane, next: Lane, m: Common)
    requires Runs(a, lane, mid, m) && Runs(b, mid, next, m)
    ensures Runs(a + b, lane, next, m)
  {
    hide Run;
    forall more: seq<Instr>
      ensures Run(a + b + more, lane, m) == Run(more, next, m)
    {
      assert a + b + more == a + (b + more);
    }
  }

  lemma RunsIs(code: seq<Instr>, lane: Lane, next: Lane, m: Common)
    requires Runs(code, lane, next, m)
    ensures Run(code, lane, m) == Some(next)
  {
    assert code + [] == code;
    assert Run([], next, m) == Some(next);
    hide Run;
    assert Run(code + [], lane, m) == Run([], next, m);
  }

  /** An instruction that computes a value gives it to its result id. */
  lemma Does(code: seq<Instr>, k: nat, op: nat, args: seq<Word>, lane: Lane, m: Common, v: Value) returns (next: Lane)
    requires k < |code| && op < 0x1_0000 && 3 <= |args| < 100 && code[k] == Emit(op, args)
    requires !IsControl(op) && lane.target.None? && Computed(op, args, lane, m) == Some(v) && HasType(args[0], v)
    ensures Reaches(code, k, lane, k + 1, next, m) && Gains(lane, next, args[1], v)
  {
    hide Computed, HasType, Run, Heard, Reaches;
    var i := code[k];
    assert i[1..] == args;
    assert i[1] == i[1..][0] && i[2] == i[1..][1];
    next := lane.With(args[1], v);
    StepsTo(code, k, lane, m, next);
  }

  /** An operation on two values at hand. */
  lemma DoesBinary(code: seq<Instr>, k: nat, op: nat, args: seq<Word>, lane: Lane, m: Common, a: Value, b: Value, v: Value)
    returns (next: Lane)
    requires k < |code| && op < 0x1_0000 && |args| == 4 && code[k] == Emit(op, args)
    requires IsBinary(op) && lane.target.None?
    requires Has(lane.env, args[2], a) && Has(lane.env, args[3], b)
    requires Binary(op, a, b) == Some(v) && HasType(args[0], v)
    ensures Reaches(code, k, lane, k + 1, next, m) && Gains(lane, next, args[1], v)
  {
    hide Binary, HasType, Reaches, Emit, Gains;
    next := Does(code, k, op, args, lane, m, v);
  }

  lemma DoesCast(code: seq<Instr>, k: nat, args: seq<Word>, lane: Lane, m: Common, a: Value, v: Value)
    returns (next: Lane)
    requires k < |code| && |args| == 3 && code[k] == Emit(OP_BITCAST, args)
    requires lane.target.None? && Has(lane.env, args[2], a) && Cast(args[0], a, m) == Some(v) && HasType(args[0], v)
    ensures Reaches(code, k, lane, k + 1, next, m) && Gains(lane, next, args[1], v)
  {
    hide HasType, Reaches, Emit, Cast, Gains;
    next := Does(code, k, OP_BITCAST, args, lane, m, v);
  }

  lemma DoesLoad(code: seq<Instr>, k: nat, args: seq<Word>, lane: Lane, m: Common, v: Value) returns (next: Lane)
    requires k < |code| && 3 <= |args| < 100 && code[k] == Emit(OP_LOAD, args)
    requires lane.target.None? && Loaded(args[2], lane, m) == Some(v) && HasType(args[0], v)
    ensures Reaches(code, k, lane, k + 1, next, m) && Gains(lane, next, args[1], v)
  {
    hide HasType, Reaches, Emit, Loaded, Gains;
    next := Does(code, k, OP_LOAD, args, lane, m, v);
  }

  /** A built-in variable is loaded. */
  lemma DoesGiven(code: seq<Instr>, k: nat, args: seq<Word>, lane: Lane, m: Common, v: Value) returns (next: Lane)
    requires k < |code| && |args| == 3 && code[k] == Emit(OP_LOAD, args) && lane.target.None?
    requires args[2] !in {30, 31, 59} && args[2] in m.builtIns && Given(m.builtIns[args[2]], lane.input) == Some(v) && HasType(args[0], v)
    ensures Reaches(code, k, lane, k + 1, next, m) && Gains(lane, next, args[1], v)
  {
    hide HasType, Reaches, Emit, Given, Gains;
    next := DoesLoad(code, k, args, lane, m, v);
  }

  /** A pointer into the workgroup array. */
  lemma DoesPlace(code: seq<Instr>, k: nat, args: seq<Word>, lane: Lane, m: Common, index: Word) returns (next: Lane)
    requires k < |code| && |args| == 4 && code[k] == Emit(OP_ACCESS_CHAIN, args) && lane.target.None?
    requires args[2] == WORKGROUP_ARRAY && Has(lane.env, args[3], U(index)) && args[0] == 628
    ensures Reaches(code, k, lane, k + 1, next, m) && Gains(lane, next, args[1], Place(index))
  {
    hide Reaches, Emit, Gains;
    next := Does(code, k, OP_ACCESS_CHAIN, args, lane, m, Place(index));
  }

  /** A component of a vector of numbers. */
  lemma DoesExtract(code: seq<Instr>, k: nat, args: seq<Word>, lane: Lane, m: Common, xs: seq<real>) returns (next: Lane)
    requires k < |code| && |args| == 4 && code[k] == Emit(OP_COMPOSITE_EXTRACT, args) && lane.target.None?
    requires Has(lane.env, args[2], Fs(xs)) && args[3] < |xs| && args[0] == 8
    ensures Reaches(code, k, lane, k + 1, next, m) && Gains(lane, next, args[1], F(xs[args[3]]))
  {
    hide Reaches, Emit, Gains;
    next := Does(code, k, OP_COMPOSITE_EXTRACT, args, lane, m, F(xs[args[3]]));
  }

  /** Components of one vector of words. */
  lemma DoesShuffle(code: seq<Instr>, k: nat, args: seq<Word>, lane: Lane, m: Common, words: seq<Word>, picked: seq<Word>)
    returns (next: Lane)
    requires k < |code| && 4 <= |args| < 100 && code[k] == Emit(OP_VECTOR_SHUFFLE, args)
    requires lane.target.None? && Has(lane.env, args[2], Us(words)) && args[3] == args[2]
    requires |picked| == |args| - 4 && HasType(args[0], Us(picked))
    requires forall j :: 0 <= j < |picked| ==> args[j + 4] < |words| && picked[j] == words[args[j + 4]]
    ensures Reaches(code, k, lane, k + 1, next, m) && Gains(lane, next, args[1], Us(picked))
  {
    hide HasType, Reaches, Emit, Picked, Gains;
    var positions := args[4..];
    forall j | 0 <= j < |positions|
      ensures positions[j] < |words| && picked[j] == words[positions[j]]
    {
      assert positions[j] == args[j + 4] && picked[j] == words[args[j + 4]];
    }
    PickedIs(words + words, positions);
    assert Picked(words + words, positions).value == picked;
    next := Does(code, k, OP_VECTOR_SHUFFLE, args, lane, m, Us(picked));
  }

  lemma {:induction false} GatheredWords(ids: seq<Word>, env: Env, words: seq<Word>)
    requires |ids| == |words| > 0 && forall k :: 0 <= k < |ids| ==> Has(env, ids[k], U(words[k]))
    ensures Gathered(ids, env) == Some(Us(words))
  {
    assert Has(env, ids[0], U(words[0]));
    if |ids| == 1 {
      assert words == [words[0]];
    } else {
      GatheredWords(ids[1..], env, words[1..]);
      assert words == [words[0]] + words[1..];
    }
  }

  lemma {:induction false} GatheredNumbers(ids: seq<Word>, env: Env, xs: seq<real>)
    requires |ids| == |xs| > 0 && forall k :: 0 <= k < |ids| ==> Has(env, ids[k], F(xs[k]))
    ensures Gathered(ids, env) == Some(Fs(xs))
  {
    assert Has(env, ids[0], F(xs[0]));
    if |ids| == 1 {
      assert xs == [xs[0]];
    } else {
      GatheredNumbers(ids[1..], env, xs[1..]);
      assert xs == [xs[0]] + xs[1..];
    }
  }

  /** Two words side by side. */
  lemma DoesPair(code: seq<Instr>, k: nat, args: seq<Word>, lane: Lane, m: Common, x: Word, y: Word) returns (next: Lane)
    requires k < |code| && |args| == 4 && code[k] == Emit(OP_COMPOSITE_CONSTRUCT, args)
    requires lane.target.None? && Has(lane.env, args[2], U(x)) && Has(lane.env, args[3], U(y)) && args[0] == 558
    ensures Reaches(code, k, lane, k + 1, next, m) && Gains(lane, next, args[1], Us([x, y]))
  {
    hide Reaches, Emit, Gathered, Gains;
    GatheredWords(args[2..], lane.env, [x, y]);
    next := Does(code, k, OP_COMPOSITE_CONSTRUCT, args, lane, m, Us([x, y]));
  }

  /** One number four times. */
  lemma DoesFour(code: seq<Instr>, k: nat, args: seq<Word>, lane: Lane, m: Common, x: real) returns (next: Lane)
    requires k < |code| && |args| == 6 && code[k] == Emit(OP_COMPOSITE_CONSTRUCT, args)
    requires lane.target.None? && Has(lane.env, args[2], F(x)) && args[0] == 9
    requires args[3] == args[2] && args[4] == args[2] && args[5] == args[2]
    ensures Reaches(code, k, lane, k + 1, next, m) && Gains(lane, next, args[1], Fs([x, x, x, x]))
  {
    hide Reaches, Emit, Gathered, Gains;
    var ids, xs := args[2..], [x, x, x, x];
    assert forall j :: 0 <= j < 4 ==> ids[j] == args[2] && xs[j] == x;
    GatheredNumbers(ids, lane.env, xs);
    next := Does(code, k, OP_COMPOSITE_CONSTRUCT, args, lane, m, Fs([x, x, x, x]));
  }

  /** A lane on its way to a label passes over code without it. */
  predicate NoLabel(code: seq<Instr>, label_: Word) {
    forall k :: 0 <= k < |code| ==> code[k] != [] && (Op(code[k]) == OP_LABEL ==> code[k][1..] != [label_])
  }

  lemma PassesOver(i: Instr, lane: Lane, m: Common)
    requires lane.target.Some? && i != [] && (Op(i) == OP_LABEL ==> i[1..] != [lane.target.value])
    ensures Step(i, lane, m) == Some(lane)
  {
    hide Computed, Heard;
    if |i| == 2 {
      assert i[1..] == [i[1]];
    }
  }

  lemma {:induction false} PassesBefore(code: seq<Instr>, more: seq<Instr>, lane: Lane, m: Common)
    requires lane.target.Some? && NoLabel(code, lane.target.value)
    ensures Run(code + more, lane, m) == Run(more, lane, m)
  {
    hide Step;
    if code == [] {
      assert code + more == more;
    } else {
      PassesOver(code[0], lane, m);
      PassesBefore(code[1..], more, lane, m);
      assert (code + more)[0] == code[0] && (code + more)[1..] == code[1..] + more;
    }
  }

  lemma Passes(code: seq<Instr>, lane: Lane, m: Common)
    requires lane.target.Some? && NoLabel(code, lane.target.value)
    ensures Runs(code, lane, lane, m)
  {
    hide Run, NoLabel;
    forall more: seq<Instr>
      ensures Run(code + more, lane, m) == Run(more, lane, m)
    {
      PassesBefore(code, more, lane, m);
    }
  }

  lemma {:induction false} ZipIs(op: nat, xs: seq<Word>, ys: seq<Word>)
    requires |xs| == |ys| && forall k :: 0 <= k < |xs| ==> Arith(op, xs[k], ys[k]).Some?
    ensures Zip(op, xs, ys).Some? && |Zip(op, xs, ys).value| == |xs|
    ensures forall k :: 0 <= k < |xs| ==> Zip(op, xs, ys).value[k] == Arith(op, xs[k], ys[k]).value
  {
    hide Arith;
    if xs != [] {
      ZipIs(op, xs[1..], ys[1..]);
    }
  }

  lemma {:induction false} PickedIs(words: seq<Word>, positions: seq<Word>)
    requires forall k :: 0 <= k < |positions| ==> positions[k] < |words|
    ensures Picked(words, positions).Some? && |Picked(words, positions).value| == |positions|
    ensures forall k :: 0 <= k < |positions| ==> Picked(words, positions).value[k] == words[positions[k]]
  {
    if positions != [] {
      PickedIs(words, positions[1..]);
    }
  }
}
