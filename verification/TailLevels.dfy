/** The two levels the fused tail writes, as the numbers every lane of a subgroup ends with. */
module TailLevels {
  import opened BitMasks
  import opened Options
  import opened SpirvStream
  import opened TailFusion
  import opened TailMeaning

  /** Ids the tail can use: new ones, above those of the recognised module. */
  predicate Fits(n: Word) { 1270 <= n && n + NEW_IDS < 0x1_0000_0000 }

  /** The built-in variables of the module and the two new ones; pointers into the workgroup array are none. */
  predicate BuiltIns(builtIns: map<Word, Word>, n: Word)
    requires Fits(n)
  {
    && 34 in builtIns && builtIns[34] == 27 && 35 in builtIns && builtIns[35] == 28
    && n + 2 in builtIns && builtIns[n + 2] == 40 && n + 3 in builtIns && builtIns[n + 3] == 41
    && n + 27 !in builtIns && n + 31 !in builtIns && n + 35 !in builtIns
  }

  /** The invocation belongs to a workgroup that starts at column `x` and row `y`. */
  predicate Placed(input: Input, x: Word, y: Word) {
    && |input.local| == 3 && |input.global| == 3 && |input.state| == 4
    && input.global[0] as int == x as int + input.local[0] as int
    && input.global[1] as int == y as int + input.local[1] as int
  }

  /** A constant of four words. */
  datatype Four = Four(a: Word, b: Word, c: Word, d: Word)
  {
    function Words(): seq<Word> { [a, b, c, d] }

    predicate Small() { a < 32 && b < 32 && c < 32 && d < 32 }
  }

  /** The first four lanes of the first subgroup take part. */
  predicate Active(input: Input) { input.subgroup == 0 && input.index < 4 }

  // ---- Which lane, and where its workgroup starts ----

  lemma Differs(input: Input, x: Word, y: Word) returns (start: seq<Word>)
    requires Placed(input, x, y)
    ensures Zip(OP_I_SUB, input.global, input.local) == Some(start)
    ensures |start| == 3 && start[0] == x && start[1] == y
  {
    ZipIs(OP_I_SUB, input.global, input.local);
    start := Zip(OP_I_SUB, input.global, input.local).value;
  }

  lemma OriginRuns(n: Word, lane: Lane, m: Common, x: Word, y: Word) returns (next: Lane, start: seq<Word>)
    requires Fits(n) && lane.target.None? && BuiltIns(m.builtIns, n) && Placed(lane.input, x, y)
    ensures next == lane.(env := next.env) && Keeps(lane.env, next.env, n + 7)
    ensures |start| == 3 && start[0] == x && start[1] == y && Has(next.env, n + 9, Us(start))
    ensures Reaches(LaneCode(n), 0, lane, 3, next, m)
  {
    hide Emit, Run, Zip;
    var c, i := LaneCode(n), lane.input;
    start := Differs(i, x, y);
    next := DoesGiven(c, 0, [32, n + 7, 34], lane, m, Us(i.local));
    next := DoesGiven(c, 1, [32, n + 8, 35], next, m, Us(i.global));
    next := DoesBinary(c, 2, OP_I_SUB, [32, n + 9, n + 8, n + 7], next, m, Us(i.global), Us(i.local), Us(start));
  }

  lemma LaneRuns(n: Word, lane: Lane, m: Common) returns (next: Lane)
    requires Fits(n) && lane.target.None? && BuiltIns(m.builtIns, n)
    requires Has(lane.env, 40, U(0)) && Has(lane.env, 699, U(4))
    ensures next == lane.(env := next.env) && Keeps(lane.env, next.env, n + 10)
    ensures Has(next.env, n + 11, U(lane.input.index)) && Has(next.env, n + 12, B(lane.input.subgroup == 0))
    ensures Has(next.env, n + 14, B(Active(lane.input)))
    ensures Reaches(LaneCode(n), 3, lane, 8, next, m)
  {
    hide Emit, Run, Arith;
    var c, s, r := LaneCode(n), lane.input.subgroup, lane.input.index;
    next := DoesGiven(c, 3, [10, n + 10, n + 2], lane, m, U(s));
    next := DoesGiven(c, 4, [10, n + 11, n + 3], next, m, U(r));
    next := DoesBinary(c, 5, OP_I_EQUAL, [48, n + 12, n + 10, 40], next, m, U(s), U(0), B(s == 0));
    next := DoesBinary(c, 6, OP_U_LESS_THAN, [48, n + 13, n + 11, 699], next, m, U(r), U(4), B(r < 4));
    next := DoesBinary(c, 7, OP_LOGICAL_AND, [48, n + 14, n + 12, n + 13], next, m, B(s == 0), B(r < 4), B(s == 0 && r < 4));
  }

  /** The bits of a quarter as a number of 32 bits (IEEE 754). */
  const QUARTER: Word := 0x3e800000

  function Corners(x: Word, y: Word): seq<Word> { [x, y, y, y] }

  lemma CornersRun(n: Word, lane: Lane, m: Common, start: seq<Word>) returns (next: Lane)
    requires Fits(n) && lane.target.None? && |start| == 3 && m.decode(QUARTER) == 0.25
    requires Has(lane.env, n + 9, Us(start)) && Has(lane.env, 606, U(QUARTER))
    ensures next == lane.(env := next.env) && Keeps(lane.env, next.env, n + 15)
    ensures Has(next.env, n + 15, F(0.25)) && Has(next.env, n + 16, Us(Corners(start[0], start[1])))
    ensures Reaches(LaneCode(n), 8, lane, |LaneCode(n)|, next, m)
  {
    hide Emit, Run;
    var c := LaneCode(n);
    next := DoesCast(c, 8, [8, n + 15, 606], lane, m, U(QUARTER), F(0.25));
    next := DoesShuffle(c, 9, [63, n + 16, n + 9, n + 9, 0, 1, 1, 1], next, m, start, Corners(start[0], start[1]));
  }

  // ---- The role of a lane ----

  /** Where the four elements of a lane's square start in the workgroup array. */
  function Base(r: Word, row: Word): Word { ((r % 2) * 512 + (r / 2) * row) % 0x1_0000_0000 }

  lemma RoleNumbers(r: Word, row: Word)
    requires r < 4
    ensures And(r, 1) == r % 2 && Shifted(r, 1) == r / 2
    ensures Product(r % 2, 512) == (r % 2) * 512 && Product(r / 2, row) == (r / 2) * row
  {
    assert r in {0, 1, 2, 3};
    assert Pow2(1) == 2 * Pow2(0);
    MaskIsRemainder(r, 1);
  }

  lemma RoleRuns(n: Word, lane: Lane, m: Common) returns (next: Lane)
    requires Fits(n) && lane.target.None? && lane.input.index < 4
    requires Has(lane.env, n + 11, U(lane.input.index)) && Has(lane.env, 67, U(1))
    ensures var r := lane.input.index;
            && Reaches(RoleCode(n), 3, lane, 5, next, m)
            && next == lane.(env := next.env) && Keeps(lane.env, next.env, n + 19)
            && Has(next.env, n + 19, U(r % 2)) && Has(next.env, n + 20, U(r / 2))
  {
    hide Emit, Run, And, Pow2, Product, Shifted;
    var c, r := RoleCode(n), lane.input.index;
    RoleNumbers(r, 0);
    next := DoesBinary(c, 3, OP_BITWISE_AND, [10, n + 19, n + 11, 67], lane, m, U(r), U(1), U(r % 2));
    next := DoesBinary(c, 4, OP_SHIFT_RIGHT_LOGICAL, [10, n + 20, n + 11, 67], next, m, U(r), U(1), U(r / 2));
  }

  lemma BaseRuns(n: Word, lane: Lane, m: Common, r: Word, row: Word) returns (next: Lane)
    requires Fits(n) && lane.target.None? && r < 4
    requires Has(lane.env, n + 19, U(r % 2)) && Has(lane.env, n + 20, U(r / 2))
    requires Has(lane.env, n + 6, U(512)) && Has(lane.env, 960, U(row))
    ensures next == lane.(env := next.env) && Keeps(lane.env, next.env, n + 21) && Has(next.env, n + 23, U(Base(r, row)))
    ensures Reaches(RoleCode(n), 5, lane, 8, next, m)
  {
    hide Emit, Run, And, Pow2, Product, Shifted;
    var c, x, y := RoleCode(n), Product(r % 2, 512), Product(r / 2, row);
    RoleNumbers(r, row);
    next := DoesBinary(c, 5, OP_I_MUL, [10, n + 21, n + 19, n + 6], lane, m, U(r % 2), U(512), U(x));
    next := DoesBinary(c, 6, OP_I_MUL, [10, n + 22, n + 20, 960], next, m, U(r / 2), U(row), U(y));
    next := DoesBinary(c, 7, OP_I_ADD, [10, n + 23, n + 21, n + 22], next, m, U(x), U(y), U(Base(r, row)));
  }

  lemma CarriedRuns(n: Word, lane: Lane, m: Common) returns (next: Lane)
    requires Fits(n) && lane.target.None? && |lane.input.state| == 4
    ensures next == lane.(env := next.env) && Keeps(lane.env, next.env, n + 24)
    ensures Has(next.env, n + 25, F(Carried(lane.input)))
    ensures Reaches(RoleCode(n), 8, lane, |RoleCode(n)|, next, m)
  {
    hide Emit, Run;
    var c := RoleCode(n);
    next := DoesLoad(c, 8, [9, n + 24, 59], lane, m, Fs(lane.input.state));
    next := DoesExtract(c, 9, [8, n + 25, n + 24, 1], next, m, lane.input.state);
  }

  /** The value a lane carries into the tail. */
  function Carried(input: Input): real { if |input.state| == 4 then input.state[1] else 0.0 }

  function Cell(memory: seq<Word>, k: nat): Word { if k < |memory| then memory[k] else 0 }

  /** Where `offset` from `base` is in the workgroup array. */
  function Beyond(base: Word, offset: Word): Word { (base + offset) % 0x1_0000_0000 }

  lemma SharedRuns(n: Word, at: Word, index: Word, lane: Lane, m: Common, base: Word, offset: Word) returns (next: Lane)
    requires Fits(n) && lane.target.None? && n + 23 < at && at + 4 < 0x1_0000_0000 && index < at
    requires Has(lane.env, n + 23, U(base)) && Has(lane.env, index, U(offset)) && at + 1 !in m.builtIns
    requires Beyond(base, offset) < |m.memory|
    ensures next == lane.(env := next.env) && Keeps(lane.env, next.env, at)
    ensures Has(next.env, at + 3, F(m.decode(Cell(m.memory, Beyond(base, offset)))))
    ensures Runs(LoadShared(n, at, index), lane, next, m)
  {
    hide Emit, Run;
    var c, place := LoadShared(n, at, index), Beyond(base, offset);
    next := DoesBinary(c, 0, OP_I_ADD, [10, at, n + 23, index], lane, m, U(base), U(offset), U(place));
    next := DoesPlace(c, 1, [628, at + 1, WORKGROUP_ARRAY, at], next, m, place);
    next := DoesLoad(c, 2, [10, at + 2, at + 1, 32], next, m, U(m.memory[place]));
    next := DoesCast(c, 3, [8, at + 3, at + 2], next, m, U(m.memory[place]), F(m.decode(m.memory[place])));
    RunsAll(c, lane, next, m);
  }

  // ---- The texel of level five ----

  lemma MeanRuns(n: Word, lane: Lane, m: Common, a: real, b: real, c: real, d: real) returns (next: Lane)
    requires Fits(n) && lane.target.None? && Has(lane.env, n + 15, F(0.25))
    requires Has(lane.env, n + 25, F(a)) && Has(lane.env, n + 29, F(b)) && Has(lane.env, n + 33, F(c))
    requires Has(lane.env, n + 37, F(d))
    ensures next == lane.(env := next.env) && Keeps(lane.env, next.env, n + 38)
    ensures Has(next.env, n + 41, F((a + b + c + d) / 4.0))
    ensures Reaches(Mip5Code(n), 0, lane, 4, next, m)
  {
    hide Emit, Run;
    var code := Mip5Code(n);
    next := DoesBinary(code, 0, OP_F_ADD, [8, n + 38, n + 29, n + 25], lane, m, F(b), F(a), F(b + a));
    next := DoesBinary(code, 1, OP_F_ADD, [8, n + 39, n + 33, n + 38], next, m, F(c), F(b + a), F(c + (b + a)));
    next := DoesBinary(code, 2, OP_F_ADD, [8, n + 40, n + 37, n + 39], next, m, F(d), F(c + (b + a)), F(d + (c + (b + a))));
    next := DoesBinary(code, 3, OP_F_MUL, [8, n + 41, n + 40, n + 15], next, m, F(d + (c + (b + a))), F(0.25),
                       F((a + b + c + d) / 4.0));
  }

  lemma ShiftedWords(words: seq<Word>, shifts: Four) returns (shifted: seq<Word>)
    requires |words| == 4 && shifts.Small()
    ensures Zip(OP_SHIFT_RIGHT_LOGICAL, words, shifts.Words()) == Some(shifted) && |shifted| == 4
    ensures shifted[0] == Shifted(words[0], shifts.a) && shifted[1] == Shifted(words[1], shifts.b)
  {
    ZipIs(OP_SHIFT_RIGHT_LOGICAL, words, shifts.Words());
    shifted := Zip(OP_SHIFT_RIGHT_LOGICAL, words, shifts.Words()).value;
  }

  /** Column and row without their lowest bits. */
  function Texels(x: Word, y: Word, shifts: Four): seq<Word> { [Shifted(x, shifts.a), Shifted(y, shifts.b)] }

  lemma CornerRuns(n: Word, lane: Lane, m: Common, x: Word, y: Word, shifts: Four) returns (next: Lane)
    requires Fits(n) && lane.target.None? && shifts.Small()
    requires Has(lane.env, n + 16, Us(Corners(x, y))) && Has(lane.env, 1144, Us(shifts.Words()))
    ensures next == lane.(env := next.env) && Keeps(lane.env, next.env, n + 42)
    ensures Has(next.env, n + 44, Us(Texels(x, y, shifts)))
    ensures Reaches(Mip5Code(n), 4, lane, 7, next, m)
  {
    hide Emit, Run, Zip, Shifted;
    var c, words := Mip5Code(n), Corners(x, y);
    var shifted := ShiftedWords(words, shifts);
    next := DoesBinary(c, 4, OP_SHIFT_RIGHT_LOGICAL, [63, n + 42, n + 16, 1144], lane, m, Us(words), Us(shifts.Words()), Us(shifted));
    next := DoesCast(c, 5, [65, n + 43, n + 42], next, m, Us(shifted), Us(shifted));
    next := DoesShuffle(c, 6, [558, n + 44, n + 43, n + 43, 0, 1], next, m, shifted, Texels(x, y, shifts));
  }

  /** The texel of a role: the one at the corner, or a neighbour of it. */
  function Texel5(cx: Word, cy: Word, x: Word, y: Word): seq<Word> { [Beyond(cx, x), Beyond(cy, y)] }

  lemma AddsPair(cx: Word, cy: Word, x: Word, y: Word)
    ensures Zip(OP_I_ADD, [cx, cy], [x, y]) == Some(Texel5(cx, cy, x, y)) && |Texel5(cx, cy, x, y)| == 2
  {
    var xs, ys := [cx, cy], [x, y];
    ZipIs(OP_I_ADD, xs, ys);
    var r := Zip(OP_I_ADD, xs, ys).value;
    hide Zip;
    assert r == Texel5(cx, cy, x, y);
  }

  lemma PlaceRuns(n: Word, lane: Lane, m: Common, x: Word, y: Word, cx: Word, cy: Word) returns (next: Lane)
    requires Fits(n) && lane.target.None?
    requires Has(lane.env, n + 19, U(x)) && Has(lane.env, n + 20, U(y)) && Has(lane.env, n + 44, Us([cx, cy]))
    ensures next == lane.(env := next.env) && Keeps(lane.env, next.env, n + 45)
    ensures Has(next.env, n + 48, Us(Texel5(cx, cy, x, y)))
    ensures Reaches(Mip5Code(n), 7, lane, 11, next, m)
  {
    hide Emit, Run, Zip, Texel5;
    var c := Mip5Code(n);
    AddsPair(cx, cy, x, y);
    next := DoesCast(c, 7, [41, n + 45, n + 19], lane, m, U(x), U(x));
    next := DoesCast(c, 8, [41, n + 46, n + 20], next, m, U(y), U(y));
    next := DoesPair(c, 9, [558, n + 47, n + 45, n + 46], next, m, x, y);
    next := DoesBinary(c, 10, OP_I_ADD, [558, n + 48, n + 44, n + 47], next, m, Us([cx, cy]), Us([x, y]),
                       Us(Texel5(cx, cy, x, y)));
  }

  lemma ColorRuns(n: Word, lane: Lane, m: Common, mean: real) returns (next: Lane)
    requires Fits(n) && lane.target.None? && Has(lane.env, n + 41, F(mean))
    ensures next == lane.(env := next.env) && Keeps(lane.env, next.env, n + 49)
    ensures Has(next.env, n + 49, Fs([mean, mean, mean, mean])) && Has(next.env, n + 50, Image(30))
    ensures Reaches(Mip5Code(n), 11, lane, |Mip5Code(n)|, next, m)
  {
    hide Emit, Run;
    var c := Mip5Code(n);
    next := DoesFour(c, 11, [9, n + 49, n + 41, n + 41, n + 41, n + 41], lane, m, mean);
    next := DoesLoad(c, 12, [23, n + 50, 30], next, m, Image(30));
  }

  // ---- Control ----

  lemma Merges(code: seq<Instr>, k: nat, args: seq<Word>, lane: Lane, m: Common)
    requires k < |code| && |args| == 2 && code[k] == Emit(OP_SELECTION_MERGE, args) && lane.target.None?
    ensures Reaches(code, k, lane, k + 1, lane, m)
  {
    StepsTo(code, k, lane, m, lane);
  }

  lemma Branches(code: seq<Instr>, k: nat, args: seq<Word>, lane: Lane, m: Common, truth: bool)
    requires k < |code| && |args| == 3 && code[k] == Emit(OP_BRANCH_CONDITIONAL, args) && lane.target.None?
    requires Has(lane.env, args[0], B(truth))
    ensures Reaches(code, k, lane, k + 1, lane.(target := Some(if truth then args[1] else args[2])), m)
  {
    var i := code[k];
    assert i[1..] == args;
    assert i[1] == i[1..][0] && i[2] == i[1..][1] && i[3] == i[1..][2];
    StepsTo(code, k, lane, m, lane.(target := Some(if truth then args[1] else args[2])));
  }

  lemma Jumps(code: seq<Instr>, k: nat, args: seq<Word>, lane: Lane, m: Common)
    requires k < |code| && |args| == 1 && code[k] == Emit(OP_BRANCH, args)
    ensures Reaches(code, k, lane, k + 1, if lane.target.None? then lane.(target := Some(args[0])) else lane, m)
  {
    var i := code[k];
    assert i[1..] == args;
    assert i[1] == i[1..][0];
    StepsTo(code, k, lane, m, if lane.target.None? then lane.(target := Some(args[0])) else lane);
  }

  /** A lane enters the block it was on its way to. */
  lemma Enters(code: seq<Instr>, k: nat, args: seq<Word>, lane: Lane, m: Common)
    requires k < |code| && |args| == 1 && code[k] == Emit(OP_LABEL, args) && lane.target == Some(args[0])
    ensures Reaches(code, k, lane, k + 1, lane.(block := args[0], previous := lane.block, target := None), m)
  {
    var i := code[k];
    assert i[1..] == args;
    assert i[1] == i[1..][0];
    StepsTo(code, k, lane, m, lane.(block := args[0], previous := lane.block, target := None));
  }

  lemma WritesTexel(image: Word, at: Word, color: Word, lane: Lane, m: Common, texel: Texel)
    requires lane.target.None? && Has(lane.env, image, Image(texel.image))
    requires Has(lane.env, at, Us(texel.at)) && Has(lane.env, color, Fs(texel.color))
    ensures Runs(ImageWrite(image, at, color), lane, lane.(written := lane.written + [texel]), m)
  {
    var c := ImageWrite(image, at, color);
    var i := c[0];
    assert i[1..] == [image, at, color];
    assert i[1] == i[1..][0] && i[2] == i[1..][1] && i[3] == i[1..][2];
    StepsTo(c, 0, lane, m, lane.(written := lane.written + [texel]));
    RunsAll(c, lane, lane.(written := lane.written + [texel]), m);
  }

  lemma DoesPhi(code: seq<Instr>, k: nat, args: seq<Word>, lane: Lane, m: Common, v: Value) returns (next: Lane)
    requires k < |code| && |args| == 6 && code[k] == Emit(OP_PHI, args) && lane.target.None? && HasType(args[0], v)
    requires args[3] != args[5]
    requires if lane.previous == args[3] then Has(lane.env, args[2], v)
             else lane.previous == args[5] && Has(lane.env, args[4], v)
    ensures Reaches(code, k, lane, k + 1, next, m) && Gains(lane, next, args[1], v)
  {
    hide HasType;
    var i := code[k];
    assert i[1..] == args;
    assert forall j :: 0 <= j < 6 ==> i[j + 1] == i[1..][j];
    next := lane.With(args[1], v);
    StepsTo(code, k, lane, m, next);
  }

  // ---- One lane up to the broadcasts ----

  /** The new ids, where the workgroup starts, and the constants of the module that are only named here. */
  datatype Scene = Scene(n: Word, x: Word, y: Word, down: Word, row: Word, shift5: Four, shift6: Four, idle: real)
  {
    predicate Valid() { Fits(n) && shift5.Small() && shift6.Small() }

    /** The constants the tail reads, with those that it declares. */
    predicate Constants(env: Env)
      requires Fits(n)
    {
      && Has(env, 40, U(0)) && Has(env, 67, U(1)) && Has(env, 11, U(2)) && Has(env, 644, U(3)) && Has(env, 699, U(4))
      && Has(env, 606, U(QUARTER)) && Has(env, 819, U(down)) && Has(env, 960, U(row)) && Has(env, 55, F(idle))
      && Has(env, 1144, Us(shift5.Words())) && Has(env, 1259, Us(shift6.Words()))
      && Has(env, n + 4, U(256)) && Has(env, n + 5, U(264)) && Has(env, n + 6, U(512))
    }

    /** What holds for a lane anywhere in the tail. */
    predicate Holds(lane: Lane, m: Common) {
      && Valid() && Constants(lane.env) && Placed(lane.input, x, y)
      && BuiltIns(m.builtIns, n) && m.decode(QUARTER) == 0.25
    }

    /** The element at `offset` from where the square of lane `r` starts, as a number. */
    function Element(r: Word, offset: Word, m: Common): real { m.decode(Cell(m.memory, Beyond(Base(r, row), offset))) }

    /** The other three elements of the square are in the workgroup array. */
    predicate InRange(r: Word, m: Common) {
      && Beyond(Base(r, row), 256) < |m.memory| && Beyond(Base(r, row), down) < |m.memory|
      && Beyond(Base(r, row), 264) < |m.memory|
    }

    /** A quarter of the carried value and of the three elements. */
    function Mean5(input: Input, m: Common): real {
      (Carried(input) + Element(input.index, 256, m) + Element(input.index, down, m) + Element(input.index, 264, m)) / 4.0
    }
  }

  lemma StillHolds(sc: Scene, lane: Lane, next: Lane, m: Common)
    requires sc.Holds(lane, m) && Keeps(lane.env, next.env, sc.n + 7) && next.input == lane.input
    ensures sc.Holds(next, m)
  {
    hide BuiltIns, Placed;
  }

  lemma KeepsLess(env: Env, after: Env, below: nat, less: nat)
    requires Keeps(env, after, below) && less <= below
    ensures Keeps(env, after, less)
  {
  }

  lemma KeepsOn(env: Env, mid: Env, after: Env, below: nat)
    requires Keeps(env, mid, below) && Keeps(mid, after, below)
    ensures Keeps(env, after, below)
  {
  }

  lemma OriginHolds(sc: Scene, lane: Lane, m: Common) returns (next: Lane, start: seq<Word>)
    requires sc.Holds(lane, m) && lane.target.None?
    ensures |start| == 3 && start[0] == sc.x && start[1] == sc.y && Has(next.env, sc.n + 9, Us(start))
    ensures next == lane.(env := next.env) && Keeps(lane.env, next.env, sc.n + 7) && sc.Holds(next, m)
    ensures Reaches(LaneCode(sc.n), 0, lane, 3, next, m)
  {
    hide Run, LaneCode, BuiltIns, Placed, Scene.Constants;
    next, start := OriginRuns(sc.n, lane, m, sc.x, sc.y);
    StillHolds(sc, lane, next, m);
  }

  lemma LaneHolds(sc: Scene, lane: Lane, m: Common) returns (next: Lane)
    requires sc.Holds(lane, m) && lane.target.None?
    ensures Has(next.env, sc.n + 11, U(lane.input.index)) && Has(next.env, sc.n + 12, B(lane.input.subgroup == 0))
    ensures Has(next.env, sc.n + 14, B(Active(lane.input)))
    ensures next == lane.(env := next.env) && Keeps(lane.env, next.env, sc.n + 10) && sc.Holds(next, m)
    ensures Reaches(LaneCode(sc.n), 3, lane, 8, next, m)
  {
    hide Run, LaneCode, BuiltIns, Placed, Active;
    next := LaneRuns(sc.n, lane, m);
    KeepsLess(lane.env, next.env, sc.n + 10, sc.n + 7);
    hide Scene.Constants;
    StillHolds(sc, lane, next, m);
  }

  lemma CornersHold(sc: Scene, lane: Lane, m: Common, start: seq<Word>) returns (next: Lane)
    requires sc.Holds(lane, m) && lane.target.None? && |start| == 3 && Has(lane.env, sc.n + 9, Us(start))
    ensures Has(next.env, sc.n + 15, F(0.25)) && Has(next.env, sc.n + 16, Us(Corners(start[0], start[1])))
    ensures next == lane.(env := next.env) && Keeps(lane.env, next.env, sc.n + 15) && sc.Holds(next, m)
    ensures Reaches(LaneCode(sc.n), 8, lane, |LaneCode(sc.n)|, next, m)
  {
    hide Run, LaneCode, BuiltIns, Placed, Corners;
    next := CornersRun(sc.n, lane, m, start);
    KeepsLess(lane.env, next.env, sc.n + 15, sc.n + 7);
    hide Scene.Constants;
    StillHolds(sc, lane, next, m);
  }

  /** Every lane learns which lane it is and where its workgroup starts. */
  lemma LaneCodeRuns(sc: Scene, lane: Lane, m: Common) returns (next: Lane)
    requires sc.Holds(lane, m) && lane.target.None?
    ensures Has(next.env, sc.n + 11, U(lane.input.index)) && Has(next.env, sc.n + 12, B(lane.input.subgroup == 0))
    ensures Has(next.env, sc.n + 14, B(Active(lane.input))) && Has(next.env, sc.n + 15, F(0.25))
    ensures Has(next.env, sc.n + 16, Us(Corners(sc.x, sc.y)))
    ensures next == lane.(env := next.env) && Keeps(lane.env, next.env, sc.n + 7) && sc.Holds(next, m)
    ensures Runs(LaneCode(sc.n), lane, next, m)
  {
    hide Run, LaneCode, BuiltIns, Placed, Corners, Active, Scene.Constants;
    var n := sc.n;
    var a, start := OriginHolds(sc, lane, m);
    var b := LaneHolds(sc, a, m);
    next := CornersHold(sc, b, m, start);
    RunsAll(LaneCode(n), lane, next, m);
    KeepsLess(a.env, b.env, n + 10, n + 7);
    KeepsLess(b.env, next.env, n + 15, n + 7);
    KeepsOn(lane.env, a.env, b.env, n + 7);
    KeepsOn(lane.env, b.env, next.env, n + 7);
  }

  /** What a lane learned stays known: which lane it is, the quarter, and where its workgroup starts. */
  predicate Knows(sc: Scene, lane: Lane)
    requires Fits(sc.n)
  {
    && Has(lane.env, sc.n + 11, U(lane.input.index)) && Has(lane.env, sc.n + 12, B(lane.input.subgroup == 0))
    && Has(lane.env, sc.n + 15, F(0.25)) && Has(lane.env, sc.n + 16, Us(Corners(sc.x, sc.y)))
  }

  lemma StillKnows(sc: Scene, lane: Lane, next: Lane, m: Common)
    requires sc.Holds(lane, m) && Knows(sc, lane) && Keeps(lane.env, next.env, sc.n + 19) && next.input == lane.input
    ensures sc.Holds(next, m) && Knows(sc, next)
  {
    hide BuiltIns, Placed, Corners;
    KeepsLess(lane.env, next.env, sc.n + 19, sc.n + 7);
    hide Keeps;
    StillKnowsOnly(sc, lane, next);
    hide Scene.Constants;
    StillHolds(sc, lane, next, m);
  }

  lemma StillKnowsOnly(sc: Scene, lane: Lane, next: Lane)
    requires Fits(sc.n) && Knows(sc, lane)
    requires Keeps(lane.env, next.env, sc.n + 19) && next.input == lane.input
    ensures Knows(sc, next)
  {
    hide Corners;
  }

  /** A lane that takes part enters its block; any other is on its way to the join. */
  lemma RoleBranches(sc: Scene, lane: Lane, m: Common)
    requires Fits(sc.n) && lane.target.None? && Has(lane.env, sc.n + 14, B(Active(lane.input)))
    ensures Active(lane.input) ==>
              Reaches(RoleCode(sc.n), 0, lane, 3, lane.(block := sc.n + 17, previous := lane.block), m)
    ensures !Active(lane.input) ==> Runs(RoleCode(sc.n), lane, lane.(target := Some(sc.n + 18)), m)
  {
    hide Emit, Active, Run, Run;
    var c, n := RoleCode(sc.n), sc.n;
    Merges(c, 0, [n + 18, 0], lane, m);
    Branches(c, 1, [n + 14, n + 17, n + 18], lane, m, Active(lane.input));
    if Active(lane.input) {
      Enters(c, 2, [n + 17], lane.(target := Some(n + 17)), m);
    } else {
      RolePasses(n, lane.(target := Some(n + 18)), m);
      RunsAll(c, lane, lane.(target := Some(n + 18)), m);
    }
  }

  lemma RolePasses(n: Word, lane: Lane, m: Common)
    requires Fits(n) && lane.target == Some(n + 18)
    ensures Reaches(RoleCode(n), 2, lane, |RoleCode(n)|, lane, m)
  {
    hide Run, NoLabel;
    var c := RoleCode(n);
    RestHasNoLabel(n);
    Passes(c[2..], lane, m);
    forall more: seq<Instr>
      ensures Run(From(c, 2) + more, lane, m) == Run(From(c, |c|) + more, lane, m)
    {
      assert From(c, |c|) + more == more;
    }
  }

  lemma RestHasNoLabel(n: Word)
    requires Fits(n)
    ensures |RoleCode(n)| == 10 && NoLabel(RoleCode(n)[2..], n + 18)
  {
    hide Emit;
    var c := RoleCode(n);
    assert c[2][1..] == [n + 17];
    assert forall k :: 3 <= k < 10 ==> c[k] != [] && Op(c[k]) != OP_LABEL;
  }

  /** Where a lane's square starts, and the value the lane carries. */
  lemma RoleHolds(sc: Scene, lane: Lane, m: Common) returns (next: Lane)
    requires sc.Holds(lane, m) && Knows(sc, lane) && lane.target.None? && lane.input.index < 4
    ensures var (n, r) := (sc.n, lane.input.index);
            && Has(next.env, n + 19, U(r % 2)) && Has(next.env, n + 20, U(r / 2))
            && Has(next.env, n + 23, U(Base(r, sc.row))) && Has(next.env, n + 25, F(Carried(lane.input)))
    ensures next == lane.(env := next.env) && Keeps(lane.env, next.env, sc.n + 19)
    ensures Reaches(RoleCode(sc.n), 3, lane, |RoleCode(sc.n)|, next, m)
  {
    hide Run, RoleCode, BuiltIns, Base, Corners;
    var n := sc.n;
    var a := RoleRuns(n, lane, m);
    var b := BaseRuns(n, a, m, lane.input.index, sc.row);
    next := CarriedRuns(n, b, m);
    KeepsLess(a.env, b.env, n + 21, n + 19);
    KeepsLess(b.env, next.env, n + 24, n + 19);
    KeepsOn(lane.env, a.env, b.env, n + 19);
    KeepsOn(lane.env, b.env, next.env, n + 19);
  }

  /** The three elements a lane reads. */
  lemma SharedHolds(sc: Scene, lane: Lane, m: Common) returns (a: Lane, b: Lane, next: Lane)
    requires sc.Holds(lane, m) && lane.target.None? && sc.InRange(lane.input.index, m)
    requires Has(lane.env, sc.n + 23, U(Base(lane.input.index, sc.row)))
    ensures var n := sc.n;
            && Runs(LoadShared(n, n + 26, n + 4), lane, a, m) && Runs(LoadShared(n, n + 30, 819), a, b, m)
            && Runs(LoadShared(n, n + 34, n + 5), b, next, m)
    ensures var (n, r) := (sc.n, lane.input.index);
            && Has(next.env, n + 29, F(sc.Element(r, 256, m))) && Has(next.env, n + 33, F(sc.Element(r, sc.down, m)))
            && Has(next.env, n + 37, F(sc.Element(r, 264, m)))
    ensures next == lane.(env := next.env) && Keeps(lane.env, next.env, sc.n + 26)
  {
    hide Run, LoadShared, Base, Beyond, Placed;
    var n, base := sc.n, Base(lane.input.index, sc.row);
    a := SharedRuns(n, n + 26, n + 4, lane, m, base, 256);
    b := SharedRuns(n, n + 30, 819, a, m, base, sc.down);
    next := SharedRuns(n, n + 34, n + 5, b, m, base, 264);
    KeepsLess(a.env, b.env, n + 30, n + 26);
    KeepsLess(b.env, next.env, n + 34, n + 26);
    KeepsOn(lane.env, a.env, b.env, n + 26);
    KeepsOn(lane.env, b.env, next.env, n + 26);
  }

  /** The texel a lane that takes part writes: the mean of its square, next to the corner by its role. */
  function Level5(sc: Scene, input: Input, m: Common): Texel {
    var mean := sc.Mean5(input, m);
    Texel(30, Texel5(Shifted(sc.x, sc.shift5.a), Shifted(sc.y, sc.shift5.b), input.index % 2, input.index / 2),
          [mean, mean, mean, mean])
  }

  /** Texel and color are at hand for the image write. */
  predicate Ready5(sc: Scene, lane: Lane, m: Common)
    requires Fits(sc.n)
  {
    var (n, t) := (sc.n, Level5(sc, lane.input, m));
    && Has(lane.env, n + 41, F(sc.Mean5(lane.input, m))) && Has(lane.env, n + 48, Us(t.at))
    && Has(lane.env, n + 49, Fs(t.color)) && Has(lane.env, n + 50, Image(30))
  }

  lemma MeanHolds(sc: Scene, lane: Lane, m: Common, mean: real) returns (next: Lane)
    requires sc.Holds(lane, m) && Knows(sc, lane) && lane.target.None? && Has(lane.env, sc.n + 41, F(mean))
    requires Has(lane.env, sc.n + 19, U(lane.input.index % 2)) && Has(lane.env, sc.n + 20, U(lane.input.index / 2))
    ensures Has(next.env, sc.n + 41, F(mean)) && Has(next.env, sc.n + 49, Fs([mean, mean, mean, mean]))
    ensures Has(next.env, sc.n + 50, Image(30))
    ensures Has(next.env, sc.n + 48, Us(Texel5(Shifted(sc.x, sc.shift5.a), Shifted(sc.y, sc.shift5.b), lane.input.index % 2,
                                              lane.input.index / 2)))
    ensures next == lane.(env := next.env) && Keeps(lane.env, next.env, sc.n + 42)
    ensures Reaches(Mip5Code(sc.n), 4, lane, |Mip5Code(sc.n)|, next, m)
  {
    hide Run, Mip5Code, BuiltIns, Placed, Corners, Texel5;
    var n, input := sc.n, lane.input;
    var a := CornerRuns(n, lane, m, sc.x, sc.y, sc.shift5);
    var b := PlaceRuns(n, a, m, input.index % 2, input.index / 2,
                       Shifted(sc.x, sc.shift5.a), Shifted(sc.y, sc.shift5.b));
    next := ColorRuns(n, b, m, mean);
    KeepsLess(a.env, b.env, n + 45, n + 42);
    KeepsLess(b.env, next.env, n + 49, n + 42);
    KeepsOn(lane.env, a.env, b.env, n + 42);
    KeepsOn(lane.env, b.env, next.env, n + 42);
  }

  /** In its block, a lane computes its texel. */
  lemma BlockRuns(sc: Scene, lane: Lane, m: Common) returns (role: Lane, a: Lane, b: Lane, c: Lane, next: Lane)
    requires sc.Holds(lane, m) && Knows(sc, lane) && lane.target.None? && Active(lane.input)
    requires sc.InRange(lane.input.index, m)
    ensures var n := sc.n;
            && Reaches(RoleCode(n), 3, lane, |RoleCode(n)|, role, m) && Runs(LoadShared(n, n + 26, n + 4), role, a, m)
            && Runs(LoadShared(n, n + 30, 819), a, b, m) && Runs(LoadShared(n, n + 34, n + 5), b, c, m)
            && Runs(Mip5Code(n), c, next, m)
    ensures next == lane.(env := next.env) && Ready5(sc, next, m) && Knows(sc, next) && sc.Holds(next, m)
  {
    hide Run, RoleCode, LoadShared, Mip5Code, BuiltIns, Placed, Corners, Texel5, Base, Beyond, Texels,
         Scene.Constants, Knows;
    var n, r := sc.n, lane.input.index;
    CarriesFour(sc, lane, m);
    role := RoleHolds(sc, lane, m);
    StillKnows(sc, lane, role, m);
    a, b, c := SharedHolds(sc, role, m);
    KeepsLess(role.env, c.env, n + 26, n + 19);
    StillKnows(sc, role, c, m);
    KnowsQuarter(sc, c);
    var d := MeanRuns(n, c, m, Carried(lane.input), sc.Element(r, 256, m), sc.Element(r, sc.down, m), sc.Element(r, 264, m));
    KeepsLess(c.env, d.env, n + 38, n + 19);
    StillKnows(sc, c, d, m);
    next := MeanHolds(sc, d, m, sc.Mean5(lane.input, m));
    RunsAll(Mip5Code(n), c, next, m);
    KeepsLess(d.env, next.env, n + 42, n + 19);
    StillKnows(sc, d, next, m);
  }

  lemma CarriesFour(sc: Scene, lane: Lane, m: Common)
    requires sc.Holds(lane, m)
    ensures |lane.input.state| == 4
  {
    hide Scene.Constants, BuiltIns;
  }

  lemma KnowsQuarter(sc: Scene, lane: Lane)
    requires Fits(sc.n) && Knows(sc, lane)
    ensures Has(lane.env, sc.n + 15, F(0.25))
  {
    hide Corners;
  }

  /** A lane that takes part runs the whole head and has its texel at hand. */
  lemma HeadRuns(sc: Scene, lane: Lane, m: Common) returns (next: Lane)
    requires sc.Holds(lane, m) && lane.target.None? && Active(lane.input) && sc.InRange(lane.input.index, m)
    ensures next == lane.(env := next.env, block := sc.n + 17, previous := lane.block)
    ensures Ready5(sc, next, m) && Knows(sc, next) && sc.Holds(next, m)
    ensures Runs(TailHead(sc.n), lane, next, m)
  {
    hide Run, Runs, Reaches, LaneCode, RoleCode, LoadShared, Mip5Code, BuiltIns, Placed, Corners, Texel5, Base,
         Beyond, Texels, Scene.Constants, Ready5, Knows, Active, Scene.Holds;
    var n := sc.n;
    HoldsFits(sc, lane, m);
    var a := LaneCodeRuns(sc, lane, m);
    RoleBranches(sc, a, m);
    var entered := a.(block := n + 17, previous := a.block);
    StillHolds(sc, a, entered, m) by {
      SameKeeps(a.env, n + 7);
    }
    LearnsKnows(sc, entered, a.input);
    var b, c, d, e;
    b, c, d, e, next := BlockRuns(sc, entered, m);
    RestHasNoLabel(n);
    RoleJoins(n, a, entered, b, m);
    RunsBoth(LaneCode(n), RoleCode(n), lane, a, b, m);
    RunsBoth(LaneCode(n) + RoleCode(n), LoadShared(n, n + 26, n + 4), lane, b, c, m);
    RunsBoth(LaneCode(n) + RoleCode(n) + LoadShared(n, n + 26, n + 4), LoadShared(n, n + 30, 819), lane, c, d, m);
    RunsBoth(LaneCode(n) + RoleCode(n) + LoadShared(n, n + 26, n + 4) + LoadShared(n, n + 30, 819),
             LoadShared(n, n + 34, n + 5), lane, d, e, m);
    RunsBoth(LaneCode(n) + RoleCode(n) + LoadShared(n, n + 26, n + 4) + LoadShared(n, n + 30, 819)
             + LoadShared(n, n + 34, n + 5), Mip5Code(n), lane, e, next, m);
  }

  lemma HoldsFits(sc: Scene, lane: Lane, m: Common)
    requires sc.Holds(lane, m)
    ensures Fits(sc.n) && sc.Valid() && |lane.input.state| == 4
  {
    hide Scene.Constants, BuiltIns;
  }

  lemma SameKeeps(env: Env, below: nat)
    ensures Keeps(env, env, below)
  {
  }

  lemma LearnsKnows(sc: Scene, lane: Lane, input: Input)
    requires Fits(sc.n) && lane.input == input
    requires Has(lane.env, sc.n + 11, U(input.index)) && Has(lane.env, sc.n + 12, B(input.subgroup == 0))
    requires Has(lane.env, sc.n + 15, F(0.25)) && Has(lane.env, sc.n + 16, Us(Corners(sc.x, sc.y)))
    ensures Knows(sc, lane)
  {
    hide Corners;
  }

  lemma RoleJoins(n: Word, lane: Lane, mid: Lane, next: Lane, m: Common)
    requires Fits(n) && |RoleCode(n)| >= 3
    requires Reaches(RoleCode(n), 0, lane, 3, mid, m) && Reaches(RoleCode(n), 3, mid, |RoleCode(n)|, next, m)
    ensures Runs(RoleCode(n), lane, next, m)
  {
    hide RoleCode, Run;
    RunsAll(RoleCode(n), lane, next, m);
  }

  // ---- One lane up to the join ----

  /** What a lane passes over on its way to the join. */
  function Block(n: Word): seq<Instr>
    requires Fits(n)
  {
    LoadShared(n, n + 26, n + 4) + LoadShared(n, n + 30, 819) + LoadShared(n, n + 34, n + 5) + Mip5Code(n)
    + ImageWrite(n + 50, n + 48, n + 49)
  }

  lemma BlockHasNoLabel(n: Word)
    requires Fits(n)
    ensures NoLabel(Block(n), n + 18)
  {
    hide Emit, LoadShared, Mip5Code;
    LoadsHaveNoLabel(n, n + 26, n + 4, n + 18);
    LoadsHaveNoLabel(n, n + 30, 819, n + 18);
    LoadsHaveNoLabel(n, n + 34, n + 5, n + 18);
    Mip5HasNoLabel(n);
  }

  lemma LoadsHaveNoLabel(n: Word, at: Word, index: Word, label_: Word)
    requires Fits(n) && at + 4 < 0x1_0000_0000
    ensures NoLabel(LoadShared(n, at, index), label_)
  {
    hide Emit;
  }

  lemma Mip5HasNoLabel(n: Word)
    requires Fits(n)
    ensures NoLabel(Mip5Code(n), n + 18)
  {
    hide Emit;
  }

  /** The tail up to the join. */
  function UpToJoin(n: Word): seq<Instr>
    requires Fits(n)
  {
    LaneCode(n) + RoleCode(n) + Block(n)
  }

  /** A lane that takes no part does nothing before the join. */
  lemma IdleRuns(sc: Scene, lane: Lane, m: Common) returns (next: Lane)
    requires sc.Holds(lane, m) && lane.target.None? && !Active(lane.input)
    ensures next == lane.(env := next.env, target := Some(sc.n + 18)) && Keeps(lane.env, next.env, sc.n + 7)
    ensures Knows(sc, next) && sc.Holds(next, m)
    ensures Runs(UpToJoin(sc.n), lane, next, m)
  {
    hide Run, Runs, Reaches, LaneCode, RoleCode, Block, BuiltIns, Placed, Corners, Scene.Constants, Knows,
         Active, Scene.Holds;
    var n := sc.n;
    HoldsFits(sc, lane, m);
    var a := LaneCodeRuns(sc, lane, m);
    RoleBranches(sc, a, m);
    next := a.(target := Some(n + 18));
    StillHolds(sc, a, next, m) by {
      SameKeeps(a.env, n + 7);
    }
    LearnsKnows(sc, next, a.input);
    BlockHasNoLabel(n);
    Passes(Block(n), next, m);
    RunsBoth(LaneCode(n), RoleCode(n), lane, a, next, m);
    RunsBoth(LaneCode(n) + RoleCode(n), Block(n), lane, next, next, m);
  }

  /** The value a lane brings to the broadcasts. */
  function Brought(sc: Scene, input: Input, m: Common): real {
    if Active(input) then sc.Mean5(input, m) else sc.idle
  }

  /** The texels a lane has written before the broadcasts. */
  function Written5(sc: Scene, input: Input, m: Common): seq<Texel> {
    if Active(input) then [Level5(sc, input, m)] else []
  }

  lemma JoinActive(n: Word, preTail: Word, lane: Lane, m: Common, v: real) returns (next: Lane)
    requires Fits(n) && preTail < n && lane.target.None? && lane.block == n + 17 && Has(lane.env, n + 41, F(v))
    ensures next == lane.(env := next.env, block := n + 18, previous := n + 17)
    ensures Has(next.env, n + 51, F(v)) && Keeps(lane.env, next.env, n + 51)
    ensures Runs(JoinCode(n, preTail), lane, next, m)
  {
    hide Emit, Run;
    var c := JoinCode(n, preTail);
    Jumps(c, 0, [n + 18], lane, m);
    var gone := lane.(target := Some(n + 18));
    Enters(c, 1, [n + 18], gone, m);
    var come := gone.(block := n + 18, previous := n + 17, target := None);
    next := DoesPhi(c, 2, [8, n + 51, n + 41, n + 17, 55, preTail], come, m, F(v));
    RunsAll(c, lane, next, m);
  }

  lemma JoinIdle(n: Word, preTail: Word, lane: Lane, m: Common, v: real) returns (next: Lane)
    requires Fits(n) && preTail < n && lane.target == Some(n + 18) && lane.block == preTail && Has(lane.env, 55, F(v))
    ensures next == lane.(env := next.env, block := n + 18, previous := preTail, target := None)
    ensures Has(next.env, n + 51, F(v)) && Keeps(lane.env, next.env, n + 51)
    ensures Runs(JoinCode(n, preTail), lane, next, m)
  {
    hide Emit, Run;
    var c := JoinCode(n, preTail);
    Jumps(c, 0, [n + 18], lane, m);
    Enters(c, 1, [n + 18], lane, m);
    var come := lane.(block := n + 18, previous := preTail, target := None);
    next := DoesPhi(c, 2, [8, n + 51, n + 41, n + 17, 55, preTail], come, m, F(v));
    RunsAll(c, lane, next, m);
  }

  /** The tail up to the broadcasts. */
  function First(n: Word, preTail: Word): seq<Instr>
    requires Fits(n)
  {
    TailHead(n) + ImageWrite(n + 50, n + 48, n + 49) + JoinCode(n, preTail)
  }

  /** What a lane is when the broadcasts begin. */
  predicate Joined(sc: Scene, input: Input, lane: Lane, m: Common)
    requires Fits(sc.n)
  {
    && lane.input == input && lane.target.None? && lane.block == sc.n + 18 && lane.written == Written5(sc, input, m)
    && Has(lane.env, sc.n + 51, F(Brought(sc, input, m))) && Knows(sc, lane) && sc.Holds(lane, m)
  }

  lemma FirstActive(sc: Scene, preTail: Word, lane: Lane, m: Common) returns (next: Lane)
    requires sc.Holds(lane, m) && lane.target.None? && lane.written == [] && preTail < sc.n
    requires Active(lane.input) && sc.InRange(lane.input.index, m)
    ensures Runs(First(sc.n, preTail), lane, next, m) && Joined(sc, lane.input, next, m)
  {
    hide Run, Runs, TailHead, ImageWrite, JoinCode, BuiltIns, Placed, Scene.Constants, Scene.Holds, Knows,
         Scene.InRange, Scene.Mean5, Texel5, Texels;
    var n := sc.n;
    HoldsFits(sc, lane, m);
    var a := HeadRuns(sc, lane, m);
    var t := Level5(sc, lane.input, m);
    WritesTexel(n + 50, n + 48, n + 49, a, m, t);
    var b := a.(written := a.written + [t]);
    next := JoinActive(n, preTail, b, m, sc.Mean5(lane.input, m));
    KeepsLess(b.env, next.env, n + 51, n + 19);
    hide Keeps;
    StillKnows(sc, a, next, m);
    RunsBoth(TailHead(n), ImageWrite(n + 50, n + 48, n + 49), lane, a, b, m);
    RunsBoth(TailHead(n) + ImageWrite(n + 50, n + 48, n + 49), JoinCode(n, preTail), lane, b, next, m);
  }

  lemma FirstIdle(sc: Scene, preTail: Word, lane: Lane, m: Common) returns (next: Lane)
    requires sc.Holds(lane, m) && lane.target.None? && lane.block == preTail && lane.written == [] && preTail < sc.n
    requires !Active(lane.input)
    ensures Runs(First(sc.n, preTail), lane, next, m) && Joined(sc, lane.input, next, m)
  {
    hide Run, Runs, LaneCode, RoleCode, LoadShared, Mip5Code, ImageWrite, JoinCode, BuiltIns, Placed,
         Scene.Holds, Knows, Active;
    var n := sc.n;
    HoldsFits(sc, lane, m);
    var a := IdleRuns(sc, lane, m);
    IdleValue(sc, a, m);
    next := JoinIdle(n, preTail, a, m, sc.idle);
    KeepsLess(a.env, next.env, n + 51, n + 19);
    hide Keeps;
    StillKnows(sc, a, next, m);
    RunsBoth(UpToJoin(n), JoinCode(n, preTail), lane, a, next, m);
    assert First(n, preTail) == UpToJoin(n) + JoinCode(n, preTail);
  }

  lemma IdleValue(sc: Scene, lane: Lane, m: Common)
    requires sc.Holds(lane, m)
    ensures Has(lane.env, 55, F(sc.idle))
  {
    hide BuiltIns, Placed;
  }

  // ---- The broadcasts ----

  /** Every lane hears what lane `source` has. */
  lemma BroadcastRuns(code: seq<Instr>, k: nat, args: seq<Word>, lanes: seq<Lane>, m: Common, source: Word, v: real)
    returns (next: seq<Lane>)
    requires k < |code| && |args| == 5 && code[k] == Emit(OP_GROUP_NON_UNIFORM_BROADCAST, args) && args[0] == 8
    requires source < |lanes| && Has(lanes[source].env, args[3], F(v))
    requires forall j :: 0 <= j < |lanes| ==> Listens(lanes[j], args, source)
    ensures Group(code[k..], lanes, m) == Group(code[k + 1..], next, m) && |next| == |lanes|
    ensures forall j :: 0 <= j < |lanes| ==> Gains(lanes[j], next[j], args[1], F(v))
  {
    var i := code[k];
    assert i[1..] == args;
    assert forall d :: 0 <= d < 5 ==> i[d + 1] == i[1..][d];
    assert Listens(lanes[source], args, source);
    forall j | 0 <= j < |lanes|
      ensures Part(i, lanes[j], lanes, m) == Some(lanes[j].With(args[1], F(v)))
    {
      assert Listens(lanes[j], args, source);
    }
    next := Together(i, lanes, m).value;
    hide Part, Together, Emit;
    assert code[k..][0] == i && code[k..][1..] == code[k + 1..];
  }

  /** The lane executes the broadcast: its scope is the subgroup, and the source is the one meant. */
  predicate Listens(lane: Lane, args: seq<Word>, source: Word)
    requires |args| == 5
  {
    lane.target.None? && Has(lane.env, args[2], U(3)) && Has(lane.env, args[4], U(source))
  }

  /** What every lane heard. */
  predicate Hears(n: Word, lane: Lane, next: Lane, heard: seq<real>)
    requires Fits(n) && |heard| == 4
  {
    && next == lane.(env := next.env) && Keeps(lane.env, next.env, n + 52)
    && Has(next.env, n + 52, F(heard[0])) && Has(next.env, n + 53, F(heard[1]))
    && Has(next.env, n + 54, F(heard[2])) && Has(next.env, n + 55, F(heard[3]))
  }

  /** A lane that can take part in the broadcasts. */
  predicate Attends(n: Word, lane: Lane)
    requires Fits(n)
  {
    && lane.target.None? && Has(lane.env, 644, U(3))
    && Has(lane.env, 40, U(0)) && Has(lane.env, 67, U(1)) && Has(lane.env, 11, U(2))
  }

  lemma StillAttends(n: Word, lane: Lane, next: Lane, id: Word, v: real)
    requires Fits(n) && Attends(n, lane) && Gains(lane, next, id, F(v)) && n <= id
    ensures Attends(n, next)
  {
  }

  lemma GainsAll(n: Word, l0: Lane, l1: Lane, l2: Lane, l3: Lane, l4: Lane, heard: seq<real>)
    requires Fits(n) && |heard| == 4
    requires Gains(l0, l1, n + 52, F(heard[0])) && Gains(l1, l2, n + 53, F(heard[1]))
    requires Gains(l2, l3, n + 54, F(heard[2])) && Gains(l3, l4, n + 55, F(heard[3]))
    ensures Hears(n, l0, l4, heard)
  {
  }

  predicate AllAttend(n: Word, lanes: seq<Lane>, heard: seq<real>)
    requires Fits(n)
  {
    && |lanes| >= 4 && |heard| == 4 && (forall j :: 0 <= j < |lanes| ==> Attends(n, lanes[j]))
    && (forall j :: 0 <= j < 4 ==> Has(lanes[j].env, n + 51, F(heard[j])))
  }

  /** One of the four broadcasts, from lane `source`, into id `n + 52 + source`. */
  lemma NextBroadcast(n: Word, source: Word, constant: Word, lanes: seq<Lane>, m: Common, heard: seq<real>)
    returns (next: seq<Lane>)
    requires Fits(n) && AllAttend(n, lanes, heard) && source < 4
    requires constant == if source == 0 then 40 else if source == 1 then 67 else if source == 2 then 11 else 644
    ensures Group(Broadcasts(n)[source..], lanes, m) == Group(Broadcasts(n)[source + 1..], next, m)
    ensures AllAttend(n, next, heard) && |next| == |lanes|
    ensures forall j :: 0 <= j < |lanes| ==> Gains(lanes[j], next[j], n + 52 + source, F(heard[source]))
  {
    hide Emit, Group;
    var args := [8, n + 52 + source, 644, n + 51, constant];
    forall j | 0 <= j < |lanes|
      ensures Listens(lanes[j], args, source)
    {
      assert Attends(n, lanes[j]);
    }
    next := BroadcastRuns(Broadcasts(n), source, args, lanes, m, source, heard[source]);
    forall j | 0 <= j < |lanes|
      ensures Attends(n, next[j])
    {
      StillAttends(n, lanes[j], next[j], n + 52 + source, heard[source]);
    }
  }

  lemma BroadcastsRun(n: Word, lanes: seq<Lane>, m: Common, heard: seq<real>) returns (next: seq<Lane>)
    requires Fits(n) && AllAttend(n, lanes, heard)
    ensures Group(Broadcasts(n), lanes, m) == Some(next) && |next| == |lanes|
    ensures forall j :: 0 <= j < |lanes| ==> Hears(n, lanes[j], next[j], heard)
  {
    hide Group, AllAttend, Gains, Hears, Emit;
    var code := Broadcasts(n);
    assert |heard| == 4 by {
      AttendFour(n, lanes, heard);
    }
    var a := NextBroadcast(n, 0, 40, lanes, m, heard);
    var b := NextBroadcast(n, 1, 67, a, m, heard);
    var c := NextBroadcast(n, 2, 11, b, m, heard);
    next := NextBroadcast(n, 3, 644, c, m, heard);
    forall j | 0 <= j < |lanes|
      ensures Hears(n, lanes[j], next[j], heard)
    {
      GainsAll(n, lanes[j], a[j], b[j], c[j], next[j], heard);
    }
    assert code[0..] == code && code[4..] == [];
    GroupNothing(next, m);
  }

  lemma AttendFour(n: Word, lanes: seq<Lane>, heard: seq<real>)
    requires Fits(n) && AllAttend(n, lanes, heard)
    ensures |heard| == 4
  {
  }

  lemma GroupNothing(lanes: seq<Lane>, m: Common)
    ensures Group([], lanes, m) == Some(lanes)
  {
  }

  // ---- The texel of level six ----

  /** The first lane of the first subgroup writes it. */
  predicate WritesLast(input: Input) { input.subgroup == 0 && input.index == 0 }

  function Quarter(v: seq<real>): real
    requires |v| == 4
  {
    (v[0] + v[1] + v[2] + v[3]) / 4.0
  }

  /** The tail after the broadcasts. */
  function Last(n: Word): seq<Instr>
    requires Fits(n)
  {
    Mip6Code(n) + ImageWrite(n + 68, n + 66, n + 67) + CloseCode(n)
  }

  lemma LastBranches(n: Word, lane: Lane, m: Common) returns (next: Lane)
    requires Fits(n) && lane.target.None? && Has(lane.env, 40, U(0))
    requires Has(lane.env, n + 11, U(lane.input.index)) && Has(lane.env, n + 12, B(lane.input.subgroup == 0))
    ensures Has(next.env, n + 57, B(WritesLast(lane.input)))
    ensures next == lane.(env := next.env) && Keeps(lane.env, next.env, n + 56)
    ensures Reaches(Mip6Code(n), 0, lane, 2, next, m)
  {
    hide Emit, Run;
    var c, s, r := Mip6Code(n), lane.input.subgroup, lane.input.index;
    next := DoesBinary(c, 0, OP_I_EQUAL, [48, n + 56, n + 11, 40], lane, m, U(r), U(0), B(r == 0));
    next := DoesBinary(c, 1, OP_LOGICAL_AND, [48, n + 57, n + 12, n + 56], next, m, B(s == 0), B(r == 0), B(s == 0 && r == 0));
  }

  lemma LastTurns(n: Word, lane: Lane, m: Common, writes: bool)
    requires Fits(n) && lane.target.None? && Has(lane.env, n + 57, B(writes))
    ensures writes ==> Reaches(Mip6Code(n), 2, lane, 5, lane.(block := n + 58, previous := lane.block), m)
    ensures !writes ==> Reaches(Mip6Code(n), 2, lane, 4, lane.(target := Some(n + 59)), m)
  {
    hide Emit, Run;
    var c := Mip6Code(n);
    Merges(c, 2, [n + 59, 0], lane, m);
    Branches(c, 3, [n + 57, n + 58, n + 59], lane, m, writes);
    if writes {
      Enters(c, 4, [n + 58], lane.(target := Some(n + 58)), m);
    }
  }

  lemma LastMean(n: Word, lane: Lane, m: Common, v: seq<real>) returns (next: Lane)
    requires Fits(n) && lane.target.None? && |v| == 4 && Has(lane.env, n + 15, F(0.25))
    requires Has(lane.env, n + 52, F(v[0])) && Has(lane.env, n + 53, F(v[1]))
    requires Has(lane.env, n + 54, F(v[2])) && Has(lane.env, n + 55, F(v[3]))
    ensures Has(next.env, n + 63, F(Quarter(v)))
    ensures next == lane.(env := next.env) && Keeps(lane.env, next.env, n + 60)
    ensures Reaches(Mip6Code(n), 5, lane, 9, next, m)
  {
    hide Emit, Run;
    var c := Mip6Code(n);
    var x, y, z := v[1] + v[0], v[2] + (v[1] + v[0]), v[3] + (v[2] + (v[1] + v[0]));
    next := DoesBinary(c, 5, OP_F_ADD, [8, n + 60, n + 53, n + 52], lane, m, F(v[1]), F(v[0]), F(x));
    next := DoesBinary(c, 6, OP_F_ADD, [8, n + 61, n + 54, n + 60], next, m, F(v[2]), F(x), F(y));
    next := DoesBinary(c, 7, OP_F_ADD, [8, n + 62, n + 55, n + 61], next, m, F(v[3]), F(y), F(z));
    next := DoesBinary(c, 8, OP_F_MUL, [8, n + 63, n + 62, n + 15], next, m, F(z), F(0.25), F(Quarter(v)));
  }

  lemma LastCorner(n: Word, lane: Lane, m: Common, x: Word, y: Word, shifts: Four) returns (next: Lane)
    requires Fits(n) && lane.target.None? && shifts.Small()
    requires Has(lane.env, n + 16, Us(Corners(x, y))) && Has(lane.env, 1259, Us(shifts.Words()))
    ensures Has(next.env, n + 66, Us(Texels(x, y, shifts)))
    ensures next == lane.(env := next.env) && Keeps(lane.env, next.env, n + 64)
    ensures Reaches(Mip6Code(n), 9, lane, 12, next, m)
  {
    hide Emit, Run, Zip, Shifted;
    var c, words := Mip6Code(n), Corners(x, y);
    var shifted := ShiftedWords(words, shifts);
    next := DoesBinary(c, 9, OP_SHIFT_RIGHT_LOGICAL, [63, n + 64, n + 16, 1259], lane, m, Us(words), Us(shifts.Words()), Us(shifted));
    next := DoesCast(c, 10, [65, n + 65, n + 64], next, m, Us(shifted), Us(shifted));
    next := DoesShuffle(c, 11, [558, n + 66, n + 65, n + 65, 0, 1], next, m, shifted, Texels(x, y, shifts));
  }

  lemma LastColor(n: Word, lane: Lane, m: Common, mean: real) returns (next: Lane)
    requires Fits(n) && lane.target.None? && Has(lane.env, n + 63, F(mean))
    ensures Has(next.env, n + 67, Fs([mean, mean, mean, mean])) && Has(next.env, n + 68, Image(31))
    ensures next == lane.(env := next.env) && Keeps(lane.env, next.env, n + 67)
    ensures Reaches(Mip6Code(n), 12, lane, |Mip6Code(n)|, next, m)
  {
    hide Emit, Run;
    var c := Mip6Code(n);
    next := DoesFour(c, 12, [9, n + 67, n + 63, n + 63, n + 63, n + 63], lane, m, mean);
    next := DoesLoad(c, 13, [23, n + 68, 31], next, m, Image(31));
  }

  lemma Closes(n: Word, lane: Lane, m: Common) returns (next: Lane)
    requires Fits(n) && (lane.target.Some? ==> lane.target == Some(n + 59))
    ensures Runs(CloseCode(n), lane, next, m) && next.written == lane.written
  {
    hide Emit, Run;
    var c := CloseCode(n);
    Jumps(c, 0, [n + 59], lane, m);
    var gone := lane.(target := Some(n + 59));
    Enters(c, 1, [n + 59], gone, m);
    next := gone.(block := n + 59, previous := gone.block, target := None);
    RunsAll(c, lane, next, m);
  }

  /** The texel of level six: the mean of four values, at the corner. */
  function Level6(sc: Scene, v: seq<real>): Texel
    requires |v| == 4
  {
    Texel(31, Texels(sc.x, sc.y, sc.shift6), [Quarter(v), Quarter(v), Quarter(v), Quarter(v)])
  }

  /** A lane that knows what it needs and heard all four values. */
  predicate Heard4(sc: Scene, lane: Lane, v: seq<real>, m: Common) {
    && sc.Holds(lane, m) && Knows(sc, lane) && lane.target.None? && |v| == 4
    && Has(lane.env, sc.n + 52, F(v[0])) && Has(lane.env, sc.n + 53, F(v[1]))
    && Has(lane.env, sc.n + 54, F(v[2])) && Has(lane.env, sc.n + 55, F(v[3]))
  }

  lemma LastHolds(sc: Scene, lane: Lane, m: Common, v: seq<real>) returns (next: Lane)
    requires Heard4(sc, lane, v, m)
    ensures next == lane.(env := next.env) && Has(next.env, sc.n + 66, Us(Texels(sc.x, sc.y, sc.shift6)))
    ensures Has(next.env, sc.n + 67, Fs([Quarter(v), Quarter(v), Quarter(v), Quarter(v)]))
    ensures Has(next.env, sc.n + 68, Image(31))
    ensures Reaches(Mip6Code(sc.n), 5, lane, |Mip6Code(sc.n)|, next, m)
  {
    hide Run, Mip6Code, BuiltIns, Placed, Corners, Texels, Quarter;
    var n := sc.n;
    var a := LastMean(n, lane, m, v);
    var b := LastCorner(n, a, m, sc.x, sc.y, sc.shift6);
    next := LastColor(n, b, m, Quarter(v));
  }

  lemma StillHeard(sc: Scene, lane: Lane, next: Lane, v: seq<real>, m: Common)
    requires Heard4(sc, lane, v, m) && Keeps(lane.env, next.env, sc.n + 56) && next.input == lane.input && next.target.None?
    ensures Heard4(sc, next, v, m)
  {
    hide Scene.Holds, Knows;
    HoldsFits(sc, lane, m);
    KeepsLess(lane.env, next.env, sc.n + 56, sc.n + 19);
    StillKnows(sc, lane, next, m);
  }

  lemma LastKnows(sc: Scene, lane: Lane, m: Common, v: seq<real>)
    requires Heard4(sc, lane, v, m)
    ensures Fits(sc.n) && Has(lane.env, 40, U(0)) && Has(lane.env, sc.n + 11, U(lane.input.index))
    ensures Has(lane.env, sc.n + 12, B(lane.input.subgroup == 0)) && lane.target.None? && |v| == 4 && sc.Valid()
  {
    hide BuiltIns, Placed, Corners;
  }

  /** After the broadcasts only the first lane of the first subgroup writes. */
  lemma LastRuns(sc: Scene, lane: Lane, m: Common, v: seq<real>) returns (next: Lane)
    requires Heard4(sc, lane, v, m) && sc.Valid() && |v| == 4
    ensures next.written == lane.written + (if WritesLast(lane.input) then [Level6(sc, v)] else [])
    ensures Runs(Last(sc.n), lane, next, m)
  {
    hide Run, Runs, Reaches, Mip6Code, ImageWrite, CloseCode, Heard4, Texels, Quarter, WritesLast;
    var n := sc.n;
    LastKnows(sc, lane, m, v);
    RestOfMip6HasNoLabel(n);
    var a := LastBranches(n, lane, m);
    StillHeard(sc, lane, a, v, m);
    LastTurns(n, a, m, WritesLast(lane.input));
    if WritesLast(lane.input) {
      var b := a.(block := n + 58, previous := a.block);
      StillHeard(sc, a, b, v, m) by {
        SameKeeps(a.env, n + 56);
      }
      var c := LastHolds(sc, b, m, v);
      WritesTexel(n + 68, n + 66, n + 67, c, m, Level6(sc, v));
      var d := c.(written := c.written + [Level6(sc, v)]);
      next := Closes(n, d, m);
      Mip6Joins(n, lane, a, b, c, m);
      RunsBoth(Mip6Code(n), ImageWrite(n + 68, n + 66, n + 67), lane, c, d, m);
      RunsBoth(Mip6Code(n) + ImageWrite(n + 68, n + 66, n + 67), CloseCode(n), lane, d, next, m);
    } else {
      var b := a.(target := Some(n + 59));
      next := Closes(n, b, m);
      Mip6Passes(n, lane, a, b, m);
      RunsBoth(Mip6Code(n) + ImageWrite(n + 68, n + 66, n + 67), CloseCode(n), lane, b, next, m);
    }
  }

  lemma Mip6Joins(n: Word, lane: Lane, a: Lane, b: Lane, next: Lane, m: Common)
    requires Fits(n) && |Mip6Code(n)| >= 5 && Reaches(Mip6Code(n), 0, lane, 2, a, m)
    requires Reaches(Mip6Code(n), 2, a, 5, b, m) && Reaches(Mip6Code(n), 5, b, |Mip6Code(n)|, next, m)
    ensures Runs(Mip6Code(n), lane, next, m)
  {
    hide Mip6Code, Run;
    RunsAll(Mip6Code(n), lane, next, m);
  }

  lemma Mip6Passes(n: Word, lane: Lane, a: Lane, b: Lane, m: Common)
    requires Fits(n) && |Mip6Code(n)| >= 5 && Reaches(Mip6Code(n), 0, lane, 2, a, m)
    requires Reaches(Mip6Code(n), 2, a, 4, b, m) && b.target == Some(n + 59)
    ensures Runs(Mip6Code(n) + ImageWrite(n + 68, n + 66, n + 67), lane, b, m)
  {
    hide Run, NoLabel, Mip6Code, ImageWrite;
    var c := Mip6Code(n);
    RestOfMip6HasNoLabel(n);
    Passes(c[4..], b, m);
    forall more: seq<Instr>
      ensures Run(From(c, 4) + more, b, m) == Run(From(c, |c|) + more, b, m)
    {
      assert From(c, |c|) + more == more;
    }
    RunsAll(c, lane, b, m);
    Passes(ImageWrite(n + 68, n + 66, n + 67), b, m);
    RunsBoth(c, ImageWrite(n + 68, n + 66, n + 67), lane, b, b, m);
  }

  lemma RestOfMip6HasNoLabel(n: Word)
    requires Fits(n)
    ensures |Mip6Code(n)| == 14 && NoLabel(Mip6Code(n)[4..], n + 59)
    ensures NoLabel(ImageWrite(n + 68, n + 66, n + 67), n + 59)
  {
    hide Emit;
    var c := Mip6Code(n);
    assert c[4][1..] == [n + 58];
    assert forall k :: 5 <= k < 14 ==> c[k] != [] && Op(c[k]) != OP_LABEL;
  }
}
