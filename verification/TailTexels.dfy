/** What a subgroup writes when it runs the fused tail, from the declarations the fusion adds. */
module TailTexels {
  import opened BitMasks
  import opened Options
  import opened SpirvStream
  import opened TailFusion
  import opened TailMeaning
  import opened TailLevels

  // ---- Declarations ----

  /** The unsigned constants a list of declarations gives values to. */
  function Declared(code: seq<Instr>): Env {
    if code == [] then map[]
    else
      var i, before := code[|code| - 1], Declared(code[..|code| - 1]);
      if |i| == 4 && Op(i) == OP_CONSTANT && i[1] == 10 then before[i[2] := U(i[3])] else before
  }

  /** The variables a list of decorations makes built-ins. */
  function Decorated(code: seq<Instr>): map<Word, Word> {
    if code == [] then map[]
    else
      var i, before := code[|code| - 1], Decorated(code[..|code| - 1]);
      if |i| == 4 && Op(i) == OP_DECORATE && i[2] == 11 then before[i[1] := i[3]] else before
  }

  lemma DeclaredOne(code: seq<Instr>, op: nat, args: seq<Word>)
    requires op < 0x1_0000 && |args| == 3
    ensures Declared(code + [Emit(op, args)])
            == if op == OP_CONSTANT && args[0] == 10 then Declared(code)[args[1] := U(args[2])] else Declared(code)
    ensures Decorated(code + [Emit(op, args)])
            == if op == OP_DECORATE && args[1] == 11 then Decorated(code)[args[0] := args[2]] else Decorated(code)
  {
    var i, longer := Emit(op, args), code + [Emit(op, args)];
    assert longer[|longer| - 1] == i && longer[..|longer| - 1] == code;
    assert i[1..] == args;
    assert i[1] == i[1..][0] && i[2] == i[1..][1] && i[3] == i[1..][2];
  }

  lemma DeclarationsDeclare(n: Word)
    requires Fits(n)
    ensures Declared(Declarations(n)) == map[n := U(APPLIED_MAGIC), n + 4 := U(256), n + 5 := U(264), n + 6 := U(512)]
  {
    hide Emit, Declared, Decorated;
    var c := Declarations(n);
    assert Declared([]) == map[] by {
      NothingDeclared();
    }
    DeclaredOne([], OP_TYPE_POINTER, [n + 1, 1, 10]);
    DeclaredOne(c[..1], OP_CONSTANT, [10, n, APPLIED_MAGIC]);
    DeclaredOne(c[..2], OP_CONSTANT, [10, n + 4, 256]);
    DeclaredOne(c[..3], OP_CONSTANT, [10, n + 5, 264]);
    DeclaredOne(c[..4], OP_CONSTANT, [10, n + 6, 512]);
    DeclaredOne(c[..5], OP_VARIABLE, [n + 1, n + 2, 1]);
    DeclaredOne(c[..6], OP_VARIABLE, [n + 1, n + 3, 1]);
    assert c[..1] == [] + [c[0]] && c[..2] == c[..1] + [c[1]] && c[..3] == c[..2] + [c[2]];
    assert c[..4] == c[..3] + [c[3]] && c[..5] == c[..4] + [c[4]] && c[..6] == c[..5] + [c[5]] && c == c[..6] + [c[6]];
  }

  lemma NothingDeclared()
    ensures Declared([]) == map[] && Decorated([]) == map[]
  {
  }

  lemma DecorationsDecorate(n: Word)
    requires Fits(n)
    ensures Decorated(NewDecorations(n)) == map[n + 2 := 40, n + 3 := 41]
  {
    hide Emit, Declared, Decorated;
    var c := NewDecorations(n);
    NothingDeclared();
    DeclaredOne([], OP_DECORATE, [n + 2, 11, 40]);
    DeclaredOne(c[..1], OP_DECORATE, [n + 3, 11, 41]);
    assert c[..1] == [] + [c[0]] && c == c[..1] + [c[1]];
  }

  // ---- A subgroup at the start of the tail ----

  /** The constants of the recognised module, the built-ins it has, and a quarter's bits read as a quarter. */
  predicate Recognised(sc: Scene, env: Env, builtIns: map<Word, Word>, m: Common)
    requires Fits(sc.n)
  {
    && Has(env, 40, U(0)) && Has(env, 67, U(1)) && Has(env, 11, U(2)) && Has(env, 644, U(3)) && Has(env, 699, U(4))
    && Has(env, 606, U(QUARTER)) && Has(env, 819, U(sc.down)) && Has(env, 960, U(sc.row)) && Has(env, 55, F(sc.idle))
    && Has(env, 1144, Us(sc.shift5.Words())) && Has(env, 1259, Us(sc.shift6.Words()))
    && 34 in builtIns && builtIns[34] == 27 && 35 in builtIns && builtIns[35] == 28
    && (forall id :: id in builtIns ==> id < sc.n)
    && m.builtIns == builtIns + Decorated(NewDecorations(sc.n)) && m.decode(QUARTER) == 0.25
  }

  /** Lane `r` of subgroup `s` at the end of the kept code, in the block it comes from. */
  predicate Starts(sc: Scene, env: Env, preTail: Word, lane: Lane, r: nat, s: Word)
    requires Fits(sc.n)
  {
    && lane.env == env + Declared(Declarations(sc.n)) && lane.block == preTail && lane.target.None? && lane.written == []
    && lane.input.index as int == r && lane.input.subgroup == s && Placed(lane.input, sc.x, sc.y)
  }

  lemma OldConstant(env: Env, n: Word, id: Word, v: Value)
    requires Fits(n) && Has(env, id, v) && id < n
    ensures Has(env + Declared(Declarations(n)), id, v)
  {
    hide Declarations, Declared;
    DeclarationsDeclare(n);
  }

  lemma NewConstants(env: Env, n: Word)
    requires Fits(n)
    ensures var all := env + Declared(Declarations(n));
            Has(all, n + 4, U(256)) && Has(all, n + 5, U(264)) && Has(all, n + 6, U(512))
  {
    hide Declarations, Declared;
    DeclarationsDeclare(n);
  }

  lemma StartConstants(sc: Scene, env: Env, builtIns: map<Word, Word>, lane: Lane, m: Common)
    requires sc.Valid() && Recognised(sc, env, builtIns, m) && lane.env == env + Declared(Declarations(sc.n))
    ensures sc.Constants(lane.env)
  {
    hide Declarations, NewDecorations, Declared, Decorated, Has;
    var n := sc.n;
    NewConstants(env, n);
    OldConstant(env, n, 40, U(0));
    OldConstant(env, n, 67, U(1));
    OldConstant(env, n, 11, U(2));
    OldConstant(env, n, 644, U(3));
    OldConstant(env, n, 699, U(4));
    OldConstant(env, n, 606, U(QUARTER));
    OldConstant(env, n, 819, U(sc.down));
    OldConstant(env, n, 960, U(sc.row));
    OldConstant(env, n, 55, F(sc.idle));
    OldConstant(env, n, 1144, Us(sc.shift5.Words()));
    OldConstant(env, n, 1259, Us(sc.shift6.Words()));
  }

  lemma StartBuiltIns(sc: Scene, env: Env, builtIns: map<Word, Word>, m: Common)
    requires sc.Valid() && Recognised(sc, env, builtIns, m)
    ensures BuiltIns(m.builtIns, sc.n) && m.decode(QUARTER) == 0.25
  {
    hide Declarations, NewDecorations, Declared, Decorated, Has;
    DecorationsDecorate(sc.n);
  }

  lemma StartHolds(sc: Scene, env: Env, builtIns: map<Word, Word>, preTail: Word, lane: Lane, r: nat, s: Word, m: Common)
    requires sc.Valid() && Recognised(sc, env, builtIns, m) && Starts(sc, env, preTail, lane, r, s)
    ensures sc.Holds(lane, m) && |lane.input.state| == 4
  {
    hide Declarations, NewDecorations, Declared, Decorated, Recognised, BuiltIns, Scene.Constants;
    StartConstants(sc, env, builtIns, lane, m);
    StartBuiltIns(sc, env, builtIns, m);
  }

  predicate AllStart(sc: Scene, env: Env, builtIns: map<Word, Word>, preTail: Word, lanes: seq<Lane>, s: Word, m: Common)
  {
    && sc.Valid() && preTail < sc.n && |lanes| >= 4 && Recognised(sc, env, builtIns, m)
    && (forall r :: 0 <= r < |lanes| ==> Starts(sc, env, preTail, lanes[r], r, s))
    && (s == 0 ==> sc.InRange(0, m) && sc.InRange(1, m) && sc.InRange(2, m) && sc.InRange(3, m))
  }

  /** A lane of the subgroup, with what can be said of it. */
  lemma LaneStarts(sc: Scene, env: Env, builtIns: map<Word, Word>, preTail: Word, lanes: seq<Lane>, s: Word, m: Common, r: nat)
    requires AllStart(sc, env, builtIns, preTail, lanes, s, m) && r < |lanes|
    ensures sc.Holds(lanes[r], m) && |lanes[r].input.state| == 4 && sc.Valid()
    ensures lanes[r].target.None? && lanes[r].written == [] && lanes[r].block == preTail < sc.n
    ensures lanes[r].input.index as int == r && lanes[r].input.subgroup == s
    ensures Active(lanes[r].input) <==> s == 0 && r < 4
    ensures Active(lanes[r].input) ==> sc.InRange(lanes[r].input.index, m)
  {
    hide Recognised, Scene.InRange, Scene.Holds, Declared, Declarations, Placed;
    assert Starts(sc, env, preTail, lanes[r], r, s);
    StartHolds(sc, env, builtIns, preTail, lanes[r], r, s, m);
  }

  lemma LaneJoins(sc: Scene, preTail: Word, lane: Lane, m: Common) returns (next: Lane)
    requires sc.Holds(lane, m) && Fits(sc.n) && lane.target.None? && lane.written == []
    requires lane.block == preTail < sc.n && (Active(lane.input) ==> sc.InRange(lane.input.index, m))
    ensures Run(First(sc.n, preTail), lane, m) == Some(next) && Joined(sc, lane.input, next, m)
  {
    hide Run, Runs, First, Scene.Holds, Active, Scene.InRange, Joined;
    if Active(lane.input) {
      next := FirstActive(sc, preTail, lane, m);
    } else {
      next := FirstIdle(sc, preTail, lane, m);
    }
    RunsIs(First(sc.n, preTail), lane, next, m);
  }

  lemma FirstHasNoBroadcast(n: Word, preTail: Word)
    requires Fits(n)
    ensures NoBroadcast(First(n, preTail)) && NoBroadcast(Last(n))
  {
    hide Emit, LaneCode, RoleCode, LoadShared, Mip5Code, JoinCode, Mip6Code, CloseCode, ImageWrite;
    PartsHaveNoBroadcast(n, preTail);
    LoadHasNoBroadcast(n, n + 26, n + 4);
    LoadHasNoBroadcast(n, n + 30, 819);
    LoadHasNoBroadcast(n, n + 34, n + 5);
  }

  lemma LoadHasNoBroadcast(n: Word, at: Word, index: Word)
    requires Fits(n) && at + 4 < 0x1_0000_0000
    ensures NoBroadcast(LoadShared(n, at, index))
  {
    hide Emit;
  }

  lemma PartsHaveNoBroadcast(n: Word, preTail: Word)
    requires Fits(n)
    ensures NoBroadcast(LaneCode(n)) && NoBroadcast(RoleCode(n)) && NoBroadcast(Mip5Code(n))
    ensures NoBroadcast(JoinCode(n, preTail)) && NoBroadcast(Mip6Code(n)) && NoBroadcast(CloseCode(n))
    ensures forall a, b, c :: NoBroadcast(ImageWrite(a, b, c))
  {
    hide Emit;
  }

  // ---- What the subgroup writes ----

  /** All lanes reach the broadcasts. */
  lemma SubgroupJoins(sc: Scene, env: Env, builtIns: map<Word, Word>, preTail: Word, lanes: seq<Lane>, s: Word, m: Common)
    returns (joined: seq<Lane>)
    requires AllStart(sc, env, builtIns, preTail, lanes, s, m)
    ensures sc.Valid() && Group(First(sc.n, preTail), lanes, m) == Some(joined) && |joined| == |lanes|
    ensures forall r :: 0 <= r < |lanes| ==>
              Joined(sc, lanes[r].input, joined[r], m)
  {
    hide Run, First, Scene.Holds, Active, Scene.InRange, Joined, AllStart, Group, NoBroadcast;
    LaneStarts(sc, env, builtIns, preTail, lanes, s, m, 0) by {
      SubgroupHasFour(sc, env, builtIns, preTail, lanes, s, m);
    }
    var first := First(sc.n, preTail);
    forall r | 0 <= r < |lanes|
      ensures Run(first, lanes[r], m).Some? && Joined(sc, lanes[r].input, Run(first, lanes[r], m).value, m)
    {
      LaneStarts(sc, env, builtIns, preTail, lanes, s, m, r);
      var next := LaneJoins(sc, preTail, lanes[r], m);
    }
    FirstHasNoBroadcast(sc.n, preTail);
    GroupRuns(first, lanes, m);
    joined := Group(first, lanes, m).value;
  }

  lemma SubgroupHasFour(sc: Scene, env: Env, builtIns: map<Word, Word>, preTail: Word, lanes: seq<Lane>, s: Word, m: Common)
    requires AllStart(sc, env, builtIns, preTail, lanes, s, m)
    ensures |lanes| >= 4 && sc.Valid()
    ensures s == 0 ==> sc.InRange(0, m) && sc.InRange(1, m) && sc.InRange(2, m) && sc.InRange(3, m)
  {
    hide Recognised, Starts, Scene.InRange;
  }

  lemma JoinedAttends(sc: Scene, input: Input, lane: Lane, m: Common)
    requires Fits(sc.n) && Joined(sc, input, lane, m)
    ensures Attends(sc.n, lane) && Has(lane.env, sc.n + 51, F(Brought(sc, input, m)))
  {
    hide BuiltIns, Placed, Knows, Scene.InRange, Brought, Written5;
  }

  lemma HearsAll(sc: Scene, input: Input, lane: Lane, next: Lane, v: seq<real>, m: Common)
    requires Fits(sc.n) && Joined(sc, input, lane, m)
    requires |v| == 4 && Hears(sc.n, lane, next, v)
    ensures Heard4(sc, next, v, m) && next.input == input && next.written == Written5(sc, input, m)
  {
    hide Scene.Holds, Knows, Scene.InRange, Brought, Written5, Active;
    KeepsLess(lane.env, next.env, sc.n + 52, sc.n + 19);
    StillKnows(sc, lane, next, m);
  }

  lemma LaneEnds(sc: Scene, lane: Lane, v: seq<real>, m: Common) returns (next: Lane)
    requires Fits(sc.n) && |v| == 4 && Heard4(sc, lane, v, m)
    ensures Run(Last(sc.n), lane, m) == Some(next)
    ensures next.written == lane.written + (if WritesLast(lane.input) then [Level6(sc, v)] else [])
  {
    hide Run, Runs, Last, Heard4, Level6;
    LastKnows(sc, lane, m, v);
    next := LastRuns(sc, lane, m, v);
    RunsIs(Last(sc.n), lane, next, m);
  }

  /** The values the first four lanes bring to the broadcasts. */
  function Values(sc: Scene, lanes: seq<Lane>, m: Common): (v: seq<real>)
    requires |lanes| >= 4
    ensures |v| == 4
  {
    [Brought(sc, lanes[0].input, m), Brought(sc, lanes[1].input, m), Brought(sc, lanes[2].input, m),
     Brought(sc, lanes[3].input, m)]
  }

  /** Every lane has joined. */
  predicate AllJoined(sc: Scene, lanes: seq<Lane>, joined: seq<Lane>, m: Common)
    requires Fits(sc.n)
  {
    && |joined| == |lanes| >= 4
    && (forall r :: 0 <= r < |lanes| ==> Joined(sc, lanes[r].input, joined[r], m))
  }

  lemma AllAttends(sc: Scene, lanes: seq<Lane>, joined: seq<Lane>, m: Common)
    requires Fits(sc.n) && AllJoined(sc, lanes, joined, m)
    ensures |lanes| >= 4 && AllAttend(sc.n, joined, Values(sc, lanes, m))
  {
    hide Joined, Attends, Brought, Has;
    forall r | 0 <= r < |lanes|
      ensures Attends(sc.n, joined[r]) && Has(joined[r].env, sc.n + 51, F(Brought(sc, lanes[r].input, m)))
    {
      JoinedAttends(sc, lanes[r].input, joined[r], m);
    }
  }

  /** What a lane writes in all. */
  function AllWritten(sc: Scene, input: Input, v: seq<real>, m: Common): seq<Texel>
    requires |v| == 4
  {
    Written5(sc, input, m) + if WritesLast(input) then [Level6(sc, v)] else []
  }

  lemma LaneHears(sc: Scene, input: Input, lane: Lane, heard: Lane, v: seq<real>, m: Common) returns (next: Lane)
    requires Fits(sc.n) && Joined(sc, input, lane, m) && |v| == 4 && Hears(sc.n, lane, heard, v)
    ensures Run(Last(sc.n), heard, m) == Some(next) && next.written == AllWritten(sc, input, v, m)
  {
    hide Run, Last, Joined, Hears, Heard4, Level6, Written5, WritesLast;
    HearsAll(sc, input, lane, heard, v, m);
    next := LaneEnds(sc, heard, v, m);
  }

  /** From the broadcasts on. */
  lemma SubgroupEnds(sc: Scene, lanes: seq<Lane>, joined: seq<Lane>, m: Common) returns (after: seq<Lane>)
    requires Fits(sc.n) && AllJoined(sc, lanes, joined, m)
    ensures |after| == |lanes| >= 4
    ensures forall r :: 0 <= r < |lanes| ==>
              after[r].written == AllWritten(sc, lanes[r].input, Values(sc, lanes, m), m)
    ensures Group(Broadcasts(sc.n) + Last(sc.n), joined, m) == Some(after)
  {
    hide Run, Last, Joined, Group, NoBroadcast, Broadcasts, Hears, Attends, AllWritten, Values, AllAttend;
    AllAttends(sc, lanes, joined, m);
    var n, v := sc.n, Values(sc, lanes, m);
    var heard := BroadcastsRun(n, joined, m, v);
    forall r | 0 <= r < |lanes|
      ensures Run(Last(n), heard[r], m).Some?
      ensures Run(Last(n), heard[r], m).value.written == AllWritten(sc, lanes[r].input, v, m)
    {
      var next := LaneHears(sc, lanes[r].input, joined[r], heard[r], v, m);
    }
    FirstHasNoBroadcast(n, 0);
    GroupRuns(Last(n), heard, m);
    after := Group(Last(n), heard, m).value;
    GroupAppend(Broadcasts(n), Last(n), joined, m);
  }

  lemma TailParts(n: Word, preTail: Word)
    requires Fits(n)
    ensures Tail(n, preTail) == First(n, preTail) + (Broadcasts(n) + Last(n))
  {
    hide TailHead, ImageWrite, JoinCode, Broadcasts, Mip6Code, CloseCode;
  }

  /** Every lane ends, and what it wrote follows from its input and the values of the first four. */
  lemma SubgroupRuns(sc: Scene, env: Env, builtIns: map<Word, Word>, preTail: Word, lanes: seq<Lane>, s: Word, m: Common)
    returns (after: seq<Lane>)
    requires AllStart(sc, env, builtIns, preTail, lanes, s, m)
    ensures Fits(sc.n) && |after| == |lanes| >= 4
    ensures forall r :: 0 <= r < |lanes| ==>
              after[r].written == AllWritten(sc, lanes[r].input, Values(sc, lanes, m), m)
    ensures Group(Tail(sc.n, preTail), lanes, m) == Some(after)
  {
    hide Joined, Group, First, Broadcasts, Last, Tail, AllWritten, Values, AllStart;
    SubgroupHasFour(sc, env, builtIns, preTail, lanes, s, m);
    var joined := SubgroupJoins(sc, env, builtIns, preTail, lanes, s, m);
    after := SubgroupEnds(sc, lanes, joined, m);
    TailParts(sc.n, preTail);
    GroupAppend(First(sc.n, preTail), Broadcasts(sc.n) + Last(sc.n), lanes, m);
  }

  /** A quarter of what a lane carried and of the three elements of its square. */
  function SquareMean(sc: Scene, input: Input, m: Common): real {
    var base := ((input.index % 2) * 512 + (input.index / 2) * sc.row) % 0x1_0000_0000;
    (Carried(input) + m.decode(Cell(m.memory, (base + 256) % 0x1_0000_0000))
     + m.decode(Cell(m.memory, (base + sc.down) % 0x1_0000_0000)) + m.decode(Cell(m.memory, (base + 264) % 0x1_0000_0000))) / 4.0
  }

  /** A texel all of whose numbers are `x`. */
  function Gray(image: Word, column: Word, row: Word, x: real): Texel { Texel(image, [column, row], [x, x, x, x]) }

  /** The mean of a lane's square, in image 30, at the shifted start of the workgroup or the texel beside, below or diagonal to it. */
  function SquareTexel(sc: Scene, input: Input, m: Common): Texel {
    Gray(30, (Shifted(sc.x, sc.shift5.a) + input.index % 2) % 0x1_0000_0000,
         (Shifted(sc.y, sc.shift5.b) + input.index / 2) % 0x1_0000_0000, SquareMean(sc, input, m))
  }

  /** The mean of four numbers, in image 31, at the shifted start of the workgroup. */
  function MeanTexel(sc: Scene, a: real, b: real, c: real, d: real): Texel {
    Gray(31, Shifted(sc.x, sc.shift6.a), Shifted(sc.y, sc.shift6.b), (a + b + c + d) / 4.0)
  }

  /**
    What lane `r` of subgroup `s` writes. The first four lanes of the first subgroup write the mean of
    their square; the first of them also writes the mean of the four. No other lane writes anything.
  */
  function Expected(sc: Scene, lanes: seq<Lane>, r: nat, s: Word, m: Common): seq<Texel>
    requires r < |lanes| && 4 <= |lanes|
  {
    if s != 0 || r >= 4 then []
    else
      [SquareTexel(sc, lanes[r].input, m)]
      + if r > 0 then []
        else [MeanTexel(sc, SquareMean(sc, lanes[0].input, m), SquareMean(sc, lanes[1].input, m),
                        SquareMean(sc, lanes[2].input, m), SquareMean(sc, lanes[3].input, m))]
  }

  lemma Level5Is(sc: Scene, input: Input, m: Common)
    ensures Level5(sc, input, m) == SquareTexel(sc, input, m)
    ensures sc.Mean5(input, m) == SquareMean(sc, input, m)
  {
    hide Shifted, Cell;
  }

  lemma Level6Is(sc: Scene, a: real, b: real, c: real, d: real)
    ensures Level6(sc, [a, b, c, d]) == MeanTexel(sc, a, b, c, d)
  {
    hide Shifted;
  }

  lemma WrittenIs(sc: Scene, env: Env, builtIns: map<Word, Word>, preTail: Word, lanes: seq<Lane>, s: Word, m: Common, r: nat)
    requires AllStart(sc, env, builtIns, preTail, lanes, s, m) && r < |lanes| && |lanes| >= 4
    ensures AllWritten(sc, lanes[r].input, Values(sc, lanes, m), m) == Expected(sc, lanes, r, s, m)
  {
    hide AllStart, Level5, Level6, SquareTexel, MeanTexel, SquareMean, Scene.Mean5, Scene.InRange, Scene.Holds;
    LaneStarts(sc, env, builtIns, preTail, lanes, s, m, r);
    if s == 0 && r < 4 {
      Level5Is(sc, lanes[r].input, m);
      if r == 0 {
        ValuesAre(sc, env, builtIns, preTail, lanes, m);
        Level6Is(sc, SquareMean(sc, lanes[0].input, m), SquareMean(sc, lanes[1].input, m),
                 SquareMean(sc, lanes[2].input, m), SquareMean(sc, lanes[3].input, m));
      }
    }
  }

  lemma ValuesAre(sc: Scene, env: Env, builtIns: map<Word, Word>, preTail: Word, lanes: seq<Lane>, m: Common)
    requires AllStart(sc, env, builtIns, preTail, lanes, 0, m) && |lanes| >= 4
    ensures Values(sc, lanes, m)
            == [SquareMean(sc, lanes[0].input, m), SquareMean(sc, lanes[1].input, m),
                SquareMean(sc, lanes[2].input, m), SquareMean(sc, lanes[3].input, m)]
  {
    hide AllStart, SquareMean, Scene.Mean5, Scene.InRange, Scene.Holds, Level5;
    forall r | 0 <= r < 4
      ensures Brought(sc, lanes[r].input, m) == SquareMean(sc, lanes[r].input, m)
    {
      LaneStarts(sc, env, builtIns, preTail, lanes, 0, m, r);
      Level5Is(sc, lanes[r].input, m);
    }
  }

  /** The fused tail, run by any subgroup, writes exactly this. */
  lemma TailWrites(sc: Scene, env: Env, builtIns: map<Word, Word>, preTail: Word, lanes: seq<Lane>, s: Word, m: Common)
    returns (after: seq<Lane>)
    requires AllStart(sc, env, builtIns, preTail, lanes, s, m)
    ensures |after| == |lanes| >= 4
    ensures forall r :: 0 <= r < |lanes| ==> after[r].written == Expected(sc, lanes, r, s, m)
    ensures Fits(sc.n) && Group(Tail(sc.n, preTail), lanes, m) == Some(after)
  {
    hide AllStart, Group, Tail, Expected, AllWritten, Values;
    after := SubgroupRuns(sc, env, builtIns, preTail, lanes, s, m);
    forall r | 0 <= r < |lanes|
      ensures after[r].written == Expected(sc, lanes, r, s, m)
    {
      WrittenIs(sc, env, builtIns, preTail, lanes, s, m, r);
    }
  }

  // ---- There are such subgroups ----

  function ModuleConstants(sc: Scene): Env {
    map[40 := U(0), 67 := U(1), 11 := U(2), 644 := U(3), 699 := U(4), 606 := U(QUARTER), 819 := U(sc.down),
        960 := U(sc.row), 55 := F(sc.idle), 1144 := Us(sc.shift5.Words()), 1259 := Us(sc.shift6.Words())]
  }

  function StartOf(sc: Scene, preTail: Word, input: Input): Lane
    requires Fits(sc.n)
  {
    Lane(input, ModuleConstants(sc) + Declared(Declarations(sc.n)), preTail, 0, None, [])
  }

  /** Any inputs of a workgroup start such a subgroup, when the memory holds the squares of the first four lanes. */
  lemma SubgroupStarts(sc: Scene, preTail: Word, inputs: seq<Input>, s: Word, m: Common) returns (lanes: seq<Lane>)
    requires sc.Valid() && preTail < sc.n && |inputs| >= 4 && m.decode(QUARTER) == 0.25
    requires m.builtIns == map[34 := 27, 35 := 28] + Decorated(NewDecorations(sc.n))
    requires forall r :: 0 <= r < |inputs| ==>
               inputs[r].index as int == r && inputs[r].subgroup == s && Placed(inputs[r], sc.x, sc.y)
    requires s == 0 ==> sc.InRange(0, m) && sc.InRange(1, m) && sc.InRange(2, m) && sc.InRange(3, m)
    ensures |lanes| == |inputs| && forall r :: 0 <= r < |lanes| ==> lanes[r].input == inputs[r]
    ensures AllStart(sc, ModuleConstants(sc), map[34 := 27, 35 := 28], preTail, lanes, s, m)
  {
    hide Declared, Decorated, Declarations, NewDecorations, Placed, Scene.InRange, Recognised, ModuleConstants;
    lanes := seq(|inputs|, r requires 0 <= r < |inputs| => StartOf(sc, preTail, inputs[r]));
    ConstantsRecognised(sc, m);
  }

  lemma ConstantsRecognised(sc: Scene, m: Common)
    requires sc.Valid() && m.decode(QUARTER) == 0.25
    requires m.builtIns == map[34 := 27, 35 := 28] + Decorated(NewDecorations(sc.n))
    ensures Recognised(sc, ModuleConstants(sc), map[34 := 27, 35 := 28], m)
  {
    hide Decorated, NewDecorations;
  }
}
