/**
  The physical layout of a SPIR-V module: a byte string read as little-endian words, five header
  words, and a stream of instructions whose first word packs the word count over the opcode
  (section 2.3 of the SPIR-V specification).
*/
module SpirvStream {
  import opened BitMasks
  import opened Options

  type Byte = b: int | 0 <= b < 256

  const MAGIC: Word := 0x07230203
  const HEADER_WORDS := 5
  const BOUND_WORD := 3

  const OP_CAPABILITY := 17
  const OP_ENTRY_POINT := 15
  const OP_EXECUTION_MODE := 16
  const OP_TYPE_VOID := 19
  const OP_TYPE_POINTER := 32
  const OP_CONSTANT := 43
  const OP_FUNCTION := 54
  const OP_VARIABLE := 59
  const OP_LOAD := 61
  const OP_STORE := 62
  const OP_ACCESS_CHAIN := 65
  const OP_IN_BOUNDS_ACCESS_CHAIN := 66
  const OP_DECORATE := 71
  const OP_VECTOR_SHUFFLE := 79
  const OP_COMPOSITE_CONSTRUCT := 80
  const OP_COMPOSITE_EXTRACT := 81
  const OP_IMAGE_WRITE := 99
  const OP_BITCAST := 124
  const OP_I_ADD := 128
  const OP_F_ADD := 129
  const OP_I_SUB := 130
  const OP_I_MUL := 132
  const OP_F_MUL := 133
  const OP_U_MOD := 137
  const OP_LOGICAL_AND := 167
  const OP_I_EQUAL := 170
  const OP_U_LESS_THAN := 176
  const OP_SHIFT_RIGHT_LOGICAL := 194
  const OP_BITWISE_OR := 197
  const OP_BITWISE_AND := 199
  const OP_CONTROL_BARRIER := 224
  const OP_PHI := 245
  const OP_LOOP_MERGE := 246
  const OP_SELECTION_MERGE := 247
  const OP_LABEL := 248
  const OP_BRANCH := 249
  const OP_BRANCH_CONDITIONAL := 250
  const OP_SWITCH := 251
  const OP_RETURN := 253
  const OP_GROUP_NON_UNIFORM_BROADCAST := 337

  function CountOf(first: Word): (n: nat)
    ensures n < 0x1_0000
  {
    first / 0x1_0000
  }

  function OpOf(first: Word): (op: nat)
    ensures op < 0x1_0000
  {
    first % 0x1_0000
  }

  function Pack(count: nat, op: nat): (first: Word)
    requires count < 0x1_0000 && op < 0x1_0000
    ensures CountOf(first) == count && OpOf(first) == op
  {
    count * 0x1_0000 + op
  }

  /** An instruction as its words; `WellSized` when the packed count is the real one. */
  type Instr = seq<Word>

  predicate WellSized(i: Instr) { |i| > 0 && CountOf(i[0]) == |i| }

  predicate AllWellSized(code: seq<Instr>) { forall k :: 0 <= k < |code| ==> WellSized(code[k]) }

  function Op(i: Instr): nat
    requires |i| > 0
  {
    OpOf(i[0])
  }

  /** The instruction `emit` appends for an opcode and its operands. */
  function Emit(op: nat, operands: seq<Word>): (i: Instr)
    requires op < 0x1_0000 && |operands| + 1 < 0x1_0000
    ensures WellSized(i) && Op(i) == op && i[1..] == operands
  {
    [Pack(|operands| + 1, op)] + operands
  }

  function Flatten(code: seq<Instr>): seq<Word> {
    if code == [] then [] else code[0] + Flatten(code[1..])
  }

  /** Cut a word stream into instructions; none when a count is zero or runs past the end. */
  function Tile(words: seq<Word>): (code: Option<seq<Instr>>)
    ensures code.Some? ==> AllWellSized(code.value)
  {
    if words == [] then Some([])
    else
      var n := CountOf(words[0]);
      if n == 0 || n > |words| then None
      else
        match Tile(words[n..])
        case None => None
        case Some(rest) =>
          assert WellSized(words[..n]);
          Some([words[..n]] + rest)
  }

  /** Whatever was written instruction by instruction is read back as the same instructions. */
  lemma {:induction false} TileFlatten(code: seq<Instr>)
    requires AllWellSized(code)
    ensures Tile(Flatten(code)) == Some(code)
  {
    if code != [] {
      assert WellSized(code[0]);
      TileFlatten(code[1..]);
      var n := |code[0]|;
      assert Flatten(code)[..n] == code[0];
      assert Flatten(code)[n..] == Flatten(code[1..]);
      assert [code[0]] + code[1..] == code;
    }
  }

  /** Reading tiles the stream exactly: no word is lost, added or moved. */
  lemma {:induction false} FlattenTile(words: seq<Word>)
    requires Tile(words).Some?
    ensures Flatten(Tile(words).value) == words
  {
    if words != [] {
      var n := CountOf(words[0]);
      FlattenTile(words[n..]);
      assert words == words[..n] + words[n..];
    }
  }

  lemma {:induction false} FlattenAppend(a: seq<Instr>, b: seq<Instr>)
    ensures Flatten(a + b) == Flatten(a) + Flatten(b)
  {
    if a == [] {
      assert a + b == b;
    } else {
      assert (a + b)[1..] == a[1..] + b;
      FlattenAppend(a[1..], b);
    }
  }

  // ---- Instructions with an opcode ----

  function CountOp(code: seq<Instr>, op: nat): nat
    requires AllWellSized(code)
  {
    if code == [] then 0
    else assert WellSized(code[0]); (if Op(code[0]) == op then 1 else 0) + CountOp(code[1..], op)
  }

  lemma {:induction false} CountAppend(a: seq<Instr>, b: seq<Instr>, op: nat)
    requires AllWellSized(a) && AllWellSized(b)
    ensures CountOp(a + b, op) == CountOp(a, op) + CountOp(b, op)
  {
    if a == [] {
      assert a + b == b;
    } else {
      assert (a + b)[1..] == a[1..] + b;
      CountAppend(a[1..], b, op);
    }
  }

  predicate Without(code: seq<Instr>, op: nat)
    requires AllWellSized(code)
  {
    forall k :: 0 <= k < |code| ==> WellSized(code[k]) && Op(code[k]) != op
  }

  lemma {:induction false} CountNone(code: seq<Instr>, op: nat)
    requires AllWellSized(code) && Without(code, op)
    ensures CountOp(code, op) == 0
  {
    if code != [] {
      CountNone(code[1..], op);
    }
  }

  lemma CountOne(i: Instr, op: nat)
    requires WellSized(i)
    ensures CountOp([i], op) == if Op(i) == op then 1 else 0
  {
    assert [i][1..] == [];
  }

  // ---- Bytes ----

  /** Byte `k` of a word, least significant first. */
  function ByteOf(w: nat, k: nat): (b: Byte)
    requires k < 4
  {
    if k == 0 then w % 256 else ByteOf(w / 256, k - 1)
  }

  function Join(b0: Byte, b1: Byte, b2: Byte, b3: Byte): Word {
    b0 + 256 * (b1 + 256 * (b2 + 256 * b3))
  }

  lemma Peel(b: Byte, rest: nat)
    ensures (b + 256 * rest) % 256 == b && (b + 256 * rest) / 256 == rest
  {
  }

  lemma BytesOfJoin(b0: Byte, b1: Byte, b2: Byte, b3: Byte, k: nat)
    requires k < 4
    ensures ByteOf(Join(b0, b1, b2, b3), k) == [b0, b1, b2, b3][k]
  {
    var t3: nat := b3;
    var t2: nat := b2 + 256 * t3;
    var t1: nat := b1 + 256 * t2;
    Peel(b0, t1);
    Peel(b1, t2);
    Peel(b2, t3);
    if k > 0 {
      assert ByteOf(Join(b0, b1, b2, b3), k) == ByteOf(t1, k - 1);
      if k > 1 {
        assert ByteOf(t1, k - 1) == ByteOf(t2, k - 2);
        if k > 2 {
          assert ByteOf(t2, k - 2) == ByteOf(t3, 0);
        }
      }
    }
  }

  lemma JoinOfBytes(w: Word)
    ensures Join(ByteOf(w, 0), ByteOf(w, 1), ByteOf(w, 2), ByteOf(w, 3)) == w
  {
    var u: nat := w / 256;
    var v: nat := u / 256;
    Unpeel(w);
    Unpeel(u);
    Unpeel(v);
    assert v / 256 < 256;
    assert ByteOf(w, 1) == ByteOf(u, 0);
    assert ByteOf(w, 2) == ByteOf(u, 1) == ByteOf(v, 0);
    assert ByteOf(w, 3) == ByteOf(u, 2) == ByteOf(v, 1) == v / 256;
  }

  lemma Unpeel(w: nat)
    ensures w == w % 256 + 256 * (w / 256)
  {
  }

  /** The word a four-byte copy at word index `k` yields. */
  function ReadWord(code: seq<Byte>, k: nat): Word
    requires 4 * k + 4 <= |code|
  {
    Join(code[4 * k], code[4 * k + 1], code[4 * k + 2], code[4 * k + 3])
  }

  function Words(code: seq<Byte>): (words: seq<Word>)
    ensures |words| == |code| / 4
    ensures forall k :: 0 <= k < |words| ==> words[k] == ReadWord(code, k)
  {
    seq(|code| / 4, k requires 0 <= k < |code| / 4 => ReadWord(code, k))
  }

  function Bytes(words: seq<Word>): (code: seq<Byte>)
    ensures |code| == 4 * |words|
  {
    seq(4 * |words|, k requires 0 <= k < 4 * |words| => ByteOf(words[k / 4], k % 4))
  }

  lemma WordsBytes(words: seq<Word>)
    ensures Words(Bytes(words)) == words
  {
    forall k | 0 <= k < |words|
      ensures Words(Bytes(words))[k] == words[k]
    {
      JoinOfBytes(words[k]);
      assert forall d :: 0 <= d < 4 ==> Bytes(words)[4 * k + d] == ByteOf(words[k], d);
    }
  }

  lemma BytesWords(code: seq<Byte>)
    requires |code| % 4 == 0
    ensures Bytes(Words(code)) == code
  {
    forall k | 0 <= k < |code|
      ensures Bytes(Words(code))[k] == code[k]
    {
      var q := k / 4;
      BytesOfJoin(code[4 * q], code[4 * q + 1], code[4 * q + 2], code[4 * q + 3], k % 4);
    }
  }

  /** The buffer a rewriter is handed and may overwrite. */
  class Bytecode {
    var bytes: seq<Byte>

    constructor (bytes: seq<Byte>)
      ensures this.bytes == bytes
    {
      this.bytes := bytes;
    }
  }

  lemma FlattenNone()
    ensures Flatten([]) == []
  {
  }

  lemma FlattenOne(i: Instr)
    ensures Flatten([i]) == i
  {
    assert [i][1..] == [];
  }

  lemma InstrAt(words: seq<Word>, cursor: nat, n: nat, d: nat)
    requires cursor + n <= |words| && d < n
    ensures words[cursor..cursor + n][d] == words[cursor + d]
  {
  }

  /** Reading one instruction off a stream that goes on. */
  lemma TileStep(words: seq<Word>, cursor: nat)
    requires cursor < |words|
    ensures var n := CountOf(words[cursor]);
            if n == 0 || cursor + n > |words| then Tile(words[cursor..]).None?
            else
              && WellSized(words[cursor..cursor + n])
              && (Tile(words[cursor..]).Some? <==> Tile(words[cursor + n..]).Some?)
              && (Tile(words[cursor..]).Some? ==>
                    Tile(words[cursor..]).value
                    == [words[cursor..cursor + n]] + Tile(words[cursor + n..]).value)
  {
    var n := CountOf(words[cursor]);
    if n != 0 && cursor + n <= |words| {
      assert words[cursor..][..n] == words[cursor..cursor + n];
      assert words[cursor..][n..] == words[cursor + n..];
    }
  }
}
