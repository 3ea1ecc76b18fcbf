/**
 Instruction encoding (`src/vm/chunk.rs`): one opcode byte, then operands of a
 width fixed by the opcode; two-byte operands are little-endian. Opcodes the
 modelled expressions never emit are left out, so their bytes do not decode.
 */
module Bytecode {
  import opened Values
  import Patterns

  type byte = x: int | 0 <= x < 256

  type word = x: int | 0 <= x < 65536

  /** The casts `as u8` and `as u16`. */
  function AsByte(n: nat): byte { n % 256 }

  function AsWord(n: nat): word { n % 65536 }

  function LowByte(w: word): byte { w % 256 }

  function HighByte(w: word): byte { w / 256 }

  datatype OpCode =
    | PushNil | PushTrue | PushFalse | Pop | Dup | Negate | LogicalNot
    | Strict(op: BinOp)
    | ReturnTop | PopLoop
    | Const | LoadLocal | StoreLocal | LoadGlobal | DefineGlobal
    | PopN | PopLocalKeep | AssignLocal | AssignGlobal | Match
    | Jump | JumpIfFalse | JumpIfTrue | Loop
    | PushLoop

  /** How many operand bytes follow the opcode. */
  function OperandBytes(op: OpCode): nat {
    match op
    case Const | LoadLocal | StoreLocal | LoadGlobal | DefineGlobal
       | PopN | PopLocalKeep | AssignLocal | AssignGlobal | Match => 1
    case Jump | JumpIfFalse | JumpIfTrue | Loop => 2
    case PushLoop => 4
    case _ => 0
  }

  function StrictByte(op: BinOp): byte {
    match op
    case Add => 21
    case Sub => 22
    case Mul => 23
    case Div => 24
    case Mod => 25
    case Eq => 28
    case Neq => 29
    case Lt => 30
    case Gt => 31
    case Lte => 32
    case Gte => 33
    case And => 255
    case Or => 255
  }

  function OpByte(op: OpCode): byte {
    match op
    case PushNil => 0
    case PushTrue => 1
    case PushFalse => 2
    case Const => 3
    case LoadLocal => 4
    case StoreLocal => 5
    case LoadGlobal => 8
    case DefineGlobal => 10
    case Pop => 14
    case PopN => 15
    case PopLocalKeep => 16
    case Dup => 17
    case Strict(b) => StrictByte(b)
    case Negate => 26
    case LogicalNot => 27
    case Jump => 34
    case JumpIfFalse => 35
    case JumpIfTrue => 36
    case Loop => 37
    case ReturnTop => 43
    case AssignLocal => 44
    case AssignGlobal => 46
    case Match => 51
    case PushLoop => 76
    case PopLoop => 77
  }

  function OpOf(b: byte): Option<OpCode> {
    match b
    case 0 => Some(PushNil)
    case 1 => Some(PushTrue)
    case 2 => Some(PushFalse)
    case 3 => Some(Const)
    case 4 => Some(LoadLocal)
    case 5 => Some(StoreLocal)
    case 8 => Some(LoadGlobal)
    case 10 => Some(DefineGlobal)
    case 14 => Some(Pop)
    case 15 => Some(PopN)
    case 16 => Some(PopLocalKeep)
    case 17 => Some(Dup)
    case 21 => Some(Strict(Add))
    case 22 => Some(Strict(Sub))
    case 23 => Some(Strict(Mul))
    case 24 => Some(Strict(Div))
    case 25 => Some(Strict(Mod))
    case 26 => Some(Negate)
    case 27 => Some(LogicalNot)
    case 28 => Some(Strict(Eq))
    case 29 => Some(Strict(Neq))
    case 30 => Some(Strict(Lt))
    case 31 => Some(Strict(Gt))
    case 32 => Some(Strict(Lte))
    case 33 => Some(Strict(Gte))
    case 34 => Some(Jump)
    case 35 => Some(JumpIfFalse)
    case 36 => Some(JumpIfTrue)
    case 37 => Some(Loop)
    case 43 => Some(ReturnTop)
    case 44 => Some(AssignLocal)
    case 46 => Some(AssignGlobal)
    case 51 => Some(Match)
    case 76 => Some(PushLoop)
    case 77 => Some(PopLoop)
    case _ => None
  }

  /** `and` and `or` have no opcode of their own. */
  predicate HasOpcode(op: OpCode) {
    op.Strict? ==> op.op !in {And, Or}
  }

  /** Declared one after the other, and so numbered. */
  predicate Follows(a: OpCode, b: OpCode) {
    OpByte(b) as int == OpByte(a) as int + 1
  }

  /** Opcodes are numbered in the order of their declaration, those left out included. */
  lemma NumberedAsDeclared()
    ensures OpByte(PushNil) == 0 && Follows(PushNil, PushTrue) && Follows(PushTrue, PushFalse)
    ensures Follows(PushFalse, Const) && Follows(Const, LoadLocal) && Follows(LoadLocal, StoreLocal)
    ensures OpByte(LoadGlobal) == 8 && OpByte(DefineGlobal) == 10
    ensures OpByte(Pop) == 14 && Follows(Pop, PopN) && Follows(PopN, PopLocalKeep) && Follows(PopLocalKeep, Dup)
    ensures OpByte(Strict(Add)) == 21 && Follows(Strict(Add), Strict(Sub)) && Follows(Strict(Sub), Strict(Mul))
    ensures Follows(Strict(Mul), Strict(Div)) && Follows(Strict(Div), Strict(Mod)) && Follows(Strict(Mod), Negate)
    ensures Follows(Negate, LogicalNot) && Follows(LogicalNot, Strict(Eq)) && Follows(Strict(Eq), Strict(Neq))
    ensures Follows(Strict(Neq), Strict(Lt)) && Follows(Strict(Lt), Strict(Gt)) && Follows(Strict(Gt), Strict(Lte))
    ensures Follows(Strict(Lte), Strict(Gte)) && Follows(Strict(Gte), Jump)
    ensures Follows(Jump, JumpIfFalse) && Follows(JumpIfFalse, JumpIfTrue) && Follows(JumpIfTrue, Loop)
    ensures OpByte(ReturnTop) == 43 && Follows(ReturnTop, AssignLocal) && OpByte(AssignGlobal) == 46
    ensures OpByte(Match) == 51 && OpByte(PushLoop) == 76 && Follows(PushLoop, PopLoop)
  {
  }

  /** The constants and the patterns that instructions refer to by index. */
  datatype Pool = Pool(values: seq<Value>, patterns: seq<Patterns.Pattern>)

  const EMPTY := Pool([], [])

  // ----- instructions -----

  /** An opcode with the value of its operands; those it does not have are 0. */
  datatype Instr = Instr(op: OpCode, a: word, b: word)

  predicate WellFormed(i: Instr) {
    && HasOpcode(i.op)
    && (OperandBytes(i.op) == 0 ==> i.a == 0)
    && (OperandBytes(i.op) == 1 ==> i.a < 256)
    && (OperandBytes(i.op) < 4 ==> i.b == 0)
  }

  function WordBytes(w: word): seq<byte> {
    [LowByte(w), HighByte(w)]
  }

  function Encode(i: Instr): (bytes: seq<byte>)
    ensures |bytes| == 1 + OperandBytes(i.op)
  {
    var n := OperandBytes(i.op);
    [OpByte(i.op)] +
    (if n == 0 then [] else if n == 1 then [AsByte(i.a)]
     else if n == 2 then WordBytes(i.a) else WordBytes(i.a) + WordBytes(i.b))
  }

  function ReadWord(code: seq<byte>, ip: nat): word
    requires ip + 1 < |code|
  {
    code[ip] as int + 256 * (code[ip + 1] as int)
  }

  /** The instruction at `ip` and the address after it. */
  function Decode(code: seq<byte>, ip: nat): Option<(Instr, nat)> {
    if ip >= |code| then None
    else
      match OpOf(code[ip])
      case None => None
      case Some(op) =>
        var n := OperandBytes(op);
        if ip + 1 + n > |code| then None
        else if n == 0 then Some((Instr(op, 0, 0), ip + 1))
        else if n == 1 then Some((Instr(op, code[ip + 1], 0), ip + 2))
        else if n == 2 then Some((Instr(op, ReadWord(code, ip + 1), 0), ip + 3))
        else Some((Instr(op, ReadWord(code, ip + 1), ReadWord(code, ip + 3)), ip + 5))
  }

  // ----- code found at an address -----

  predicate At(code: seq<byte>, pc: nat, bytes: seq<byte>) {
    pc + |bytes| <= |code| && code[pc..pc + |bytes|] == bytes
  }

  lemma AtConcat(code: seq<byte>, pc: nat, a: seq<byte>, b: seq<byte>)
    ensures At(code, pc, a + b) <==> At(code, pc, a) && At(code, pc + |a|, b)
  {
    var n, k := |a|, |b|;
    if pc + n + k <= |code| {
      assert code[pc..pc + n + k] == code[pc..pc + n] + code[pc + n..pc + n + k];
    }
    if At(code, pc, a + b) {
      assert a == (a + b)[..n] == code[pc..pc + n];
      assert b == (a + b)[n..] == code[pc + n..pc + n + k];
    }
  }

  lemma OpRoundTrip(op: OpCode)
    requires HasOpcode(op)
    ensures OpOf(OpByte(op)) == Some(op)
  {
  }

  lemma WordRoundTrip(w: word)
    ensures LowByte(w) as int + 256 * (HighByte(w) as int) == w
  {
  }

  /** The bytes found at an address, one by one. */
  lemma BytesAt(code: seq<byte>, pc: nat, bytes: seq<byte>)
    requires At(code, pc, bytes)
    ensures pc + |bytes| <= |code|
    ensures forall k :: 0 <= k < |bytes| ==> code[pc + k] == bytes[k]
  {
    forall k | 0 <= k < |bytes|
      ensures code[pc + k] == bytes[k]
    {
      assert code[pc..pc + |bytes|][k] == bytes[k];
    }
  }

  /** What `Encode` writes after the opcode. */
  lemma OperandsEncoded(i: Instr)
    requires WellFormed(i)
    ensures var bytes, n := Encode(i), OperandBytes(i.op);
            && bytes[0] == OpByte(i.op)
            && (n == 1 ==> bytes[1] == i.a)
            && (n == 2 || n == 4 ==> bytes[1] as int + 256 * (bytes[2] as int) == i.a)
            && (n == 4 ==> bytes[3] as int + 256 * (bytes[4] as int) == i.b)
    ensures OperandBytes(i.op) in {0, 1, 2, 4}
  {
    WordRoundTrip(i.a);
    WordRoundTrip(i.b);
    hide OpByte, HasOpcode, LowByte, HighByte;
  }

  /** What the compiler writes is what the machine reads back. */
  lemma DecodeEncode(code: seq<byte>, pc: nat, i: Instr)
    requires WellFormed(i) && At(code, pc, Encode(i))
    ensures Decode(code, pc) == Some((i, pc + |Encode(i)|))
  {
    OpRoundTrip(i.op);
    OperandsEncoded(i);
    BytesAt(code, pc, Encode(i));
    hide OpOf, OpByte, Encode, At, LowByte, HighByte, HasOpcode;
    assert code[pc + 0] == OpByte(i.op);
    var n := OperandBytes(i.op);
    if n >= 1 {
      assert code[pc + 1] == Encode(i)[1];
    }
    if n >= 2 {
      assert code[pc + 2] == Encode(i)[2];
    }
    if n == 4 {
      assert code[pc + 3] == Encode(i)[3] && code[pc + 4] == Encode(i)[4];
    }
  }
}
