/**
 * The bytecode instruction set: one-byte opcodes, the table that gives each
 * opcode its display name and whether a 16-bit operand follows it, and the
 * big-endian operand encoding.
 *
 * Every opcode block in the source is a Go `const` block driven by `iota`,
 * which counts the constant's position inside its block. The values below are
 * written as `position + offset` so that the arithmetic stays visible: in the
 * operator block `iota` is already 3 when `BinaryAdd` restarts the offset at
 * 25, so the binary operators run from 28 to 44, not from 25.
 */
module Bytecode {
  import opened Common

  // 0-9: stack operations
  const Pop: Byte := 0
  const Dup: Byte := 1
  const Rot: Byte := 2

  // 10-19: load/store
  const LoadConst: Byte := 0 + 10
  const LoadName: Byte := 1 + 10
  const StoreName: Byte := 2 + 10
  const LoadField: Byte := 3 + 10
  const StoreField: Byte := 4 + 10

  // operators: a single const block, so iota keeps counting across the
  // unary and the binary group
  const UnaryInvert: Byte := 0 + 20
  const UnaryNegate: Byte := 1 + 20
  const UnaryNoOp: Byte := 2 + 20
  const BinaryAdd: Byte := 3 + 25
  const BinarySubtract: Byte := 4 + 25
  const BinaryMultiply: Byte := 5 + 25
  const BinaryDivide: Byte := 6 + 25
  const BinaryExponent: Byte := 7 + 25
  const BinaryFloorDiv: Byte := 8 + 25
  const BinaryMod: Byte := 9 + 25
  const BinaryOr: Byte := 10 + 25
  const BinaryAnd: Byte := 11 + 25
  const BinaryBitOr: Byte := 12 + 25
  const BinaryBitAnd: Byte := 13 + 25
  const BinaryEquals: Byte := 14 + 25
  const BinaryNotEqual: Byte := 15 + 25
  const BinaryLessThan: Byte := 16 + 25
  const BinaryMoreThan: Byte := 17 + 25
  const BinaryLessEq: Byte := 18 + 25
  const BinaryMoreEq: Byte := 19 + 25

  // 50-59: functions and blocks
  const PushFn: Byte := 0 + 50
  const PushQualFn: Byte := 1 + 50
  const CallFn: Byte := 2 + 50
  const Return: Byte := 3 + 50
  const DoBlock: Byte := 4 + 50

  // 60-89: built-in printing
  const Print: Byte := 0 + 60
  const Println: Byte := 1 + 60

  // 90-99: control flow
  const Jump: Byte := 0 + 90
  const JumpIfTrue: Byte := 1 + 90
  const JumpIfFalse: Byte := 2 + 90
  const Break: Byte := 3 + 90
  const Next: Byte := 4 + 90
  const LoopStart: Byte := 5 + 90
  const LoopEnd: Byte := 6 + 90

  // 100-109: data constructors
  const MakeArray: Byte := 0 + 100
  const MakeTuple: Byte := 1 + 100
  const MakeMap: Byte := 2 + 100

  // 110-119: packages
  const Use: Byte := 0 + 110

  /** Whether a byte is one of the declared opcode constants. */
  predicate IsDeclared(op: Byte) {
    || op == Pop || op == Dup || op == Rot
    || op == LoadConst || op == LoadName || op == StoreName || op == LoadField || op == StoreField
    || op == UnaryInvert || op == UnaryNegate || op == UnaryNoOp
    || op == BinaryAdd || op == BinarySubtract || op == BinaryMultiply || op == BinaryDivide
    || op == BinaryExponent || op == BinaryFloorDiv || op == BinaryMod || op == BinaryOr
    || op == BinaryAnd || op == BinaryBitOr || op == BinaryBitAnd || op == BinaryEquals
    || op == BinaryNotEqual || op == BinaryLessThan || op == BinaryMoreThan || op == BinaryLessEq
    || op == BinaryMoreEq
    || op == PushFn || op == PushQualFn || op == CallFn || op == Return || op == DoBlock
    || op == Print || op == Println
    || op == Jump || op == JumpIfTrue || op == JumpIfFalse || op == Break || op == Next
    || op == LoopStart || op == LoopEnd
    || op == MakeArray || op == MakeTuple || op == MakeMap
    || op == Use
  }

  /** What the table records about an opcode. */
  datatype Data = Data(name: string, hasArg: bool)

  /**
   * The instruction table, looked up as a Go map is: an opcode without an
   * entry (only `PushQualFn` among the declared ones) yields the zero entry.
   */
  function Info(op: Byte): Data {
    if op == Pop then Data("POP", false)
    else if op == Dup then Data("DUP", false)
    else if op == Rot then Data("ROT", false)
    else if op == LoadConst then Data("LOAD_CONST", true)
    else if op == LoadName then Data("LOAD_NAME", true)
    else if op == StoreName then Data("STORE_NAME", true)
    else if op == LoadField then Data("LOAD_FIELD", false)
    else if op == StoreField then Data("STORE_FIELD", false)
    else if op == UnaryInvert then Data("UNARY_INVERT", false)
    else if op == UnaryNegate then Data("UNARY_NEGATE", false)
    else if op == UnaryNoOp then Data("UNARY_NO_OP", false)
    else if op == BinaryAdd then Data("BINARY_ADD", false)
    else if op == BinarySubtract then Data("BINARY_SUBTRACT", false)
    else if op == BinaryMultiply then Data("BINARY_MULTIPLY", false)
    else if op == BinaryDivide then Data("BINARY_DIVIDE", false)
    else if op == BinaryExponent then Data("BINARY_EXPONENT", false)
    else if op == BinaryFloorDiv then Data("BINARY_FLOOR_DIV", false)
    else if op == BinaryMod then Data("BINARY_MOD", false)
    else if op == BinaryOr then Data("BINARY_OR", false)
    else if op == BinaryAnd then Data("BINARY_AND", false)
    else if op == BinaryBitOr then Data("BINARY_BIT_OR", false)
    else if op == BinaryBitAnd then Data("BINARY_BIT_AND", false)
    else if op == BinaryEquals then Data("BINARY_EQUALS", false)
    else if op == BinaryNotEqual then Data("BINARY_NOT_EQUAL", false)
    else if op == BinaryLessThan then Data("BINARY_LESS_THAN", false)
    else if op == BinaryMoreThan then Data("BINARY_MORE_THAN", false)
    else if op == BinaryLessEq then Data("BINARY_LESS_EQ", false)
    else if op == BinaryMoreEq then Data("BINARY_MORE_EQ", false)
    else if op == PushFn then Data("PUSH_FN", true)
    else if op == CallFn then Data("CALL_FN", false)
    else if op == Return then Data("RETURN_FN", false)
    else if op == DoBlock then Data("DO_BLOCK", false)
    else if op == Print then Data("PRINT", false)
    else if op == Println then Data("PRINT_LINE", false)
    else if op == Jump then Data("JUMP", true)
    else if op == JumpIfTrue then Data("JUMP_IF_TRUE", true)
    else if op == JumpIfFalse then Data("JUMP_IF_FALSE", true)
    else if op == Break then Data("BREAK", false)
    else if op == Next then Data("NEXT", false)
    else if op == LoopStart then Data("START_LOOP", false)
    else if op == LoopEnd then Data("END_LOOP", false)
    else if op == MakeArray then Data("MAKE_ARRAY", true)
    else if op == MakeTuple then Data("MAKE_TUPLE", true)
    else if op == MakeMap then Data("MAKE_MAP", true)
    else if op == Use then Data("USE", true)
    else Data("", false)
  }

  /** Whether the table has an entry for the opcode. */
  predicate HasEntry(op: Byte) {
    Info(op).name != ""
  }

  predicate HasArg(op: Byte) {
    Info(op).hasArg
  }

  function Name(op: Byte): string {
    Info(op).name
  }

  /** The set of opcodes that carry a two-byte operand. */
  const WithOperand: set<Byte> :=
    {LoadConst, LoadName, StoreName, PushFn, Jump, JumpIfTrue, JumpIfFalse,
     MakeArray, MakeTuple, MakeMap, Use}

  /**
   * The opcode constants, in declaration order, strictly increase, so they are
   * pairwise distinct; the last and largest is `Use`, at 110.
   */
  lemma OpcodesDistinct()
    ensures Pop < Dup < Rot
      < LoadConst < LoadName < StoreName < LoadField < StoreField
      < UnaryInvert < UnaryNegate < UnaryNoOp
      < BinaryAdd < BinarySubtract < BinaryMultiply < BinaryDivide < BinaryExponent
      < BinaryFloorDiv < BinaryMod < BinaryOr < BinaryAnd < BinaryBitOr < BinaryBitAnd
      < BinaryEquals < BinaryNotEqual < BinaryLessThan < BinaryMoreThan < BinaryLessEq
      < BinaryMoreEq
      < PushFn < PushQualFn < CallFn < Return < DoBlock
      < Print < Println
      < Jump < JumpIfTrue < JumpIfFalse < Break < Next < LoopStart < LoopEnd
      < MakeArray < MakeTuple < MakeMap
      < Use == 110
  {
  }

  /** The values the `iota` arithmetic produces. */
  lemma OpcodeValues()
    ensures Pop == 0 && Dup == 1 && Rot == 2
    ensures LoadConst == 10 && LoadName == 11 && StoreName == 12
    ensures LoadField == 13 && StoreField == 14
    ensures UnaryInvert == 20 && UnaryNegate == 21 && UnaryNoOp == 22
    ensures BinaryAdd == 28 && BinaryMoreEq == 44
    ensures BinarySubtract == 29 && BinaryMultiply == 30 && BinaryDivide == 31
    ensures BinaryExponent == 32 && BinaryFloorDiv == 33 && BinaryMod == 34 && BinaryOr == 35
    ensures BinaryAnd == 36 && BinaryBitOr == 37 && BinaryBitAnd == 38 && BinaryEquals == 39
    ensures BinaryNotEqual == 40 && BinaryLessThan == 41 && BinaryMoreThan == 42 && BinaryLessEq == 43
    ensures PushFn == 50 && PushQualFn == 51 && CallFn == 52 && Return == 53 && DoBlock == 54
    ensures Print == 60 && Println == 61
    ensures Jump == 90 && JumpIfTrue == 91 && JumpIfFalse == 92 && Break == 93
    ensures Next == 94 && LoopStart == 95 && LoopEnd == 96
    ensures MakeArray == 100 && MakeTuple == 101 && MakeMap == 102 && Use == 110
  {
  }

  /** Every declared opcode has a table entry except `PushQualFn`, whose lookup yields the zero entry. */
  lemma TableCoverage()
    ensures forall op :: HasEntry(op) <==> IsDeclared(op) && op != PushQualFn
    ensures Info(PushQualFn) == Data("", false)
  {
  }

  /** `HasArg` holds for exactly the eleven operand-carrying opcodes. */
  lemma HasArgExactly(op: Byte)
    ensures HasArg(op) <==> op in WithOperand
  {
  }

  /** Reverse lookup: the opcode whose table entry has the given display name. */
  function OpcodeNamed(name: string): Option<Byte>
  {
    match name
    case "POP" => Some(Pop)
    case "DUP" => Some(Dup)
    case "ROT" => Some(Rot)
    case "LOAD_CONST" => Some(LoadConst)
    case "LOAD_NAME" => Some(LoadName)
    case "STORE_NAME" => Some(StoreName)
    case "LOAD_FIELD" => Some(LoadField)
    case "STORE_FIELD" => Some(StoreField)
    case "UNARY_INVERT" => Some(UnaryInvert)
    case "UNARY_NEGATE" => Some(UnaryNegate)
    case "UNARY_NO_OP" => Some(UnaryNoOp)
    case "BINARY_ADD" => Some(BinaryAdd)
    case "BINARY_SUBTRACT" => Some(BinarySubtract)
    case "BINARY_MULTIPLY" => Some(BinaryMultiply)
    case "BINARY_DIVIDE" => Some(BinaryDivide)
    case "BINARY_EXPONENT" => Some(BinaryExponent)
    case "BINARY_FLOOR_DIV" => Some(BinaryFloorDiv)
    case "BINARY_MOD" => Some(BinaryMod)
    case "BINARY_OR" => Some(BinaryOr)
    case "BINARY_AND" => Some(BinaryAnd)
    case "BINARY_BIT_OR" => Some(BinaryBitOr)
    case "BINARY_BIT_AND" => Some(BinaryBitAnd)
    case "BINARY_EQUALS" => Some(BinaryEquals)
    case "BINARY_NOT_EQUAL" => Some(BinaryNotEqual)
    case "BINARY_LESS_THAN" => Some(BinaryLessThan)
    case "BINARY_MORE_THAN" => Some(BinaryMoreThan)
    case "BINARY_LESS_EQ" => Some(BinaryLessEq)
    case "BINARY_MORE_EQ" => Some(BinaryMoreEq)
    case "PUSH_FN" => Some(PushFn)
    case "CALL_FN" => Some(CallFn)
    case "RETURN_FN" => Some(Return)
    case "DO_BLOCK" => Some(DoBlock)
    case "PRINT" => Some(Print)
    case "PRINT_LINE" => Some(Println)
    case "JUMP" => Some(Jump)
    case "JUMP_IF_TRUE" => Some(JumpIfTrue)
    case "JUMP_IF_FALSE" => Some(JumpIfFalse)
    case "BREAK" => Some(Break)
    case "NEXT" => Some(Next)
    case "START_LOOP" => Some(LoopStart)
    case "END_LOOP" => Some(LoopEnd)
    case "MAKE_ARRAY" => Some(MakeArray)
    case "MAKE_TUPLE" => Some(MakeTuple)
    case "MAKE_MAP" => Some(MakeMap)
    case "USE" => Some(Use)
    case _ => None
  }

  /** Looking up a table entry's name gives back its opcode. */
  lemma NameRoundTrip(op: Byte)
    requires HasEntry(op)
    ensures OpcodeNamed(Name(op)) == Some(op)
  {
    if op == Pop {
    } else if op == Dup {
    } else if op == Rot {
    } else if op == LoadConst {
    } else if op == LoadName {
    } else if op == StoreName {
    } else if op == LoadField {
    } else if op == StoreField {
    } else if op == UnaryInvert {
    } else if op == UnaryNegate {
    } else if op == UnaryNoOp {
    } else if op == BinaryAdd {
    } else if op == BinarySubtract {
    } else if op == BinaryMultiply {
    } else if op == BinaryDivide {
    } else if op == BinaryExponent {
    } else if op == BinaryFloorDiv {
    } else if op == BinaryMod {
    } else if op == BinaryOr {
    } else if op == BinaryAnd {
    } else if op == BinaryBitOr {
    } else if op == BinaryBitAnd {
    } else if op == BinaryEquals {
    } else if op == BinaryNotEqual {
    } else if op == BinaryLessThan {
    } else if op == BinaryMoreThan {
    } else if op == BinaryLessEq {
    } else if op == BinaryMoreEq {
    } else if op == PushFn {
    } else if op == CallFn {
    } else if op == Return {
    } else if op == DoBlock {
    } else if op == Print {
    } else if op == Println {
    } else if op == Jump {
    } else if op == JumpIfTrue {
    } else if op == JumpIfFalse {
    } else if op == Break {
    } else if op == Next {
    } else if op == LoopStart {
    } else if op == LoopEnd {
    } else if op == MakeArray {
    } else if op == MakeTuple {
    } else if op == MakeMap {
    } else if op == Use {
    }
  }

  /** The display names are pairwise distinct, so the table's name lookup is injective. */
  lemma NamesInjective(a: Byte, b: Byte)
    requires HasEntry(a) && HasEntry(b)
    requires Name(a) == Name(b)
    ensures a == b
  {
    NameRoundTrip(a);
    NameRoundTrip(b);
  }

  /*
   * Operand encoding. An operand is written as two bytes, high byte first.
   * The source splits an index with a helper that is not part of this model;
   * here its result is the low 16 bits of the index, as two bytes.
   */

  /** The largest operand plus one (`1 << 16`). */
  const OperandLimit: nat := 65536

  function High(i: nat): Byte {
    (i / 256) % 256
  }

  function Low(i: nat): Byte {
    i % 256
  }

  /** Reads a big-endian 16-bit operand. */
  function Operand(high: Byte, low: Byte): (n: nat)
    ensures n < OperandLimit
  {
    high * 256 + low
  }

  /** Encoding then decoding an operand keeps its low 16 bits; below the limit, the index itself. */
  lemma OperandRoundTrip(i: nat)
    ensures Operand(High(i), Low(i)) == i % OperandLimit
    ensures i < OperandLimit ==> Operand(High(i), Low(i)) == i
  {
    var q := i / 256;
    assert i == q * 256 + i % 256;
    assert q == (q / 256) * 256 + q % 256;
    assert i == (q / 256) * OperandLimit + (q % 256) * 256 + i % 256;
  }

  /**
   * An instruction stream made only of whole instructions: each opcode that
   * `HasArg` is followed by its two operand bytes.
   */
  predicate WellFormed(code: seq<Byte>)
    decreases |code|
  {
    if code == [] then true
    else if code[0] in WithOperand then |code| >= 3 && WellFormed(code[3..])
    else WellFormed(code[1..])
  }

  /** Two streams of whole instructions concatenate into one. */
  lemma {:induction false} WellFormedAppend(a: seq<Byte>, b: seq<Byte>)
    requires WellFormed(a) && WellFormed(b)
    ensures WellFormed(a + b)
    decreases |a|
  {
    if a == [] {
      assert a + b == b;
    } else if a[0] in WithOperand {
      WellFormedAppend(a[3..], b);
      assert (a + b)[0] == a[0] && (a + b)[3..] == a[3..] + b;
    } else {
      WellFormedAppend(a[1..], b);
      assert (a + b)[0] == a[0] && (a + b)[1..] == a[1..] + b;
    }
  }

  /** One opcode with its operand forms a whole instruction exactly when the table says it takes one. */
  lemma SingleInstruction(op: Byte, i: nat)
    ensures HasArg(op) ==> WellFormed([op, High(i), Low(i)])
    ensures !HasArg(op) ==> WellFormed([op])
  {
    HasArgExactly(op);
    if HasArg(op) {
      assert [op, High(i), Low(i)][3..] == [];
    } else {
      assert [op][1..] == [];
    }
  }
}
