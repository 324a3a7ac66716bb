/**
 * Properties of expression compilation, stated about `Compile`: operand
 * encoding and index bookkeeping, the operator tables, the `if` layout and
 * its jump targets, and well-formedness of the instruction stream produced.
 */
module CompilerProperties {
  import opened Common
  import opened Bytecode
  import opened Ast
  import Objects
  import opened Compiling

  /** The 16-bit operand stored at `bytes[at + 1..at + 3]`. */
  function OperandAt(bytes: seq<Byte>, at: nat): nat
    requires at + 2 < |bytes|
  {
    Operand(bytes[at + 1], bytes[at + 2])
  }

  /**
   * A literal appends exactly one constant. If its index `i` (the old pool
   * size) is below 1 << 16 it emits exactly `LoadConst` and an operand that
   * decodes to `i`; otherwise it reports the overflow of `i` and emits
   * nothing. Names never change.
   */
  lemma LiteralLayout(e: Expr, u: Unit)
    requires IsLiteral(e)
    ensures var r := Compile(e, u); var i := |u.constants|;
      r.unit.constants == u.constants + [Some(LiteralObject(e))]
      && r.unit.names == u.names
      && (i < OperandLimit ==>
            r.err.None? && |r.unit.bytes| == |u.bytes| + 3
            && r.unit.bytes[|u.bytes|] == LoadConst && OperandAt(r.unit.bytes, |u.bytes|) == i)
      && (i >= OperandLimit ==> r.err == Some(ConstantIndexOverflow(i)) && r.unit.bytes == u.bytes)
  {
    OperandRoundTrip(|u.constants|);
  }

  /**
   * An identifier emits `LoadName` with an operand naming a slot that holds
   * it (modulo 1 << 16, as there is no overflow check), and adds a name only
   * when it was absent. Compiling the same identifier again adds no name and
   * emits the same three bytes.
   */
  lemma IdentifierIdempotent(e: Expr, u: Unit)
    requires e.Identifier?
    ensures var a := Compile(e, u); var i := IndexOf(a.unit.names, e.value);
      a.err.None? && |a.unit.bytes| == |u.bytes| + 3
      && i < |a.unit.names| && a.unit.names[i] == e.value
      && a.unit.bytes[|u.bytes|] == LoadName && OperandAt(a.unit.bytes, |u.bytes|) == i % OperandLimit
      && (e.value in u.names ==> a.unit.names == u.names)
      && (e.value !in u.names ==> a.unit.names == u.names + [e.value])
    ensures var a := Compile(e, u); var b := Compile(e, a.unit);
      b.unit.names == a.unit.names
      && b.unit.bytes == a.unit.bytes + a.unit.bytes[|u.bytes|..]
  {
    var i := IndexOf(u.names, e.value);
    IndexOfAppend(u.names, e.value);
    OperandRoundTrip(i);
  }

  /**
   * A name is absent exactly when its first index is the length, and
   * appending the name leaves its first index unchanged: an absent name is
   * found at the old length, a present one where it was.
   */
  lemma {:induction false} IndexOfAppend(names: seq<string>, name: string)
    ensures IndexOf(names, name) < |names| <==> name in names
    ensures IndexOf(names + [name], name) == IndexOf(names, name)
    decreases |names|
  {
    if names != [] && names[0] != name {
      IndexOfAppend(names[1..], name);
      assert (names + [name])[1..] == names[1..] + [name];
    }
  }

  /**
   * An assignment whose value compiles appends a fresh name slot holding the
   * target name, even when the name is already known, and emits `StoreName`
   * with that slot, unless the slot index overflows; if the value fails,
   * nothing beyond the value's own compilation happens.
   */
  lemma AssignFreshSlot(e: Expr, u: Unit)
    requires e.Assign?
    ensures var v := Compile(e.newValue, u); var r := Compile(e, u); var i := |v.unit.names|;
      (v.err.Some? ==> r == v)
      && (v.err.None? ==>
            r.unit.names == v.unit.names + [e.name] && r.unit.constants == v.unit.constants
            && |r.unit.names| > |u.names|
            && (i < OperandLimit ==>
                  r.err.None? && r.unit.bytes[..|v.unit.bytes|] == v.unit.bytes
                  && |r.unit.bytes| == |v.unit.bytes| + 3 && r.unit.bytes[|v.unit.bytes|] == StoreName
                  && OperandAt(r.unit.bytes, |v.unit.bytes|) == i && r.unit.names[i] == e.name)
            && (i >= OperandLimit ==> r.err == Some(NameIndexOverflow(i)) && r.unit.bytes == v.unit.bytes))
  {
    var v := Compile(e.newValue, u);
    OperandRoundTrip(|v.unit.names|);
  }

  /**
   * The operator tables: `%` compiles to `BinaryFloorDiv`, operators missing
   * from the tables (such as `!=` and `<`) to the zero byte, and every
   * opcode the compiler emits alone carries no operand in the instruction
   * table, while every opcode it emits with two operand bytes carries one.
   */
  lemma EmittedOpcodesAgreeWithTable(op: string)
    ensures InfixOpcode("%") == BinaryFloorDiv && InfixOpcode("//") == BinaryFloorDiv
    ensures InfixOpcode("!=") == 0 && InfixOpcode("<") == 0 && PrefixOpcode("~") == 0
    ensures op !in {"+", "-", "*", "/", "**", "//", "%", "||", "&&", "|", "&", "=="} ==> InfixOpcode(op) == 0
    ensures op != "+" && op != "-" && op != "!" ==> PrefixOpcode(op) == 0
    ensures !HasArg(InfixOpcode(op)) && !HasArg(PrefixOpcode(op))
    ensures HasArg(LoadConst) && HasArg(LoadName) && HasArg(StoreName)
    ensures HasArg(Jump) && HasArg(JumpIfFalse)
  {
    var code := InfixOpcode(op);
    assert code == 0 || BinaryAdd <= code <= BinaryEquals;
    if code != 0 {
      if code == BinaryAdd {} else if code == BinarySubtract {} else if code == BinaryMultiply {}
      else if code == BinaryDivide {} else if code == BinaryExponent {} else if code == BinaryFloorDiv {}
      else if code == BinaryMod {} else if code == BinaryOr {} else if code == BinaryAnd {}
      else if code == BinaryBitOr {} else if code == BinaryBitAnd {} else {}
    }
  }

  /**
   * The `if` layout on success: the condition's code, `JumpIfFalse` with an
   * operand that decodes to the offset of the alternative's first byte, the
   * consequence, `Jump` with an operand that decodes to the offset just past
   * the alternative, then the alternative (offsets modulo 1 << 16).
   */
  lemma IfJumpTargets(e: Expr, u: Unit)
    requires e.If? && Compile(e, u).err.None?
    ensures var c := Compile(e.condition, u).unit.bytes; var r := Compile(e, u).unit.bytes;
      var altStart := |c| + 3 + |e.consequence.code| + 3;
      |r| == altStart + |e.alternative.code|
      && r[..|c|] == c
      && r[|c|] == JumpIfFalse && OperandAt(r, |c|) == altStart % OperandLimit
      && r[|c| + 3..altStart - 3] == e.consequence.code
      && r[altStart - 3] == Jump && OperandAt(r, altStart - 3) == |r| % OperandLimit
      && r[altStart..] == e.alternative.code
  {
    var c := Compile(e.condition, u).unit.bytes;
    var altStart := |c| + 3 + |e.consequence.code| + 3;
    var end := altStart + |e.alternative.code|;
    IfLayout(c, e.consequence.code, e.alternative.code, altStart, end);
  }

  /** Where each part of `cond, JumpIfFalse a, cons, Jump b, alt` lies and what its operands decode to. */
  lemma IfLayout(cond: seq<Byte>, cons: seq<Byte>, alt: seq<Byte>, a: nat, b: nat)
    ensures var r := cond + [JumpIfFalse, High(a), Low(a)] + cons + [Jump, High(b), Low(b)] + alt;
      var altStart := |cond| + 3 + |cons| + 3;
      |r| == altStart + |alt|
      && r[..|cond|] == cond
      && r[|cond|] == JumpIfFalse && OperandAt(r, |cond|) == a % OperandLimit
      && r[|cond| + 3..altStart - 3] == cons
      && r[altStart - 3] == Jump && OperandAt(r, altStart - 3) == b % OperandLimit
      && r[altStart..] == alt
  {
    OperandRoundTrip(a);
    OperandRoundTrip(b);
    var r := cond + [JumpIfFalse, High(a), Low(a)] + cons + [Jump, High(b), Low(b)] + alt;
    var altStart := |cond| + 3 + |cons| + 3;
    assert r[|cond| + 1] == High(a) && r[|cond| + 2] == Low(a);
    assert r[altStart - 2] == High(b) && r[altStart - 1] == Low(b);
  }

  /** The `if` of a failing branch: the placeholders not yet patched stay zero. */
  lemma IfBranchFails(e: Expr, u: Unit)
    requires e.If? && Compile(e.condition, u).err.None?
    ensures var c := Compile(e.condition, u).unit.bytes; var r := Compile(e, u);
      (!e.consequence.ok ==>
         r.err == Some(StatementFailed) && r.unit.bytes == c + [JumpIfFalse, 0, 0] + e.consequence.code)
      && (e.consequence.ok && !e.alternative.ok ==>
         r.err == Some(StatementFailed)
         && r.unit.bytes[|c| + 3 + |e.consequence.code|..] == [Jump, 0, 0] + e.alternative.code
         && OperandAt(r.unit.bytes, |c|) == (|c| + 3 + |e.consequence.code| + 3) % OperandLimit)
  {
    var c := Compile(e.condition, u).unit;
    assert Compile(e, u) == IfCode(c, e.consequence, e.alternative);
    IfCodeFails(c, e.consequence, e.alternative);
  }

  lemma IfCodeFails(c: Unit, consequence: Stmt, alternative: Stmt)
    ensures var r := IfCode(c, consequence, alternative);
      (!consequence.ok ==>
         r.err == Some(StatementFailed) && r.unit.bytes == c.bytes + [JumpIfFalse, 0, 0] + consequence.code)
      && (consequence.ok && !alternative.ok ==>
         r.err == Some(StatementFailed)
         && r.unit.bytes[|c.bytes| + 3 + |consequence.code|..] == [Jump, 0, 0] + alternative.code
         && OperandAt(r.unit.bytes, |c.bytes|) == (|c.bytes| + 3 + |consequence.code| + 3) % OperandLimit)
  {
    if consequence.ok && !alternative.ok {
      var altStart := |c.bytes| + 3 + |consequence.code| + 3;
      OperandRoundTrip(altStart);
      var r := IfCode(c, consequence, alternative).unit.bytes;
      var head := c.bytes + [JumpIfFalse, High(altStart), Low(altStart)] + consequence.code;
      assert r == head + ([Jump, 0, 0] + alternative.code);
      assert |head| == altStart - 3;
      assert r[|head|..] == [Jump, 0, 0] + alternative.code;
      assert r[|c.bytes| + 1] == head[|c.bytes| + 1] == High(altStart);
      assert r[|c.bytes| + 2] == head[|c.bytes| + 2] == Low(altStart);
    }
  }

  /** A node kind the compiler does not handle reports it and leaves the state untouched. */
  lemma UnsupportedUnchanged(e: Expr, u: Unit)
    requires e.Parameter? || e.Argument? || e.Other?
    ensures Compile(e, u) == Outcome(u, Some(NotImplemented(KindName(e))))
    ensures e.Other? ==> Compile(e, u).err.value.kind == e.kind
  {
  }

  /** The statements nested in an expression all compile to well-formed code. */
  predicate StatementsWellFormed(e: Expr) {
    match e
    case Assign(_, _, value) => StatementsWellFormed(value)
    case Infix(_, _, left, right) => StatementsWellFormed(left) && StatementsWellFormed(right)
    case Prefix(_, _, right) => StatementsWellFormed(right)
    case If(_, condition, consequence, alternative) =>
      StatementsWellFormed(condition) && WellFormed(consequence.code) && WellFormed(alternative.code)
    case _ => true
  }

  /**
   * Compilation keeps the instruction stream well formed, whether it
   * succeeds or not: every opcode it emits with an operand is followed by
   * its two operand bytes and every other opcode stands alone.
   */
  lemma {:induction false} CompileWellFormed(e: Expr, u: Unit)
    requires WellFormed(u.bytes) && StatementsWellFormed(e)
    ensures WellFormed(Compile(e, u).unit.bytes)
    decreases e
  {
    match e
    case Assign(_, _, value) =>
      CompileWellFormed(value, u);
      AssignWellFormed(e, u);
    case Infix(_, _, left, right) =>
      CompileWellFormed(left, u);
      var l := Compile(left, u);
      if l.err.None? {
        CompileWellFormed(right, l.unit);
      }
      InfixWellFormed(e, u);
    case Prefix(_, _, right) =>
      CompileWellFormed(right, u);
      PrefixWellFormed(e, u);
    case If(_, condition, _, _) =>
      CompileWellFormed(condition, u);
      IfCaseWellFormed(e, u);
    case _ =>
      LeafWellFormed(e, u);
  }

  lemma IfCaseWellFormed(e: Expr, u: Unit)
    requires e.If? && WellFormed(Compile(e.condition, u).unit.bytes)
    requires WellFormed(e.consequence.code) && WellFormed(e.alternative.code)
    ensures WellFormed(Compile(e, u).unit.bytes)
  {
    var c := Compile(e.condition, u);
    if c.err.None? {
      IfCodeWellFormed(c.unit, e.consequence, e.alternative);
    }
  }

  lemma IfCodeWellFormed(c: Unit, consequence: Stmt, alternative: Stmt)
    requires WellFormed(c.bytes) && WellFormed(consequence.code) && WellFormed(alternative.code)
    ensures WellFormed(IfCode(c, consequence, alternative).unit.bytes)
  {
    var altStart := |c.bytes| + 3 + |consequence.code| + 3;
    IfWellFormed(c.bytes, consequence.code, alternative.code, altStart, altStart + |alternative.code|);
  }

  /** A literal, an identifier or an unsupported node appends at most one whole instruction. */
  lemma LeafWellFormed(e: Expr, u: Unit)
    requires WellFormed(u.bytes)
    requires !(e.Assign? || e.Infix? || e.Prefix? || e.If?)
    ensures WellFormed(Compile(e, u).unit.bytes)
  {
    if IsLiteral(e) {
      assert HasArg(LoadConst);
      Instruction(u.bytes, LoadConst, |u.constants|);
    } else if e.Identifier? {
      assert HasArg(LoadName);
      Instruction(u.bytes, LoadName, IndexOf(u.names, e.value));
    }
  }

  lemma AssignWellFormed(e: Expr, u: Unit)
    requires e.Assign? && WellFormed(Compile(e.newValue, u).unit.bytes)
    ensures WellFormed(Compile(e, u).unit.bytes)
  {
    var v := Compile(e.newValue, u);
    assert HasArg(StoreName);
    Instruction(v.unit.bytes, StoreName, |v.unit.names|);
  }

  lemma InfixWellFormed(e: Expr, u: Unit)
    requires e.Infix? && WellFormed(Compile(e.left, u).unit.bytes)
    requires Compile(e.left, u).err.None? ==> WellFormed(Compile(e.right, Compile(e.left, u).unit).unit.bytes)
    ensures WellFormed(Compile(e, u).unit.bytes)
  {
    var l := Compile(e.left, u);
    if l.err.None? {
      var r := Compile(e.right, l.unit);
      OpcodeAlone(r.unit.bytes, InfixOpcode(e.op), e.op);
    }
  }

  lemma PrefixWellFormed(e: Expr, u: Unit)
    requires e.Prefix? && WellFormed(Compile(e.right, u).unit.bytes)
    ensures WellFormed(Compile(e, u).unit.bytes)
  {
    OpcodeAlone(Compile(e.right, u).unit.bytes, PrefixOpcode(e.op), e.op);
  }

  /** Appending an operator opcode, which takes no operand, to a well-formed stream keeps it well formed. */
  lemma OpcodeAlone(bytes: seq<Byte>, code: Byte, op: string)
    requires WellFormed(bytes) && (code == InfixOpcode(op) || code == PrefixOpcode(op))
    ensures WellFormed(bytes + [code])
  {
    EmittedOpcodesAgreeWithTable(op);
    SingleInstruction(code, 0);
    WellFormedAppend(bytes, [code]);
  }

  /** Each of the three byte layouts an `if` can leave is well formed when its parts are. */
  lemma IfWellFormed(cond: seq<Byte>, cons: seq<Byte>, alt: seq<Byte>, a: nat, b: nat)
    requires WellFormed(cond) && WellFormed(cons) && WellFormed(alt)
    ensures WellFormed(cond + [JumpIfFalse, 0, 0] + cons)
    ensures WellFormed(cond + [JumpIfFalse, High(a), Low(a)] + cons + [Jump, 0, 0] + alt)
    ensures WellFormed(cond + [JumpIfFalse, High(a), Low(a)] + cons + [Jump, High(b), Low(b)] + alt)
  {
    assert HasArg(JumpIfFalse) && HasArg(Jump);
    Instruction(cond, JumpIfFalse, a);
    WellFormedAppend(cond + [JumpIfFalse, 0, 0], cons);
    var head := cond + [JumpIfFalse, High(a), Low(a)] + cons;
    WellFormedAppend(cond + [JumpIfFalse, High(a), Low(a)], cons);
    Instruction(head, Jump, b);
    WellFormedAppend(head + [Jump, 0, 0], alt);
    WellFormedAppend(head + [Jump, High(b), Low(b)], alt);
  }

  /** Appending one instruction with an operand to a well-formed stream keeps it well formed. */
  lemma Instruction(bytes: seq<Byte>, op: Byte, i: nat)
    requires WellFormed(bytes) && HasArg(op)
    ensures WellFormed(bytes + [op, High(i), Low(i)])
    ensures WellFormed(bytes + [op, 0, 0])
  {
    SingleInstruction(op, i);
    SingleInstruction(op, 0);
    WellFormedAppend(bytes, [op, High(i), Low(i)]);
    WellFormedAppend(bytes, [op, High(0), Low(0)]);
  }

  /** `1 + 2` compiled by a new compiler: `LoadConst 16, LoadConst 17, BinaryAdd`. */
  lemma OnePlusTwo(one: Float, two: Float)
    ensures var r := Compile(Infix("+", "+", Number("1", one), Number("2", two)), Initial());
      r.err.None?
      && r.unit.bytes == [10, 0, 16, 10, 0, 17, 28]
      && r.unit.constants == Initial().constants + [Some(Objects.Number(one)), Some(Objects.Number(two))]
      && r.unit.names == []
  {
    var u1 := Compile(Number("1", one), Initial()).unit;
    assert u1.bytes == [LoadConst, 0, 16];
  }
}
