/**
 * The single-pass expression compiler. A `Compiler` appends to a byte buffer,
 * an append-only constant pool and a name table; `if` is compiled by
 * appending two jump placeholders and patching their operands in place.
 *
 * `Compile` states, as a function of the expression and the state before the
 * call, what state a compilation leaves and which error it reports; every
 * method of `Compiler` is proved to do exactly that, and the properties of
 * the compiler are proved as lemmas about `Compile`.
 */
module Compiling {
  import opened Common
  import opened Bytecode
  import opened Ast
  import Objects

  datatype CompileError =
    | NotImplemented(kind: string)
    | ConstantIndexOverflow(index: nat)
    | NameIndexOverflow(index: nat)
      /** An error reported by statement compilation (of an `if` branch). */
    | StatementFailed

  /** The compiler's state: the bytes emitted, the constant pool (`None` for a nil slot) and the name table. */
  datatype Unit = Unit(bytes: seq<Byte>, constants: seq<Option<Objects.Object>>, names: seq<string>)

  /** The state a compilation leaves and the error it returns (`None` for nil). */
  datatype Outcome = Outcome(unit: Unit, err: Option<CompileError>)

  /** The state `New` produces: no bytes, sixteen nil constant slots, no names. */
  function Initial(): (u: Unit)
    ensures u.bytes == [] && |u.constants| == 16 && u.names == []
    ensures forall i :: 0 <= i < 16 ==> u.constants[i].None?
  {
    Unit([], seq(16, _ => None), [])
  }

  predicate IsLiteral(e: Expr) {
    e.Number? || e.String? || e.Boolean? || e.Char? || e.Null?
  }

  /** The constant a literal node compiles to. */
  function LiteralObject(e: Expr): Objects.Object
    requires IsLiteral(e)
  {
    match e
    case Number(_, n) => Objects.Number(n)
    case String(_, t) => Objects.String(t)
    case Boolean(_, b) => Objects.Boolean(b)
    case Char(_, c) => Objects.Char(c)
    case Null(_) => Objects.Null
  }

  /** The first index of `name` in `names`, or `|names|` when it is absent. */
  function IndexOf(names: seq<string>, name: string): (i: nat)
    ensures i <= |names|
    ensures i < |names| ==> names[i] == name
    ensures forall j :: 0 <= j < i ==> names[j] != name
    decreases |names|
  {
    if names == [] then 0
    else if names[0] == name then 0
    else 1 + IndexOf(names[1..], name)
  }

  /** The opcode of an infix operator; an operator missing from the table gives the zero byte. */
  function InfixOpcode(op: string): (r: Byte)
    ensures r == 0 || BinaryAdd <= r <= BinaryEquals
  {
    match op
    case "+" => BinaryAdd
    case "-" => BinarySubtract
    case "*" => BinaryMultiply
    case "/" => BinaryDivide
    case "**" => BinaryExponent
    case "//" => BinaryFloorDiv
    case "%" => BinaryFloorDiv
    case "||" => BinaryOr
    case "&&" => BinaryAnd
    case "|" => BinaryBitOr
    case "&" => BinaryBitAnd
    case "==" => BinaryEquals
    case _ => 0
  }

  /** The opcode of a prefix operator; an operator missing from the table gives the zero byte. */
  function PrefixOpcode(op: string): (r: Byte)
    ensures r == 0 || UnaryInvert <= r <= UnaryNoOp
  {
    match op
    case "+" => UnaryNoOp
    case "-" => UnaryNegate
    case "!" => UnaryInvert
    case _ => 0
  }

  /**
   * What compiling `e` from state `u` leaves and reports. Compilation only
   * ever appends: the bytes, constants and names present before are kept
   * (the `if` placeholders it patches lie in its own region).
   *  - A literal appends its constant; if the new index is below 1 << 16 it
   *    emits `LoadConst high low`, otherwise it reports the overflow with no
   *    bytes emitted.
   *  - An identifier emits `LoadName` with the first index holding its name,
   *    appending the name when absent; there is no overflow check.
   *  - An assignment compiles its value, then always appends a fresh name
   *    slot and emits `StoreName` of it (or reports the overflow).
   *  - Infix and prefix operations emit their operands' code, left before
   *    right, then one opcode byte.
   *  - An `if` lays out `cond, JumpIfFalse a, cons, Jump b, alt` where `a` is
   *    the offset of the first byte of `alt` and `b` the offset just past
   *    it; a failing branch leaves the operands not yet patched as zero.
   *  - Any other node reports that it is not implemented and changes nothing.
   */
  function Compile(e: Expr, u: Unit): (r: Outcome)
    ensures u.bytes <= r.unit.bytes
    ensures u.constants <= r.unit.constants
    ensures u.names <= r.unit.names
    decreases e
  {
    match e
    case Number(_, _) => Literal(e, u)
    case String(_, _) => Literal(e, u)
    case Boolean(_, _) => Literal(e, u)
    case Char(_, _) => Literal(e, u)
    case Null(_) => Literal(e, u)
    case Identifier(_, name) =>
      var i := IndexOf(u.names, name);
      var names := if i < |u.names| then u.names else u.names + [name];
      Outcome(Unit(u.bytes + [LoadName, High(i), Low(i)], u.constants, names), None)
    case Assign(_, name, value) =>
      var v := Compile(value, u);
      if v.err.Some? then v
      else
        var names := v.unit.names + [name];
        var i := |names| - 1;
        if i >= OperandLimit then Outcome(v.unit.(names := names), Some(NameIndexOverflow(i)))
        else Outcome(Unit(v.unit.bytes + [StoreName, High(i), Low(i)], v.unit.constants, names), None)
    case Infix(_, op, left, right) =>
      var l := Compile(left, u);
      if l.err.Some? then l
      else
        var r := Compile(right, l.unit);
        if r.err.Some? then r
        else Outcome(r.unit.(bytes := r.unit.bytes + [InfixOpcode(op)]), None)
    case Prefix(_, op, right) =>
      var r := Compile(right, u);
      if r.err.Some? then r
      else Outcome(r.unit.(bytes := r.unit.bytes + [PrefixOpcode(op)]), None)
    case If(_, condition, consequence, alternative) =>
      var c := Compile(condition, u);
      if c.err.Some? then c else IfCode(c.unit, consequence, alternative)
    case _ => Outcome(u, Some(NotImplemented(KindName(e))))
  }

  /**
   * The rest of an `if` once its condition has compiled into `c`:
   * `JumpIfFalse a, cons, Jump b, alt` where `a` is the offset of the first
   * byte of `alt` and `b` the offset just past it; a failing branch leaves
   * the operands not yet patched as zero.
   */
  function IfCode(c: Unit, consequence: Stmt, alternative: Stmt): (r: Outcome)
    ensures c.bytes <= r.unit.bytes
    ensures r.unit.constants == c.constants && r.unit.names == c.names
  {
    var cond := c.bytes;
    if !consequence.ok then
      Outcome(c.(bytes := cond + [JumpIfFalse, 0, 0] + consequence.code), Some(StatementFailed))
    else
      var altStart := |cond| + 3 + |consequence.code| + 3;
      var head := cond + [JumpIfFalse, High(altStart), Low(altStart)] + consequence.code;
      if !alternative.ok then
        Outcome(c.(bytes := head + [Jump, 0, 0] + alternative.code), Some(StatementFailed))
      else
        var end := altStart + |alternative.code|;
        Outcome(c.(bytes := head + [Jump, High(end), Low(end)] + alternative.code), None)
  }

  /** A literal: append the constant, then emit `LoadConst` of its index unless the index overflows. */
  function Literal(e: Expr, u: Unit): (r: Outcome)
    requires IsLiteral(e)
    ensures u.bytes <= r.unit.bytes && u.names == r.unit.names
    ensures r.unit.constants == u.constants + [Some(LiteralObject(e))]
  {
    var constants := u.constants + [Some(LiteralObject(e))];
    var i := |constants| - 1;
    if i >= OperandLimit then Outcome(u.(constants := constants), Some(ConstantIndexOverflow(i)))
    else Outcome(Unit(u.bytes + [LoadConst, High(i), Low(i)], constants, u.names), None)
  }

  /** The compiler state. */
  class Compiler {
    var Bytes: seq<Byte>
    var Constants: seq<Option<Objects.Object>>
    var Names: seq<string>

    function State(): (u: Unit)
      reads this
      ensures u.bytes == Bytes && u.constants == Constants && u.names == Names
    {
      Unit(Bytes, Constants, Names)
    }

    /** `New`: empty bytes, sixteen nil constant slots, so the first constant gets index 16. */
    constructor New()
      ensures State() == Initial()
    {
      Bytes := [];
      Constants := seq(16, _ => None);
      Names := [];
    }

    /** `CompileExpression`: dispatch on the node kind; other kinds are not implemented. */
    method CompileExpression(e: Expr) returns (err: Option<CompileError>)
      modifies this
      ensures Outcome(State(), err) == Compile(e, old(State()))
      decreases e, 1
    {
      match e
      case Infix(_, _, _, _) => err := CompileInfix(e);
      case Prefix(_, _, _) => err := CompilePrefix(e);
      case Number(_, _) => err := CompileNumber(e);
      case String(_, _) => err := CompileString(e);
      case Boolean(_, _) => err := CompileBoolean(e);
      case Char(_, _) => err := CompileChar(e);
      case Null(_) => err := CompileNull(e);
      case Identifier(_, _) => err := CompileIdentifier(e);
      case Assign(_, _, _) => err := CompileAssign(e);
      case If(_, _, _, _) => err := CompileIf(e);
      case _ => err := Some(NotImplemented(KindName(e)));
    }

    /** Appends a literal's constant and emits `LoadConst` of its index, unless the index overflows. */
    method AppendConstant(e: Expr) returns (err: Option<CompileError>)
      requires IsLiteral(e)
      modifies this
      ensures Outcome(State(), err) == Literal(e, old(State()))
    {
      Constants := Constants + [Some(LiteralObject(e))];
      var index := |Constants| - 1;
      if index >= OperandLimit {
        return Some(ConstantIndexOverflow(index));
      }
      Bytes := Bytes + [LoadConst, High(index), Low(index)];
      err := None;
    }

    method CompileNumber(e: Expr) returns (err: Option<CompileError>)
      requires e.Number?
      modifies this
      ensures Outcome(State(), err) == Compile(e, old(State()))
    {
      err := AppendConstant(e);
    }

    method CompileString(e: Expr) returns (err: Option<CompileError>)
      requires e.String?
      modifies this
      ensures Outcome(State(), err) == Compile(e, old(State()))
    {
      err := AppendConstant(e);
    }

    method CompileBoolean(e: Expr) returns (err: Option<CompileError>)
      requires e.Boolean?
      modifies this
      ensures Outcome(State(), err) == Compile(e, old(State()))
    {
      err := AppendConstant(e);
    }

    method CompileChar(e: Expr) returns (err: Option<CompileError>)
      requires e.Char?
      modifies this
      ensures Outcome(State(), err) == Compile(e, old(State()))
    {
      err := AppendConstant(e);
    }

    method CompileNull(e: Expr) returns (err: Option<CompileError>)
      requires e.Null?
      modifies this
      ensures Outcome(State(), err) == Compile(e, old(State()))
    {
      err := AppendConstant(e);
    }

    /** Scans the names for the identifier; appends it when absent; emits `LoadName`. */
    method CompileIdentifier(e: Expr) returns (err: Option<CompileError>)
      requires e.Identifier?
      modifies this
      ensures Outcome(State(), err) == Compile(e, old(State()))
    {
      var index := 0;
      var found := false;
      var i := 0;
      while i < |Names| && !found
        invariant 0 <= i <= |Names|
        invariant !found ==> forall j :: 0 <= j < i ==> Names[j] != e.value
        invariant found ==> (index < |Names| && Names[index] == e.value
          && forall j :: 0 <= j < index ==> Names[j] != e.value)
        decreases |Names| - i, !found
      {
        if Names[i] == e.value {
          index := i;
          found := true;
        }
        i := i + 1;
      }
      assert index == IndexOf(Names, e.value) || (!found && IndexOf(Names, e.value) == |Names|);
      if !found {
        Names := Names + [e.value];
        index := |Names| - 1;
      }
      Bytes := Bytes + [LoadName, High(index), Low(index)];
      err := None;
    }

    /** Compiles the value, then appends a fresh name slot and emits `StoreName` of it. */
    method CompileAssign(e: Expr) returns (err: Option<CompileError>)
      requires e.Assign?
      modifies this
      ensures Outcome(State(), err) == Compile(e, old(State()))
      decreases e, 0
    {
      err := CompileExpression(e.newValue);
      if err.Some? {
        return;
      }
      Names := Names + [e.name];
      var index := |Names| - 1;
      if index >= OperandLimit {
        return Some(NameIndexOverflow(index));
      }
      Bytes := Bytes + [StoreName, High(index), Low(index)];
    }

    /** Compiles the left operand, then the right one, then emits the operator's opcode. */
    method CompileInfix(e: Expr) returns (err: Option<CompileError>)
      requires e.Infix?
      modifies this
      ensures Outcome(State(), err) == Compile(e, old(State()))
      decreases e, 0
    {
      err := CompileExpression(e.left);
      if err.Some? {
        return;
      }
      err := CompileExpression(e.right);
      if err.Some? {
        return;
      }
      Bytes := Bytes + [InfixOpcode(e.op)];
    }

    /** Compiles the operand, then emits the operator's opcode. */
    method CompilePrefix(e: Expr) returns (err: Option<CompileError>)
      requires e.Prefix?
      modifies this
      ensures Outcome(State(), err) == Compile(e, old(State()))
      decreases e, 0
    {
      err := CompileExpression(e.right);
      if err.Some? {
        return;
      }
      Bytes := Bytes + [PrefixOpcode(e.op)];
    }

    /** Statement compilation, which is not part of this model: it appends the statement's bytes and may fail. */
    method CompileStatement(s: Stmt) returns (err: Option<CompileError>)
      modifies this
      ensures Bytes == old(Bytes) + s.code
      ensures Constants == old(Constants) && Names == old(Names)
      ensures err == if s.ok then None else Some(StatementFailed)
    {
      Bytes := Bytes + s.code;
      err := if s.ok then None else Some(StatementFailed);
    }

    /**
     * Compiles the condition, appends `JumpIfFalse 0 0`, compiles the
     * consequence, appends `Jump 0 0`, patches the first placeholder with the
     * current length, compiles the alternative and patches the second
     * placeholder with the final length.
     */
    method CompileIf(e: Expr) returns (err: Option<CompileError>)
      requires e.If?
      modifies this
      ensures Outcome(State(), err) == Compile(e, old(State()))
      decreases e, 0
    {
      err := CompileExpression(e.condition);
      if err.Some? {
        return;
      }
      ghost var cond := Bytes;
      Bytes := Bytes + [JumpIfFalse, 0, 0];
      var condJump := |Bytes| - 3;
      err := CompileStatement(e.consequence);
      if err.Some? {
        return;
      }
      Bytes := Bytes + [Jump, 0, 0];
      var skipJump := |Bytes| - 3;
      var condIndex := |Bytes|;
      Bytes := Bytes[condJump + 1 := High(condIndex)][condJump + 2 := Low(condIndex)];
      ghost var head := cond + [JumpIfFalse, High(condIndex), Low(condIndex)] + e.consequence.code;
      assert Bytes == head + [Jump, 0, 0];
      err := CompileStatement(e.alternative);
      if err.Some? {
        return;
      }
      var skipIndex := |Bytes|;
      Bytes := Bytes[skipJump + 1 := High(skipIndex)][skipJump + 2 := Low(skipIndex)];
      assert Bytes == head + [Jump, High(skipIndex), Low(skipIndex)] + e.alternative.code;
    }
  }
}
