/**
 * The earlier revision of the expression compiler, which handles only
 * numbers and infix operations and knows only `+` and `-`. It works on the
 * same state as the later one (it has no name table, so names are never
 * touched).
 */
module EarlyCompiling {
  import opened Common
  import opened Bytecode
  import opened Ast
  import Objects
  import opened Compiling

  /** The early operator table: `+` and `-`, anything else the zero byte. */
  function EarlyInfixOpcode(op: string): (r: Byte)
    ensures r == 0 || r == BinaryAdd || r == BinarySubtract
    ensures r == 0 <==> op != "+" && op != "-"
  {
    if op == "+" then BinaryAdd
    else if op == "-" then BinarySubtract
    else 0
  }

  /**
   * What the early `CompileExpression` leaves and reports: a number appends
   * its constant and emits byte 10 with the index (or reports the overflow),
   * an infix operation emits left, right, then its opcode, and any other node
   * is not implemented and changes nothing.
   */
  function CompileEarly(e: Expr, u: Unit): (r: Outcome)
    ensures u.bytes <= r.unit.bytes && u.constants <= r.unit.constants
    ensures r.unit.names == u.names
    decreases e
  {
    match e
    case Infix(_, op, left, right) =>
      var l := CompileEarly(left, u);
      if l.err.Some? then l
      else
        var r := CompileEarly(right, l.unit);
        if r.err.Some? then r
        else Outcome(r.unit.(bytes := r.unit.bytes + [EarlyInfixOpcode(op)]), None)
    case Number(_, n) =>
      var constants := u.constants + [Some(Objects.Number(n))];
      var i := |constants| - 1;
      if i >= OperandLimit then Outcome(u.(constants := constants), Some(ConstantIndexOverflow(i)))
      else Outcome(Unit(u.bytes + [10, High(i), Low(i)], constants, u.names), None)
    case _ => Outcome(u, Some(NotImplemented(KindName(e))))
  }

  /** An expression built from numbers and `+`/`-` only. */
  predicate EarlyFragment(e: Expr) {
    match e
    case Number(_, _) => true
    case Infix(_, op, left, right) => (op == "+" || op == "-") && EarlyFragment(left) && EarlyFragment(right)
    case _ => false
  }

  /** On numbers combined with `+` and `-`, the two revisions compile identically. */
  lemma {:induction false} EarlyAgrees(e: Expr, u: Unit)
    requires EarlyFragment(e)
    ensures CompileEarly(e, u) == Compile(e, u)
    decreases e
  {
    match e
    case Number(_, _) =>
      assert LoadConst == 10;
    case Infix(_, op, left, right) =>
      EarlyAgrees(left, u);
      var l := Compile(left, u);
      if l.err.None? {
        EarlyAgrees(right, l.unit);
      }
  }

  /**
   * Outside that fragment they differ: `*` gives the zero byte in the early
   * revision and `BinaryMultiply` in the later one, and a string literal is
   * not implemented in the early revision.
   */
  lemma EarlyDiffers(n: Float, t: string)
    ensures
      var times := Infix("*", "*", Number("1", n), Number("2", n));
      var early := CompileEarly(times, Initial());
      var later := Compile(times, Initial());
      early.err.None? && later.err.None?
      && early.unit.bytes == [10, 0, 16, 10, 0, 17, 0]
      && later.unit.bytes == [10, 0, 16, 10, 0, 17, BinaryMultiply]
    ensures
      CompileEarly(String("\"s\"", t), Initial()) == Outcome(Initial(), Some(NotImplemented("*ast.String")))
      && Compile(String("\"s\"", t), Initial()).err.None?
  {
    var u := Initial();
    var one := Number("1", n);
    var u1 := Compile(one, u).unit;
    assert u1.bytes == [LoadConst, 0, 16] && |u1.constants| == 17;
    assert CompileEarly(one, u).unit == u1;
    var u2 := Compile(Number("2", n), u1).unit;
    assert u2.bytes == [LoadConst, 0, 16, LoadConst, 0, 17];
    assert CompileEarly(Number("2", n), u1).unit == u2;
  }
}
