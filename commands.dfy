/**
 * The command tree that the calculator builds: literals, unary and binary
 * operator nodes, and the memoizing wrapper that the engine puts around
 * every node it pushes. Forcing a command is `Apply`, reverting it is
 * `Undo`, and `Size` counts its nodes.
 */
module Commands {
  import opened Stacks

  /** What a failed arithmetic operation reports (an exception in the source). */
  datatype Failure = ArithmeticFailure(reason: string)

  /** The outcome of forcing a command: a failure on the left, a value on the right. */
  datatype Either<E> = Left(failure: Failure) | Right(value: E)

  /**
   * The capabilities of the operand type (add, subtract, multiply, divide,
   * sqrt); each of them may fail, which the source signals by throwing.
   */
  datatype Arithmetic<!E> = Arithmetic(
    add: (E, E) -> Either<E>,
    subtract: (E, E) -> Either<E>,
    multiply: (E, E) -> Either<E>,
    divide: (E, E) -> Either<E>,
    sqrt: E -> Either<E>)

  datatype BinaryOperator = Multiply | Add | Divide | Subtract

  datatype UnaryOperator = Sqrt

  /**
   * A node of the tree. `Cached(inner)` is the memoizing wrapper: it forces
   * `inner` at most once (see module Caching for its state) and otherwise
   * passes undo and size straight through.
   */
  datatype Command<E> =
    | Element(elem: E)
    | Unary(uop: UnaryOperator, arg: Command<E>)
    | Binary(bop: BinaryOperator, left: Command<E>, right: Command<E>)
    | Cached(inner: Command<E>)

  /** The operand method each binary operator calls: `left OP right`. */
  function ApplyBinary<E>(arith: Arithmetic<E>, op: BinaryOperator, left: E, right: E): Either<E>
  {
    match op
    case Multiply => arith.multiply(left, right)
    case Add => arith.add(left, right)
    case Divide => arith.divide(left, right)
    case Subtract => arith.subtract(left, right)
  }

  function ApplyUnary<E>(arith: Arithmetic<E>, op: UnaryOperator, operand: E): Either<E>
  {
    match op
    case Sqrt => arith.sqrt(operand)
  }

  /**
   * Forces a command. Children are forced left to right and the first
   * failure is returned as it is; only when every child succeeds is the
   * operator applied.
   */
  function Apply<E>(arith: Arithmetic<E>, c: Command<E>): Either<E>
  {
    match c
    case Element(e) => Right(e)
    case Unary(op, arg) =>
      var x := Apply(arith, arg);
      if x.Left? then x else ApplyUnary(arith, op, x.value)
    case Binary(op, left, right) =>
      var x := Apply(arith, left);
      if x.Left? then x
      else
        var y := Apply(arith, right);
        if y.Left? then y else ApplyBinary(arith, op, x.value, y.value)
    case Cached(inner) => Apply(arith, inner)
  }

  /**
   * The commands whose apply() runs, in call order, when `c` is forced with
   * every wrapper still unresolved. This defines the call order of the
   * source's apply() methods (itself first, then the left operand, then the
   * right one only when the left succeeded); it is read off the source, not
   * derived from `Apply`.
   */
  function Forced<E>(arith: Arithmetic<E>, c: Command<E>): seq<Command<E>>
  {
    match c
    case Element(_) => [c]
    case Unary(_, arg) =>
      [c] + Forced(arith, arg)
    case Binary(_, left, right) =>
      [c] + Forced(arith, left) + (if Apply(arith, left).Left? then [] else Forced(arith, right))
    case Cached(inner) => [c] + Forced(arith, inner)
  }

  /** The direct children of a node, in their original order; none for a literal. */
  function Undo<E>(c: Command<E>): seq<Command<E>>
  {
    match c
    case Element(_) => []
    case Unary(_, arg) => [arg]
    case Binary(_, left, right) => [left, right]
    case Cached(inner) => Undo(inner)
  }

  /** The number of operand and operator nodes in the tree (wrappers are not counted). */
  function Size<E>(c: Command<E>): (n: nat)
    ensures n >= 1
  {
    match c
    case Element(_) => 1
    case Unary(_, arg) => 1 + Size(arg)
    case Binary(_, left, right) => 1 + Size(left) + Size(right)
    case Cached(inner) => Size(inner)
  }

  /** Every node is one more than the sizes of the children that undo exposes. */
  lemma {:induction false} SizeIsOnePlusChildren<E>(c: Command<E>)
    ensures Size(c) == 1 + SumOf(Size, Undo(c))
  {
    match c
    case Element(_) =>
    case Unary(_, arg) =>
      assert [arg][..0] == [];
    case Binary(_, left, right) =>
      assert [left, right][..1] == [left];
      assert [left][..0] == [];
      assert SumOf(Size, [left]) == Size(left);
    case Cached(inner) =>
      SizeIsOnePlusChildren(inner);
  }

  /** Hence each child that undo exposes is strictly smaller than its parent. */
  lemma ChildrenAreSmaller<E>(c: Command<E>)
    ensures forall i :: 0 <= i < |Undo(c)| ==> Size(Undo(c)[i]) < Size(c)
  {
    SizeIsOnePlusChildren(c);
  }

  /**
   * A binary node forces its left operand first: a left failure is the
   * result and the right operand is never forced; then a right failure is
   * the result; otherwise the operator is applied to (left, right).
   */
  lemma BinaryForcesLeftThenRight<E>(arith: Arithmetic<E>, op: BinaryOperator, left: Command<E>, right: Command<E>)
    ensures var b := Binary(op, left, right);
      && (Apply(arith, left).Left? ==>
            Apply(arith, b) == Apply(arith, left) && Forced(arith, b) == [b] + Forced(arith, left))
      && (Apply(arith, left).Right? && Apply(arith, right).Left? ==>
            Apply(arith, b) == Apply(arith, right) &&
            Forced(arith, b) == [b] + Forced(arith, left) + Forced(arith, right))
      && (Apply(arith, left).Right? && Apply(arith, right).Right? ==>
            Apply(arith, b) == ApplyBinary(arith, op, Apply(arith, left).value, Apply(arith, right).value))
  {
  }

  /** A wrapper changes neither the value, nor the children, nor the size of what it wraps. */
  lemma CachedIsTransparent<E>(arith: Arithmetic<E>, c: Command<E>)
    ensures Apply(arith, Cached(c)) == Apply(arith, c)
    ensures Undo(Cached(c)) == Undo(c)
    ensures Size(Cached(c)) == Size(c)
  {
  }
}
