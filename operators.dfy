/**
 * The boolean operator layer: the `and_` / `or_` tags and the `and`, `or`
 * and `not` operators, which only build expression nodes.  The type checks
 * the source makes at compile time are preconditions here.
 */
module BooleanOperators {

  /** The value domain of an expression; only `Boolean` belongs to this core. */
  datatype ValueType = Boolean | OtherDomain(name: string)

  /** The operator tags `detail::and_` and `detail::or_`. */
  datatype BinaryTag = And | Or {

    /** `_name`: the token a dialect renders verbatim. */
    function Name(): string {
      match this
      case And => "AND"
      case Or => "OR"
    }

    /** `_value_type`: both operators yield a boolean. */
    function ResultType(): ValueType {
      Boolean
    }
  }

  /**
   * An expression tree.  `Operand` is any expression the operators receive
   * from outside this core (a column, a parameter, a literal, a subquery),
   * seen only through its value type and whether it is a multi-expression.
   */
  datatype Expr =
    | Operand(name: string, valueType: ValueType, isMulti: bool)
    | Binary(lhs: Expr, tag: BinaryTag, rhs: Expr)
    | Not(operand: Expr)

  function TypeOf(e: Expr): ValueType {
    match e
    case Operand(_, t, _) => t
    case Binary(_, tag, _) => tag.ResultType()
    case Not(_) => Boolean
  }

  /** Only operands can be multi-expressions; the nodes built here are single values. */
  predicate IsMultiExpression(e: Expr) {
    e.Operand? && e.isMulti
  }

  /** `_constraint<T>`: an operand of a boolean operator is of the boolean domain. */
  predicate SatisfiesConstraint(e: Expr) {
    TypeOf(e) == Boolean
  }

  /** Every node of `e` was built through the checks of `and`, `or` and `not`. */
  predicate WellFormed(e: Expr) {
    match e
    case Operand(_, _, _) => true
    case Binary(l, _, r) =>
      SatisfiesConstraint(l) && SatisfiesConstraint(r) && !IsMultiExpression(l) && WellFormed(l) && WellFormed(r)
    case Not(x) => SatisfiesConstraint(x) && !IsMultiExpression(x) && WellFormed(x)
  }

  /** The operands of `e`, left to right. */
  function Operands(e: Expr): seq<Expr> {
    match e
    case Operand(_, _, _) => [e]
    case Binary(l, _, r) => Operands(l) + Operands(r)
    case Not(x) => Operands(x)
  }

  /** `operator and`: a boolean expression `lhs AND rhs`; nothing is evaluated. */
  function MakeAnd(lhs: Expr, rhs: Expr): (e: Expr)
    requires SatisfiesConstraint(lhs) && SatisfiesConstraint(rhs)
    requires !IsMultiExpression(lhs)
    ensures e.Binary? && e.lhs == lhs && e.rhs == rhs && e.tag.Name() == "AND"
    ensures SatisfiesConstraint(e) && !IsMultiExpression(e)
    ensures WellFormed(e) <==> WellFormed(lhs) && WellFormed(rhs)
    ensures Operands(e) == Operands(lhs) + Operands(rhs)
  {
    Binary(lhs, And, rhs)
  }

  /** `operator or`: a boolean expression `lhs OR rhs`; nothing is evaluated. */
  function MakeOr(lhs: Expr, rhs: Expr): (e: Expr)
    requires SatisfiesConstraint(lhs) && SatisfiesConstraint(rhs)
    requires !IsMultiExpression(lhs)
    ensures e.Binary? && e.lhs == lhs && e.rhs == rhs && e.tag.Name() == "OR"
    ensures SatisfiesConstraint(e) && !IsMultiExpression(e)
    ensures WellFormed(e) <==> WellFormed(lhs) && WellFormed(rhs)
    ensures Operands(e) == Operands(lhs) + Operands(rhs)
  {
    Binary(lhs, Or, rhs)
  }

  /** `operator not`: the negation of `operand`; nothing is evaluated. */
  function MakeNot(operand: Expr): (e: Expr)
    requires SatisfiesConstraint(operand)
    requires !IsMultiExpression(operand)
    ensures e.Not? && e.operand == operand
    ensures SatisfiesConstraint(e) && !IsMultiExpression(e)
    ensures WellFormed(e) <==> WellFormed(operand)
    ensures Operands(e) == Operands(operand)
  {
    Not(operand)
  }

  /** `and_` renders as "AND" and `or_` as "OR": distinct tokens, so a token names its tag. */
  lemma TagNames(a: BinaryTag, b: BinaryTag)
    ensures And.Name() == "AND" && Or.Name() == "OR"
    ensures a.Name() == b.Name() <==> a == b
  {
  }

  /** Both tags declare the boolean value type, so every node they tag is boolean. */
  lemma TagValueTypes(tag: BinaryTag, lhs: Expr, rhs: Expr)
    ensures tag.ResultType() == Boolean
    ensures TypeOf(Binary(lhs, tag, rhs)) == Boolean
  {
  }
}
