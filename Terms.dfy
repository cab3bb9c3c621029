/**
 * The expression syntax tree the value parser builds. Evaluation of terms
 * other than list literals is not part of this model; only the shape of the
 * tree is.
 */
module Terms {
  import opened Wrappers
  import opened Tokens

  /** The operator of a unary term: prefix `+`, `-` or `not`. */
  datatype UnaryOp = Positive | Negative | LogicalNot

  /** One `key: value` pair of a map literal. */
  datatype Entry = Entry(key: string, value: Term)

  /** An expression term. Omitted slice parts are `None` (Java's null). */
  datatype Term =
    | Value(literal: Literal)
    | Variable(name: string)
    | Unary(op: UnaryOp, operand: Term)
    | Index(target: Term, index: Term)
    | Slice(target: Term, start: Option<Term>, stop: Option<Term>, step: Option<Term>)
    | List(items: seq<Term>)
    | Map(entries: seq<Entry>)
    | Function(name: string, args: seq<Term>)

  predicate IsUnarySymbol(s: Symbol)
  {
    s == Plus || s == Minus || s == Not
  }

  /** The unary operator a prefix symbol denotes. */
  function UnaryOperator(s: Symbol): (op: UnaryOp)
    requires IsUnarySymbol(s)
    ensures OperatorSymbol(op) == s
  {
    match s
    case Plus => Positive
    case Minus => Negative
    case Not => LogicalNot
  }

  /** The prefix symbol that denotes a unary operator. */
  function OperatorSymbol(op: UnaryOp): (s: Symbol)
    ensures IsUnarySymbol(s)
  {
    match op
    case Positive => Plus
    case Negative => Minus
    case LogicalNot => Not
  }

  /** No key occurs twice. */
  predicate DistinctKeys(entries: seq<Entry>)
  {
    forall i, j :: 0 <= i < j < |entries| ==> entries[i].key != entries[j].key
  }
}
