/**
  The abstract syntax tree the semantic analyzer walks: three node kinds,
  plus the pre-order views of a tree that the analyzer's specification
  is stated against.
 */
module Ast {

  /** A node of the tree. The tree is immutable; every child is owned by
      exactly one parent.

      The assignment target is a plain identifier. (The demonstration at
      the bottom of the source builds it from a `Variable` node, but the
      analyzer uses the target directly as a symbol-table key, which only
      makes sense for a name.) */
  datatype Node =
    | Assignment(variable: string, value: Node)
    | BinaryOperation(left: Node, right: Node, operator: string)
    | Variable(name: string)

  /** The tree the source builds as its demonstration: x = y + z. */
  function Demo(): Node {
    Assignment("x", BinaryOperation(Variable("y"), Variable("z"), "+"))
  }

  /** The class name the printer shows for a node. */
  function KindName(n: Node): string {
    match n
    case Assignment(_, _) => "Assignment"
    case BinaryOperation(_, _, _) => "BinaryOperation"
    case Variable(_) => "Variable"
  }

  /** What the analyzer does at a node, in visiting order: an assignment
      declares its target, a variable uses its name. */
  datatype Event = Declare(name: string) | Use(name: string)

  /** The events of a tree in depth-first pre-order: an assignment's
      declaration comes before the events of its value, and the left
      operand's events before the right operand's. The operator has no
      event. */
  function Events(n: Node): (evs: seq<Event>)
    ensures |evs| == |Targets(n)| + Variables(n)
  {
    match n
    case Assignment(v, value) => [Declare(v)] + Events(value)
    case BinaryOperation(l, r, _) => Events(l) + Events(r)
    case Variable(x) => [Use(x)]
  }

  /** The assignment targets of a tree, in pre-order. */
  function Targets(n: Node): seq<string> {
    match n
    case Assignment(v, value) => [v] + Targets(value)
    case BinaryOperation(l, r, _) => Targets(l) + Targets(r)
    case Variable(_) => []
  }

  /** The number of variable (use) nodes in a tree. */
  function Variables(n: Node): nat {
    match n
    case Assignment(_, value) => Variables(value)
    case BinaryOperation(l, r, _) => Variables(l) + Variables(r)
    case Variable(_) => 1
  }

  /** The number of binary-operation nodes in a tree. */
  function BinaryOperations(n: Node): nat {
    match n
    case Assignment(_, value) => BinaryOperations(value)
    case BinaryOperation(l, r, _) => 1 + BinaryOperations(l) + BinaryOperations(r)
    case Variable(_) => 0
  }

  /** The names declared by a sequence of events, in order. */
  function DeclaredNames(evs: seq<Event>): seq<string> {
    if evs == [] then []
    else (if evs[0].Declare? then [evs[0].name] else []) + DeclaredNames(evs[1..])
  }

  lemma {:induction false} DeclaredNamesAppend(a: seq<Event>, b: seq<Event>)
    ensures DeclaredNames(a + b) == DeclaredNames(a) + DeclaredNames(b)
  {
    if a != [] {
      assert (a + b)[0] == a[0] && (a + b)[1..] == a[1..] + b;
      DeclaredNamesAppend(a[1..], b);
    } else {
      assert a + b == b;
    }
  }

  /** The declarations among a tree's events are exactly its assignment
      targets, in the same order. */
  lemma {:induction false} DeclaredNamesOfEvents(n: Node)
    ensures DeclaredNames(Events(n)) == Targets(n)
  {
    match n
    case Assignment(v, value) =>
      DeclaredNamesAppend([Declare(v)], Events(value));
      DeclaredNamesOfEvents(value);
    case BinaryOperation(l, r, _) =>
      DeclaredNamesAppend(Events(l), Events(r));
      DeclaredNamesOfEvents(l);
      DeclaredNamesOfEvents(r);
    case Variable(x) =>
  }
}
