/**
  The tree printer: a read-only pre-order rendering of a tree, one output
  line per element of the returned sequence. Labels are in Portuguese as
  in the source; a label followed by a value is joined to it by one space.
 */
module Printer {
  import opened Ast

  /** The indent added for each level of children. */
  const Step: string := "    "

  /** The lines printed for `n` at the given indent: the node kind, then
      its fields, with each child subtree printed one level deeper. Every
      line the node prints itself is its label behind the indent. */
  function PrintAst(n: Node, indent: string): (lines: seq<string>)
    ensures |lines| >= 2 && lines[0] == indent + KindName(n)
  {
    match n
    case Assignment(v, value) =>
      Indented(indent, ["Assignment", "  Variavel: " + v, "  Valor:"])
      + PrintAst(value, indent + Step)
    case BinaryOperation(l, r, op) =>
      Indented(indent, ["BinaryOperation", "  Operador: " + op, "  Operador Esquerdo:"])
      + PrintAst(l, indent + Step)
      + Indented(indent, ["  Operador Direito:"])
      + PrintAst(r, indent + Step)
    case Variable(x) =>
      Indented(indent, ["Variable", "  Nome: " + x])
  }

  /** Every line of `lines` with `prefix` put in front. */
  function Indented(prefix: string, lines: seq<string>): (r: seq<string>)
    ensures |r| == |lines|
    ensures forall k | 0 <= k < |r| :: r[k] == prefix + lines[k]
  {
    seq(|lines|, k requires 0 <= k < |lines| => prefix + lines[k])
  }

  /** Two lines per variable, three per assignment (plus its value's) and
      four per binary operation (plus its operands'). */
  lemma {:induction false} PrintAstLineCount(n: Node, indent: string)
    ensures |PrintAst(n, indent)| == 2 * Variables(n) + 3 * |Targets(n)| + 4 * BinaryOperations(n)
  {
    match n
    case Assignment(_, value) =>
      PrintAstLineCount(value, indent + Step);
    case BinaryOperation(l, r, _) =>
      PrintAstLineCount(l, indent + Step);
      PrintAstLineCount(r, indent + Step);
    case Variable(_) =>
  }

  /** The indent is a pure prefix: printing at indent `p + q` is printing
      at `q` and putting `p` in front of every line. */
  lemma {:induction false} PrintAstIndent(n: Node, p: string, q: string)
    ensures PrintAst(n, p + q) == Indented(p, PrintAst(n, q))
  {
    assert p + q + Step == p + (q + Step);
    match n
    case Assignment(v, value) =>
      var head := ["Assignment", "  Variavel: " + v, "  Valor:"];
      PrintAstIndent(value, p, q + Step);
      IndentedAppend(p, Indented(q, head), PrintAst(value, q + Step));
      IndentedTwice(p, q, head);
    case BinaryOperation(l, r, op) =>
      var head := ["BinaryOperation", "  Operador: " + op, "  Operador Esquerdo:"];
      var mid := ["  Operador Direito:"];
      var left, right := PrintAst(l, q + Step), PrintAst(r, q + Step);
      PrintAstIndent(l, p, q + Step);
      PrintAstIndent(r, p, q + Step);
      IndentedAppend(p, Indented(q, head) + left + Indented(q, mid), right);
      IndentedAppend(p, Indented(q, head) + left, Indented(q, mid));
      IndentedAppend(p, Indented(q, head), left);
      IndentedTwice(p, q, head);
      IndentedTwice(p, q, mid);
    case Variable(x) =>
      IndentedTwice(p, q, ["Variable", "  Nome: " + x]);
  }

  lemma IndentedTwice(p: string, q: string, lines: seq<string>)
    ensures Indented(p, Indented(q, lines)) == Indented(p + q, lines)
  {
    forall k | 0 <= k < |lines| ensures p + (q + lines[k]) == (p + q) + lines[k] {
    }
  }

  lemma IndentedAppend(prefix: string, a: seq<string>, b: seq<string>)
    ensures Indented(prefix, a + b) == Indented(prefix, a) + Indented(prefix, b)
  {
  }

  /** The two operands of the source's demonstration tree, printed two
      levels deep. */
  lemma PrintDemoOperands()
    ensures PrintAst(Variable("y"), Step + Step) == ["        Variable", "          Nome: y"]
    ensures PrintAst(Variable("z"), Step + Step) == ["        Variable", "          Nome: z"]
  {
    var y, z := PrintAst(Variable("y"), Step + Step), PrintAst(Variable("z"), Step + Step);
    assert y[0] == Step + Step + "Variable" == "        Variable";
    assert y[1] == Step + Step + ("  Nome: " + "y") == "          Nome: y";
    assert z[0] == Step + Step + "Variable" == "        Variable";
    assert z[1] == Step + Step + ("  Nome: " + "z") == "          Nome: z";
  }

  /** The header of the operation y + z of the source's demonstration
      tree, one level deep. */
  lemma PrintDemoOperationHeader()
    ensures Indented(Step, ["BinaryOperation", "  Operador: " + "+", "  Operador Esquerdo:"])
      == ["    BinaryOperation", "      Operador: +", "      Operador Esquerdo:"]
  {
    assert Step + "BinaryOperation" == "    BinaryOperation";
    assert Step + ("  Operador: " + "+") == "      Operador: +";
    assert Step + "  Operador Esquerdo:" == "      Operador Esquerdo:";
  }

  /** The label before the right operand, one level deep. */
  lemma PrintDemoOperationMiddle()
    ensures Indented(Step, ["  Operador Direito:"]) == ["      Operador Direito:"]
  {
    var mid := Indented(Step, ["  Operador Direito:"]);
    assert mid[0] == Step + "  Operador Direito:" == "      Operador Direito:";
  }

  /** The operation y + z of the source's demonstration tree, printed one
      level deep. */
  lemma PrintDemoOperation()
    ensures PrintAst(BinaryOperation(Variable("y"), Variable("z"), "+"), Step) == [
      "    BinaryOperation",
      "      Operador: +",
      "      Operador Esquerdo:",
      "        Variable",
      "          Nome: y",
      "      Operador Direito:",
      "        Variable",
      "          Nome: z"
    ]
  {
    PrintDemoOperands();
    PrintDemoOperationHeader();
    PrintDemoOperationMiddle();
  }

  /** The rendering of the source's demonstration tree x = y + z (with the
      target shown as its name). */
  lemma PrintDemo()
    ensures PrintAst(Demo(), "") == [
      "Assignment",
      "  Variavel: x",
      "  Valor:",
      "    BinaryOperation",
      "      Operador: +",
      "      Operador Esquerdo:",
      "        Variable",
      "          Nome: y",
      "      Operador Direito:",
      "        Variable",
      "          Nome: z"
    ]
  {
    PrintDemoOperation();
    assert "" + Step == Step;
    var head := Indented("", ["Assignment", "  Variavel: " + "x", "  Valor:"]);
    assert head[0] == "" + "Assignment" == "Assignment";
    assert head[1] == "" + ("  Variavel: " + "x") == "  Variavel: x";
    assert head[2] == "" + "  Valor:" == "  Valor:";
  }
}
