# Semantic analysis of assignment trees, in Dafny

This project models `semantic.py`, a small semantic-analysis pass over an
expression tree with three kinds of node: `Assignment(variable, value)`,
`BinaryOperation(left, right, operator)` and `Variable(name)`.

- The `SemanticAnalyzer` owns a symbol table of declared names. It walks the
  tree depth-first. An assignment fails if its target is already declared.
  Otherwise it declares the target and then visits the value. A binary
  operation visits its left operand, then its right one. A variable fails if
  its name is undeclared. The first error ends the analysis, and the table
  keeps every name declared before it.
- `print_ast` renders the tree in pre-order. Each node prints its kind and its
  fields, and each child subtree is printed four spaces deeper.

Files:

- `ast.dfy` (module `Ast`): the node datatype, plus the pre-order views of a
  tree. These are its events (declare a target, use a name), its assignment
  targets and its node counts.
- `semantic.dfy` (module `Semantic`): the analysis as a function `Check` of the
  initial table, and the class `Analyzer`. The class has a mutable `table`
  field and one method per `visit_*` method of the source. Each method is
  proved to leave exactly the table `Check` predicts and to raise exactly the
  error `Check` predicts.
- `semantic.dfy` also gives an independent account of the analysis. `Scan` is
  a linear pass over the pre-order events. `Faulty` says, without any pass,
  which event breaks a rule. The lemmas tie the tree walk to both.
- `printer.dfy` (module `Printer`): `print_ast` as a function that returns the
  printed lines.

The assignment target is modelled as a plain name. The demonstration at
`semantic.py:65` passes a `Variable` node as the target, so as written the
table there would hold that node object, not `"x"`. Lines 17-20 use the
target as a symbol-table key, which only makes sense for a name. The model
follows that intent, so the demonstration ends with the table
`{"x", "y", "z"}`.

## Model

| member | source | states |
|---|---|---|
| `Ast.Events` | semantic.py:16-31 | a tree has one event per assignment and one per variable; the operator has none |
| `Semantic.Check` | semantic.py:16-31 | analysis only adds to the table, and adds nothing but assignment targets; on failure a duplicate's name is in the table and an undeclared name is not |
| `Semantic.CheckIsScan` | semantic.py:16-31 | walking the tree depth-first (target before value, left before right) is the same as one pass over the tree's pre-order events |
| `Semantic.ScanOkIff` | semantic.py:16-31 | the pass succeeds exactly when no event breaks a rule, and then the table is the initial one plus every declared name |
| `Semantic.ScanFirstFault` | semantic.py:16-31 | the pass fails at the first event that breaks a rule, with that event's error and the table as it stood just before it |
| `Semantic.AnalysisSucceeds` | semantic.py:16-31 | analysis succeeds iff no declaration in pre-order repeats a known name and no use names an unknown one; on success the final table is the initial table plus every assignment target |
| `Semantic.AnalysisFirstFault` | semantic.py:16-31 | analysis reports the first violation in pre-order (a duplicate or an undeclared name) and leaves the names known at that point |
| `Semantic.AnalysisDeclaresOnce` | semantic.py:16-22 | on success the table grows by exactly one name per assignment, so each target is inserted exactly once and none was declared before |
| `Semantic.UsesOnlyStable` | semantic.py:24-31 | a tree without assignments that passes on a table also passes on any larger table and leaves it unchanged |
| `Semantic.ReanalysisFails` | semantic.py:16-20 | analysis is not idempotent: after a success, running it again on a table that still holds the declared names fails with a duplicate of the first target in pre-order |
| `Semantic.DuplicateSkipsValue` | semantic.py:16-22 | an assignment to a declared name fails as a duplicate with the table unchanged, and its value subtree has no effect on the outcome |
| `Semantic.UseNeverDeclares` | semantic.py:28-31 | a variable passes exactly when its name is declared, and never changes the table |
| `Semantic.LeftErrorWins` | semantic.py:24-26 | an error in the left operand is the one reported, whatever the right operand is; the operator is never inspected |
| `Semantic.SelfReference` | semantic.py:20-22 | the target is declared before its value is visited, so `x = x` passes on a table without `x` and declares it |
| `Semantic.DemoOutcomes` | semantic.py:64-75 | the demonstration tree passes with `y` and `z` seeded, ending with `{x, y, z}`; on an empty table it fails on `y` with only `x` declared |
| `Semantic.Analyzer.constructor` | semantic.py:2-3 | a new analyzer starts with an empty table |
| `Semantic.Analyzer.Analyze` | semantic.py:5-6 | the new table and the raised error are those `Check` gives for the old table |
| `Semantic.Analyzer.Visit` | semantic.py:8-11 | dispatch on the node kind; the new table and the raised error are those `Check` gives |
| `Semantic.Analyzer.VisitAssignment` | semantic.py:16-22 | a declared target raises a duplicate and leaves the table alone; otherwise the table grows and the result is that of `Check` |
| `Semantic.Analyzer.VisitBinaryOperation` | semantic.py:24-26 | left then right, stopping at the first error; the new table and the error are those `Check` gives |
| `Semantic.Analyzer.VisitVariable` | semantic.py:28-31 | raises an undeclared error exactly when the name is not in the table, and changes nothing |
| `Semantic.DemoRun` | semantic.py:64-75 | seeding `y` and `z` and analysing the demonstration tree passes with table `{x, y, z}`; analysing it again on the same analyzer raises a duplicate for `x` |
| `Printer.PrintAst` | semantic.py:33-46 | the first line is the node kind behind the indent; a node prints at least two lines |
| `Printer.PrintAstLineCount` | semantic.py:33-46 | two lines per variable, three per assignment and four per binary operation |
| `Printer.PrintAstIndent` | semantic.py:33-46 | the indent is a pure prefix: printing at a longer indent puts the extra indent in front of every line and changes nothing else |
| `Printer.PrintDemo` | semantic.py:64-78 | the exact eleven lines printed for the demonstration tree |

## Left out

- Dispatch by type name through `getattr`, and the `generic_visit` fallback
  (semantic.py:8-14). Both are replaced by an exhaustive `match` on the closed
  node datatype, so the "not implemented" error cannot arise.
- Output to the terminal. `print_ast` is modelled as the sequence of lines it
  prints. Python's `print(a, b)` joins its arguments with one space, so a label
  line is the label, a space and the value.
- Printing a target that is not a string. The demonstration prints the
  `repr` of a `Variable` object at line 36. That object's text is not
  modelled.
- Exception types and message text. The two errors are the values
  `Duplicate(name)` and `Undeclared(name)` of `SemanticError`.
- The placeholder `None` values of the symbol table. The table is modelled as
  its set of keys, because no value is ever read.
- Object identity and hashing of nodes used as table keys (semantic.py:65 with
  17-20). The target is a name.
- The module-level demonstration script (semantic.py:64-78). It appears only
  in `DemoOutcomes`, `DemoRun` and `PrintDemo`.
