/**
  The semantic analyzer: a declaration-before-use check over the tree of
  module Ast, with a flat symbol table of declared names.

  `Check` is the analysis as a function of the initial table; the class
  `Analyzer` is the stateful visitor, whose methods are proved to do what
  `Check` says. `Scan` and `Faulty` give an independent account of the
  same analysis over the pre-order events of the tree.
 */
module Semantic {
  import opened Ast

  datatype Option<T> = None | Some(value: T)

  /** The two ways analysis rejects a program. */
  datatype SemanticError = Duplicate(name: string) | Undeclared(name: string)

  /** The outcome of an analysis together with the symbol table it leaves
      behind. A failing analysis stops at once, so its table holds exactly
      the names declared before the failure. */
  datatype Result = Ok(table: set<string>) | Err(error: SemanticError, table: set<string>) {
    /** The error, if any, that the analysis raises. */
    function Raised(): Option<SemanticError> {
      if Ok? then None else Some(error)
    }
  }

  /** The set of names in a sequence. */
  function Elems(s: seq<string>): set<string> {
    set x | x in s
  }

  /** Analysis of tree `n` starting from the table `t`: an assignment
      fails if its target is declared and otherwise declares it before its
      value is visited; a binary operation visits left, then right; a
      variable fails if its name is undeclared. The first failure ends the
      analysis. */
  function Check(t: set<string>, n: Node): (r: Result)
    ensures t <= r.table <= t + Elems(Targets(n))
    ensures r.Err? ==> (r.error.Duplicate? <==> r.error.name in r.table)
    decreases n
  {
    match n
    case Assignment(v, value) =>
      if v in t then Err(Duplicate(v), t) else Check(t + {v}, value)
    case BinaryOperation(l, r, _) =>
      var a := Check(t, l);
      if a.Err? then a else Check(a.table, r)
    case Variable(x) =>
      if x in t then Ok(t) else Err(Undeclared(x), t)
  }

  // ---------------------------------------------------------------------
  // The same analysis over the flattened pre-order events of the tree.

  /** One left-to-right pass over events with the same rules as `Check`. */
  function Scan(t: set<string>, evs: seq<Event>): Result
    decreases |evs|
  {
    if evs == [] then Ok(t)
    else match evs[0]
      case Declare(x) => if x in t then Err(Duplicate(x), t) else Scan(t + {x}, evs[1..])
      case Use(x) => if x in t then Scan(t, evs[1..]) else Err(Undeclared(x), t)
  }

  lemma {:induction false} ScanAppend(t: set<string>, a: seq<Event>, b: seq<Event>)
    ensures Scan(t, a + b) == (var s := Scan(t, a); if s.Err? then s else Scan(s.table, b))
    decreases |a|
  {
    if a != [] {
      assert (a + b)[0] == a[0];
      assert (a + b)[1..] == a[1..] + b;
      match a[0]
      case Declare(x) => if x !in t { ScanAppend(t + {x}, a[1..], b); }
      case Use(x) => if x in t { ScanAppend(t, a[1..], b); }
    } else {
      assert a + b == b;
    }
  }

  /** Walking the tree is scanning its pre-order events. */
  lemma {:induction false} CheckIsScan(t: set<string>, n: Node)
    ensures Check(t, n) == Scan(t, Events(n))
    decreases n
  {
    match n
    case Assignment(v, value) =>
      ScanAppend(t, [Declare(v)], Events(value));
      if v !in t { CheckIsScan(t + {v}, value); }
    case BinaryOperation(l, r, _) =>
      ScanAppend(t, Events(l), Events(r));
      CheckIsScan(t, l);
      if Check(t, l).Ok? { CheckIsScan(Check(t, l).table, r); }
    case Variable(x) =>
  }

  /** The names known before event `i`: the initial table and every name
      declared by an earlier event. */
  function Known(t: set<string>, evs: seq<Event>, i: nat): set<string>
    requires i <= |evs|
  {
    t + Elems(DeclaredNames(evs[..i]))
  }

  /** Event `i` violates a rule: a declaration of a known name, or a use
      of an unknown one. */
  predicate Faulty(t: set<string>, evs: seq<Event>, i: nat)
    requires i < |evs|
  {
    match evs[i]
    case Declare(x) => x in Known(t, evs, i)
    case Use(x) => x !in Known(t, evs, i)
  }

  /** The error a faulty event raises. */
  function ErrorOf(e: Event): SemanticError {
    match e
    case Declare(x) => Duplicate(x)
    case Use(x) => Undeclared(x)
  }

  /** What the first event adds to the table. */
  function Adds(e: Event): set<string> {
    if e.Declare? then {e.name} else {}
  }

  /** Dropping the first event moves its declaration into the table. */
  lemma KnownShift(t: set<string>, evs: seq<Event>, i: nat)
    requires 0 < |evs| && i < |evs|
    ensures Known(t, evs, i + 1) == Known(t + Adds(evs[0]), evs[1..], i)
  {
    var p := evs[..i + 1];
    assert p[0] == evs[0] && p[1..] == evs[1..][..i];
    assert DeclaredNames(p) == (if evs[0].Declare? then [evs[0].name] else []) + DeclaredNames(evs[1..][..i]);
  }

  /** A first event that is not faulty moves its declaration into the
      table and the scan goes on with the rest. */
  lemma ScanStep(t: set<string>, evs: seq<Event>)
    requires 0 < |evs| && !Faulty(t, evs, 0)
    ensures Scan(t, evs) == Scan(t + Adds(evs[0]), evs[1..])
  {
    assert Known(t, evs, 0) == t by { assert evs[..0] == []; }
    if evs[0].Use? {
      assert t + Adds(evs[0]) == t;
    }
  }

  lemma FaultyShift(t: set<string>, evs: seq<Event>, i: nat)
    requires 0 < |evs| && i + 1 < |evs|
    ensures Faulty(t, evs, i + 1) == Faulty(t + Adds(evs[0]), evs[1..], i)
  {
    KnownShift(t, evs, i);
  }

  /** A scan succeeds exactly when no event is faulty, and then the table
      holds the initial names plus every declared name. */
  lemma {:induction false} ScanOkIff(t: set<string>, evs: seq<Event>)
    ensures Scan(t, evs).Ok? <==> forall i | 0 <= i < |evs| :: !Faulty(t, evs, i)
    ensures Scan(t, evs).Ok? ==> Scan(t, evs).table == Known(t, evs, |evs|)
    decreases |evs|
  {
    if evs != [] {
      var e, rest := evs[0], evs[1..];
      var t' := t + Adds(e);
      assert Known(t, evs, 0) == t by { assert evs[..0] == []; }
      ScanOkIff(t', rest);
      if !Faulty(t, evs, 0) { ScanStep(t, evs); }
      forall i | 0 <= i < |rest|
        ensures Faulty(t, evs, i + 1) == Faulty(t', rest, i)
      {
        FaultyShift(t, evs, i);
      }
      KnownShift(t, evs, |rest|);
      assert evs[1..][..|rest|] == rest;
      assert evs[..|evs|] == evs;
      if Faulty(t, evs, 0) {
        assert Scan(t, evs).Err?;
      } else if (forall i | 0 <= i < |evs| :: !Faulty(t, evs, i)) {
        assert forall i | 0 <= i < |rest| :: !Faulty(t', rest, i) by {
          forall i | 0 <= i < |rest| ensures !Faulty(t', rest, i) {
            assert !Faulty(t, evs, i + 1);
          }
        }
      } else {
        var k :| 0 <= k < |evs| && Faulty(t, evs, k);
        assert Faulty(t', rest, k - 1);
      }
    }
  }

  /** A scan fails at its first faulty event, with that event's error and
      the table as it stood just before it. */
  lemma {:induction false} ScanFirstFault(t: set<string>, evs: seq<Event>, i: nat)
    requires i < |evs| && Faulty(t, evs, i)
    requires forall j | 0 <= j < i :: !Faulty(t, evs, j)
    ensures Scan(t, evs) == Err(ErrorOf(evs[i]), Known(t, evs, i))
    decreases i
  {
    assert Known(t, evs, 0) == t by { assert evs[..0] == []; }
    if i > 0 {
      var t' := t + Adds(evs[0]);
      assert !Faulty(t, evs, 0);
      ScanStep(t, evs);
      forall j | 0 <= j < i - 1 ensures !Faulty(t', evs[1..], j) {
        FaultyShift(t, evs, j);
      }
      FaultyShift(t, evs, i - 1);
      KnownShift(t, evs, i - 1);
      ScanFirstFault(t', evs[1..], i - 1);
    }
  }

  // ---------------------------------------------------------------------
  // What analysis of a tree promises.

  /** Analysis succeeds exactly when no declaration in pre-order repeats a
      known name and no use mentions an unknown one; on success the table
      is the initial one plus every assignment target. */
  lemma AnalysisSucceeds(t: set<string>, n: Node)
    ensures Check(t, n).Ok? <==> forall i | 0 <= i < |Events(n)| :: !Faulty(t, Events(n), i)
    ensures Check(t, n).Ok? ==> Check(t, n).table == t + Elems(Targets(n))
  {
    CheckIsScan(t, n);
    ScanOkIff(t, Events(n));
    DeclaredNamesOfEvents(n);
    assert Events(n)[..|Events(n)|] == Events(n);
  }

  /** Analysis reports the first violation in pre-order, and leaves the
      table holding the names known at that point. */
  lemma AnalysisFirstFault(t: set<string>, n: Node, i: nat)
    requires i < |Events(n)| && Faulty(t, Events(n), i)
    requires forall j | 0 <= j < i :: !Faulty(t, Events(n), j)
    ensures Check(t, n) == Err(ErrorOf(Events(n)[i]), Known(t, Events(n), i))
  {
    CheckIsScan(t, n);
    ScanFirstFault(t, Events(n), i);
  }

  /** On success every assignment target was inserted exactly once: the
      table grew by one name per assignment. */
  lemma {:induction false} AnalysisDeclaresOnce(t: set<string>, n: Node)
    ensures Check(t, n).Ok? ==> |Check(t, n).table| == |t| + |Targets(n)|
    decreases n
  {
    match n
    case Assignment(v, value) =>
      if v !in t { AnalysisDeclaresOnce(t + {v}, value); }
    case BinaryOperation(l, r, _) =>
      AnalysisDeclaresOnce(t, l);
      if Check(t, l).Ok? { AnalysisDeclaresOnce(Check(t, l).table, r); }
    case Variable(_) =>
  }

  /** A tree that declares nothing succeeds on any larger table than one
      it succeeded on, and leaves that table unchanged. */
  lemma {:induction false} UsesOnlyStable(t: set<string>, s: set<string>, n: Node)
    requires Targets(n) == [] && t <= s && Check(t, n).Ok?
    ensures Check(s, n) == Ok(s)
    decreases n
  {
    match n
    case Assignment(_, _) =>
    case BinaryOperation(l, r, _) =>
      UsesOnlyStable(t, s, l);
      UsesOnlyStable(Check(t, l).table, s, r);
    case Variable(_) =>
  }

  /** Analysis is not idempotent: after a success, analysing a tree that
      declares anything again, on a table that still holds the names the
      first run declared, fails on a duplicate of its first target. */
  lemma {:induction false} ReanalysisFails(t: set<string>, s: set<string>, n: Node)
    requires Check(t, n).Ok? && Check(t, n).table <= s && Targets(n) != []
    ensures Check(s, n) == Err(Duplicate(Targets(n)[0]), s)
    decreases n
  {
    match n
    case Assignment(v, value) =>
    case BinaryOperation(l, r, _) =>
      if Targets(l) != [] {
        ReanalysisFails(t, s, l);
      } else {
        UsesOnlyStable(t, s, l);
        ReanalysisFails(Check(t, l).table, s, r);
      }
    case Variable(_) =>
  }

  /** A declared target fails as a duplicate without its value being
      visited: the value has no bearing on the outcome. */
  lemma DuplicateSkipsValue(t: set<string>, v: string, value: Node, other: Node)
    requires v in t
    ensures Check(t, Assignment(v, value)) == Err(Duplicate(v), t)
    ensures Check(t, Assignment(v, value)) == Check(t, Assignment(v, other))
  {
  }

  /** A use fails exactly when its name is undeclared, and never changes
      the table. */
  lemma UseNeverDeclares(t: set<string>, x: string)
    ensures Check(t, Variable(x)).Ok? <==> x in t
    ensures Check(t, Variable(x)).table == t
  {
  }

  /** An error in the left operand is the one reported, whatever the right
      operand holds; the operator is never inspected. */
  lemma LeftErrorWins(t: set<string>, l: Node, r: Node, r': Node, op: string, op': string)
    requires Check(t, l).Err?
    ensures Check(t, BinaryOperation(l, r, op)) == Check(t, l)
    ensures Check(t, BinaryOperation(l, r, op)) == Check(t, BinaryOperation(l, r', op'))
  {
  }

  /** The target is declared before its value is visited, so a value that
      refers to its own target is accepted. */
  lemma SelfReference(t: set<string>, x: string)
    requires x !in t
    ensures Check(t, Assignment(x, Variable(x))) == Ok(t + {x})
  {
  }

  /** With `y` and `z` declared beforehand the demonstration passes and
      declares `x`; on an empty table it fails on `y`, the left operand,
      after `x` has been declared. */
  lemma DemoOutcomes()
    ensures Check({"y", "z"}, Demo()) == Ok({"x", "y", "z"})
    ensures Check({}, Demo()) == Err(Undeclared("y"), {"x"})
  {
  }

  // ---------------------------------------------------------------------
  // The stateful visitor.

  /** The analyzer object. Its symbol table is a dictionary in the source
      whose values are all placeholders, so only its key set is modelled.
      Callers may seed the table directly before analysing. */
  class Analyzer {
    var table: set<string>

    constructor ()
      ensures table == {}
    {
      table := {};
    }

    /** Analyse a whole tree; `err` is the error the analysis raises. */
    method Analyze(n: Node) returns (err: Option<SemanticError>)
      modifies this
      ensures table == Check(old(table), n).table
      ensures err == Check(old(table), n).Raised()
    {
      err := Visit(n);
    }

    /** Dispatch on the kind of node. */
    method Visit(n: Node) returns (err: Option<SemanticError>)
      modifies this
      ensures table == Check(old(table), n).table
      ensures err == Check(old(table), n).Raised()
      decreases n, 1
    {
      match n
      case Assignment(_, _) => err := VisitAssignment(n);
      case BinaryOperation(_, _, _) => err := VisitBinaryOperation(n);
      case Variable(_) => err := VisitVariable(n);
    }

    method VisitAssignment(n: Node) returns (err: Option<SemanticError>)
      requires n.Assignment?
      modifies this
      ensures old(table) <= table
      ensures n.variable in old(table) ==> table == old(table) && err == Some(Duplicate(n.variable))
      ensures table == Check(old(table), n).table
      ensures err == Check(old(table), n).Raised()
      decreases n, 0
    {
      var name := n.variable;
      if name in table {
        return Some(Duplicate(name));
      }
      table := table + {name};
      err := Visit(n.value);
    }

    method VisitBinaryOperation(n: Node) returns (err: Option<SemanticError>)
      requires n.BinaryOperation?
      modifies this
      ensures table == Check(old(table), n).table
      ensures err == Check(old(table), n).Raised()
      decreases n, 0
    {
      err := Visit(n.left);
      if err.Some? {
        return;
      }
      err := Visit(n.right);
    }

    /** A use reads the table and never changes it. */
    method VisitVariable(n: Node) returns (err: Option<SemanticError>)
      requires n.Variable?
      ensures err.None? <==> n.name in table
      ensures err.Some? ==> err.value == Undeclared(n.name)
    {
      if n.name !in table {
        return Some(Undeclared(n.name));
      }
      return None;
    }
  }

  /** The demonstration run: seed `y` and `z`, analyse, then analyse the
      same tree again on the same analyzer. */
  method DemoRun() returns (first: Option<SemanticError>, second: Option<SemanticError>, table: set<string>)
    ensures first == None
    ensures table == {"x", "y", "z"}
    ensures second == Some(Duplicate("x"))
  {
    var analyzer := new Analyzer();
    analyzer.table := analyzer.table + {"y"};
    analyzer.table := analyzer.table + {"z"};
    assert analyzer.table == {"y", "z"};
    DemoOutcomes();
    first := analyzer.Analyze(Demo());
    table := analyzer.table;
    second := analyzer.Analyze(Demo());
  }
}
