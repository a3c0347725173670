/** `getTablesUsed` (analyzer.go:311-347): the names of the tables a query
    tree reads, each once, in the order a pre-order walk first meets them;
    tables read by subqueries count too. The model takes the library walks
    `transform.Inspect` and `transform.InspectExpr` to visit every node and
    every sub-expression when the callback returns true; the go-mysql-server
    version that fixes their traversal is not part of this model. */
module Tables {
  import opened Common
  import opened Tree

  /** The table named by the node itself, or "" (analyzer.go:314-320). */
  function OwnTable(n: Node): string
  {
    match n
    case UnresolvedTable(name) => name
    case ResolvedTable(name) => name
    case _ => ""
  }

  /** The expressions of a node that is an `Expressioner`. */
  function NodeExprs(n: Node): seq<Expr>
  {
    match n
    case Project(exprs, _) => exprs
    case OtherNode(_, exprs, _) => exprs
    case _ => []
  }

  /** `Children()` of a node. */
  function Children(n: Node): seq<Node>
  {
    match n
    case TableAlias(_, child) => [child]
    case Project(_, child) => [child]
    case OtherNode(_, _, children) => children
    case _ => []
  }

  /** Every non-empty table name met by the walk, with repetitions, in the
      order met: the node's own table, then the tables of its expressions,
      then those of its children. */
  function NodeTables(n: Node): (r: seq<string>)
    decreases n, 1
  {
    (if OwnTable(n) != "" then [OwnTable(n)] else [])
    + (match n
       case Project(exprs, child) => ExprsTables(exprs) + NodeTables(child)
       case OtherNode(_, exprs, children) => ExprsTables(exprs) + NodesTables(children)
       case TableAlias(_, child) => NodeTables(child)
       case _ => [])
  }

  /** The tables met in the nodes `ns`, in order. */
  function NodesTables(ns: seq<Node>): seq<string>
    decreases ns, 0
  {
    if ns == [] then [] else NodeTables(ns[0]) + NodesTables(ns[1..])
  }

  /** The tables met in one expression: those of a subquery, and those of the
      arguments of any other expression. */
  function ExprTables(e: Expr): seq<string>
    decreases e, 1
  {
    match e
    case Subquery(q) => NodeTables(q)
    case OtherExpr(_, args) => ExprsTables(args)
    case _ => []
  }

  /** The tables met in the expressions `es`, in order. */
  function ExprsTables(es: seq<Expr>): seq<string>
    decreases es, 0
  {
    if es == [] then [] else ExprTables(es[0]) + ExprsTables(es[1..])
  }

  /** A name met in one expression of a list is met in the list. */
  lemma {:induction false} ExprsTablesInclude(es: seq<Expr>, i: nat)
    requires i < |es|
    ensures forall t | t in ExprTables(es[i]) :: t in ExprsTables(es)
    decreases i
  {
    if i > 0 {
      ExprsTablesInclude(es[1..], i - 1);
      assert es[1..][i - 1] == es[i];
    }
  }

  /** Tables read by a subquery in a node's expressions are tables of the
      node. */
  lemma SubqueryTablesIncluded(kind: string, es: seq<Expr>, cs: seq<Node>, i: nat)
    requires i < |es| && es[i].Subquery?
    ensures forall t | t in NodeTables(es[i].query) :: t in NodeTables(OtherNode(kind, es, cs))
  {
    ExprsTablesInclude(es, i);
  }

  /** The walk never yields the empty name. */
  lemma {:induction false} NodeTablesNonEmpty(n: Node)
    ensures "" !in NodeTables(n)
    decreases n, 1
  {
    match n
    case Project(exprs, child) =>
      ExprsTablesNonEmpty(exprs);
      NodeTablesNonEmpty(child);
    case OtherNode(_, exprs, children) =>
      ExprsTablesNonEmpty(exprs);
      NodesTablesNonEmpty(children);
    case TableAlias(_, child) =>
      NodeTablesNonEmpty(child);
    case _ =>
  }

  lemma {:induction false} NodesTablesNonEmpty(ns: seq<Node>)
    ensures "" !in NodesTables(ns)
    decreases ns, 0
  {
    if ns != [] {
      NodeTablesNonEmpty(ns[0]);
      NodesTablesNonEmpty(ns[1..]);
    }
  }

  lemma {:induction false} ExprTablesNonEmpty(e: Expr)
    ensures "" !in ExprTables(e)
    decreases e, 1
  {
    match e
    case Subquery(q) => NodeTablesNonEmpty(q);
    case OtherExpr(_, args) => ExprsTablesNonEmpty(args);
    case _ =>
  }

  lemma {:induction false} ExprsTablesNonEmpty(es: seq<Expr>)
    ensures "" !in ExprsTables(es)
    decreases es, 0
  {
    if es != [] {
      ExprTablesNonEmpty(es[0]);
      ExprsTablesNonEmpty(es[1..]);
    }
  }

  /** The `if !slices.Contains(tables, t) { tables = append(tables, t) }`
      loop (analyzer.go:294-298 and 333-337): appends each name of `xs` not
      already present. */
  method MergeTables(acc: seq<string>, xs: seq<string>) returns (tables: seq<string>)
    ensures tables == AppendNew(acc, xs)
  {
    tables := acc;
    var i := 0;
    while i < |xs|
      invariant 0 <= i <= |xs|
      invariant AppendNew(tables, xs[i..]) == AppendNew(acc, xs)
    {
      assert xs[i..][0] == xs[i] && xs[i..][1..] == xs[i + 1..];
      if xs[i] !in tables {
        tables := tables + [xs[i]];
      }
      i := i + 1;
    }
  }

  /** `getTablesUsed` (analyzer.go:311-347): the distinct table names of the
      tree, in first-met order, none of them empty. */
  method GetTablesUsed(node: Node) returns (tables: seq<string>)
    ensures tables == AppendNew([], NodeTables(node))
    ensures NoDup(tables) && "" !in tables
    ensures forall t :: t in tables <==> t in NodeTables(node)
    decreases node, 2
  {
    tables := InspectNode(node, []);
    AppendNewSpec([], NodeTables(node));
    NodeTablesNonEmpty(node);
  }

  /** The node callback of `transform.Inspect` followed by the descent into
      the children. */
  method InspectNode(node: Node, acc: seq<string>) returns (tables: seq<string>)
    ensures tables == AppendNew(acc, NodeTables(node))
    decreases node, 1
  {
    var own := if OwnTable(node) != "" then [OwnTable(node)] else [];
    tables := acc;
    var name := OwnTable(node);
    if name != "" && name !in tables {
      tables := tables + [name];
    }
    assert tables == AppendNew(acc, own);
    match node {
      case Project(exprs, child) =>
        var t1 := InspectExprs(exprs, tables);
        var t2 := InspectNode(child, t1);
        AppendNewConcat(tables, ExprsTables(exprs), NodeTables(child));
        AppendNewConcat(acc, own, ExprsTables(exprs) + NodeTables(child));
        tables := t2;
      case OtherNode(_, exprs, children) =>
        var t1 := InspectExprs(exprs, tables);
        var t2 := t1;
        var i := 0;
        while i < |children|
          invariant 0 <= i <= |children|
          invariant AppendNew(t2, NodesTables(children[i..])) == AppendNew(t1, NodesTables(children))
        {
          assert children[i..][0] == children[i] && children[i..][1..] == children[i + 1..];
          AppendNewConcat(t2, NodeTables(children[i]), NodesTables(children[i + 1..]));
          t2 := InspectNode(children[i], t2);
          i := i + 1;
        }
        assert children[i..] == [];
        AppendNewConcat(tables, ExprsTables(exprs), NodesTables(children));
        AppendNewConcat(acc, own, ExprsTables(exprs) + NodesTables(children));
        tables := t2;
      case TableAlias(_, child) =>
        var t := InspectNode(child, tables);
        AppendNewConcat(acc, own, NodeTables(child));
        tables := t;
      case _ =>
        assert NodeTables(node) == own;
    }
  }

  /** The loop over a node's expressions (analyzer.go:327-341). */
  method InspectExprs(es: seq<Expr>, acc: seq<string>) returns (tables: seq<string>)
    ensures tables == AppendNew(acc, ExprsTables(es))
    decreases es, 0
  {
    tables := acc;
    var i := 0;
    while i < |es|
      invariant 0 <= i <= |es|
      invariant AppendNew(tables, ExprsTables(es[i..])) == AppendNew(acc, ExprsTables(es))
    {
      assert es[i..][0] == es[i] && es[i..][1..] == es[i + 1..];
      AppendNewConcat(tables, ExprTables(es[i]), ExprsTables(es[i + 1..]));
      tables := InspectExpr(es[i], tables);
      i := i + 1;
    }
    assert es[i..] == [];
  }

  /** The expression callback of `transform.InspectExpr`: a subquery's own
      table list is merged in; any other expression is walked into. */
  method InspectExpr(e: Expr, acc: seq<string>) returns (tables: seq<string>)
    ensures tables == AppendNew(acc, ExprTables(e))
    decreases e, 1
  {
    match e {
      case Subquery(q) =>
        var sub := GetTablesUsed(q);
        tables := MergeTables(acc, sub);
        AppendNewDedup(acc, NodeTables(q));
      case OtherExpr(_, args) =>
        tables := InspectExprs(args, acc);
      case _ =>
        tables := acc;
    }
  }
}
