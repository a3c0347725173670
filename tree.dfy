/** The query tree and its canonicalisation (tree.go).

    The SQL library's plan tree is modelled as a closed datatype over the node
    kinds the canonicaliser distinguishes, plus an `OtherNode` kind that stands
    for every other plan node (filters, joins, ...) with its expressions and
    children; expressions likewise, with `OtherExpr` for columns, operators and
    functions. The parser itself is a parameter. */
module Tree {
  import opened Common

  datatype TypeClass = StringClass | NumberClass | DecimalClass | NullClass | OtherClass

  /** A SQL type: the interface it implements (`sql.StringType`, ...) and its name. */
  datatype SqlType = SqlType(typeClass: TypeClass, name: string)

  /** A literal's value; the canonicaliser never looks at it. */
  datatype Value = StrValue(s: string) | IntValue(i: int) | NullValue | OtherValue(repr: string)

  datatype Expr =
    | Literal(value: Value, typ: SqlType)
    | Star
    | Subquery(query: Node)
    | OtherExpr(kind: string, args: seq<Expr>)

  datatype Node =
    | CreateSavepoint(name: string)
    | ReleaseSavepoint(name: string)
    | RollbackSavepoint(name: string)
    | UnresolvedTable(name: string)
    | ResolvedTable(name: string)
    | TableAlias(name: string, child: Node)
    | Project(exprs: seq<Expr>, child: Node)
    | OtherNode(kind: string, exprs: seq<Expr>, children: seq<Node>)

  // tree.go:14
  const StringPlaceholder := "placeholder"
  const TextType := SqlType(StringClass, "text")
  const Int64Type := SqlType(NumberClass, "bigint")
  const NullType := SqlType(NullClass, "null")
  /** `plan.NewResolvedDualTable()`: the resolved zero-column table `dual`. */
  const DualTable := ResolvedTable("dual")

  /** The three literals that replace every literal (tree.go:16-25). */
  predicate IsPlaceholder(e: Expr)
  {
    || e == Literal(StrValue(StringPlaceholder), TextType)
    || e == Literal(IntValue(1), Int64Type)
    || e == Literal(NullValue, NullType)
  }

  /** `getPlaceholder` (tree.go:16-28): the fixed literal standing for every
      literal of a type class; any other class makes the source panic, which
      is the `Err` carrying the offending type. */
  function GetPlaceholder(t: SqlType): (r: Result<Expr, SqlType>)
    ensures r.Ok? <==> t.typeClass != OtherClass
    ensures r.Ok? ==> IsPlaceholder(r.value)
    ensures t.typeClass == StringClass ==> r == Ok(Literal(StrValue(StringPlaceholder), TextType))
    ensures t.typeClass in {NumberClass, DecimalClass} ==> r == Ok(Literal(IntValue(1), Int64Type))
    ensures t.typeClass == NullClass ==> r == Ok(Literal(NullValue, NullType))
    ensures r.Err? ==> r.error == t
  {
    match t.typeClass
    case StringClass => Ok(Literal(StrValue(StringPlaceholder), TextType))
    case NumberClass => Ok(Literal(IntValue(1), Int64Type))
    case DecimalClass => Ok(Literal(IntValue(1), Int64Type))
    case NullClass => Ok(Literal(NullValue, NullType))
    case OtherClass => Err(t)
  }

  /** `DropExtraneousData` (tree.go:51-108): a bottom-up rewrite. Children are
      rewritten first; then savepoint names and alias names become
      "placeholder", an unresolved table becomes the dual table, a projection
      becomes `*` over its child, and finally every expression of the node is
      rewritten. `Err(t)` is the panic on a literal of unhandled type `t`. */
  function DropExtraneousData(n: Node): (r: Result<Node, SqlType>)
    ensures r.Err? ==> r.error.typeClass == OtherClass
    decreases n, 1
  {
    match n
    case CreateSavepoint(_) => Ok(CreateSavepoint(StringPlaceholder))
    case ReleaseSavepoint(_) => Ok(ReleaseSavepoint(StringPlaceholder))
    case RollbackSavepoint(_) => Ok(RollbackSavepoint(StringPlaceholder))
    case UnresolvedTable(_) => Ok(DualTable)
    case ResolvedTable(_) => Ok(n)
    case TableAlias(_, child) =>
      (match DropExtraneousData(child)
       case Err(t) => Err(t)
       case Ok(c) => Ok(TableAlias(StringPlaceholder, c)))
    case Project(_, child) =>
      // the projection list is replaced before expressions are visited, so
      // literals inside it never reach getPlaceholder
      (match DropExtraneousData(child)
       case Err(t) => Err(t)
       case Ok(c) => Ok(Project([Star], c)))
    case OtherNode(kind, exprs, children) =>
      match DropNodes(children)
      case Err(t) => Err(t)
      case Ok(cs) =>
        match DropExprs(exprs)
        case Err(t) => Err(t)
        case Ok(es) => Ok(OtherNode(kind, es, cs))
  }

  function DropNodes(ns: seq<Node>): (r: Result<seq<Node>, SqlType>)
    ensures r.Ok? ==> |r.value| == |ns|
    ensures r.Err? ==> r.error.typeClass == OtherClass
    decreases ns, 0
  {
    if ns == [] then Ok([])
    else
      match DropExtraneousData(ns[0])
      case Err(t) => Err(t)
      case Ok(n) =>
        match DropNodes(ns[1..])
        case Err(t) => Err(t)
        case Ok(rest) => Ok([n] + rest)
  }

  /** The expression callback of tree.go:80-99, applied bottom-up: a subquery
      is canonicalised recursively, a literal becomes its placeholder, every
      other expression is kept with its rewritten arguments. */
  function DropExpr(e: Expr): (r: Result<Expr, SqlType>)
    ensures r.Err? ==> r.error.typeClass == OtherClass
    decreases e, 1
  {
    match e
    case Literal(_, t) => GetPlaceholder(t)
    case Star => Ok(Star)
    case Subquery(q) =>
      (match DropExtraneousData(q)
       case Err(t) => Err(t)
       case Ok(q') => Ok(Subquery(q')))
    case OtherExpr(kind, args) =>
      match DropExprs(args)
      case Err(t) => Err(t)
      case Ok(as') => Ok(OtherExpr(kind, as'))
  }

  function DropExprs(es: seq<Expr>): (r: Result<seq<Expr>, SqlType>)
    ensures r.Ok? ==> |r.value| == |es|
    ensures r.Err? ==> r.error.typeClass == OtherClass
    decreases es, 0
  {
    if es == [] then Ok([])
    else
      match DropExpr(es[0])
      case Err(t) => Err(t)
      case Ok(e) =>
        match DropExprs(es[1..])
        case Err(t) => Err(t)
        case Ok(rest) => Ok([e] + rest)
  }

  /** The result of `parse.Parse`: a tree or the parser's error message. */
  type Parser = string -> Result<Node, string>

  datatype ParseOutcome = Parsed(node: Node) | ParseError(message: string) | Panic(unhandled: SqlType)

  /** `ParseQuery` (tree.go:31-49): parse, then canonicalise. */
  function ParseQuery(parse: Parser, query: string): (r: ParseOutcome)
    ensures parse(query).Err? <==> r.ParseError?
    ensures r.ParseError? ==> r.message == parse(query).error
    ensures r.Parsed? ==> parse(query).Ok? && DropExtraneousData(parse(query).value) == Ok(r.node)
    ensures r.Parsed? ==> IsCanonical(r.node)
    ensures parse(query).Ok? && DropExtraneousData(parse(query).value).Ok? ==>
      r == Parsed(DropExtraneousData(parse(query).value).value)
    ensures r.Panic? ==>
      && parse(query).Ok? && DropExtraneousData(parse(query).value) == Err(r.unhandled)
      && r.unhandled.typeClass == OtherClass
  {
    match parse(query)
    case Err(msg) => ParseError(msg)
    case Ok(node) =>
      match DropExtraneousData(node)
      case Err(t) => Panic(t)
      case Ok(clean) =>
        DropYieldsCanonical(node);
        Parsed(clean)
  }

  /** What a canonical tree looks like: only placeholder literals, only
      "placeholder" savepoint and alias names, no unresolved table, and every
      projection is `*`; also inside subqueries. */
  predicate IsCanonical(n: Node)
    decreases n, 1
  {
    match n
    case CreateSavepoint(name) => name == StringPlaceholder
    case ReleaseSavepoint(name) => name == StringPlaceholder
    case RollbackSavepoint(name) => name == StringPlaceholder
    case UnresolvedTable(_) => false
    case ResolvedTable(_) => true
    case TableAlias(name, child) => name == StringPlaceholder && IsCanonical(child)
    case Project(exprs, child) => exprs == [Star] && IsCanonical(child)
    case OtherNode(_, exprs, children) => AllCanonicalExprs(exprs) && AllCanonical(children)
  }

  predicate AllCanonical(ns: seq<Node>)
    decreases ns, 0
  {
    ns == [] || (IsCanonical(ns[0]) && AllCanonical(ns[1..]))
  }

  predicate IsCanonicalExpr(e: Expr)
    decreases e, 1
  {
    match e
    case Literal(_, _) => IsPlaceholder(e)
    case Star => true
    case Subquery(q) => IsCanonical(q)
    case OtherExpr(_, args) => AllCanonicalExprs(args)
  }

  predicate AllCanonicalExprs(es: seq<Expr>)
    decreases es, 0
  {
    es == [] || (IsCanonicalExpr(es[0]) && AllCanonicalExprs(es[1..]))
  }

  /** Whether canonicalising would reach a literal of unhandled type (and so
      panic); literals inside a projection list are never reached. */
  predicate HasUnhandledLiteral(n: Node)
    decreases n, 1
  {
    match n
    case TableAlias(_, child) => HasUnhandledLiteral(child)
    case Project(_, child) => HasUnhandledLiteral(child)
    case OtherNode(_, exprs, children) => AnyUnhandledExpr(exprs) || AnyUnhandled(children)
    case _ => false
  }

  predicate AnyUnhandled(ns: seq<Node>)
    decreases ns, 0
  {
    ns != [] && (HasUnhandledLiteral(ns[0]) || AnyUnhandled(ns[1..]))
  }

  predicate ExprHasUnhandledLiteral(e: Expr)
    decreases e, 1
  {
    match e
    case Literal(_, t) => t.typeClass == OtherClass
    case Star => false
    case Subquery(q) => HasUnhandledLiteral(q)
    case OtherExpr(_, args) => AnyUnhandledExpr(args)
  }

  predicate AnyUnhandledExpr(es: seq<Expr>)
    decreases es, 0
  {
    es != [] && (ExprHasUnhandledLiteral(es[0]) || AnyUnhandledExpr(es[1..]))
  }

  /** Canonicalisation fails exactly when it reaches a literal of unhandled
      type. */
  lemma {:induction false} DropFailsIffUnhandled(n: Node)
    ensures DropExtraneousData(n).Err? <==> HasUnhandledLiteral(n)
    decreases n, 1
  {
    match n
    case TableAlias(_, child) => DropFailsIffUnhandled(child);
    case Project(_, child) => DropFailsIffUnhandled(child);
    case OtherNode(_, exprs, children) =>
      DropNodesFailsIff(children);
      DropExprsFailsIff(exprs);
    case _ =>
  }

  lemma {:induction false} DropNodesFailsIff(ns: seq<Node>)
    ensures DropNodes(ns).Err? <==> AnyUnhandled(ns)
    decreases ns, 0
  {
    if ns != [] {
      DropFailsIffUnhandled(ns[0]);
      DropNodesFailsIff(ns[1..]);
    }
  }

  lemma {:induction false} DropExprFailsIff(e: Expr)
    ensures DropExpr(e).Err? <==> ExprHasUnhandledLiteral(e)
    decreases e, 1
  {
    match e
    case Subquery(q) => DropFailsIffUnhandled(q);
    case OtherExpr(_, args) => DropExprsFailsIff(args);
    case _ =>
  }

  lemma {:induction false} DropExprsFailsIff(es: seq<Expr>)
    ensures DropExprs(es).Err? <==> AnyUnhandledExpr(es)
    decreases es, 0
  {
    if es != [] {
      DropExprFailsIff(es[0]);
      DropExprsFailsIff(es[1..]);
    }
  }

  /** Every successful canonicalisation yields a canonical tree. */
  lemma {:induction false} DropYieldsCanonical(n: Node)
    ensures DropExtraneousData(n).Ok? ==> IsCanonical(DropExtraneousData(n).value)
    decreases n, 1
  {
    match n
    case TableAlias(_, child) => DropYieldsCanonical(child);
    case Project(_, child) => DropYieldsCanonical(child);
    case OtherNode(_, exprs, children) =>
      DropNodesYieldCanonical(children);
      DropExprsYieldCanonical(exprs);
    case _ =>
  }

  lemma {:induction false} DropNodesYieldCanonical(ns: seq<Node>)
    ensures DropNodes(ns).Ok? ==> AllCanonical(DropNodes(ns).value)
    decreases ns, 0
  {
    if ns != [] {
      DropYieldsCanonical(ns[0]);
      DropNodesYieldCanonical(ns[1..]);
      if DropNodes(ns).Ok? {
        var r := DropNodes(ns).value;
        assert r[1..] == DropNodes(ns[1..]).value;
      }
    }
  }

  lemma {:induction false} DropExprYieldsCanonical(e: Expr)
    ensures DropExpr(e).Ok? ==> IsCanonicalExpr(DropExpr(e).value)
    decreases e, 1
  {
    match e
    case Subquery(q) => DropYieldsCanonical(q);
    case OtherExpr(_, args) => DropExprsYieldCanonical(args);
    case _ =>
  }

  lemma {:induction false} DropExprsYieldCanonical(es: seq<Expr>)
    ensures DropExprs(es).Ok? ==> AllCanonicalExprs(DropExprs(es).value)
    decreases es, 0
  {
    if es != [] {
      DropExprYieldsCanonical(es[0]);
      DropExprsYieldCanonical(es[1..]);
      if DropExprs(es).Ok? {
        var r := DropExprs(es).value;
        assert r[1..] == DropExprs(es[1..]).value;
      }
    }
  }

  /** A canonical tree is left unchanged: placeholder literals map to
      themselves, "placeholder" names stay, `*` stays, the dual table stays. */
  lemma {:induction false} CanonicalIsFixpoint(n: Node)
    requires IsCanonical(n)
    ensures DropExtraneousData(n) == Ok(n)
    decreases n, 1
  {
    match n
    case TableAlias(_, child) => CanonicalIsFixpoint(child);
    case Project(_, child) => CanonicalIsFixpoint(child);
    case OtherNode(_, exprs, children) =>
      CanonicalNodesFixpoint(children);
      CanonicalExprsFixpoint(exprs);
    case _ =>
  }

  lemma {:induction false} CanonicalNodesFixpoint(ns: seq<Node>)
    requires AllCanonical(ns)
    ensures DropNodes(ns) == Ok(ns)
    decreases ns, 0
  {
    if ns != [] {
      CanonicalIsFixpoint(ns[0]);
      CanonicalNodesFixpoint(ns[1..]);
      assert [ns[0]] + ns[1..] == ns;
    }
  }

  lemma {:induction false} CanonicalExprFixpoint(e: Expr)
    requires IsCanonicalExpr(e)
    ensures DropExpr(e) == Ok(e)
    decreases e, 1
  {
    match e
    case Subquery(q) => CanonicalIsFixpoint(q);
    case OtherExpr(_, args) => CanonicalExprsFixpoint(args);
    case _ =>
  }

  lemma {:induction false} CanonicalExprsFixpoint(es: seq<Expr>)
    requires AllCanonicalExprs(es)
    ensures DropExprs(es) == Ok(es)
    decreases es, 0
  {
    if es != [] {
      CanonicalExprFixpoint(es[0]);
      CanonicalExprsFixpoint(es[1..]);
      assert [es[0]] + es[1..] == es;
    }
  }

  /** Canonicalisation is idempotent. */
  lemma DropIdempotent(n: Node)
    requires DropExtraneousData(n).Ok?
    ensures DropExtraneousData(DropExtraneousData(n).value) == DropExtraneousData(n)
  {
    DropYieldsCanonical(n);
    CanonicalIsFixpoint(DropExtraneousData(n).value);
  }

  /** `a` and `b` are the same tree except that their literals may differ in
      value, and in SQL type as long as the types are of the same class. */
  predicate SameUpToLiterals(a: Node, b: Node)
    decreases a, 1
  {
    match a
    case TableAlias(name, child) =>
      b.TableAlias? && b.name == name && SameUpToLiterals(child, b.child)
    case Project(exprs, child) =>
      b.Project? && SameExprsUpToLiterals(exprs, b.exprs) && SameUpToLiterals(child, b.child)
    case OtherNode(kind, exprs, children) =>
      && b.OtherNode? && b.kind == kind
      && SameExprsUpToLiterals(exprs, b.exprs) && SameNodesUpToLiterals(children, b.children)
    case _ => b == a
  }

  predicate SameNodesUpToLiterals(xs: seq<Node>, ys: seq<Node>)
    decreases xs, 0
  {
    |xs| == |ys| && forall i | 0 <= i < |xs| :: SameUpToLiterals(xs[i], ys[i])
  }

  predicate SameExprUpToLiterals(a: Expr, b: Expr)
    decreases a, 1
  {
    match a
    case Literal(_, t) => b.Literal? && b.typ.typeClass == t.typeClass
    case Star => b == Star
    case Subquery(q) => b.Subquery? && SameUpToLiterals(q, b.query)
    case OtherExpr(kind, args) => b.OtherExpr? && b.kind == kind && SameExprsUpToLiterals(args, b.args)
  }

  predicate SameExprsUpToLiterals(xs: seq<Expr>, ys: seq<Expr>)
    decreases xs, 0
  {
    |xs| == |ys| && forall i | 0 <= i < |xs| :: SameExprUpToLiterals(xs[i], ys[i])
  }

  /** Trees that differ only in literal values, and in literal types of the
      same class (`WHERE x = 1` over an INT and `WHERE x = 2` over a BIGINT),
      have the same canonical form, and one fails to canonicalise exactly
      when the other does. */
  lemma {:induction false} LiteralValuesCollapse(a: Node, b: Node)
    requires SameUpToLiterals(a, b)
    ensures DropExtraneousData(a).Ok? <==> DropExtraneousData(b).Ok?
    ensures DropExtraneousData(a).Ok? ==> DropExtraneousData(a) == DropExtraneousData(b)
    decreases a, 1
  {
    match a
    case TableAlias(_, child) => LiteralValuesCollapse(child, b.child);
    case Project(_, child) => LiteralValuesCollapse(child, b.child);
    case OtherNode(_, exprs, children) =>
      NodesCollapse(children, b.children);
      ExprsCollapse(exprs, b.exprs);
    case _ =>
  }

  lemma {:induction false} NodesCollapse(xs: seq<Node>, ys: seq<Node>)
    requires SameNodesUpToLiterals(xs, ys)
    ensures DropNodes(xs).Ok? <==> DropNodes(ys).Ok?
    ensures DropNodes(xs).Ok? ==> DropNodes(xs) == DropNodes(ys)
    decreases xs, 0
  {
    if xs != [] {
      LiteralValuesCollapse(xs[0], ys[0]);
      assert SameNodesUpToLiterals(xs[1..], ys[1..]) by {
        forall i | 0 <= i < |xs| - 1 ensures SameUpToLiterals(xs[1..][i], ys[1..][i]) {
          assert xs[1..][i] == xs[i + 1] && ys[1..][i] == ys[i + 1];
        }
      }
      NodesCollapse(xs[1..], ys[1..]);
    }
  }

  lemma {:induction false} ExprCollapse(a: Expr, b: Expr)
    requires SameExprUpToLiterals(a, b)
    ensures DropExpr(a).Ok? <==> DropExpr(b).Ok?
    ensures DropExpr(a).Ok? ==> DropExpr(a) == DropExpr(b)
    decreases a, 1
  {
    match a
    case Literal(_, _) =>
    case Star =>
    case Subquery(q) => LiteralValuesCollapse(q, b.query);
    case OtherExpr(_, args) => ExprsCollapse(args, b.args);
  }

  lemma {:induction false} ExprsCollapse(xs: seq<Expr>, ys: seq<Expr>)
    requires SameExprsUpToLiterals(xs, ys)
    ensures DropExprs(xs).Ok? <==> DropExprs(ys).Ok?
    ensures DropExprs(xs).Ok? ==> DropExprs(xs) == DropExprs(ys)
    decreases xs, 0
  {
    if xs != [] {
      ExprCollapse(xs[0], ys[0]);
      assert SameExprsUpToLiterals(xs[1..], ys[1..]) by {
        forall i | 0 <= i < |xs| - 1 ensures SameExprUpToLiterals(xs[1..][i], ys[1..][i]) {
          assert xs[1..][i] == xs[i + 1] && ys[1..][i] == ys[i + 1];
        }
      }
      ExprsCollapse(xs[1..], ys[1..]);
    }
  }
}
