/**
 * What SqlGeneratorBase emits for each node, as functions from the IR to
 * text. `Err` is the exception the visit throws. The imperative generator in
 * module SqlGenerators is proved to append exactly this text.
 */
module SqlRendering {
  import opened Wrappers
  import opened DbExpressions
  import opened NullComparison

  /** The exceptions the base generator throws. */
  datatype SqlError =
    | EmptyName                      // ArgumentException("name") from QuoteName
    | NotSupportedMethod(name: string)
    | NotSupportedJoinType(code: int)
    | NotSupportedOrderType(code: int)

  /** A method handler of the dialect: `CanProcess` and the text `Process` emits. */
  datatype MethodHandler = MethodHandler(canProcess: Expr -> bool, process: Expr -> string)

  /**
   * What a dialect subclass supplies: the quote characters, the handler
   * dictionaries keyed by method name, and the text of the nodes the base
   * class leaves to the dialect (constants, parameters, query statements).
   * `evaluable` and `evaluate` stand for the IsEvaluable/Evaluate extensions.
   */
  datatype Dialect = Dialect(
    leftQuote: string,
    rightQuote: string,
    methodHandlers: map<string, MethodHandler>,
    aggregateHandlers: map<string, Expr -> string>,
    binaryWithMethodHandlers: map<string, Expr -> string>,
    constantSql: Expr -> string,
    parameterSql: Expr -> string,
    querySql: SqlQuery -> string,
    evaluable: Expr -> bool,
    evaluate: Expr -> Value)

  // ---------------------------------------------------------------------
  // Joining a list of fragments
  // ---------------------------------------------------------------------

  /** The fragments in order with `sep` between each two of them. */
  function Join(parts: seq<string>, sep: string): string
  {
    if |parts| == 0 then ""
    else if |parts| == 1 then parts[0]
    else parts[0] + sep + Join(parts[1..], sep)
  }

  function TotalLength(parts: seq<string>): nat
  {
    if parts == [] then 0 else |parts[0]| + TotalLength(parts[1..])
  }

  /** Appending a fragment adds one separator and the fragment at the end. */
  lemma {:induction false} JoinSnoc(parts: seq<string>, last: string, sep: string)
    ensures Join(parts + [last], sep) == if parts == [] then last else Join(parts, sep) + sep + last
  {
    if |parts| >= 2 {
      assert (parts + [last])[1..] == parts[1..] + [last];
      JoinSnoc(parts[1..], last, sep);
    } else if |parts| == 1 {
      assert (parts + [last])[1..] == [last];
    }
  }

  /** One more fragment after text that already ends in the joined fragments. */
  lemma JoinStep(head: string, parts: seq<string>, sep: string, next: string)
    ensures parts == [] ==> head + Join(parts, sep) + next == head + Join(parts + [next], sep)
    ensures parts == [] ==> head + Join(parts, sep) + "" + next == head + Join(parts + [next], sep)
    ensures parts != [] ==> head + Join(parts, sep) + sep + next == head + Join(parts + [next], sep)
  {
    JoinSnoc(parts, next, sep);
    if parts == [] {
      assert head + "" + "" == head;
    } else {
      assert head + Join(parts, sep) + sep + next == head + (Join(parts, sep) + sep + next);
    }
  }

  /** n fragments joined carry exactly n - 1 separators. */
  lemma {:induction false} JoinLength(parts: seq<string>, sep: string)
    requires |parts| >= 1
    ensures |Join(parts, sep)| == TotalLength(parts) + (|parts| - 1) * |sep|
  {
    if |parts| >= 2 {
      JoinLength(parts[1..], sep);
      assert TotalLength(parts) == |parts[0]| + TotalLength(parts[1..]);
      assert (|parts| - 1) * |sep| == (|parts[1..]| - 1) * |sep| + |sep|;
    } else {
      assert parts[1..] == [];
    }
  }

  /** Every fragment appears, in order, at its position in the joined text. */
  lemma {:induction false} JoinKeepsOrder(parts: seq<string>, sep: string, i: nat)
    requires i < |parts|
    ensures var start := TotalLength(parts[..i]) + i * |sep|;
      start + |parts[i]| <= |Join(parts, sep)| &&
      Join(parts, sep)[start..start + |parts[i]|] == parts[i]
  {
    if i == 0 {
      assert parts[..0] == [];
      if |parts| >= 2 {
        assert Join(parts, sep) == parts[0] + (sep + Join(parts[1..], sep));
      }
    } else {
      var tail := parts[1..];
      JoinKeepsOrder(tail, sep, i - 1);
      assert tail[i - 1] == parts[i];
      assert parts[..i][0] == parts[0] && parts[..i][1..] == tail[..i - 1];
      assert TotalLength(parts[..i]) == |parts[0]| + TotalLength(tail[..i - 1]);
      var prefix := parts[0] + sep;
      assert Join(parts, sep) == prefix + Join(tail, sep);
      assert i * |sep| == (i - 1) * |sep| + |sep|;
    }
  }

  // ---------------------------------------------------------------------
  // Names and tables
  // ---------------------------------------------------------------------

  /** QuoteName: an empty name throws, any other is wrapped in the dialect's quotes. */
  function QuotedName(d: Dialect, name: string): Result<string, SqlError>
  {
    if name == "" then Err(EmptyName) else Ok(d.leftQuote + name + d.rightQuote)
  }

  /** Strips the dialect's quotes: the inverse of QuotedName. */
  function Unquoted(d: Dialect, quoted: string): string
    requires |d.leftQuote| + |d.rightQuote| <= |quoted|
  {
    quoted[|d.leftQuote|..|quoted| - |d.rightQuote|]
  }

  lemma QuotedNameRoundTrip(d: Dialect, name: string)
    requires name != ""
    ensures QuotedName(d, name).Ok?
    ensures |d.leftQuote| + |d.rightQuote| <= |QuotedName(d, name).value|
    ensures Unquoted(d, QuotedName(d, name).value) == name
  {
    var q := d.leftQuote + name + d.rightQuote;
    assert q[|d.leftQuote|..|q| - |d.rightQuote|] == name;
  }

  /** AppendTable: the quoted schema and a dot when there is a schema, then the quoted name. */
  function TableText(d: Dialect, t: DbTable): Result<string, SqlError>
  {
    if t.schema != "" then
      var schema :- QuotedName(d, t.schema);
      var name :- QuotedName(d, t.name);
      Ok(schema + "." + name)
    else
      QuotedName(d, t.name)
  }

  function Connector(op: BinOp): string
  {
    match op
    case And => " AND "
    case Or => " OR "
    case BitAnd => " & "
    case BitOr => " | "
    case Add => " + "
    case Subtract => " - "
    case Multiply => " * "
    case Divide => " / "
    case Modulo => " % "
  }

  function ComparisonText(op: CmpOp): string
  {
    match op
    case LessThan => " < "
    case LessThanOrEqual => " <= "
    case GreaterThan => " > "
    case GreaterThanOrEqual => " >= "
  }

  /** The query Visit(DbExistsExpression) renders as a subquery: `1 AS C` as its only column, no ordering. */
  function ExistsQuery(q: SqlQuery): SqlQuery
  {
    SqlQuery(q.takeCount, q.skipCount, [ColumnSegment(Parameter(Datum("1"), StringType), "C")],
             q.table, q.condition, q.groupSegments, q.havingCondition, [])
  }

  /** The quoted schema and a dot, or nothing when there is no schema. */
  function SchemaPrefix(d: Dialect, schema: string): Result<string, SqlError>
  {
    if schema == "" then Ok("")
    else
      var s :- QuotedName(d, schema);
      Ok(s + ".")
  }

  /** A handler of the dialect takes the call: it is registered under the method's name and can process it. */
  predicate HandlerTakes(d: Dialect, e: Expr)
    requires e.MethodCall?
  {
    e.callee.name in d.methodHandlers && d.methodHandlers[e.callee.name].canProcess(e)
  }

  /** Add with an operator method the dialect has a handler for. */
  predicate BinaryHandled(d: Dialect, e: Expr)
    requires e.Binary?
  {
    e.op == Add && e.operatorMethod.Some? && e.operatorMethod.value in d.binaryWithMethodHandlers
  }

  // ---------------------------------------------------------------------
  // Expressions
  // ---------------------------------------------------------------------

  /** The text each Visit appends for `e`, or the exception it throws. */
  function ExprText(d: Dialect, e: Expr): Result<string, SqlError>
    decreases Size(e), 2
  {
    match e
    case Column(_, _, _) => ColumnText(d, e)
    case Constant(_, _) => Ok(d.constantSql(e))
    case Parameter(_, _) => Ok(d.parameterSql(e))
    case SubQuery(q, _) => Ok("(" + d.querySql(q) + ")")
    case TableExpr(t) => TableText(d, t)
    case Not(_) => NotText(d, e)
    case Negate(_, _) => NegateText(d, e)
    case Binary(_, _, _, _, _) => BinaryText(d, e)
    case Compare(_, _, _) => CompareText(d, e)
    case Equal(l, r) => ExprText(d, RewriteEqual(l, r))
    case NotEqual(l, r) => ExprText(d, RewriteNotEqual(l, r))
    case CaseWhen(_, _, _) => CaseWhenText(d, e)
    case MethodCall(_, _, _) => MethodCallText(d, e)
    case Aggregate(name, _, _) =>
      if name in d.aggregateHandlers then Ok(d.aggregateHandlers[name](e))
      else Err(NotSupportedMethod(name))
    case Exists(_) => ExistsText(d, e)
  }

  /** Visit(DbColumnAccessExpression): quoted table, a dot, quoted column. */
  function ColumnText(d: Dialect, e: Expr): Result<string, SqlError>
    requires e.Column?
  {
    var table :- QuotedName(d, e.tableName);
    var column :- QuotedName(d, e.columnName);
    Ok(table + "." + column)
  }

  function NotText(d: Dialect, e: Expr): Result<string, SqlError>
    requires e.Not?
    decreases Size(e), 1
  {
    var s :- ExprText(d, e.operand);
    Ok("NOT (" + s + ")")
  }

  function NegateText(d: Dialect, e: Expr): Result<string, SqlError>
    requires e.Negate?
    decreases Size(e), 1
  {
    var s :- ExprText(d, e.operand);
    Ok("(-" + s + ")")
  }

  /** An Add with an operator-method handler is the handler's; any other binary node is a chain. */
  function BinaryText(d: Dialect, e: Expr): Result<string, SqlError>
    requires e.Binary?
    decreases Size(e), 1
  {
    if BinaryHandled(d, e) then Ok(d.binaryWithMethodHandlers[e.operatorMethod.value](e))
    else ChainText(d, GatherOperands(e.op, e), Connector(e.op))
  }

  function CompareText(d: Dialect, e: Expr): Result<string, SqlError>
    requires e.Compare?
    decreases Size(e), 1
  {
    var left :- ExprText(d, e.left);
    var right :- ExprText(d, e.right);
    Ok(left + ComparisonText(e.cmp) + right)
  }

  function CaseWhenText(d: Dialect, e: Expr): Result<string, SqlError>
    requires e.CaseWhen?
    decreases Size(e), 1
  {
    var arms :- WhenThensText(d, e.whenThens);
    var otherwise :- ExprText(d, e.elseExpr);
    Ok("CASE" + arms + " ELSE " + otherwise + " END")
  }

  /** Visit(DbMethodCallExpression): handler, function attribute, evaluation, else NotSupported. */
  function MethodCallText(d: Dialect, e: Expr): Result<string, SqlError>
    requires e.MethodCall?
    decreases Size(e), 1
  {
    if HandlerTakes(d, e) then Ok(d.methodHandlers[e.callee.name].process(e))
    else if e.callee.dbFunction.Some? then FunctionCallText(d, e)
    else if d.evaluable(e) then Ok(d.parameterSql(Parameter(d.evaluate(e), e.ty)))
    else Err(NotSupportedMethod(e.callee.name))
  }

  function ExistsText(d: Dialect, e: Expr): Result<string, SqlError>
    requires e.Exists?
    decreases Size(e), 1
  {
    var s :- ExprText(d, SubQuery(ExistsQuery(e.query), BoolType));
    Ok("Exists " + s)
  }

  /**
   * VisitDbFunctionMethodCallExpression: the optional quoted schema, the
   * quoted function name (the attribute's, else the method's), and the
   * arguments between parentheses, comma-separated.
   */
  function FunctionCallText(d: Dialect, e: Expr): Result<string, SqlError>
    requires e.MethodCall? && e.callee.dbFunction.Some?
    decreases Size(e), 0
  {
    var attr := e.callee.dbFunction.value;
    var functionName := if attr.name == "" then e.callee.name else attr.name;
    var schema :- SchemaPrefix(d, attr.schema);
    var name :- QuotedName(d, functionName);
    var arguments :- CommaListText(d, e.args);
    Ok(schema + name + "(" + arguments + ")")
  }

  /** The texts of `es`, comma-separated: the argument list of a function call, the VALUES of an INSERT. */
  function CommaListText(d: Dialect, es: seq<Expr>): Result<string, SqlError>
    decreases ListSize(es), 4
  {
    var parts :- AllText(d, es);
    Ok(Join(parts, ","))
  }

  /** ConcatOperands: the operands' texts joined by the connector, in parentheses. */
  function ChainText(d: Dialect, ops: seq<Expr>, connector: string): Result<string, SqlError>
    decreases ListSize(ops), 4
  {
    var parts :- AllText(d, ops);
    Ok("(" + Join(parts, connector) + ")")
  }

  /** The texts of `es`, in order; the exception of the first one that throws. */
  function AllText(d: Dialect, es: seq<Expr>): (r: Result<seq<string>, SqlError>)
    ensures r.Ok? ==> |r.value| == |es|
    decreases ListSize(es), 3
  {
    if es == [] then Ok([])
    else
      var first :- ExprText(d, es[0]);
      var rest :- AllText(d, es[1..]);
      Ok([first] + rest)
  }

  function WhenThenText(d: Dialect, w: WhenThen): Result<string, SqlError>
    decreases WhenThenSize(w), 3
  {
    var condition :- ExprText(d, w.condition);
    var result :- ExprText(d, w.result);
    Ok(" WHEN " + condition + " THEN " + result)
  }

  function WhenThensText(d: Dialect, ws: seq<WhenThen>): Result<string, SqlError>
    decreases WhenThensSize(ws), 4
  {
    if ws == [] then Ok("")
    else
      var first :- WhenThenText(d, ws[0]);
      var rest :- WhenThensText(d, ws[1..]);
      Ok(first + rest)
  }

  /** Fragments already emitted in front of a list whose rendering is `rest`. */
  function Prepend(done: seq<string>, rest: Result<seq<string>, SqlError>): Result<seq<string>, SqlError>
  {
    if rest.Ok? then Ok(done + rest.value) else rest
  }

  /** Text already emitted in front of a rendering `rest`. */
  function PrependText(done: string, rest: Result<string, SqlError>): Result<string, SqlError>
  {
    if rest.Ok? then Ok(done + rest.value) else rest
  }

  lemma PrependNothing(rest: Result<seq<string>, SqlError>)
    ensures Prepend([], rest) == rest
  {
    if rest.Ok? {
      assert [] + rest.value == rest.value;
    }
  }

  lemma PrependStep(done: seq<string>, next: string, rest: Result<seq<string>, SqlError>)
    ensures Prepend(done, Prepend([next], rest)) == Prepend(done + [next], rest)
  {
    if rest.Ok? {
      assert done + ([next] + rest.value) == done + [next] + rest.value;
    }
  }

  lemma PrependToNothing(done: seq<string>)
    ensures Prepend(done, Ok([])) == Ok(done)
  {
    assert done + [] == done;
  }

  lemma PrependTextNothing(rest: Result<string, SqlError>)
    ensures PrependText("", rest) == rest
  {
    if rest.Ok? {
      assert "" + rest.value == rest.value;
    }
  }

  lemma PrependTextStep(done: string, next: string, rest: Result<string, SqlError>)
    ensures PrependText(done, PrependText(next, rest)) == PrependText(done + next, rest)
  {
    if rest.Ok? {
      assert done + (next + rest.value) == done + next + rest.value;
    }
  }

  lemma PrependTextToNothing(done: string)
    ensures PrependText(done, Ok("")) == Ok(done)
  {
    assert done + "" == done;
  }

  /** A list renders exactly when each element does, and element i renders as `es[i]` alone. */
  lemma {:induction false} AllTextElements(d: Dialect, es: seq<Expr>)
    ensures AllText(d, es).Ok? <==> forall i :: 0 <= i < |es| ==> ExprText(d, es[i]).Ok?
    ensures AllText(d, es).Ok? ==>
      forall i :: 0 <= i < |es| ==> AllText(d, es).value[i] == ExprText(d, es[i]).value
  {
    if es != [] {
      AllTextElements(d, es[1..]);
      assert forall i :: 1 <= i < |es| ==> es[1..][i - 1] == es[i];
    }
  }

  /**
   * A chain of n operands is one parenthesised group: n - 1 connectors, and
   * each operand's own text at its place, in order.
   */
  lemma ChainLayout(d: Dialect, ops: seq<Expr>, connector: string, i: nat)
    requires ChainText(d, ops, connector).Ok? && i < |ops|
    ensures AllText(d, ops).Ok? && ExprText(d, ops[i]).Ok?
    ensures var parts := AllText(d, ops).value;
      var text := ChainText(d, ops, connector).value;
      var start := 1 + TotalLength(parts[..i]) + i * |connector|;
      |parts| == |ops| &&
      |text| == 2 + TotalLength(parts) + (|ops| - 1) * |connector| &&
      text[0] == '(' && text[|text| - 1] == ')' &&
      start + |parts[i]| <= |text| &&
      text[start..start + |parts[i]|] == ExprText(d, ops[i]).value
  {
    var parts := AllText(d, ops).value;
    ChainTextParts(d, ops, connector);
    AllTextAt(d, ops, i);
    ParenthesisedJoin(parts, connector, i);
  }

  lemma ChainTextParts(d: Dialect, ops: seq<Expr>, connector: string)
    requires ChainText(d, ops, connector).Ok?
    ensures AllText(d, ops).Ok?
    ensures ChainText(d, ops, connector).value == "(" + Join(AllText(d, ops).value, connector) + ")"
  {
  }

  lemma AllTextAt(d: Dialect, es: seq<Expr>, i: nat)
    requires AllText(d, es).Ok? && i < |es|
    ensures ExprText(d, es[i]).Ok? && AllText(d, es).value[i] == ExprText(d, es[i]).value
  {
    AllTextElements(d, es);
  }

  /** The layout of "(" + Join(parts, sep) + ")". */
  lemma ParenthesisedJoin(parts: seq<string>, sep: string, i: nat)
    requires i < |parts|
    ensures var text := "(" + Join(parts, sep) + ")";
      var start := 1 + TotalLength(parts[..i]) + i * |sep|;
      |text| == 2 + TotalLength(parts) + (|parts| - 1) * |sep| &&
      text[0] == '(' && text[|text| - 1] == ')' &&
      start + |parts[i]| <= |text| &&
      text[start..start + |parts[i]|] == parts[i]
  {
    var joined := Join(parts, sep);
    JoinLength(parts, sep);
    JoinKeepsOrder(parts, sep, i);
    Parenthesised(joined, TotalLength(parts[..i]) + i * |sep|, |parts[i]|);
  }

  lemma Parenthesised(inner: string, start: nat, len: nat)
    requires start + len <= |inner|
    ensures var text := "(" + inner + ")";
      |text| == |inner| + 2 && text[0] == '(' && text[|text| - 1] == ')' &&
      text[1 + start..1 + start + len] == inner[start..start + len]
  {
  }

  /** A binary node without an operator-method handler is rendered as the chain of its operands. */
  lemma BinaryIsChain(d: Dialect, e: Expr)
    requires e.Binary? && !BinaryHandled(d, e)
    ensures |GatherOperands(e.op, e)| >= 2
    ensures ExprText(d, e) == ChainText(d, GatherOperands(e.op, e), Connector(e.op))
  {
  }

  // ---------------------------------------------------------------------
  // The method-call fallback
  // ---------------------------------------------------------------------

  /** A handler that can process the call wins over the function attribute and evaluation. */
  lemma HandlerComesFirst(d: Dialect, e: Expr)
    requires e.MethodCall? && HandlerTakes(d, e)
    ensures ExprText(d, e) == Ok(d.methodHandlers[e.callee.name].process(e))
  {
  }

  /** Without a taking handler, a function attribute makes the call a SQL function call. */
  lemma FunctionAttributeComesSecond(d: Dialect, e: Expr)
    requires e.MethodCall? && !HandlerTakes(d, e) && e.callee.dbFunction.Some?
    ensures ExprText(d, e) == FunctionCallText(d, e)
  {
  }

  /** Only then is an evaluable call replaced by a parameter holding its value, else it throws. */
  lemma EvaluationComesLast(d: Dialect, e: Expr)
    requires e.MethodCall? && !HandlerTakes(d, e) && e.callee.dbFunction.None?
    ensures d.evaluable(e) ==> ExprText(d, e) == Ok(d.parameterSql(Parameter(d.evaluate(e), e.ty)))
    ensures !d.evaluable(e) ==> ExprText(d, e) == Err(NotSupportedMethod(e.callee.name))
  {
  }

  // ---------------------------------------------------------------------
  // Tables, joins and segments
  // ---------------------------------------------------------------------

  /** The join keyword of Visit(DbJoinTableExpression); any other join type throws. */
  function JoinKeyword(t: JoinType): (r: Result<string, SqlError>)
    ensures r.Err? <==> t.UndefinedJoin?
    ensures t.UndefinedJoin? ==> r == Err(NotSupportedJoinType(t.code))
  {
    match t
    case InnerJoin => Ok(" INNER JOIN ")
    case LeftJoin => Ok(" LEFT JOIN ")
    case RightJoin => Ok(" RIGHT JOIN ")
    case FullJoin => Ok(" FULL JOIN ")
    case UndefinedJoin(code) => Err(NotSupportedJoinType(code))
  }

  /** AppendTableSegment and AppendColumnSegment: the body, " AS ", the quoted alias. */
  function SegmentText(d: Dialect, body: Expr, alias: string): Result<string, SqlError>
  {
    var b :- ExprText(d, body);
    var a :- QuotedName(d, alias);
    Ok(b + " AS " + a)
  }

  /** A join: keyword, table segment, " ON ", the condition, then the joins nested in it. */
  function JoinTableText(d: Dialect, j: JoinTable): Result<string, SqlError>
    decreases j
  {
    var keyword :- JoinKeyword(j.joinType);
    var table :- SegmentText(d, j.table.body, j.table.alias);
    var condition :- ExprText(d, j.condition);
    var nested :- JoinTablesText(d, j.joinTables);
    Ok(keyword + table + " ON " + condition + nested)
  }

  /** VisitDbJoinTableExpressions: the joins one after the other. */
  function JoinTablesText(d: Dialect, js: seq<JoinTable>): Result<string, SqlError>
    decreases js
  {
    if js == [] then Ok("")
    else
      var first :- JoinTableText(d, js[0]);
      var rest :- JoinTablesText(d, js[1..]);
      Ok(first + rest)
  }

  /** An unsupported join type throws before anything of that join is emitted. */
  lemma UnsupportedJoinThrows(d: Dialect, j: JoinTable)
    requires j.joinType.UndefinedJoin?
    ensures JoinTableText(d, j) == Err(NotSupportedJoinType(j.joinType.code))
  {
  }

  /** Visit(DbFromTableExpression): the table segment followed by its joins. */
  function FromTableText(d: Dialect, f: FromTable): Result<string, SqlError>
  {
    var table :- SegmentText(d, f.table.body, f.table.alias);
    var joins :- JoinTablesText(d, f.joinTables);
    Ok(table + joins)
  }

  /** BuildCastState: CAST(expression AS type). */
  function CastText(d: Dialect, e: Expr, targetType: string): Result<string, SqlError>
  {
    var x :- ExprText(d, e);
    Ok("CAST(" + x + " AS " + targetType + ")")
  }

  // ---------------------------------------------------------------------
  // Clauses
  // ---------------------------------------------------------------------

  /** A clause that is emitted, keyword first, only when its condition is present. */
  function OptionalClause(d: Dialect, keyword: string, condition: Option<Expr>): (r: Result<string, SqlError>)
    requires keyword != ""
    ensures condition.None? ==> r == Ok("")
    ensures r.Ok? && condition.Some? ==>
      ExprText(d, condition.value).Ok? &&
      r.value == keyword + ExprText(d, condition.value).value && r.value != ""
  {
    match condition
    case None => Ok("")
    case Some(c) =>
      var s :- ExprText(d, c);
      Ok(keyword + s)
  }

  /** BuildWhereState. */
  function WhereText(d: Dialect, condition: Option<Expr>): (r: Result<string, SqlError>)
    ensures r.Ok? ==> (r.value == "" <==> condition.None?)
  {
    OptionalClause(d, " WHERE ", condition)
  }

  /** BuildGroupState: nothing without group segments; otherwise GROUP BY and, if any, HAVING. */
  function GroupText(d: Dialect, q: SqlQuery): (r: Result<string, SqlError>)
    ensures q.groupSegments == [] ==> r == Ok("")
  {
    if q.groupSegments == [] then Ok("")
    else
      var groups :- AllText(d, q.groupSegments);
      var having :- OptionalClause(d, " HAVING ", q.havingCondition);
      Ok(" GROUP BY " + Join(groups, ",") + having)
  }

  /** HAVING is emitted exactly when there are group segments and a having condition. */
  lemma HavingOnlyInsideGroupBy(d: Dialect, q: SqlQuery)
    requires GroupText(d, q).Ok?
    ensures var text := GroupText(d, q).value;
      (text == "" <==> q.groupSegments == []) &&
      (q.groupSegments != [] && q.havingCondition.None? ==>
        text == " GROUP BY " + Join(AllText(d, q.groupSegments).value, ",")) &&
      (q.groupSegments != [] ==> |" GROUP BY "| <= |text| && text[..|" GROUP BY "|] == " GROUP BY ") &&
      (q.groupSegments != [] && q.havingCondition.Some? ==>
        var having := " HAVING " + ExprText(d, q.havingCondition.value).value;
        |having| <= |text| && text[|text| - |having|..] == having)
  {
    if q.groupSegments != [] {
      var groups := AllText(d, q.groupSegments).value;
      var having := OptionalClause(d, " HAVING ", q.havingCondition).value;
      assert GroupText(d, q).value == " GROUP BY " + (Join(groups, ",") + having);
      assert GroupText(d, q).value == (" GROUP BY " + Join(groups, ",")) + having;
    }
  }

  /** AppendOrdering: the expression and ASC or DESC; any other order type throws first. */
  function OrderingText(d: Dialect, o: Ordering): (r: Result<string, SqlError>)
    ensures o.orderType.UndefinedOrder? ==> r == Err(NotSupportedOrderType(o.orderType.code))
    ensures r.Ok? ==> o.orderType.Asc? || o.orderType.Desc?
    ensures r.Ok? && o.orderType.Asc? ==> EndsWith(r.value, " ASC")
    ensures r.Ok? && o.orderType.Desc? ==> EndsWith(r.value, " DESC")
  {
    match o.orderType
    case Asc =>
      var s :- ExprText(d, o.expr);
      Ok(s + " ASC")
    case Desc =>
      var s :- ExprText(d, o.expr);
      Ok(s + " DESC")
    case UndefinedOrder(code) => Err(NotSupportedOrderType(code))
  }

  predicate EndsWith(s: string, suffix: string)
  {
    |suffix| <= |s| && s[|s| - |suffix|..] == suffix
  }

  function OrderingsText(d: Dialect, os: seq<Ordering>): (r: Result<seq<string>, SqlError>)
    ensures r.Ok? ==> |r.value| == |os|
  {
    if os == [] then Ok([])
    else
      var first :- OrderingText(d, os[0]);
      var rest :- OrderingsText(d, os[1..]);
      Ok([first] + rest)
  }

  /** ConcatOrderings: the entries, comma-separated. */
  function OrderingListText(d: Dialect, os: seq<Ordering>): Result<string, SqlError>
  {
    var parts :- OrderingsText(d, os);
    Ok(Join(parts, ","))
  }

  /** BuildOrderState: nothing without orderings, else ORDER BY and the entries. */
  function OrderText(d: Dialect, os: seq<Ordering>): (r: Result<string, SqlError>)
    ensures os == [] ==> r == Ok("")
  {
    if os == [] then Ok("")
    else
      var list :- OrderingListText(d, os);
      Ok(" ORDER BY " + list)
  }

  /**
   * The orderings render exactly when each one does; then every entry ends in
   * ASC or DESC as its order type says, and one unsupported type makes the
   * whole ORDER BY throw.
   */
  lemma {:induction false} OrderingsTextElements(d: Dialect, os: seq<Ordering>)
    ensures OrderingsText(d, os).Ok? <==> forall i :: 0 <= i < |os| ==> OrderingText(d, os[i]).Ok?
    ensures OrderingsText(d, os).Ok? ==> forall i :: 0 <= i < |os| ==>
      OrderingsText(d, os).value[i] == OrderingText(d, os[i]).value &&
      (os[i].orderType.Asc? || os[i].orderType.Desc?)
  {
    if os != [] {
      OrderingsTextElements(d, os[1..]);
      assert forall i :: 1 <= i < |os| ==> os[1..][i - 1] == os[i];
    }
  }

  /** Every rendered ORDER BY entry ends in the direction of its ordering. */
  lemma OrderingEntriesEndInDirection(d: Dialect, os: seq<Ordering>)
    requires OrderingsText(d, os).Ok?
    ensures forall i :: 0 <= i < |os| ==>
      (os[i].orderType.Asc? ==> EndsWith(OrderingsText(d, os).value[i], " ASC")) &&
      (os[i].orderType.Desc? ==> EndsWith(OrderingsText(d, os).value[i], " DESC"))
  {
    OrderingsTextElements(d, os);
  }

  // ---------------------------------------------------------------------
  // Statements
  // ---------------------------------------------------------------------

  function ColumnNamesText(d: Dialect, cols: seq<ColumnValue>): (r: Result<seq<string>, SqlError>)
    ensures r.Ok? ==> |r.value| == |cols|
  {
    if cols == [] then Ok([])
    else
      var first :- QuotedName(d, cols[0].column);
      var rest :- ColumnNamesText(d, cols[1..]);
      Ok([first] + rest)
  }

  function ValuesOf(cols: seq<ColumnValue>): (vs: seq<Expr>)
    ensures |vs| == |cols| && forall i :: 0 <= i < |cols| ==> vs[i] == cols[i].value
  {
    seq(|cols|, i requires 0 <= i < |cols| => cols[i].value)
  }

  /** Visit(DbInsertExpression): the quoted column names, then the values, in the same order. */
  function InsertText(d: Dialect, ins: DbInsert): Result<string, SqlError>
  {
    var table :- TableText(d, ins.table);
    var names :- ColumnNameListText(d, ins.insertColumns);
    var values :- CommaListText(d, ValuesOf(ins.insertColumns));
    Ok("INSERT INTO " + table + "(" + names + ")" + " VALUES(" + values + ")")
  }

  /** The quoted column names of an INSERT, comma-separated. */
  function ColumnNameListText(d: Dialect, cols: seq<ColumnValue>): Result<string, SqlError>
  {
    var names :- ColumnNamesText(d, cols);
    Ok(Join(names, ","))
  }

  /** The i-th column name and the i-th value of an INSERT belong to the same column. */
  lemma {:induction false} InsertListsAlign(d: Dialect, cols: seq<ColumnValue>)
    requires ColumnNamesText(d, cols).Ok? && AllText(d, ValuesOf(cols)).Ok?
    ensures |ColumnNamesText(d, cols).value| == |AllText(d, ValuesOf(cols)).value| == |cols|
    ensures forall i :: 0 <= i < |cols| ==>
      QuotedName(d, cols[i].column).Ok? && ExprText(d, cols[i].value).Ok? &&
      ColumnNamesText(d, cols).value[i] == QuotedName(d, cols[i].column).value &&
      AllText(d, ValuesOf(cols)).value[i] == ExprText(d, cols[i].value).value
  {
    AllTextElements(d, ValuesOf(cols));
    ColumnNamesElements(d, cols);
  }

  lemma {:induction false} ColumnNamesElements(d: Dialect, cols: seq<ColumnValue>)
    requires ColumnNamesText(d, cols).Ok?
    ensures forall i :: 0 <= i < |cols| ==>
      cols[i].column != "" && ColumnNamesText(d, cols).value[i] == QuotedName(d, cols[i].column).value
  {
    if cols != [] {
      ColumnNamesElements(d, cols[1..]);
      assert forall i :: 1 <= i < |cols| ==> cols[1..][i - 1] == cols[i];
    }
  }

  /** One assignment of an UPDATE: quoted column, "=", value. */
  function AssignmentText(d: Dialect, c: ColumnValue): Result<string, SqlError>
  {
    var name :- QuotedName(d, c.column);
    var value :- ExprText(d, c.value);
    Ok(name + "=" + value)
  }

  function AssignmentsText(d: Dialect, cols: seq<ColumnValue>): (r: Result<seq<string>, SqlError>)
    ensures r.Ok? ==> |r.value| == |cols|
  {
    if cols == [] then Ok([])
    else
      var first :- AssignmentText(d, cols[0]);
      var rest :- AssignmentsText(d, cols[1..]);
      Ok([first] + rest)
  }

  /** The assignments of an UPDATE, comma-separated. */
  function AssignmentListText(d: Dialect, cols: seq<ColumnValue>): Result<string, SqlError>
  {
    var assignments :- AssignmentsText(d, cols);
    Ok(Join(assignments, ","))
  }

  /** Visit(DbUpdateExpression). */
  function UpdateText(d: Dialect, u: DbUpdate): Result<string, SqlError>
  {
    var table :- TableText(d, u.table);
    var assignments :- AssignmentListText(d, u.updateColumns);
    var where :- WhereText(d, u.condition);
    Ok("UPDATE " + table + " SET " + assignments + where)
  }

  /** Visit(DbDeleteExpression). */
  function DeleteText(d: Dialect, del: DbDelete): Result<string, SqlError>
  {
    var table :- TableText(d, del.table);
    var where :- WhereText(d, del.condition);
    Ok("DELETE FROM " + table + where)
  }
}
