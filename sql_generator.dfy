/**
 * SqlGeneratorBase as a class over its string builder. Every visit appends
 * to `sql` step by step, as the generator does, and is proved to append
 * exactly the text the matching function of SqlRendering gives, or to throw
 * that function's exception.
 */
module SqlGenerators {
  import opened Wrappers
  import opened DbExpressions
  import opened NullComparison
  import opened SqlRendering

  /** A visit that succeeded appended exactly the text; one that threw raised the same exception. */
  predicate Appended(before: string, after: string, text: Result<string, SqlError>, r: Outcome<SqlError>)
  {
    match text
    case Ok(s) => r == Pass && after == before + s
    case Err(x) => r == Fail(x)
  }

  lemma ConcatAssoc(a: string, b: string, c: string)
    ensures a + b + c == a + (b + c)
  {
  }

  class SqlGenerator {
    const dialect: Dialect
    var sql: string

    constructor (dialect: Dialect)
      ensures this.dialect == dialect && sql == ""
    {
      this.dialect := dialect;
      sql := "";
    }

    method Append(s: string)
      modifies this
      ensures sql == old(sql) + s
    {
      sql := sql + s;
    }

    method QuoteName(name: string) returns (r: Outcome<SqlError>)
      modifies this
      ensures Appended(old(sql), sql, QuotedName(dialect, name), r)
      ensures r.Fail? ==> sql == old(sql)
    {
      if name == "" {
        return Fail(EmptyName);
      }
      Append(dialect.leftQuote + name + dialect.rightQuote);
      r := Pass;
    }

    method AppendTable(t: DbTable) returns (r: Outcome<SqlError>)
      modifies this
      ensures Appended(old(sql), sql, TableText(dialect, t), r)
    {
      if t.schema != "" {
        r := QuoteName(t.schema);
        if r.Fail? {
          return;
        }
        Append(".");
      }
      r := QuoteName(t.name);
    }

    /** Visit(DbConstantExpression), left to the dialect. */
    method VisitConstant(e: Expr) returns (r: Outcome<SqlError>)
      requires e.Constant?
      modifies this
      ensures Appended(old(sql), sql, ExprText(dialect, e), r)
    {
      Append(dialect.constantSql(e));
      r := Pass;
    }

    /** Visit(DbParameterExpression), left to the dialect. */
    method VisitParameter(e: Expr) returns (r: Outcome<SqlError>)
      requires e.Parameter?
      modifies this
      ensures Appended(old(sql), sql, ExprText(dialect, e), r)
    {
      Append(dialect.parameterSql(e));
      r := Pass;
    }

    /** Dispatches `e` to its Visit. */
    method Accept(e: Expr) returns (r: Outcome<SqlError>)
      modifies this
      ensures Appended(old(sql), sql, ExprText(dialect, e), r)
      decreases Size(e), 2
    {
      match e
      case Column(_, _, _) => r := VisitColumnAccess(e);
      case Constant(_, _) => r := VisitConstant(e);
      case Parameter(_, _) => r := VisitParameter(e);
      case SubQuery(_, _) => r := VisitSubQuery(e);
      case TableExpr(t) => r := AppendTable(t);
      case Not(_) => r := VisitNot(e);
      case Negate(_, _) => r := VisitNegate(e);
      case Binary(_, _, _, _, _) => r := VisitBinary(e);
      case Compare(_, _, _) => r := VisitCompare(e);
      case Equal(_, _) => r := VisitEqual(e);
      case NotEqual(_, _) => r := VisitNotEqual(e);
      case CaseWhen(_, _, _) => r := VisitCaseWhen(e);
      case MethodCall(_, _, _) => r := VisitMethodCall(e);
      case Aggregate(_, _, _) => r := VisitAggregate(e);
      case Exists(_) => r := VisitExists(e);
    }

    method VisitColumnAccess(e: Expr) returns (r: Outcome<SqlError>)
      requires e.Column?
      modifies this
      ensures Appended(old(sql), sql, ColumnText(dialect, e), r)
    {
      r := QuoteName(e.tableName);
      if r.Fail? {
        return;
      }
      Append(".");
      r := QuoteName(e.columnName);
    }

    method VisitSubQuery(e: Expr) returns (r: Outcome<SqlError>)
      requires e.SubQuery?
      modifies this
      ensures Appended(old(sql), sql, ExprText(dialect, e), r)
    {
      Append("(");
      Append(dialect.querySql(e.query));
      Append(")");
      r := Pass;
    }

    method VisitNot(e: Expr) returns (r: Outcome<SqlError>)
      requires e.Not?
      modifies this
      ensures Appended(old(sql), sql, NotText(dialect, e), r)
      decreases Size(e), 1
    {
      Append("NOT (");
      r := Accept(e.operand);
      if r.Fail? {
        return;
      }
      Append(")");
    }

    method VisitNegate(e: Expr) returns (r: Outcome<SqlError>)
      requires e.Negate?
      modifies this
      ensures Appended(old(sql), sql, NegateText(dialect, e), r)
      decreases Size(e), 1
    {
      Append("(-");
      r := Accept(e.operand);
      if r.Fail? {
        return;
      }
      Append(")");
    }

    /** And, Or, BitAnd, BitOr, Add, Subtract, Multiply, Divide and Modulo. */
    method VisitBinary(e: Expr) returns (r: Outcome<SqlError>)
      requires e.Binary?
      modifies this
      ensures Appended(old(sql), sql, BinaryText(dialect, e), r)
      decreases Size(e), 1
    {
      if BinaryHandled(dialect, e) {
        Append(dialect.binaryWithMethodHandlers[e.operatorMethod.value](e));
        return Pass;
      }
      r := ConcatOperands(GatherOperands(e.op, e), Connector(e.op));
    }

    method ConcatOperands(ops: seq<Expr>, connector: string) returns (r: Outcome<SqlError>)
      modifies this
      ensures Appended(old(sql), sql, ChainText(dialect, ops, connector), r)
      decreases ListSize(ops), 3
    {
      Append("(");
      ghost var head := sql;
      ghost var parts: seq<string> := [];
      var first := true;
      var i := 0;
      assert ops[i..] == ops;
      PrependNothing(AllText(dialect, ops));
      while i < |ops|
        invariant 0 <= i <= |ops|
        invariant first <==> i == 0
        invariant |parts| == i
        invariant AllText(dialect, ops) == Prepend(parts, AllText(dialect, ops[i..]))
        invariant sql == head + Join(parts, connector)
      {
        if first {
          first := false;
        } else {
          Append(connector);
        }
        ListSizeBounds(ops, i);
        r := Accept(ops[i]);
        assert ops[i..][0] == ops[i] && ops[i..][1..] == ops[i + 1..];
        if r.Fail? {
          return;
        }
        var text := ExprText(dialect, ops[i]).value;
        JoinStep(head, parts, connector, text);
        PrependStep(parts, text, AllText(dialect, ops[i + 1..]));
        parts := parts + [text];
        i := i + 1;
      }
      assert ops[i..] == [];
      PrependToNothing(parts);
      Append(")");
      r := Pass;
    }

    method VisitCompare(e: Expr) returns (r: Outcome<SqlError>)
      requires e.Compare?
      modifies this
      ensures Appended(old(sql), sql, CompareText(dialect, e), r)
      decreases Size(e), 1
    {
      r := Accept(e.left);
      if r.Fail? {
        return;
      }
      Append(ComparisonText(e.cmp));
      r := Accept(e.right);
    }

    /** Visit(DbEqualExpression): renders the NULL-safe rewrite of the comparison. */
    method VisitEqual(e: Expr) returns (r: Outcome<SqlError>)
      requires e.Equal?
      modifies this
      ensures Appended(old(sql), sql, ExprText(dialect, e), r)
      decreases Size(e), 1
    {
      r := Accept(RewriteEqual(e.left, e.right));
    }

    /** Visit(DbNotEqualExpression): renders the NULL-safe rewrite of the comparison. */
    method VisitNotEqual(e: Expr) returns (r: Outcome<SqlError>)
      requires e.NotEqual?
      modifies this
      ensures Appended(old(sql), sql, ExprText(dialect, e), r)
      decreases Size(e), 1
    {
      r := Accept(RewriteNotEqual(e.left, e.right));
    }

    method VisitCaseWhen(e: Expr) returns (r: Outcome<SqlError>)
      requires e.CaseWhen?
      modifies this
      ensures Appended(old(sql), sql, CaseWhenText(dialect, e), r)
      decreases Size(e), 1
    {
      var ws := e.whenThens;
      ghost var start := sql;
      Append("CASE");
      ghost var head := sql;
      ghost var done := "";
      var i := 0;
      assert ws[i..] == ws;
      PrependTextNothing(WhenThensText(dialect, ws));
      while i < |ws|
        invariant 0 <= i <= |ws|
        invariant WhenThensText(dialect, ws) == PrependText(done, WhenThensText(dialect, ws[i..]))
        invariant sql == head + done
      {
        WhenThensSizeBounds(ws, i);
        assert ws[i..][0] == ws[i] && ws[i..][1..] == ws[i + 1..];
        ghost var before := sql;
        Append(" WHEN ");
        r := Accept(ws[i].condition);
        if r.Fail? {
          return;
        }
        ghost var condition := ExprText(dialect, ws[i].condition).value;
        ConcatAssoc(before, " WHEN ", condition);
        Append(" THEN ");
        ConcatAssoc(before, " WHEN " + condition, " THEN ");
        r := Accept(ws[i].result);
        if r.Fail? {
          return;
        }
        ghost var result := ExprText(dialect, ws[i].result).value;
        ConcatAssoc(before, " WHEN " + condition + " THEN ", result);
        ghost var arm := " WHEN " + condition + " THEN " + result;
        assert WhenThenText(dialect, ws[i]) == Ok(arm);
        ConcatAssoc(head, done, arm);
        PrependTextStep(done, arm, WhenThensText(dialect, ws[i + 1..]));
        done := done + arm;
        i := i + 1;
      }
      assert ws[i..] == [];
      PrependTextToNothing(done);
      ConcatAssoc(start, "CASE", done);
      ghost var emitted := "CASE" + done;
      Append(" ELSE ");
      ConcatAssoc(start, emitted, " ELSE ");
      r := Accept(e.elseExpr);
      if r.Fail? {
        return;
      }
      ghost var otherwise := ExprText(dialect, e.elseExpr).value;
      ConcatAssoc(start, emitted + " ELSE ", otherwise);
      Append(" END");
      ConcatAssoc(start, emitted + " ELSE " + otherwise, " END");
    }

    /** Handler, then function attribute, then evaluation to a parameter, else NotSupported. */
    method VisitMethodCall(e: Expr) returns (r: Outcome<SqlError>)
      requires e.MethodCall?
      modifies this
      ensures Appended(old(sql), sql, MethodCallText(dialect, e), r)
      decreases Size(e), 1
    {
      if HandlerTakes(dialect, e) {
        Append(dialect.methodHandlers[e.callee.name].process(e));
        return Pass;
      }
      if e.callee.dbFunction.Some? {
        r := VisitDbFunctionMethodCallExpression(e);
        return;
      }
      if dialect.evaluable(e) {
        r := VisitParameter(Parameter(dialect.evaluate(e), e.ty));
        return;
      }
      r := Fail(NotSupportedMethod(e.callee.name));
    }

    method VisitDbFunctionMethodCallExpression(e: Expr) returns (r: Outcome<SqlError>)
      requires e.MethodCall? && e.callee.dbFunction.Some?
      modifies this
      ensures Appended(old(sql), sql, FunctionCallText(dialect, e), r)
      decreases Size(e), 0
    {
      var attr := e.callee.dbFunction.value;
      var functionName := if attr.name == "" then e.callee.name else attr.name;
      ghost var start := sql;
      ghost var emitted := "";
      if attr.schema != "" {
        r := QuoteName(attr.schema);
        if r.Fail? {
          return;
        }
        Append(".");
        emitted := QuotedName(dialect, attr.schema).value + ".";
        ConcatAssoc(start, QuotedName(dialect, attr.schema).value, ".");
      } else {
        assert sql == start + emitted;
      }
      assert SchemaPrefix(dialect, attr.schema) == Ok(emitted);
      r := QuoteName(functionName);
      if r.Fail? {
        assert QuotedName(dialect, functionName).Err?;
        return;
      }
      ConcatAssoc(start, emitted, QuotedName(dialect, functionName).value);
      emitted := emitted + QuotedName(dialect, functionName).value;
      Append("(");
      ConcatAssoc(start, emitted, "(");
      emitted := emitted + "(";
      r := AppendArguments(e.args);
      if r.Fail? {
        return;
      }
      ConcatAssoc(start, emitted, CommaListText(dialect, e.args).value);
      emitted := emitted + CommaListText(dialect, e.args).value;
      Append(")");
      ConcatAssoc(start, emitted, ")");
    }

    /** The argument loop of VisitDbFunctionMethodCallExpression, with its separator variable. */
    method AppendArguments(args: seq<Expr>) returns (r: Outcome<SqlError>)
      modifies this
      ensures Appended(old(sql), sql, CommaListText(dialect, args), r)
      decreases ListSize(args), 4
    {
      ghost var parts: seq<string> := [];
      var c := "";
      var i := 0;
      assert args[i..] == args;
      PrependNothing(AllText(dialect, args));
      assert sql == old(sql) + Join(parts, ",");
      while i < |args|
        invariant 0 <= i <= |args|
        invariant c == if i == 0 then "" else ","
        invariant |parts| == i
        invariant AllText(dialect, args) == Prepend(parts, AllText(dialect, args[i..]))
        invariant sql == old(sql) + Join(parts, ",")
      {
        Append(c);
        ListSizeBounds(args, i);
        r := Accept(args[i]);
        assert args[i..][0] == args[i] && args[i..][1..] == args[i + 1..];
        if r.Fail? {
          return;
        }
        var text := ExprText(dialect, args[i]).value;
        JoinStep(old(sql), parts, ",", text);
        PrependStep(parts, text, AllText(dialect, args[i + 1..]));
        parts := parts + [text];
        c := ",";
        i := i + 1;
      }
      assert args[i..] == [];
      PrependToNothing(parts);
      r := Pass;
    }

    method VisitAggregate(e: Expr) returns (r: Outcome<SqlError>)
      requires e.Aggregate?
      modifies this
      ensures Appended(old(sql), sql, ExprText(dialect, e), r)
    {
      if e.aggregate !in dialect.aggregateHandlers {
        return Fail(NotSupportedMethod(e.aggregate));
      }
      Append(dialect.aggregateHandlers[e.aggregate](e));
      r := Pass;
    }

    /** Exists: the query becomes a subquery selecting the constant 1, without orderings. */
    method VisitExists(e: Expr) returns (r: Outcome<SqlError>)
      requires e.Exists?
      modifies this
      ensures Appended(old(sql), sql, ExistsText(dialect, e), r)
      decreases Size(e), 1
    {
      Append("Exists ");
      r := Accept(SubQuery(ExistsQuery(e.query), BoolType));
    }

    // -------------------------------------------------------------------
    // Segments, tables and joins
    // -------------------------------------------------------------------

    method AppendTableSegment(seg: TableSegment) returns (r: Outcome<SqlError>)
      modifies this
      ensures Appended(old(sql), sql, SegmentText(dialect, seg.body, seg.alias), r)
    {
      r := Accept(seg.body);
      if r.Fail? {
        return;
      }
      Append(" AS ");
      r := QuoteName(seg.alias);
    }

    method AppendColumnSegment(seg: ColumnSegment) returns (r: Outcome<SqlError>)
      modifies this
      ensures Appended(old(sql), sql, SegmentText(dialect, seg.body, seg.alias), r)
    {
      r := Accept(seg.body);
      if r.Fail? {
        return;
      }
      Append(" AS ");
      r := QuoteName(seg.alias);
    }

    method VisitFromTable(f: FromTable) returns (r: Outcome<SqlError>)
      modifies this
      ensures Appended(old(sql), sql, FromTableText(dialect, f), r)
    {
      r := AppendTableSegment(f.table);
      if r.Fail? {
        return;
      }
      r := VisitJoinTables(f.joinTables);
    }

    method VisitJoinTable(j: JoinTable) returns (r: Outcome<SqlError>)
      modifies this
      ensures Appended(old(sql), sql, JoinTableText(dialect, j), r)
      decreases j
    {
      var keyword: string;
      if j.joinType == InnerJoin {
        keyword := " INNER JOIN ";
      } else if j.joinType == LeftJoin {
        keyword := " LEFT JOIN ";
      } else if j.joinType == RightJoin {
        keyword := " RIGHT JOIN ";
      } else if j.joinType == FullJoin {
        keyword := " FULL JOIN ";
      } else {
        return Fail(NotSupportedJoinType(j.joinType.code));
      }
      assert JoinKeyword(j.joinType) == Ok(keyword);
      ghost var start := sql;
      Append(keyword);
      r := AppendTableSegment(j.table);
      if r.Fail? {
        return;
      }
      ghost var table := SegmentText(dialect, j.table.body, j.table.alias).value;
      ConcatAssoc(start, keyword, table);
      Append(" ON ");
      ConcatAssoc(start, keyword + table, " ON ");
      r := Accept(j.condition);
      if r.Fail? {
        return;
      }
      ghost var condition := ExprText(dialect, j.condition).value;
      ConcatAssoc(start, keyword + table + " ON ", condition);
      r := VisitJoinTables(j.joinTables);
      if r.Pass? {
        ConcatAssoc(start, keyword + table + " ON " + condition, JoinTablesText(dialect, j.joinTables).value);
      }
    }

    /** VisitDbJoinTableExpressions. */
    method VisitJoinTables(js: seq<JoinTable>) returns (r: Outcome<SqlError>)
      modifies this
      ensures Appended(old(sql), sql, JoinTablesText(dialect, js), r)
      decreases js
    {
      ghost var done := "";
      var i := 0;
      assert js[i..] == js;
      PrependTextNothing(JoinTablesText(dialect, js));
      assert sql == old(sql) + done;
      while i < |js|
        invariant 0 <= i <= |js|
        invariant JoinTablesText(dialect, js) == PrependText(done, JoinTablesText(dialect, js[i..]))
        invariant sql == old(sql) + done
      {
        assert js[i..][0] == js[i] && js[i..][1..] == js[i + 1..];
        r := VisitJoinTable(js[i]);
        if r.Fail? {
          assert JoinTablesText(dialect, js[i..]) == Err(r.error);
          return;
        }
        ghost var text := JoinTableText(dialect, js[i]).value;
        assert JoinTablesText(dialect, js[i..]) == PrependText(text, JoinTablesText(dialect, js[i + 1..]));
        ConcatAssoc(old(sql), done, text);
        PrependTextStep(done, text, JoinTablesText(dialect, js[i + 1..]));
        done := done + text;
        i := i + 1;
      }
      assert js[i..] == [];
      PrependTextToNothing(done);
      r := Pass;
    }

    method BuildCastState(e: Expr, targetType: string) returns (r: Outcome<SqlError>)
      modifies this
      ensures Appended(old(sql), sql, CastText(dialect, e, targetType), r)
    {
      Append("CAST(");
      r := Accept(e);
      if r.Fail? {
        return;
      }
      Append(" AS " + targetType + ")");
    }

    // -------------------------------------------------------------------
    // Clauses
    // -------------------------------------------------------------------

    method BuildWhereState(condition: Option<Expr>) returns (r: Outcome<SqlError>)
      modifies this
      ensures Appended(old(sql), sql, WhereText(dialect, condition), r)
    {
      if condition.Some? {
        Append(" WHERE ");
        r := Accept(condition.value);
      } else {
        r := Pass;
      }
    }

    method BuildGroupState(q: SqlQuery) returns (r: Outcome<SqlError>)
      modifies this
      ensures Appended(old(sql), sql, GroupText(dialect, q), r)
    {
      var groups := q.groupSegments;
      if |groups| == 0 {
        return Pass;
      }
      ghost var start := sql;
      Append(" GROUP BY ");
      ghost var head := sql;
      ghost var parts: seq<string> := [];
      var i := 0;
      assert groups[i..] == groups;
      PrependNothing(AllText(dialect, groups));
      while i < |groups|
        invariant 0 <= i <= |groups|
        invariant |parts| == i
        invariant AllText(dialect, groups) == Prepend(parts, AllText(dialect, groups[i..]))
        invariant sql == head + Join(parts, ",")
      {
        if i > 0 {
          Append(",");
        }
        r := Accept(groups[i]);
        assert groups[i..][0] == groups[i] && groups[i..][1..] == groups[i + 1..];
        if r.Fail? {
          return;
        }
        var text := ExprText(dialect, groups[i]).value;
        JoinStep(head, parts, ",", text);
        PrependStep(parts, text, AllText(dialect, groups[i + 1..]));
        parts := parts + [text];
        i := i + 1;
      }
      assert groups[i..] == [];
      PrependToNothing(parts);
      ConcatAssoc(start, " GROUP BY ", Join(parts, ","));
      ghost var emitted := " GROUP BY " + Join(parts, ",");
      if q.havingCondition.Some? {
        Append(" HAVING ");
        r := Accept(q.havingCondition.value);
        if r.Pass? {
          ConcatAssoc(start + emitted, " HAVING ", ExprText(dialect, q.havingCondition.value).value);
          ConcatAssoc(start, emitted, " HAVING " + ExprText(dialect, q.havingCondition.value).value);
        }
      } else {
        assert emitted + "" == emitted;
        r := Pass;
      }
    }

    method BuildOrderState(os: seq<Ordering>) returns (r: Outcome<SqlError>)
      modifies this
      ensures Appended(old(sql), sql, OrderText(dialect, os), r)
    {
      if |os| > 0 {
        Append(" ORDER BY ");
        r := ConcatOrderings(os);
      } else {
        r := Pass;
      }
    }

    method ConcatOrderings(os: seq<Ordering>) returns (r: Outcome<SqlError>)
      modifies this
      ensures Appended(old(sql), sql, OrderingListText(dialect, os), r)
    {
      ghost var parts: seq<string> := [];
      var i := 0;
      assert os[i..] == os;
      PrependNothing(OrderingsText(dialect, os));
      assert sql == old(sql) + Join(parts, ",");
      while i < |os|
        invariant 0 <= i <= |os|
        invariant |parts| == i
        invariant OrderingsText(dialect, os) == Prepend(parts, OrderingsText(dialect, os[i..]))
        invariant sql == old(sql) + Join(parts, ",")
      {
        if i > 0 {
          Append(",");
        }
        r := AppendOrdering(os[i]);
        assert os[i..][0] == os[i] && os[i..][1..] == os[i + 1..];
        if r.Fail? {
          return;
        }
        var text := OrderingText(dialect, os[i]).value;
        JoinStep(old(sql), parts, ",", text);
        PrependStep(parts, text, OrderingsText(dialect, os[i + 1..]));
        parts := parts + [text];
        i := i + 1;
      }
      assert os[i..] == [];
      PrependToNothing(parts);
      r := Pass;
    }

    method AppendOrdering(o: Ordering) returns (r: Outcome<SqlError>)
      modifies this
      ensures Appended(old(sql), sql, OrderingText(dialect, o), r)
      ensures o.orderType.UndefinedOrder? ==> sql == old(sql)
    {
      match o.orderType {
        case Asc =>
          r := Accept(o.expr);
          if r.Pass? {
            Append(" ASC");
          }
        case Desc =>
          r := Accept(o.expr);
          if r.Pass? {
            Append(" DESC");
          }
        case UndefinedOrder(code) =>
          r := Fail(NotSupportedOrderType(code));
      }
    }

    // -------------------------------------------------------------------
    // Statements
    // -------------------------------------------------------------------

    method VisitInsert(ins: DbInsert) returns (r: Outcome<SqlError>)
      modifies this
      ensures Appended(old(sql), sql, InsertText(dialect, ins), r)
    {
      ghost var start := sql;
      Append("INSERT INTO ");
      r := AppendTable(ins.table);
      if r.Fail? {
        return;
      }
      ghost var emitted := "INSERT INTO " + TableText(dialect, ins.table).value;
      ConcatAssoc(start, "INSERT INTO ", TableText(dialect, ins.table).value);
      Append("(");
      ConcatAssoc(start, emitted, "(");
      emitted := emitted + "(";
      r := AppendInsertColumns(ins.insertColumns);
      if r.Fail? {
        return;
      }
      ConcatAssoc(start, emitted, ColumnNameListText(dialect, ins.insertColumns).value);
      emitted := emitted + ColumnNameListText(dialect, ins.insertColumns).value;
      Append(")");
      ConcatAssoc(start, emitted, ")");
      emitted := emitted + ")";
      Append(" VALUES(");
      ConcatAssoc(start, emitted, " VALUES(");
      emitted := emitted + " VALUES(";
      r := AppendInsertValues(ins.insertColumns);
      if r.Fail? {
        return;
      }
      ConcatAssoc(start, emitted, CommaListText(dialect, ValuesOf(ins.insertColumns)).value);
      emitted := emitted + CommaListText(dialect, ValuesOf(ins.insertColumns)).value;
      Append(")");
      ConcatAssoc(start, emitted, ")");
    }

    /** The column-name loop of Visit(DbInsertExpression). */
    method AppendInsertColumns(cols: seq<ColumnValue>) returns (r: Outcome<SqlError>)
      modifies this
      ensures Appended(old(sql), sql, ColumnNameListText(dialect, cols), r)
    {
      ghost var names: seq<string> := [];
      var separator := "";
      var i := 0;
      assert cols[i..] == cols;
      PrependNothing(ColumnNamesText(dialect, cols));
      assert sql == old(sql) + Join(names, ",");
      while i < |cols|
        invariant 0 <= i <= |cols|
        invariant separator == if i == 0 then "" else ","
        invariant |names| == i
        invariant ColumnNamesText(dialect, cols) == Prepend(names, ColumnNamesText(dialect, cols[i..]))
        invariant sql == old(sql) + Join(names, ",")
      {
        Append(separator);
        r := QuoteName(cols[i].column);
        assert cols[i..][0] == cols[i] && cols[i..][1..] == cols[i + 1..];
        if r.Fail? {
          return;
        }
        var text := QuotedName(dialect, cols[i].column).value;
        JoinStep(old(sql), names, ",", text);
        PrependStep(names, text, ColumnNamesText(dialect, cols[i + 1..]));
        names := names + [text];
        separator := ",";
        i := i + 1;
      }
      assert cols[i..] == [];
      PrependToNothing(names);
      r := Pass;
    }

    /** The value loop of Visit(DbInsertExpression). */
    method AppendInsertValues(cols: seq<ColumnValue>) returns (r: Outcome<SqlError>)
      modifies this
      ensures Appended(old(sql), sql, CommaListText(dialect, ValuesOf(cols)), r)
    {
      var vals := ValuesOf(cols);
      ghost var values: seq<string> := [];
      var separator := "";
      var i := 0;
      assert vals[i..] == vals;
      PrependNothing(AllText(dialect, vals));
      assert sql == old(sql) + Join(values, ",");
      while i < |cols|
        invariant 0 <= i <= |cols|
        invariant separator == if i == 0 then "" else ","
        invariant |values| == i
        invariant AllText(dialect, vals) == Prepend(values, AllText(dialect, vals[i..]))
        invariant sql == old(sql) + Join(values, ",")
      {
        Append(separator);
        r := Accept(cols[i].value);
        assert vals[i..][0] == cols[i].value && vals[i..][1..] == vals[i + 1..];
        if r.Fail? {
          return;
        }
        var text := ExprText(dialect, cols[i].value).value;
        JoinStep(old(sql), values, ",", text);
        PrependStep(values, text, AllText(dialect, vals[i + 1..]));
        values := values + [text];
        separator := ",";
        i := i + 1;
      }
      assert vals[i..] == [];
      PrependToNothing(values);
      r := Pass;
    }

    method VisitUpdate(u: DbUpdate) returns (r: Outcome<SqlError>)
      modifies this
      ensures Appended(old(sql), sql, UpdateText(dialect, u), r)
    {
      ghost var start := sql;
      Append("UPDATE ");
      r := AppendTable(u.table);
      if r.Fail? {
        return;
      }
      ghost var table := TableText(dialect, u.table).value;
      ConcatAssoc(start, "UPDATE ", table);
      Append(" SET ");
      ConcatAssoc(start, "UPDATE " + table, " SET ");
      ghost var emitted := "UPDATE " + table + " SET ";
      r := AppendAssignments(u.updateColumns);
      if r.Fail? {
        return;
      }
      ghost var assignments := AssignmentListText(dialect, u.updateColumns).value;
      ConcatAssoc(start, emitted, assignments);
      emitted := emitted + assignments;
      r := BuildWhereState(u.condition);
      if r.Pass? {
        ConcatAssoc(start, emitted, WhereText(dialect, u.condition).value);
      }
    }

    /** The `separator` loop of Visit(DbUpdateExpression). */
    method AppendAssignments(cols: seq<ColumnValue>) returns (r: Outcome<SqlError>)
      modifies this
      ensures Appended(old(sql), sql, AssignmentListText(dialect, cols), r)
    {
      ghost var head := sql;
      ghost var parts: seq<string> := [];
      var separator := "";
      var i := 0;
      assert cols[i..] == cols;
      PrependNothing(AssignmentsText(dialect, cols));
      while i < |cols|
        invariant 0 <= i <= |cols|
        invariant separator == if i == 0 then "" else ","
        invariant |parts| == i
        invariant AssignmentsText(dialect, cols) == Prepend(parts, AssignmentsText(dialect, cols[i..]))
        invariant sql == head + Join(parts, ",")
      {
        Append(separator);
        ghost var before := sql;
        r := AppendAssignment(cols[i]);
        assert cols[i..][0] == cols[i] && cols[i..][1..] == cols[i + 1..];
        if r.Fail? {
          return;
        }
        var text := AssignmentText(dialect, cols[i]).value;
        JoinStep(head, parts, ",", text);
        PrependStep(parts, text, AssignmentsText(dialect, cols[i + 1..]));
        parts := parts + [text];
        separator := ",";
        i := i + 1;
      }
      assert cols[i..] == [];
      PrependToNothing(parts);
      r := Pass;
    }

    /** One assignment of Visit(DbUpdateExpression): the quoted column, "=", the value. */
    method AppendAssignment(c: ColumnValue) returns (r: Outcome<SqlError>)
      modifies this
      ensures Appended(old(sql), sql, AssignmentText(dialect, c), r)
    {
      ghost var before := sql;
      r := QuoteName(c.column);
      if r.Fail? {
        return;
      }
      ghost var name := QuotedName(dialect, c.column).value;
      Append("=");
      ConcatAssoc(before, name, "=");
      r := Accept(c.value);
      if r.Fail? {
        return;
      }
      ConcatAssoc(before, name + "=", ExprText(dialect, c.value).value);
    }

    method VisitDelete(del: DbDelete) returns (r: Outcome<SqlError>)
      modifies this
      ensures Appended(old(sql), sql, DeleteText(dialect, del), r)
    {
      ghost var start := sql;
      Append("DELETE FROM ");
      r := AppendTable(del.table);
      if r.Fail? {
        return;
      }
      ghost var table := TableText(dialect, del.table).value;
      ConcatAssoc(start, "DELETE FROM ", table);
      r := BuildWhereState(del.condition);
      if r.Pass? {
        ConcatAssoc(start, "DELETE FROM " + table, WhereText(dialect, del.condition).value);
      }
    }
  }
}
