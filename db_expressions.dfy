/**
 * The intermediate representation of a database query or command: the node
 * classes of the Chloe.DbExpressions namespace as one closed family of values.
 */
module DbExpressions {
  import opened Wrappers

  /** A SQL value: NULL, or a non-null datum (its text). */
  datatype Value = Null | Datum(text: string)

  /** The CLR type of a node: its name and whether `Type.CanNull()` holds for it. */
  datatype DbType = DbType(name: string, canNull: bool)

  const BoolType := DbType("Boolean", false)
  const StringType := DbType("String", true)
  const VoidType := DbType("Void", false)

  /** The binary node kinds that the renderer emits as operand chains. */
  datatype BinOp = And | Or | BitAnd | BitOr | Add | Subtract | Multiply | Divide | Modulo

  /** The ordering comparisons (<, <=, >, >=). */
  datatype CmpOp = LessThan | LessThanOrEqual | GreaterThan | GreaterThanOrEqual

  /** The `[DbFunction(Name, Schema)]` attribute of a CLR method. */
  datatype DbFunctionAttribute = DbFunctionAttribute(schema: string, name: string)

  /** A CLR method, identified by its name; `dbFunction` is its DbFunction attribute, if declared. */
  datatype MethodRef = MethodRef(name: string, dbFunction: Option<DbFunctionAttribute>)

  /** A table as the mapping metadata names it; an empty schema means "no schema". */
  datatype DbTable = DbTable(name: string, schema: string)

  /** One WHEN ... THEN ... arm of a CASE expression. */
  datatype WhenThen = WhenThen(condition: Expr, result: Expr)

  /** A table-producing body (a table or a subquery) with its alias. */
  datatype TableSegment = TableSegment(body: Expr, alias: string)

  /** DbJoinType; `UndefinedJoin` is any other value the enum variable may hold. */
  datatype JoinType = InnerJoin | LeftJoin | RightJoin | FullJoin | UndefinedJoin(code: int)

  /** A joined table: its kind, the joined segment, the ON condition and the joins nested on it. */
  datatype JoinTable = JoinTable(joinType: JoinType, table: TableSegment, condition: Expr, joinTables: seq<JoinTable>)

  /** The FROM part of a query: the first segment and the joins chained to it. */
  datatype FromTable = FromTable(table: TableSegment, joinTables: seq<JoinTable>)

  /** DbOrderType; `UndefinedOrder` is any other value the enum variable may hold. */
  datatype OrderType = Asc | Desc | UndefinedOrder(code: int)

  datatype Ordering = Ordering(expr: Expr, orderType: OrderType)

  /** An output column of a query: its body and its alias. */
  datatype ColumnSegment = ColumnSegment(body: Expr, alias: string)

  /** The value of a query statement node (the fields of DbSqlQueryExpression). */
  datatype SqlQuery = SqlQuery(
    takeCount: Option<int>,
    skipCount: Option<int>,
    columns: seq<ColumnSegment>,
    table: Option<FromTable>,
    condition: Option<Expr>,
    groupSegments: seq<Expr>,
    havingCondition: Option<Expr>,
    orderings: seq<Ordering>)

  /** The expression nodes. */
  datatype Expr =
    | Column(tableName: string, columnName: string, ty: DbType)  // DbColumnAccessExpression
    | Constant(value: Value, ty: DbType)
    | Parameter(value: Value, ty: DbType)
    | SubQuery(query: SqlQuery, ty: DbType)
    | TableExpr(dbTable: DbTable)
    | Not(operand: Expr)
    | Negate(operand: Expr, ty: DbType)
    | Binary(op: BinOp, left: Expr, right: Expr, operatorMethod: Option<string>, ty: DbType)
    | Compare(cmp: CmpOp, left: Expr, right: Expr)
    | Equal(left: Expr, right: Expr)
    | NotEqual(left: Expr, right: Expr)
    | CaseWhen(whenThens: seq<WhenThen>, elseExpr: Expr, ty: DbType)
    | MethodCall(callee: MethodRef, args: seq<Expr>, ty: DbType)
    | Aggregate(aggregate: string, args: seq<Expr>, ty: DbType)
    | Exists(query: SqlQuery)

  /** A (column, value) pair of an INSERT or UPDATE. */
  datatype ColumnValue = ColumnValue(column: string, value: Expr)

  datatype DbInsert = DbInsert(table: DbTable, insertColumns: seq<ColumnValue>)
  datatype DbUpdate = DbUpdate(table: DbTable, updateColumns: seq<ColumnValue>, condition: Option<Expr>)
  datatype DbDelete = DbDelete(table: DbTable, condition: Option<Expr>)

  /** The `Type` of a node. */
  function TypeOf(e: Expr): DbType
  {
    match e
    case Column(_, _, ty) => ty
    case Constant(_, ty) => ty
    case Parameter(_, ty) => ty
    case SubQuery(_, ty) => ty
    case TableExpr(_) => VoidType
    case Not(_) => BoolType
    case Negate(_, ty) => ty
    case Binary(_, _, _, _, ty) => ty
    case Compare(_, _, _) => BoolType
    case Equal(_, _) => BoolType
    case NotEqual(_, _) => BoolType
    case CaseWhen(_, _, ty) => ty
    case MethodCall(_, _, ty) => ty
    case Aggregate(_, _, ty) => ty
    case Exists(_) => BoolType
  }

  /**
   * A termination measure for rendering. An Equal or NotEqual node weighs more
   * than the NULL-safe expansion it is rendered through, an Exists node more
   * than the subquery it becomes.
   */
  function Size(e: Expr): (n: nat)
    ensures n >= 1
  {
    match e
    case Not(x) => 1 + Size(x)
    case Negate(x, _) => 1 + Size(x)
    case Binary(_, l, r, _, _) => 1 + Size(l) + Size(r)
    case Compare(_, l, r) => 1 + Size(l) + Size(r)
    case Equal(l, r) => 20 + 3 * (Size(l) + Size(r))
    case NotEqual(l, r) => 20 + 3 * (Size(l) + Size(r))
    case CaseWhen(ws, el, _) => 1 + WhenThensSize(ws) + Size(el)
    case MethodCall(_, args, _) => 1 + ListSize(args)
    case Aggregate(_, args, _) => 1 + ListSize(args)
    case Exists(_) => 2
    case _ => 1
  }

  function ListSize(es: seq<Expr>): nat
  {
    if es == [] then 0 else Size(es[0]) + ListSize(es[1..])
  }

  function WhenThensSize(ws: seq<WhenThen>): nat
  {
    if ws == [] then 0 else WhenThenSize(ws[0]) + WhenThensSize(ws[1..])
  }

  function WhenThenSize(w: WhenThen): (n: nat)
    ensures n >= 2
  {
    Size(w.condition) + Size(w.result)
  }

  lemma {:induction false} ListSizeBounds(es: seq<Expr>, i: nat)
    requires i < |es|
    ensures Size(es[i]) <= ListSize(es)
  {
    if i > 0 {
      ListSizeBounds(es[1..], i - 1);
    }
  }

  lemma {:induction false} ListSizeSnoc(es: seq<Expr>, last: Expr)
    ensures ListSize(es + [last]) == ListSize(es) + Size(last)
  {
    if es == [] {
      assert [last][1..] == [];
    } else {
      assert (es + [last])[1..] == es[1..] + [last];
      ListSizeSnoc(es[1..], last);
    }
  }

  lemma {:induction false} WhenThensSizeBounds(ws: seq<WhenThen>, i: nat)
    requires i < |ws|
    ensures Size(ws[i].condition) + Size(ws[i].result) <= WhenThensSize(ws)
  {
    if i > 0 {
      WhenThensSizeBounds(ws[1..], i - 1);
    }
  }

  /**
   * Stand-in for PublicHelper.GatherBinaryExpressionOperand: the maximal run of
   * `op` nodes down the left spine of `e`, flattened into its operands in
   * left-to-right order. A right operand of the same kind stays one operand.
   */
  function GatherOperands(op: BinOp, e: Expr): (ops: seq<Expr>)
    ensures |ops| >= 1
    ensures !(ops[0].Binary? && ops[0].op == op)
    ensures ListSize(ops) <= Size(e)
    ensures e.Binary? && e.op == op ==> |ops| >= 2 && ListSize(ops) < Size(e)
  {
    if e.Binary? && e.op == op then
      var init := GatherOperands(op, e.left);
      ListSizeSnoc(init, e.right);
      init + [e.right]
    else
      assert [e][1..] == [];
      [e]
  }
}
