/**
 * The NULL-safe rewrite of `==` and `!=` done by SqlGeneratorBase before
 * rendering, and a three-valued (Kleene) evaluator that shows what the
 * rewritten condition means for one row.
 */
module NullComparison {
  import opened Wrappers
  import opened DbExpressions

  /** Sql.IsEqual and Sql.IsNotEqual: the calls the rewrite builds; the dialect's handlers render them. */
  const IsEqualMethod := MethodRef("IsEqual", None)
  const IsNotEqualMethod := MethodRef("IsNotEqual", None)

  function IsEqualCall(l: Expr, r: Expr): Expr { MethodCall(IsEqualMethod, [l, r], BoolType) }
  function IsNotEqualCall(l: Expr, r: Expr): Expr { MethodCall(IsNotEqualMethod, [l, r], BoolType) }
  function AndOf(l: Expr, r: Expr): Expr { Binary(And, l, r, None, BoolType) }
  function OrOf(l: Expr, r: Expr): Expr { Binary(Or, l, r, None, BoolType) }
  function NullConstant(ty: DbType): Expr { Constant(Null, ty) }

  lemma PairSize(a: Expr, b: Expr)
    ensures ListSize([a, b]) == Size(a) + Size(b)
  {
    assert [a, b][1..] == [b];
    assert [b][1..] == [];
    assert ListSize([b]) == Size(b) + ListSize([]);
  }

  lemma CallSize(m: MethodRef, a: Expr, b: Expr)
    ensures Size(MethodCall(m, [a, b], BoolType)) == 1 + Size(a) + Size(b)
  {
    PairSize(a, b);
  }

  /** A node that is a Parameter or a Constant. */
  predicate IsLiteral(e: Expr) { e.Parameter? || e.Constant? }

  /** Stand-in for AffirmExpressionRetValueIsNull: a literal whose value is NULL. */
  predicate AffirmNull(e: Expr) { IsLiteral(e) && e.value == Null }

  /** The guard under which `l == r` is emitted as one comparison, NULL not considered. */
  predicate EqualIgnoresNull(l: Expr, r: Expr)
  {
    IsLiteral(r) || IsLiteral(l) || r.SubQuery? || l.SubQuery? || !TypeOf(l).canNull || !TypeOf(r).canNull
  }

  /** Visit(DbEqualExpression): the condition `l == r` is rendered through. */
  function RewriteEqual(l: Expr, r: Expr): (e: Expr)
    ensures Size(e) < Size(Equal(l, r))
    ensures EqualIgnoresNull(l, r) <==> e == IsEqualCall(l, r)
    ensures !EqualIgnoresNull(l, r) ==> e.Binary? && e.op == Or && e.left == IsEqualCall(l, r)
  {
    CallSize(IsEqualMethod, l, r);
    CallSize(IsEqualMethod, l, NullConstant(TypeOf(l)));
    CallSize(IsEqualMethod, r, NullConstant(TypeOf(r)));
    if EqualIgnoresNull(l, r) then
      IsEqualCall(l, r)
    else
      OrOf(IsEqualCall(l, r),
           AndOf(IsEqualCall(l, NullConstant(TypeOf(l))), IsEqualCall(r, NullConstant(TypeOf(r)))))
  }

  /**
   * Visit(DbNotEqualExpression): the condition `l != r` is rendered through.
   * In the literal case the IS NULL test is on the non-literal side while the
   * comparison keeps the operands in their original order.
   */
  function RewriteNotEqual(l: Expr, r: Expr): (e: Expr)
    ensures Size(e) < Size(NotEqual(l, r))
  {
    var nl, nr := NullConstant(TypeOf(l)), NullConstant(TypeOf(r));
    CallSize(IsNotEqualMethod, l, r);
    CallSize(IsEqualMethod, l, nl);
    CallSize(IsEqualMethod, r, nl);
    CallSize(IsEqualMethod, r, nr);
    CallSize(IsNotEqualMethod, l, nl);
    CallSize(IsNotEqualMethod, r, nl);
    var notEqual := IsNotEqualCall(l, r);
    if AffirmNull(r) || AffirmNull(l) then
      notEqual
    else if r.SubQuery? || l.SubQuery? then
      notEqual
    else
      var variable := if IsLiteral(l) then r else l;
      var literal := if IsLiteral(l) then l else r;
      if IsLiteral(literal) then
        if !IsLiteral(variable) then
          OrOf(notEqual, IsEqualCall(variable, NullConstant(TypeOf(variable))))
        else
          notEqual
      else
        var nullConstant := NullConstant(TypeOf(l));
        var leftNullOnly := AndOf(IsEqualCall(l, nullConstant), IsNotEqualCall(r, nullConstant));
        var rightNullOnly := AndOf(IsNotEqualCall(l, nullConstant), IsEqualCall(r, nullConstant));
        assert Size(leftNullOnly) == 5 + Size(l) + Size(r) == Size(rightNullOnly);
        OrOf(notEqual, OrOf(leftNullOnly, rightNullOnly))
  }

  /**
   * The single `<>` is emitted exactly for a NULL literal, a subquery or two
   * literals on the sides; otherwise it is the first disjunct of an OR, with
   * the operands in their original order.
   */
  lemma RewriteNotEqualShape(l: Expr, r: Expr)
    ensures var e := RewriteNotEqual(l, r);
      (e == IsNotEqualCall(l, r) <==>
        AffirmNull(l) || AffirmNull(r) || l.SubQuery? || r.SubQuery? || (IsLiteral(l) && IsLiteral(r))) &&
      (e != IsNotEqualCall(l, r) ==> e.Binary? && e.op == Or && e.left == IsNotEqualCall(l, r))
  {
  }

  // ---------------------------------------------------------------------
  // Three-valued evaluation
  // ---------------------------------------------------------------------

  datatype Truth = True | False | Unknown

  function FromBool(b: bool): Truth { if b then True else False }

  function And3(a: Truth, b: Truth): Truth
  {
    if a == False || b == False then False
    else if a == True && b == True then True
    else Unknown
  }

  function Or3(a: Truth, b: Truth): Truth
  {
    if a == True || b == True then True
    else if a == False && b == False then False
    else Unknown
  }

  function Not3(a: Truth): Truth
  {
    match a
    case True => False
    case False => True
    case Unknown => Unknown
  }

  /** A row: the value each non-literal operand (column, subquery, call ...) takes. */
  type Row = Expr -> Value

  function ValueOf(e: Expr, row: Row): Value
  {
    if IsLiteral(e) then e.value else row(e)
  }

  /**
   * Stand-in for the dialect's Sql.IsEqual handler: a NULL literal on either
   * side makes it `IS NULL` on the other side, otherwise it is SQL's `=`,
   * UNKNOWN when either value is NULL.
   */
  function IsEqualTruth(x: Expr, y: Expr, row: Row): Truth
  {
    if AffirmNull(y) then FromBool(ValueOf(x, row) == Null)
    else if AffirmNull(x) then FromBool(ValueOf(y, row) == Null)
    else if ValueOf(x, row) == Null || ValueOf(y, row) == Null then Unknown
    else FromBool(ValueOf(x, row) == ValueOf(y, row))
  }

  /**
   * The truth of a condition in one row. `Equal` and `NotEqual` carry the
   * C# meaning of `==` and `!=`, under which NULL is a value like any other;
   * the connectives and the Sql.IsEqual/IsNotEqual calls carry SQL's meaning.
   * Other nodes are outside this evaluator.
   */
  function Eval(e: Expr, row: Row): Truth
  {
    match e
    case Equal(l, r) => FromBool(ValueOf(l, row) == ValueOf(r, row))
    case NotEqual(l, r) => FromBool(ValueOf(l, row) != ValueOf(r, row))
    case Not(x) => Not3(Eval(x, row))
    case Binary(op, l, r, _, _) =>
      if op == And then And3(Eval(l, row), Eval(r, row))
      else if op == Or then Or3(Eval(l, row), Eval(r, row))
      else Unknown
    case MethodCall(m, args, _) =>
      if |args| == 2 && m == IsEqualMethod then IsEqualTruth(args[0], args[1], row)
      else if |args| == 2 && m == IsNotEqualMethod then Not3(IsEqualTruth(args[0], args[1], row))
      else Unknown
    case _ => Unknown
  }

  lemma EvalCalls(x: Expr, y: Expr, row: Row)
    ensures Eval(IsEqualCall(x, y), row) == IsEqualTruth(x, y, row)
    ensures Eval(IsNotEqualCall(x, y), row) == Not3(IsEqualTruth(x, y, row))
  {
    assert [x, y][0] == x && [x, y][1] == y;
  }

  /** The row gives a non-null value to a non-literal whose type cannot be null. */
  predicate TypedIn(e: Expr, row: Row)
  {
    !TypeOf(e).canNull ==> ValueOf(e, row) != Null
  }

  // ---------------------------------------------------------------------
  // What the rewrites mean
  // ---------------------------------------------------------------------

  /**
   * Where NULL is considered, the rewritten `l == r` holds in exactly the rows
   * where C#'s `l == r` holds; in particular it holds when both are NULL.
   */
  lemma EqualRewriteSelectsEqualRows(l: Expr, r: Expr, row: Row)
    requires !EqualIgnoresNull(l, r)
    ensures Eval(RewriteEqual(l, r), row) == True <==> Eval(Equal(l, r), row) == True
    ensures ValueOf(l, row) == Null && ValueOf(r, row) == Null ==> Eval(RewriteEqual(l, r), row) == True
    ensures (ValueOf(l, row) == Null) == (ValueOf(r, row) == Null) ==>
      Eval(RewriteEqual(l, r), row) == Eval(Equal(l, r), row)
  {
    var nl, nr := NullConstant(TypeOf(l)), NullConstant(TypeOf(r));
    EvalCalls(l, r, row);
    EvalCalls(l, nl, row);
    EvalCalls(r, nr, row);
    var both := AndOf(IsEqualCall(l, nl), IsEqualCall(r, nr));
    assert Eval(both, row) == And3(IsEqualTruth(l, nl, row), IsEqualTruth(r, nr, row));
    assert Eval(RewriteEqual(l, r), row) == Or3(IsEqualTruth(l, r, row), Eval(both, row));
  }

  /**
   * The rewritten `l == r` is UNKNOWN, not FALSE, when one side is NULL, so
   * NOT over it does not give `l != r`: the reason `!=` has its own rewrite.
   */
  lemma NegatedEqualRewriteMissesRows(l: Expr, r: Expr, row: Row)
    requires !EqualIgnoresNull(l, r)
    requires ValueOf(l, row) == Null && ValueOf(r, row) != Null
    ensures Eval(NotEqual(l, r), row) == True && Eval(Not(RewriteEqual(l, r)), row) == Unknown
  {
    var nl, nr := NullConstant(TypeOf(l)), NullConstant(TypeOf(r));
    EvalCalls(l, r, row);
    EvalCalls(l, nl, row);
    EvalCalls(r, nr, row);
    var both := AndOf(IsEqualCall(l, nl), IsEqualCall(r, nr));
    assert Eval(both, row) == False;
    assert Eval(RewriteEqual(l, r), row) == Or3(IsEqualTruth(l, r, row), Eval(both, row));
  }

  /** The single comparison is exact when a side is the NULL literal or neither value is NULL. */
  lemma PlainEqualIsExact(l: Expr, r: Expr, row: Row)
    requires EqualIgnoresNull(l, r)
    requires AffirmNull(l) || AffirmNull(r) || (ValueOf(l, row) != Null && ValueOf(r, row) != Null)
    ensures Eval(RewriteEqual(l, r), row) == Eval(Equal(l, r), row)
  {
    EvalCalls(l, r, row);
  }

  /**
   * As a filter the single comparison selects exactly the rows where the
   * values are equal, given typed values and no NULL-valued subquery.
   */
  lemma PlainEqualSelectsEqualRows(l: Expr, r: Expr, row: Row)
    requires EqualIgnoresNull(l, r)
    requires TypedIn(l, row) && TypedIn(r, row)
    requires !(l.SubQuery? && ValueOf(l, row) == Null) && !(r.SubQuery? && ValueOf(r, row) == Null)
    ensures Eval(RewriteEqual(l, r), row) == True <==> Eval(Equal(l, r), row) == True
  {
    EvalCalls(l, r, row);
  }

  /** The limit of the single comparison: a NULL subquery result compared with a NULL column is not selected. */
  lemma PlainEqualMissesNullSubQuery(q: SqlQuery, row: Row)
    requires row(SubQuery(q, StringType)) == Null && row(Column("T", "Name", StringType)) == Null
    ensures var l, r := Column("T", "Name", StringType), SubQuery(q, StringType);
      Eval(Equal(l, r), row) == True && Eval(RewriteEqual(l, r), row) == Unknown
  {
    EvalCalls(Column("T", "Name", StringType), SubQuery(q, StringType), row);
  }

  /** A NULL literal on either side, or a literal against a non-subquery: the rewritten `l != r` is exactly C#'s `!=`. */
  lemma NotEqualLiteralIsExact(l: Expr, r: Expr, row: Row)
    requires AffirmNull(l) || AffirmNull(r) || (!(l.SubQuery? || r.SubQuery?) && (IsLiteral(l) || IsLiteral(r)))
    ensures Eval(RewriteNotEqual(l, r), row) == Eval(NotEqual(l, r), row)
  {
    EvalCalls(l, r, row);
    if !(AffirmNull(r) || AffirmNull(l)) {
      var variable := if IsLiteral(l) then r else l;
      EvalCalls(variable, NullConstant(TypeOf(variable)), row);
    }
  }

  /**
   * In the general case the rewritten `l != r` holds in exactly the rows where
   * C#'s `l != r` holds, one NULL side included.
   */
  lemma NotEqualRewriteSelectsUnequalRows(l: Expr, r: Expr, row: Row)
    requires !(l.SubQuery? || r.SubQuery? || IsLiteral(l) || IsLiteral(r))
    ensures Eval(RewriteNotEqual(l, r), row) == True <==> Eval(NotEqual(l, r), row) == True
    ensures ValueOf(l, row) != Null && ValueOf(r, row) != Null ==>
      Eval(RewriteNotEqual(l, r), row) == Eval(NotEqual(l, r), row)
  {
    var nc := NullConstant(TypeOf(l));
    EvalCalls(l, r, row);
    EvalCalls(l, nc, row);
    EvalCalls(r, nc, row);
    var leftNullOnly := AndOf(IsEqualCall(l, nc), IsNotEqualCall(r, nc));
    var rightNullOnly := AndOf(IsNotEqualCall(l, nc), IsEqualCall(r, nc));
    assert RewriteNotEqual(l, r) == OrOf(IsNotEqualCall(l, r), OrOf(leftNullOnly, rightNullOnly));
    assert Eval(leftNullOnly, row) == And3(IsEqualTruth(l, nc, row), Not3(IsEqualTruth(r, nc, row)));
    assert Eval(rightNullOnly, row) == And3(Not3(IsEqualTruth(l, nc, row)), IsEqualTruth(r, nc, row));
    assert Eval(OrOf(leftNullOnly, rightNullOnly), row) == Or3(Eval(leftNullOnly, row), Eval(rightNullOnly, row));
  }

  /** Against a subquery the single `<>` is exact when neither value is NULL. */
  lemma NotEqualSubQueryIsExact(l: Expr, r: Expr, row: Row)
    requires l.SubQuery? || r.SubQuery?
    requires ValueOf(l, row) != Null && ValueOf(r, row) != Null
    ensures Eval(RewriteNotEqual(l, r), row) == Eval(NotEqual(l, r), row)
  {
    EvalCalls(l, r, row);
  }

  /**
   * The limit of the single `<>` against a subquery: a NULL column and a
   * non-NULL subquery result differ in C# but give UNKNOWN in the emitted SQL.
   */
  lemma NotEqualMissesNullAgainstSubQuery(l: Expr, r: Expr, row: Row)
    requires r.SubQuery? && !IsLiteral(l)
    requires ValueOf(l, row) == Null && ValueOf(r, row) != Null
    ensures Eval(NotEqual(l, r), row) == True && Eval(RewriteNotEqual(l, r), row) == Unknown
  {
    EvalCalls(l, r, row);
  }
}
