# Chloe SQL generation core, modelled in Dafny

This project models four pieces of the Chloe ORM's query translation:

- **`SqlGeneratorBase`**: the visitor that turns a `DbExpression` tree into SQL text.
  - The NULL-safe rewrites of `==` and `!=` are functions from the IR to the IR (module `NullComparison`).
  - A three-valued (Kleene) evaluator gives the rewritten trees a meaning. Lemmas compare that meaning with C#'s value equality, under which NULL is a value like any other.
  - Each piece of emitted SQL has a specification function in `SqlRendering`. Each returns the text or the exception the visit throws.
  - The visitor is the class `SqlGenerators.SqlGenerator`, which appends step by step to its `sql` buffer, loops included.
  - Every visit is proved to append exactly its specification function's text, or to throw that function's exception.
- **`TakeQueryState`** (module `QueryStates`): a class over one non-negative row limit.
- **`DbSqlQueryExpression`** (module `DbSqlQueryExpressions`): the query node's initial state, and the `while` loop of `GenerateUniqueColumnAlias`. The loop's termination is proved by counting distinct aliases.
- **`DatabaseProvider.CreateParameterName`** of the Dameng provider (module `DamengProvider`): a pure function.

The other modules are:
- `Wrappers`: `Option`, `Result` and `Outcome`.
- `DbExpressions`: the closed IR. Its nodes are Column, Constant, Parameter, SubQuery, Table, Not, Negate, the binary operators, comparisons, Equal/NotEqual, CaseWhen, method calls, aggregates, Exists, joins and the INSERT/UPDATE/DELETE nodes.

The dialect's variable parts are parameters: a `Dialect` value holds the quote strings, the method, aggregate and operator-method handler tables, and the renderings of constants, parameters and subqueries. The parameter placeholder is likewise a parameter.

Where the code and its description differ, the model follows the code:
- In the literal case of `!=` (src/Chloe/RDBMS/SqlGeneratorBase.cs:110-134), the operands are swapped only to pick the side that gets the IS NULL test.
- The `<>` comparison itself was built before the swap, so it keeps the original operand order.
- The NULL constant takes the type of the non-literal side.

The generic rewrites are exact as filters, that is, for the rows they select:
- Where NULL is considered, the rewritten `a == b` is TRUE in exactly the rows where `a` and `b` are equal values, NULL included, and in all other rows it is FALSE or UNKNOWN (`NullComparison.EqualRewriteSelectsEqualRows`).
- For that reason NOT over the rewritten `==` would not give `!=`, which is why `!=` has its own three-branch rewrite (`NullComparison.NegatedEqualRewriteMissesRows`).
- The plain comparison used against a subquery does not select rows where both sides are NULL (`NullComparison.PlainEqualMissesNullSubQuery`). The source chooses this deliberately.
- Likewise the single `<>` against a subquery does not select a row where the other side is NULL and the subquery's value is not (`NullComparison.NotEqualMissesNullAgainstSubQuery`).

## Model

| member | source | states |
|---|---|---|
| NullComparison.RewriteEqual | src/Chloe/RDBMS/SqlGeneratorBase.cs:28-73 | the single `IsEqual(a, b)` is built exactly under the guard of line 41 (a literal or subquery side, or a non-nullable type); otherwise an OR whose first disjunct is `IsEqual(a, b)`; the tree is smaller than the `==` node |
| NullComparison.RewriteNotEqual | src/Chloe/RDBMS/SqlGeneratorBase.cs:75-183 | the tree built for `a != b` is smaller than the `!=` node it replaces; its shape is stated by RewriteNotEqualShape and its meaning by the lemmas below |
| NullComparison.RewriteNotEqualShape | src/Chloe/RDBMS/SqlGeneratorBase.cs:89-180 | the single `IsNotEqual(a, b)` is built exactly for a NULL literal side, a subquery side or two literals; otherwise an OR whose first disjunct is `IsNotEqual(a, b)` with the operands in their original order |
| NullComparison.EqualRewriteSelectsEqualRows | src/Chloe/RDBMS/SqlGeneratorBase.cs:54-70 | the `a = b OR (a IS NULL AND b IS NULL)` rewrite is TRUE exactly when C#'s `a == b` holds, TRUE when both are NULL, and equal to it in every row where both or neither side is NULL |
| NullComparison.NegatedEqualRewriteMissesRows | src/Chloe/RDBMS/SqlGeneratorBase.cs:54-70 | where NULL is considered and exactly the left side is NULL, `a != b` is true while NOT over the rewritten `a == b` is UNKNOWN, so the row would be lost |
| NullComparison.PlainEqualIsExact | src/Chloe/RDBMS/SqlGeneratorBase.cs:41-51 | under the plain-comparison guard (a literal, a subquery or a non-nullable side), the single `IsEqual(a, b)` equals `a == b` when a side is the NULL literal or neither value is NULL |
| NullComparison.PlainEqualSelectsEqualRows | src/Chloe/RDBMS/SqlGeneratorBase.cs:41-51 | under the same guard, with values that respect their types and no NULL-valued subquery, the single comparison selects exactly the rows where the values are equal |
| NullComparison.PlainEqualMissesNullSubQuery | src/Chloe/RDBMS/SqlGeneratorBase.cs:41-51 | a NULL subquery compared with a NULL column is equal in C# but UNKNOWN in the emitted SQL |
| NullComparison.NotEqualLiteralIsExact | src/Chloe/RDBMS/SqlGeneratorBase.cs:89-147 | a NULL-literal side, or a literal against a non-subquery, gives a rewrite equal to C#'s `!=` in every row: the single `IsNotEqual`, or `IsNotEqual(a, b) OR variable IS NULL` |
| NullComparison.NotEqualRewriteSelectsUnequalRows | src/Chloe/RDBMS/SqlGeneratorBase.cs:150-180 | in the general case `a<>b OR (a IS NULL AND b IS NOT NULL) OR (a IS NOT NULL AND b IS NULL)` is TRUE exactly when the values differ, NULL counting as a value, and equals `!=` when neither side is NULL |
| NullComparison.NotEqualMissesNullAgainstSubQuery | src/Chloe/RDBMS/SqlGeneratorBase.cs:99-107 | a NULL non-literal against a non-NULL subquery differs in C#, but the single `<>` gives UNKNOWN |
| NullComparison.NotEqualSubQueryIsExact | src/Chloe/RDBMS/SqlGeneratorBase.cs:99-107 | against a subquery the single `<>` equals `!=` whenever neither value is NULL |
| SqlRendering.QuotedNameRoundTrip | src/Chloe/RDBMS/SqlGeneratorBase.cs:603-609 | a non-empty name is quoted, and stripping the dialect's quotes gives the name back |
| SqlRendering.JoinLength | src/Chloe/RDBMS/SqlGeneratorBase.cs:632-649 | n fragments joined by a connector carry exactly n-1 connectors |
| SqlRendering.JoinKeepsOrder | src/Chloe/RDBMS/SqlGeneratorBase.cs:632-649 | every fragment sits, in order, at the offset given by the lengths before it and one connector each |
| SqlRendering.ChainLayout | src/Chloe/RDBMS/SqlGeneratorBase.cs:632-649 | a rendered chain of n operands is "(" then the operands' texts in order with n-1 connectors then ")", each operand's text at its exact offset |
| SqlRendering.BinaryIsChain | src/Chloe/RDBMS/SqlGeneratorBase.cs:195-274 | every And, Or, BitAnd, BitOr, Add, Subtract, Multiply, Divide and Modulo node without an operator-method handler renders as the chain of at least two gathered operands with the operator's connector |
| SqlRendering.AllTextElements | src/Chloe/RDBMS/SqlGeneratorBase.cs:632-649 | a list of operands renders exactly when each operand does, and entry i is operand i's own text |
| SqlRendering.HandlerComesFirst | src/Chloe/RDBMS/SqlGeneratorBase.cs:516-526 | a registered handler that can process the call produces its text, whatever else holds |
| SqlRendering.FunctionAttributeComesSecond | src/Chloe/RDBMS/SqlGeneratorBase.cs:528-532 | without such a handler, a function attribute makes the call a SQL function call |
| SqlRendering.EvaluationComesLast | src/Chloe/RDBMS/SqlGeneratorBase.cs:534-540 | then an evaluable call becomes a parameter holding its value, and any other call throws NotSupported with the method's name |
| SqlRendering.JoinKeyword | src/Chloe/RDBMS/SqlGeneratorBase.cs:366-388 | only the four join types have a keyword; any other throws NotSupported with its code |
| SqlRendering.UnsupportedJoinThrows | src/Chloe/RDBMS/SqlGeneratorBase.cs:366-397 | a join of an unsupported type throws that exception before anything of the join is rendered |
| SqlRendering.OptionalClause | src/Chloe/RDBMS/SqlGeneratorBase.cs:658-665 | an absent condition gives no text; a present one gives the keyword followed by the condition's text |
| SqlRendering.WhereText | src/Chloe/RDBMS/SqlGeneratorBase.cs:658-665 | the WHERE text is empty exactly when there is no condition |
| SqlRendering.GroupText | src/Chloe/RDBMS/SqlGeneratorBase.cs:686-706 | no group segments means no text at all, HAVING included |
| SqlRendering.HavingOnlyInsideGroupBy | src/Chloe/RDBMS/SqlGeneratorBase.cs:686-706 | " HAVING " appears exactly when there are group segments and a having condition, and then only after " GROUP BY " and the groups |
| SqlRendering.OrderingText | src/Chloe/RDBMS/SqlGeneratorBase.cs:719-735 | an ordering renders only for ASC or DESC, its text then ending in " ASC" or " DESC"; any other order type throws NotSupported with its code |
| SqlRendering.OrderText | src/Chloe/RDBMS/SqlGeneratorBase.cs:666-673 | no orderings means no ORDER BY |
| SqlRendering.OrderingsTextElements | src/Chloe/RDBMS/SqlGeneratorBase.cs:674-685 | the orderings render exactly when each does, each entry being that ordering's text and its order type being ASC or DESC |
| SqlRendering.OrderingEntriesEndInDirection | src/Chloe/RDBMS/SqlGeneratorBase.cs:719-735 | every rendered entry ends in " ASC" for an ascending ordering and in " DESC" for a descending one |
| SqlRendering.InsertListsAlign | src/Chloe/RDBMS/SqlGeneratorBase.cs:408-439 | the column-name list and the VALUES list of an INSERT have one entry per column, and entry i of both belongs to column i |
| SqlGenerators.SqlGenerator.QuoteName | src/Chloe/RDBMS/SqlGeneratorBase.cs:603-609 | an empty name throws and appends nothing; otherwise the buffer grows by the quoted name |
| SqlGenerators.SqlGenerator.AppendTable | src/Chloe/RDBMS/SqlGeneratorBase.cs:610-619 | appends the quoted schema and a dot when there is a schema, then the quoted table name, or throws QuoteName's exception |
| SqlGenerators.SqlGenerator.Accept | src/Chloe/RDBMS/SqlGeneratorBase.cs:28-575 | dispatching any node appends exactly that node's rendering, or throws its exception |
| SqlGenerators.SqlGenerator.VisitEqual | src/Chloe/RDBMS/SqlGeneratorBase.cs:28-73 | appends the rendering of the NULL-safe rewrite of `==` |
| SqlGenerators.SqlGenerator.VisitNotEqual | src/Chloe/RDBMS/SqlGeneratorBase.cs:75-183 | appends the rendering of the NULL-safe rewrite of `!=` |
| SqlGenerators.SqlGenerator.VisitNot | src/Chloe/RDBMS/SqlGeneratorBase.cs:185-193 | appends "NOT (", the operand, ")" |
| SqlGenerators.SqlGenerator.VisitBinary | src/Chloe/RDBMS/SqlGeneratorBase.cs:195-274 | appends the operator-method handler's text for a handled Add, else the operand chain |
| SqlGenerators.SqlGenerator.ConcatOperands | src/Chloe/RDBMS/SqlGeneratorBase.cs:632-649 | the `first`-flag loop appends exactly the parenthesised, connector-joined chain (layout in ChainLayout) or throws the first operand's exception |
| SqlGenerators.SqlGenerator.VisitNegate | src/Chloe/RDBMS/SqlGeneratorBase.cs:277-286 | appends "(-", the operand, ")" |
| SqlGenerators.SqlGenerator.VisitCompare | src/Chloe/RDBMS/SqlGeneratorBase.cs:288-330 | appends left, the comparison operator, right |
| SqlGenerators.SqlGenerator.VisitAggregate | src/Chloe/RDBMS/SqlGeneratorBase.cs:332-342 | appends the aggregate handler's text, or throws NotSupported when there is none |
| SqlGenerators.SqlGenerator.VisitColumnAccess | src/Chloe/RDBMS/SqlGeneratorBase.cs:349-356 | appends the quoted table name, a dot, the quoted column name |
| SqlGenerators.SqlGenerator.VisitFromTable | src/Chloe/RDBMS/SqlGeneratorBase.cs:357-363 | appends the table segment, then the joins |
| SqlGenerators.SqlGenerator.VisitJoinTable | src/Chloe/RDBMS/SqlGeneratorBase.cs:366-397 | appends the join keyword, table segment, " ON ", the condition and the nested joins, or throws for an unsupported join type |
| SqlGenerators.SqlGenerator.VisitJoinTables | src/Chloe/RDBMS/SqlGeneratorBase.cs:650-656 | appends each join in order |
| SqlGenerators.SqlGenerator.VisitSubQuery | src/Chloe/RDBMS/SqlGeneratorBase.cs:399-406 | appends "(", the dialect's query text, ")" |
| SqlGenerators.SqlGenerator.VisitInsert | src/Chloe/RDBMS/SqlGeneratorBase.cs:408-439 | appends "INSERT INTO ", the table, the quoted column list, " VALUES(", the values in the same order, ")" (alignment in InsertListsAlign) |
| SqlGenerators.SqlGenerator.AppendInsertColumns | src/Chloe/RDBMS/SqlGeneratorBase.cs:414-420 | the `separator` loop appends the quoted column names, comma-separated |
| SqlGenerators.SqlGenerator.AppendInsertValues | src/Chloe/RDBMS/SqlGeneratorBase.cs:425-434 | the `separator` loop appends the values, comma-separated, in column order |
| SqlGenerators.SqlGenerator.VisitUpdate | src/Chloe/RDBMS/SqlGeneratorBase.cs:441-464 | appends "UPDATE ", the table, " SET ", the comma-separated `column=value` assignments, then the optional WHERE |
| SqlGenerators.SqlGenerator.AppendAssignments | src/Chloe/RDBMS/SqlGeneratorBase.cs:447-459 | the `separator` loop appends the assignments, comma-separated, in column order |
| SqlGenerators.SqlGenerator.AppendAssignment | src/Chloe/RDBMS/SqlGeneratorBase.cs:450-456 | appends the quoted column name, "=", the value |
| SqlGenerators.SqlGenerator.VisitDelete | src/Chloe/RDBMS/SqlGeneratorBase.cs:466-473 | appends "DELETE FROM ", the table, then the optional WHERE |
| SqlGenerators.SqlGenerator.VisitExists | src/Chloe/RDBMS/SqlGeneratorBase.cs:475-496 | appends "Exists ", then the subquery whose only column is the parameter 1 aliased C and which has no ordering |
| SqlGenerators.SqlGenerator.VisitCaseWhen | src/Chloe/RDBMS/SqlGeneratorBase.cs:498-514 | appends "CASE", each " WHEN c THEN r" in order, " ELSE " and the default, " END" |
| SqlGenerators.SqlGenerator.VisitMethodCall | src/Chloe/RDBMS/SqlGeneratorBase.cs:516-541 | appends the handler's text, else the function call, else the evaluated parameter, else throws NotSupported (order in the three lemmas above) |
| SqlGenerators.SqlGenerator.VisitDbFunctionMethodCallExpression | src/Chloe/RDBMS/SqlGeneratorBase.cs:575-601 | appends the optional quoted schema and dot, the quoted function name (the attribute's, else the method's), then the arguments in parentheses |
| SqlGenerators.SqlGenerator.AppendArguments | src/Chloe/RDBMS/SqlGeneratorBase.cs:590-596 | the `c`-separator loop appends the arguments, comma-separated, in order |
| SqlGenerators.SqlGenerator.AppendTableSegment | src/Chloe/RDBMS/SqlGeneratorBase.cs:620-625 | appends the body, " AS ", the quoted alias |
| SqlGenerators.SqlGenerator.AppendColumnSegment | src/Chloe/RDBMS/SqlGeneratorBase.cs:626-631 | appends the body, " AS ", the quoted alias |
| SqlGenerators.SqlGenerator.BuildWhereState | src/Chloe/RDBMS/SqlGeneratorBase.cs:658-665 | appends " WHERE " and the condition only when there is one |
| SqlGenerators.SqlGenerator.BuildOrderState | src/Chloe/RDBMS/SqlGeneratorBase.cs:666-673 | appends " ORDER BY " and the orderings only when there are some |
| SqlGenerators.SqlGenerator.ConcatOrderings | src/Chloe/RDBMS/SqlGeneratorBase.cs:674-685 | the index loop appends the orderings, comma-separated |
| SqlGenerators.SqlGenerator.BuildGroupState | src/Chloe/RDBMS/SqlGeneratorBase.cs:686-706 | appends nothing without groups; else " GROUP BY ", the comma-separated groups, and " HAVING " with the condition when there is one |
| SqlGenerators.SqlGenerator.BuildCastState | src/Chloe/RDBMS/SqlGeneratorBase.cs:708-712 | appends "CAST(", the expression, " AS ", the type, ")" |
| SqlGenerators.SqlGenerator.AppendOrdering | src/Chloe/RDBMS/SqlGeneratorBase.cs:719-735 | appends the expression and " ASC" or " DESC"; any other order type throws before anything is appended |
| QueryStates.NextCount | Chloe-1.1/Query/QueryState/TakeQueryState.cs:42-46 | the count after Take(n) is never negative and never larger than the old count or n, it is one of them, and a negative n is always refused |
| QueryStates.TakesCommute | Chloe-1.1/Query/QueryState/TakeQueryState.cs:42-46 | Take(a) then Take(b) gives min(count, a, b), the same as Take(b) then Take(a) |
| QueryStates.TakeIdempotent | Chloe-1.1/Query/QueryState/TakeQueryState.cs:42-46 | repeating a Take changes nothing |
| QueryStates.TakeQueryState.Init | Chloe-1.1/Query/QueryState/TakeQueryState.cs:10-14 | a state built from a non-negative count holds that count and the result element |
| QueryStates.TakeQueryState.Create | Chloe-1.1/Query/QueryState/TakeQueryState.cs:10-35 | a negative count throws the argument exception; any other gives a fresh valid state with that count |
| QueryStates.TakeQueryState.SetCount | Chloe-1.1/Query/QueryState/TakeQueryState.cs:22-35 | a negative value throws and leaves the count unchanged; any other becomes the count |
| QueryStates.TakeQueryState.AcceptTake | Chloe-1.1/Query/QueryState/TakeQueryState.cs:42-48 | lowers the count in place to NextCount's value, throws exactly when n is negative (count unchanged), and returns the same object |
| QueryStates.TakeQueryState.CreateQueryState | Chloe-1.1/Query/QueryState/TakeQueryState.cs:50-53 | a fresh state over the given result with the same count |
| QueryStates.TakeQueryState.AcceptSelect | Chloe-1.1/Query/QueryState/TakeQueryState.cs:37-41 | a fresh state over the new projection with the same count |
| QueryStates.TakeQueryState.CreateSqlQuery | Chloe-1.1/Query/QueryState/TakeQueryState.cs:55-63 | the query node's value becomes its old value with TakeCount = count and SkipCount = null, every other field kept, and the same node is returned |
| QueryStates.TakeTwice | Chloe-1.1/Query/QueryState/TakeQueryState.cs:10-46 | creating a state with a and taking b leaves min(a, b) |
| DbSqlQueryExpressions.DbSqlQueryExpression.constructor | Chloe-1.1/DbExpressions/DbSqlQueryExpression.cs:10-24 | a new query has no columns, groups or orderings and no take, skip, table, condition or having |
| DbSqlQueryExpressions.DbSqlQueryExpression.GenerateUniqueColumnAlias | Chloe-1.1/DbExpressions/DbSqlQueryExpression.cs:31-42 | the alias matches no column alias ignoring case, it is the first such candidate of default, default0, default1, ..., at most |Columns| candidates are rejected, and nothing is modified |
| DbSqlQueryExpressions.CandidatesDistinct | Chloe-1.1/DbExpressions/DbSqlQueryExpression.cs:35-39 | no two candidates are equal, even ignoring case |
| DbSqlQueryExpressions.NatToStringInjective | Chloe-1.1/DbExpressions/DbSqlQueryExpression.cs:37 | different counters give different suffixes |
| DbSqlQueryExpressions.AliasKeysBound | Chloe-1.1/DbExpressions/DbSqlQueryExpression.cs:35 | the columns have at most |Columns| distinct aliases, ignoring case |
| DbSqlQueryExpressions.CandidateKeysSize | Chloe-1.1/DbExpressions/DbSqlQueryExpression.cs:35-39 | the first n candidates have n distinct upper-cased forms |
| DbSqlQueryExpressions.RejectedBound | Chloe-1.1/DbExpressions/DbSqlQueryExpression.cs:35-39 | if the first n candidates are all taken then n is at most the number of columns, so the loop ends |
| DbSqlQueryExpressions.UnusedDefaultKept | Chloe-1.1/DbExpressions/DbSqlQueryExpression.cs:33-35 | an unused default alias is returned unchanged |
| DbSqlQueryExpressions.SecondNumberedAlias | Chloe-1.1/DbExpressions/DbSqlQueryExpression.cs:31-42 | with aliases C and c0 taken, the alias generated from C is C1 |
| DamengProvider.CreateParameterName | src/Chloe.Dameng/DatabaseProvider.cs:28-39 | an empty name throws; the result starts with the placeholder's first character and ends with the name, it is the name itself exactly when the name already starts with that character, and otherwise it is the placeholder followed by the name |
| DamengProvider.CreateParameterNameIdempotent | src/Chloe.Dameng/DatabaseProvider.cs:33-38 | normalising a normalised name gives it back unchanged |

## Left out

- Visit(DbMemberExpression) and VisitStringLengthMemberAccessExpression (src/Chloe/RDBMS/SqlGeneratorBase.cs:543-574) are not modelled. They depend on reflection over the member, on `Nullable` detection and on TryConvertToParameterExpression, whose body lies outside this model.
- BuildCastState(object, string) (src/Chloe/RDBMS/SqlGeneratorBase.cs:714-717) is not modelled: it appends an arbitrary object's string form.
- Constants, parameters and whole queries are rendered by the dialect subclasses. The `Dialect` value carries those renderings as functions: `VisitConstant`, `VisitParameter` and `VisitSubQuery` append what they give.
- The method-call, aggregate and operator-method handlers are functions in the `Dialect` value. Their own output is not modelled.
- Helpers defined elsewhere in Chloe and not modelled here get stand-ins:
  - StripInvalidConvert, AmendDbInfo, AmendExpDbInfo and JoinConditionExpressionTransformer.Transform are the identity.
  - AffirmExpressionRetValueIsNull means "a Constant or Parameter whose value is NULL".
  - GatherBinaryExpressionOperand flattens the left spine of same-operator nodes, left to right.
- Reflection is abstracted:
  - A method is identified by its name.
  - DbFunctionAttribute is an optional (schema, name) pair.
  - IsEvaluable and Evaluate are functions of the dialect.
  - A type's nullability is a flag on the type.
- The Sql.IsEqual and Sql.IsNotEqual calls that the rewrites build are rendered by the dialect's handlers. The evaluator reads IsEqual as `IS NULL` against a NULL literal and as SQL `=` otherwise.
- Null strings are folded into the empty string, so "null or empty" is "empty".
- DbSqlQueryExpressions.EqualsIgnoreCase: the ordinal case-insensitive comparison folds only ASCII letters. Other Unicode case mappings are not modelled.
- When a visit throws, the partial text already appended is left unspecified, and the contracts state the exception. The exceptions are QuoteName and the order-type check of AppendOrdering, which are proved to append nothing before throwing.
- The loops of the function-call arguments, of the INSERT column and value lists and of the UPDATE assignments are separate methods: AppendArguments, AppendInsertColumns, AppendInsertValues and AppendAssignments. Their bodies are the source's loops.
- The row limit is an unbounded integer, not a 32-bit `int`. Counts are compared and copied, never computed, so no wrap-around can occur.
- The base class SubQueryState is not part of this model. CreateSqlQuery receives the node that the base class's CreateSqlQuery built. The result element is an opaque value that the state carries along.
- DbContextFacade, the PostgreSQL DbExpressionTranslator, AddMonths_Handler and DatabaseProvider.CreateConnection are not part of this model. They are I/O, lifecycle and wiring over parts of Chloe outside this model.
- Generating an alias leaves every field of the query node unchanged. GenerateUniqueColumnAlias has no `modifies` clause, so this holds by its frame rather than by a stated `ensures`.
