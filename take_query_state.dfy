/**
 * TakeQueryState: the query-building state reached after a Take(n) call. It
 * remembers the smallest row limit applied and writes it into the SQL query
 * node it produces.
 */
module QueryStates {
  import opened Wrappers
  import opened DbSqlQueryExpressions

  /** The element the query projects to; the state only carries it along. */
  datatype ResultElement = ResultElement(projection: string)

  /** The ArgumentException a negative row count raises. */
  datatype ArgumentError = NegativeCount(count: int)

  /** The count a Take(n) leaves behind when the current limit is `current`. */
  function NextCount(current: int, n: int): (r: Result<int, ArgumentError>)
    requires current >= 0
    ensures r.Err? <==> n < 0
    ensures r.Ok? ==> r.value >= 0 && r.value <= current && r.value <= n
    ensures r.Ok? ==> r.value == current || r.value == n
  {
    if n < current then
      if n < 0 then Err(NegativeCount(n)) else Ok(n)
    else Ok(current)
  }

  /** Two successive takes keep the smaller limit, in either order. */
  lemma TakesCommute(current: int, a: int, b: int)
    requires current >= 0 && a >= 0 && b >= 0
    ensures NextCount(NextCount(current, a).value, b) == NextCount(NextCount(current, b).value, a)
    ensures NextCount(NextCount(current, a).value, b).value == Min(current, Min(a, b))
  {
  }

  /** Taking the same limit again changes nothing. */
  lemma TakeIdempotent(current: int, n: int)
    requires current >= 0 && n >= 0
    ensures NextCount(NextCount(current, n).value, n) == NextCount(current, n)
  {
  }

  function Min(a: int, b: int): int
  {
    if a <= b then a else b
  }

  class TakeQueryState {
    var count: int
    var resultElement: ResultElement

    /** The row limit is never negative. */
    predicate Valid()
      reads this
    {
      count >= 0
    }

    /** The private part of the constructor, after CheckInputCount accepted `count`. */
    constructor Init(resultElement: ResultElement, count: int)
      requires count >= 0
      ensures Valid() && this.count == count && this.resultElement == resultElement
    {
      this.count := count;
      this.resultElement := resultElement;
    }

    /** new TakeQueryState(resultElement, count): a negative count raises the ArgumentException. */
    static method Create(resultElement: ResultElement, count: int) returns (r: Result<TakeQueryState, ArgumentError>)
      ensures r.Err? <==> count < 0
      ensures r.Err? ==> r.error == NegativeCount(count)
      ensures r.Ok? ==> fresh(r.value) && r.value.Valid()
      ensures r.Ok? ==> r.value.count == count && r.value.resultElement == resultElement
    {
      if count < 0 {
        return Err(NegativeCount(count));
      }
      var state := new TakeQueryState.Init(resultElement, count);
      return Ok(state);
    }

    /** The Count setter: a negative value is refused and the old count kept. */
    method SetCount(value: int) returns (r: Outcome<ArgumentError>)
      modifies this
      ensures r.Fail? <==> value < 0
      ensures r.Fail? ==> r.error == NegativeCount(value) && count == old(count)
      ensures r.Pass? ==> count == value
      ensures resultElement == old(resultElement)
    {
      if value < 0 {
        return Fail(NegativeCount(value));
      }
      count := value;
      return Pass;
    }

    /** Accept(DbTakeExpression): lowers the limit to `n` when `n` is smaller, and stays the current state. */
    method AcceptTake(n: int) returns (r: Outcome<ArgumentError>, next: TakeQueryState)
      requires Valid()
      modifies this
      ensures Valid() && next == this
      ensures r.Fail? <==> NextCount(old(count), n).Err?
      ensures r.Fail? ==> r.error == NextCount(old(count), n).error && count == old(count)
      ensures r.Pass? ==> count == NextCount(old(count), n).value
      ensures resultElement == old(resultElement)
    {
      if n < count {
        r := SetCount(n);
      } else {
        r := Pass;
      }
      next := this;
    }

    /** CreateQueryState: a new take state over `result` with the same limit. */
    method CreateQueryState(result: ResultElement) returns (next: TakeQueryState)
      requires Valid()
      ensures fresh(next) && next.Valid()
      ensures next.count == count && next.resultElement == result
    {
      next := new TakeQueryState.Init(result, count);
    }

    /** Accept(DbSelectExpression): moves to a new take state over the new projection, keeping the limit. */
    method AcceptSelect(newResult: ResultElement) returns (next: TakeQueryState)
      requires Valid()
      ensures fresh(next) && next.Valid()
      ensures next.count == count && next.resultElement == newResult
    {
      next := CreateQueryState(newResult);
    }

    /**
     * CreateSqlQuery: takes the query node the subquery state built and
     * sets its take count to the limit and its skip count to none.
     */
    method CreateSqlQuery(query: DbSqlQueryExpression) returns (result: DbSqlQueryExpression)
      requires Valid()
      modifies query
      ensures result == query
      ensures query.takeCount == Some(count) && query.skipCount.None?
      ensures query.Value() == old(query.Value()).(takeCount := Some(count), skipCount := None)
      ensures query.columns == old(query.columns) && query.table == old(query.table)
      ensures query.condition == old(query.condition) && query.groupSegments == old(query.groupSegments)
      ensures query.havingCondition == old(query.havingCondition)
      ensures query.orderSegments == old(query.orderSegments)
    {
      query.takeCount := Some(count);
      query.skipCount := None;
      result := query;
    }
  }

  /** Take(a) then Take(b) on a fresh state leaves the smaller limit, whichever is applied first. */
  method TakeTwice(element: ResultElement, a: int, b: int) returns (limit: int)
    requires a >= 0 && b >= 0
    ensures limit == Min(a, b)
  {
    var created := TakeQueryState.Create(element, a);
    var state := created.value;
    var r, next := state.AcceptTake(b);
    limit := state.count;
  }
}
