/**
 * The SQL query node (DbSqlQueryExpression): a mutable record whose lists
 * start empty, and its unique column-alias generator.
 */
module DbSqlQueryExpressions {
  import opened Wrappers
  import opened DbExpressions

  // ---------------------------------------------------------------------
  // Ordinal case-insensitive comparison (ASCII letters)
  // ---------------------------------------------------------------------

  function UpperChar(c: char): char
  {
    if 'a' <= c <= 'z' then (c as int - 'a' as int + 'A' as int) as char else c
  }

  function Upper(s: string): (u: string)
    ensures |u| == |s| && forall i :: 0 <= i < |s| ==> u[i] == UpperChar(s[i])
  {
    seq(|s|, i requires 0 <= i < |s| => UpperChar(s[i]))
  }

  /** String.Equals(a, b, StringComparison.OrdinalIgnoreCase). */
  predicate EqualsIgnoreCase(a: string, b: string)
  {
    Upper(a) == Upper(b)
  }

  lemma UpperConcat(a: string, b: string)
    ensures Upper(a + b) == Upper(a) + Upper(b)
  {
  }

  // ---------------------------------------------------------------------
  // Decimal text of a counter (int.ToString for non-negative values)
  // ---------------------------------------------------------------------

  function Digit(n: nat): char
    requires n < 10
  {
    ('0' as int + n) as char
  }

  predicate IsDigit(c: char)
  {
    '0' <= c <= '9'
  }

  function NatToString(n: nat): (s: string)
    ensures |s| >= 1
    ensures forall i :: 0 <= i < |s| ==> IsDigit(s[i])
  {
    if n < 10 then [Digit(n)] else NatToString(n / 10) + [Digit(n % 10)]
  }

  /** The value of a string of decimal digits: the inverse of NatToString. */
  function ParseDigits(s: string): nat
  {
    if s == [] then 0
    else ParseDigits(s[..|s| - 1]) * 10 + (if IsDigit(s[|s| - 1]) then s[|s| - 1] as int - '0' as int else 0)
  }

  lemma {:induction false} ParseNatToString(n: nat)
    ensures ParseDigits(NatToString(n)) == n
  {
    var s := NatToString(n);
    if n < 10 {
      assert s[..0] == [];
    } else {
      assert s[..|s| - 1] == NatToString(n / 10);
      ParseNatToString(n / 10);
    }
  }

  /** Different counters have different decimal texts. */
  lemma NatToStringInjective(a: nat, b: nat)
    requires NatToString(a) == NatToString(b)
    ensures a == b
  {
    ParseNatToString(a);
    ParseNatToString(b);
  }

  lemma UpperOfDigits(s: string)
    requires forall i :: 0 <= i < |s| ==> IsDigit(s[i])
    ensures Upper(s) == s
  {
  }

  // ---------------------------------------------------------------------
  // Alias candidates
  // ---------------------------------------------------------------------

  /** The k-th alias tried: the default alias itself, then the default alias followed by 0, 1, 2, ... */
  function Candidate(defaultAlias: string, k: nat): string
  {
    if k == 0 then defaultAlias else defaultAlias + NatToString(k - 1)
  }

  /** Some column's alias equals `alias`, ignoring case. */
  predicate Used(columns: seq<ColumnSegment>, alias: string)
  {
    exists i :: 0 <= i < |columns| && EqualsIgnoreCase(columns[i].alias, alias)
  }

  /** No two candidates coincide, even ignoring case. */
  lemma CandidatesDistinct(defaultAlias: string, j: nat, k: nat)
    requires j < k
    ensures Upper(Candidate(defaultAlias, j)) != Upper(Candidate(defaultAlias, k))
  {
    var suffix := NatToString(k - 1);
    UpperConcat(defaultAlias, suffix);
    UpperOfDigits(suffix);
    if j > 0 {
      var other := NatToString(j - 1);
      UpperConcat(defaultAlias, other);
      UpperOfDigits(other);
      if Upper(defaultAlias) + other == Upper(defaultAlias) + suffix {
        assert other == (Upper(defaultAlias) + other)[|defaultAlias|..];
        assert suffix == (Upper(defaultAlias) + suffix)[|defaultAlias|..];
        NatToStringInjective(j - 1, k - 1);
      }
    } else {
      assert |Upper(Candidate(defaultAlias, j))| < |Upper(Candidate(defaultAlias, k))|;
    }
  }

  /** The upper-cased aliases of the columns. */
  function AliasKeys(columns: seq<ColumnSegment>): set<string>
  {
    set i | 0 <= i < |columns| :: Upper(columns[i].alias)
  }

  lemma {:induction false} AliasKeysBound(columns: seq<ColumnSegment>)
    ensures |AliasKeys(columns)| <= |columns|
  {
    if columns != [] {
      var init := columns[..|columns| - 1];
      AliasKeysBound(init);
      assert AliasKeys(columns) == AliasKeys(init) + {Upper(columns[|columns| - 1].alias)} by {
        forall i | 0 <= i < |init|
          ensures init[i] == columns[i]
        {
        }
      }
    } else {
      assert AliasKeys(columns) == {};
    }
  }

  lemma {:induction false} SubsetSize<T>(a: set<T>, b: set<T>)
    requires a <= b
    ensures |a| <= |b|
    decreases |a|
  {
    if a != {} {
      var x :| x in a;
      SubsetSize(a - {x}, b - {x});
    }
  }

  /** The upper-cased first n candidates. */
  function CandidateKeys(defaultAlias: string, n: nat): set<string>
  {
    set k | 0 <= k < n :: Upper(Candidate(defaultAlias, k))
  }

  lemma {:induction false} CandidateKeysSize(defaultAlias: string, n: nat)
    ensures |CandidateKeys(defaultAlias, n)| == n
  {
    if n > 0 {
      CandidateKeysSize(defaultAlias, n - 1);
      var last := Upper(Candidate(defaultAlias, n - 1));
      forall k | 0 <= k < n - 1
        ensures Upper(Candidate(defaultAlias, k)) != last
      {
        CandidatesDistinct(defaultAlias, k, n - 1);
      }
      assert CandidateKeys(defaultAlias, n) == CandidateKeys(defaultAlias, n - 1) + {last};
    } else {
      assert CandidateKeys(defaultAlias, n) == {};
    }
  }

  /** At most |columns| candidates can all be taken: their keys are distinct keys of the columns. */
  lemma RejectedBound(columns: seq<ColumnSegment>, defaultAlias: string, n: nat)
    requires forall k :: 0 <= k < n ==> Used(columns, Candidate(defaultAlias, k))
    ensures n <= |columns|
  {
    forall x | x in CandidateKeys(defaultAlias, n)
      ensures x in AliasKeys(columns)
    {
      var k :| 0 <= k < n && x == Upper(Candidate(defaultAlias, k));
      assert Used(columns, Candidate(defaultAlias, k));
      var j :| 0 <= j < |columns| && EqualsIgnoreCase(columns[j].alias, Candidate(defaultAlias, k));
    }
    CandidateKeysSize(defaultAlias, n);
    SubsetSize(CandidateKeys(defaultAlias, n), AliasKeys(columns));
    AliasKeysBound(columns);
  }

  // ---------------------------------------------------------------------
  // The query node
  // ---------------------------------------------------------------------

  class DbSqlQueryExpression {
    var takeCount: Option<int>
    var skipCount: Option<int>
    var columns: seq<ColumnSegment>
    var table: Option<FromTable>
    var condition: Option<Expr>
    var groupSegments: seq<Expr>
    var havingCondition: Option<Expr>
    var orderSegments: seq<Ordering>

    /** A new query: no columns, groups or orderings; no take, skip, table, condition or having. */
    constructor ()
      ensures columns == [] && groupSegments == [] && orderSegments == []
      ensures takeCount.None? && skipCount.None? && table.None?
      ensures condition.None? && havingCondition.None?
    {
      takeCount := None;
      skipCount := None;
      columns := [];
      table := None;
      condition := None;
      groupSegments := [];
      havingCondition := None;
      orderSegments := [];
    }

    /** The node's current contents, as the value the SQL generator renders. */
    function Value(): SqlQuery
      reads this
    {
      SqlQuery(takeCount, skipCount, columns, table, condition, groupSegments, havingCondition, orderSegments)
    }

    /**
     * GenerateUniqueColumnAlias: the first candidate no column uses, ignoring
     * case. `tried` is the number of candidates rejected before it.
     */
    method GenerateUniqueColumnAlias(defaultAlias: string := "C") returns (alias: string, ghost tried: nat)
      ensures !Used(columns, alias)
      ensures alias == Candidate(defaultAlias, tried)
      ensures forall k :: 0 <= k < tried ==> Used(columns, Candidate(defaultAlias, k))
      ensures tried <= |columns|
    {
      alias := defaultAlias;
      var i := 0;
      while Used(columns, alias)
        invariant alias == Candidate(defaultAlias, i)
        invariant forall k :: 0 <= k < i ==> Used(columns, Candidate(defaultAlias, k))
        invariant i <= |columns|
        decreases |columns| - i
      {
        RejectedBound(columns, defaultAlias, i + 1);
        alias := defaultAlias + NatToString(i);
        i := i + 1;
      }
      tried := i;
    }
  }

  /** A default alias no column uses comes back unchanged. */
  lemma UnusedDefaultKept(columns: seq<ColumnSegment>, defaultAlias: string, alias: string, tried: nat)
    requires !Used(columns, defaultAlias)
    requires alias == Candidate(defaultAlias, tried)
    requires forall k :: 0 <= k < tried ==> Used(columns, Candidate(defaultAlias, k))
    ensures alias == defaultAlias && tried == 0
  {
    assert !Used(columns, Candidate(defaultAlias, 0));
  }

  /** With columns aliased "C" and "c0", the generated alias is "C1". */
  lemma SecondNumberedAlias(columns: seq<ColumnSegment>, alias: string, tried: nat)
    requires |columns| == 2 && columns[0].alias == "C" && columns[1].alias == "c0"
    requires !Used(columns, alias)
    requires alias == Candidate("C", tried)
    requires forall k :: 0 <= k < tried ==> Used(columns, Candidate("C", k))
    ensures alias == "C1"
  {
    assert Candidate("C", 1) == "C0" && NatToString(1) == "1" && Candidate("C", 2) == "C1";
    assert Upper("C") == "C" && Upper("c0") == "C0" && Upper("C0") == "C0" && Upper("C1") == "C1";
    assert Used(columns, Candidate("C", 0)) && Used(columns, Candidate("C", 1));
    assert !Used(columns, Candidate("C", 2));
  }
}
