/** Client._query_construct_options: the active-only predicate and the caller's
    equality filters appended to a base query. */
module QueryOptions {
  import opened Common

  /** The predicate added when only active companies are wanted. */
  const ActiveOnlyClause: string := " AND isnull(status)"

  /** " AND {0} = '{1}'".format(key, value): no escaping of either part. */
  function FilterClause(key: string, value: string): string
  {
    " AND " + key + " = '" + value + "'"
  }

  /** The clauses for the filter entries, in the dictionary's iteration order. */
  function FilterClauses(filters: seq<(string, string)>): string
    decreases |filters|
  {
    if |filters| == 0 then ""
    else FilterClauses(filters[..|filters| - 1]) + FilterClause(filters[|filters| - 1].0, filters[|filters| - 1].1)
  }

  /** The query _query_construct_options returns. */
  function WithOptions(basequery: string, activeOnly: bool, filters: seq<(string, string)>): string
  {
    basequery + (if activeOnly then ActiveOnlyClause else "") + FilterClauses(filters)
  }

  /** The clauses of consecutive filter runs follow each other. */
  lemma {:induction false} FilterClausesAppend(f: seq<(string, string)>, g: seq<(string, string)>)
    ensures FilterClauses(f + g) == FilterClauses(f) + FilterClauses(g)
    decreases |g|
  {
    if |g| == 0 {
      assert f + g == f;
    } else {
      var n := |g| - 1;
      var fg, init := f + g, f + g[..n];
      var last := FilterClause(g[n].0, g[n].1);
      FilterClausesAppend(f, g[..n]);
      AppendInit(f, g);
      calc {
        FilterClauses(fg);
        FilterClauses(init) + last;
        (FilterClauses(f) + FilterClauses(g[..n])) + last;
        FilterClauses(f) + (FilterClauses(g[..n]) + last);
        FilterClauses(f) + FilterClauses(g);
      }
    }
  }

  /** A filter entry k, v contributes exactly " AND k = 'v'". */
  lemma FilterClausesSingle(key: string, value: string)
    ensures FilterClauses([(key, value)]) == " AND " + key + " = '" + value + "'"
  {
    assert [(key, value)][..0] == [];
  }

  /** Each filter clause adds its key, its value and 10 characters of syntax. */
  lemma {:induction false} FilterClausesLength(filters: seq<(string, string)>)
    ensures |FilterClauses(filters)| == SyntaxLength(filters)
    decreases |filters|
  {
    if |filters| > 0 {
      FilterClausesLength(filters[..|filters| - 1]);
    }
  }

  function SyntaxLength(filters: seq<(string, string)>): nat
    decreases |filters|
  {
    if |filters| == 0 then 0
    else SyntaxLength(filters[..|filters| - 1]) + |filters[|filters| - 1].0| + |filters[|filters| - 1].1| + 10
  }

  /** The base query is always kept as the prefix; with active-only off and no filters
      it is returned unchanged, and the active-only clause comes right after it when on. */
  lemma WithOptionsShape(basequery: string, activeOnly: bool, filters: seq<(string, string)>)
    ensures var q := WithOptions(basequery, activeOnly, filters);
      && q[..|basequery|] == basequery
      && (activeOnly ==> q[|basequery|..|basequery| + |ActiveOnlyClause|] == ActiveOnlyClause)
      && (!activeOnly && filters == [] ==> q == basequery)
      && |q| == |basequery| + (if activeOnly then |ActiveOnlyClause| else 0) + SyntaxLength(filters)
  {
    FilterClausesLength(filters);
    var q := WithOptions(basequery, activeOnly, filters);
    if activeOnly {
      assert q == basequery + ActiveOnlyClause + FilterClauses(filters);
      assert q[..|basequery|] == basequery;
    }
  }
}
