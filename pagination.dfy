/** Client._query_divider: one logical query split into pages the service accepts. */
module Pagination {
  import opened Common
  import opened Text

  /** Client.DEFAULT_LIMIT: the most rows the service returns for one request. */
  const DefaultLimit: int := 99

  /** "{0} LIMIT {1} OFFSET {2};".format(query, limit, offset): the query, kept as it is,
      followed by a bounding clause that ends the statement. */
  function PageQuery(query: string, limit: int, offset: int): (r: string)
    ensures |r| > |query| && r[..|query|] == query && r[|r| - 1] == ';'
  {
    query + " LIMIT " + IntToString(limit) + " OFFSET " + IntToString(offset) + ";"
  }

  /** The number of pages: ceil(total / DefaultLimit) above the limit, else one. */
  function PageCount(total: int): (n: nat)
    ensures n >= 1
    ensures total > DefaultLimit ==> DefaultLimit * (n - 1) < total <= DefaultLimit * n
  {
    if total > DefaultLimit then (total + DefaultLimit - 1) / DefaultLimit else 1
  }

  /** The limits of the pages, first to last: full pages, then whatever remains. */
  function PageLimits(total: int): seq<int>
    decreases total
  {
    if total <= DefaultLimit then [total]
    else [DefaultLimit] + PageLimits(total - DefaultLimit)
  }

  /** The pages _query_divider returns for query and total: page i asks for limit i of
      PageLimits(total) rows from offset DefaultLimit * i, where every earlier page ended
      (OffsetsAreRunningSums). */
  function Divide(query: string, total: int): (r: seq<string>)
    ensures |r| == |PageLimits(total)|
  {
    var limits := PageLimits(total);
    seq(|limits|, i requires 0 <= i < |limits| => PageQuery(query, limits[i], DefaultLimit * i))
  }

  /** The limit of page i in closed form: the rows left, but at most DefaultLimit. */
  function LimitAt(total: int, i: nat): int
  {
    var left := total - DefaultLimit * i;
    if left < DefaultLimit then left else DefaultLimit
  }

  function Sum(s: seq<int>): int
  {
    if |s| == 0 then 0 else s[0] + Sum(s[1..])
  }

  /** There are PageCount(total) limits and limit i is LimitAt(total, i). */
  lemma {:induction false} PageLimitsAt(total: int)
    ensures |PageLimits(total)| == PageCount(total)
    ensures forall i :: 0 <= i < |PageLimits(total)| ==> PageLimits(total)[i] == LimitAt(total, i)
    decreases total
  {
    if total > DefaultLimit {
      var rest := total - DefaultLimit;
      PageLimitsAt(rest);
      assert PageCount(total) == PageCount(rest) + 1;
      forall i | 1 <= i < |PageLimits(total)|
        ensures PageLimits(total)[i] == LimitAt(total, i)
      {
        assert PageLimits(total)[i] == PageLimits(rest)[i - 1];
        assert LimitAt(rest, i - 1) == LimitAt(total, i);
      }
    }
  }

  /** _query_divider's result, page by page: page i is
      query LIMIT LimitAt(total, i) OFFSET DefaultLimit * i, and there are PageCount(total) pages. */
  lemma DivideAt(query: string, total: int, i: nat)
    requires i < PageCount(total)
    ensures |Divide(query, total)| == PageCount(total)
    ensures Divide(query, total)[i] == PageQuery(query, LimitAt(total, i), DefaultLimit * i)
  {
    PageLimitsAt(total);
  }

  /** Up to DefaultLimit rows take exactly one page with offset 0. */
  lemma DivideSinglePage(query: string, total: int)
    requires total <= DefaultLimit
    ensures Divide(query, total) == [query + " LIMIT " + IntToString(total) + " OFFSET 0;"]
  {
    assert IntToString(0) == "0";
    assert " OFFSET " + "0" + ";" == " OFFSET 0;";
    var prefix := query + " LIMIT " + IntToString(total);
    assert PageQuery(query, total, 0) == prefix + " OFFSET " + "0" + ";";
    assert prefix + " OFFSET " + "0" + ";" == prefix + (" OFFSET " + "0" + ";");
  }

  /** The limits add up to the total. */
  lemma {:induction false} LimitsSum(total: int)
    ensures Sum(PageLimits(total)) == total
    decreases total
  {
    if total > DefaultLimit {
      LimitsSum(total - DefaultLimit);
    }
  }

  /** Every page but the last is full; the last holds the rest, at most DefaultLimit and,
      for a positive total, at least one row. */
  lemma LimitsShape(total: int)
    ensures var ls := PageLimits(total);
      && (forall i :: 0 <= i < |ls| - 1 ==> ls[i] == DefaultLimit)
      && (forall i :: 0 <= i < |ls| ==> ls[i] <= DefaultLimit)
      && (total > 0 ==> 0 < ls[|ls| - 1])
      && (total > DefaultLimit ==> ls[|ls| - 1] == total - DefaultLimit * (|ls| - 1))
  {
    PageLimitsAt(total);
  }

  /** Each page starts where the previous one ended: offset i is the sum of the earlier limits. */
  lemma {:induction false} OffsetsAreRunningSums(total: int, i: nat)
    requires i < |PageLimits(total)|
    ensures Sum(PageLimits(total)[..i]) == DefaultLimit * i
    decreases i
  {
    if i > 0 {
      PageLimitsAt(total);
      var ls := PageLimits(total);
      assert ls[..i] == [ls[0]] + ls[1..][..i - 1];
      if total > DefaultLimit {
        assert ls[1..] == PageLimits(total - DefaultLimit);
        OffsetsAreRunningSums(total - DefaultLimit, i - 1);
      }
    }
  }

  /** test__query_divider: 500 rows take six pages, five full ones and one of 5 rows,
      at offsets 0, 99, 198, 297, 396 and 495. */
  lemma DivideFiveHundred(query: string)
    ensures PageLimits(500) == [99, 99, 99, 99, 99, 5]
    ensures Divide(query, 500) == [
      PageQuery(query, 99, 0), PageQuery(query, 99, 99), PageQuery(query, 99, 198),
      PageQuery(query, 99, 297), PageQuery(query, 99, 396), PageQuery(query, 5, 495)]
  {
    PageLimitsAt(500);
    assert PageCount(500) == 6;
    DivideAt(query, 500, 0);
    DivideAt(query, 500, 1);
    DivideAt(query, 500, 2);
    DivideAt(query, 500, 3);
    DivideAt(query, 500, 4);
    DivideAt(query, 500, 5);
    SixElements(Divide(query, 500));
  }

  /** One row takes one page, LIMIT 1 OFFSET 0. */
  lemma DivideOneRow(query: string)
    ensures Divide(query, 1) == [query + " LIMIT 1 OFFSET 0;"]
  {
    DivideSinglePage(query, 1);
    assert IntToString(1) == "1";
    assert " LIMIT " + "1" + " OFFSET 0;" == " LIMIT 1 OFFSET 0;";
    assert query + " LIMIT " + "1" + " OFFSET 0;" == query + (" LIMIT " + "1" + " OFFSET 0;");
  }

  /** test__query_divider: one row takes one page. */
  lemma DivideOne()
    ensures Divide("x", 1) == ["x LIMIT 1 OFFSET 0;"]
  {
    DivideOneRow("x");
    assert "x" + " LIMIT 1 OFFSET 0;" == "x LIMIT 1 OFFSET 0;";
  }
}
