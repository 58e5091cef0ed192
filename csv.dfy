/** The csv branch of Client._parse_query_results: every page split into lines and fields,
    the header taken from line 0, the data lines of all pages kept in order, and the whole
    written back as comma- and newline-separated text without quotes. */
module Csv {
  import opened Common
  import opened Text

  /** line.split(',') with every leading and trailing '"' stripped from each field. */
  function Fields(line: string): (r: seq<string>)
    ensures |r| >= 1
  {
    StripAll(Split(line, ','), '"')
  }

  /** response.split('\n'). */
  function Lines(page: string): (r: seq<string>)
    ensures |r| >= 1
  {
    Split(page, '\n')
  }

  /** The header loop on line 0 of a page: while the header is shorter than the line has
      columns, the next column of the line (from its first on) is appended, stripped. */
  function HeaderStep(header: seq<string>, columns: seq<string>): seq<string>
  {
    if |header| < |columns| then header + StripAll(columns[..|columns| - |header|], '"') else header
  }

  /** The header after the given pages, first to last. */
  function Header(pages: seq<string>): seq<string>
    decreases |pages|
  {
    if |pages| == 0 then []
    else HeaderStep(Header(pages[..|pages| - 1]), Split(Lines(pages[|pages| - 1])[0], ','))
  }

  /** The record built for line a: empty for line 0, whose fields go to the header. */
  function LineRecord(a: nat, line: string): seq<string>
  {
    if a == 0 then [] else Fields(line)
  }

  /** What records.append receives for line a: the record unless it is [''] (a blank line). */
  function Appended(a: nat, line: string): seq<seq<string>>
  {
    var record := LineRecord(a, line);
    if record == [""] then [] else [record]
  }

  /** The records appended for the first n lines of one page. */
  function PageRecords(lines: seq<string>, n: nat): seq<seq<string>>
    requires n <= |lines|
    decreases n
  {
    if n == 0 then [] else PageRecords(lines, n - 1) + Appended(n - 1, lines[n - 1])
  }

  /** The records list after the given pages, empty records of the header lines included. */
  function Records(pages: seq<string>): seq<seq<string>>
    decreases |pages|
  {
    if |pages| == 0 then []
    else
      var lines := Lines(pages[|pages| - 1]);
      Records(pages[..|pages| - 1]) + PageRecords(lines, |lines|)
  }

  /** The records that pass `if len(record) > 0`. */
  function Kept(records: seq<seq<string>>): seq<seq<string>>
    decreases |records|
  {
    if |records| == 0 then []
    else Kept(records[..|records| - 1]) + (if |records[|records| - 1]| > 0 then [records[|records| - 1]] else [])
  }

  /** ",".join(record) for each record. */
  function JoinEach(records: seq<seq<string>>): (r: seq<string>)
    ensures |r| == |records|
  {
    seq(|records|, i requires 0 <= i < |records| => Join(',', records[i]))
  }

  lemma JoinEachSnoc(records: seq<seq<string>>, record: seq<string>)
    ensures JoinEach(records + [record]) == JoinEach(records) + [Join(',', record)]
  {
  }

  /** The result list: the header line, then every non-empty record. */
  function OutputLines(header: seq<string>, records: seq<seq<string>>): seq<string>
  {
    [Join(',', header)] + JoinEach(Kept(records))
  }

  /** The csv text _parse_query_results returns. */
  function Merge(pages: seq<string>): string
  {
    Join('\n', OutputLines(Header(pages), Records(pages)))
  }

  /** A data line's record, or nothing for a blank line. */
  function DataOf(line: string): seq<seq<string>>
  {
    var fields := Fields(line);
    if fields == [""] then [] else [fields]
  }

  /** Reference definition: the data records of the first n lines of a page, skipping line 0. */
  function DataRecords(lines: seq<string>, n: nat): seq<seq<string>>
    requires n <= |lines|
    decreases n
  {
    if n <= 1 then [] else DataRecords(lines, n - 1) + DataOf(lines[n - 1])
  }

  /** Reference definition: the data records of every page, in page order. */
  function AllData(pages: seq<string>): seq<seq<string>>
    decreases |pages|
  {
    if |pages| == 0 then []
    else
      var lines := Lines(pages[|pages| - 1]);
      AllData(pages[..|pages| - 1]) + DataRecords(lines, |lines|)
  }

  lemma {:induction false} KeptAppend(a: seq<seq<string>>, b: seq<seq<string>>)
    ensures Kept(a + b) == Kept(a) + Kept(b)
    decreases |b|
  {
    if |b| == 0 {
      assert a + b == a;
    } else {
      var n := |b| - 1;
      KeptAppend(a, b[..n]);
      assert (a + b)[..|a + b| - 1] == a + b[..n];
      assert (a + b)[|a + b| - 1] == b[n];
    }
  }

  lemma KeptSingle(record: seq<string>)
    ensures Kept([record]) == if |record| > 0 then [record] else []
  {
    assert [record][..0] == [];
  }

  /** Line 0 contributes one empty record, which Kept drops. */
  lemma KeptFirstLine(lines: seq<string>)
    requires 1 <= |lines|
    ensures Kept(PageRecords(lines, 1)) == DataRecords(lines, 1)
  {
    assert Appended(0, lines[0]) == [[]];
    assert PageRecords(lines, 1) == [] + [[]];
    KeptSingle([]);
  }

  /** A later line keeps its fields unless they are [''] (a blank line). */
  lemma KeptNextLine(lines: seq<string>, n: nat)
    requires 1 < n <= |lines|
    requires Kept(PageRecords(lines, n - 1)) == DataRecords(lines, n - 1)
    ensures Kept(PageRecords(lines, n)) == DataRecords(lines, n)
  {
    var fields := Fields(lines[n - 1]);
    var last := Appended(n - 1, lines[n - 1]);
    assert last == DataOf(lines[n - 1]);
    KeptAppend(PageRecords(lines, n - 1), last);
    assert Kept(last) == last by {
      if last != [] {
        KeptSingle(fields);
      }
    }
  }

  /** Of the records of a page's lines, those that reach the output are its data records. */
  lemma {:induction false} KeptPageRecords(lines: seq<string>, n: nat)
    requires 1 <= n <= |lines|
    ensures Kept(PageRecords(lines, n)) == DataRecords(lines, n)
    decreases n, 1
  {
    if n > 1 {
      KeptLaterLines(lines, n);
    } else {
      KeptFirstLine(lines);
    }
  }

  lemma {:induction false} KeptLaterLines(lines: seq<string>, n: nat)
    requires 1 < n <= |lines|
    ensures Kept(PageRecords(lines, n)) == DataRecords(lines, n)
    decreases n, 0
  {
    KeptPageRecords(lines, n - 1);
    KeptNextLine(lines, n);
  }

  /** The records that reach the output are the data records of every page, in page order. */
  lemma {:induction false} KeptRecords(pages: seq<string>)
    ensures Kept(Records(pages)) == AllData(pages)
    decreases |pages|
  {
    if |pages| > 0 {
      var lines := Lines(pages[|pages| - 1]);
      KeptRecords(pages[..|pages| - 1]);
      KeptAppend(Records(pages[..|pages| - 1]), PageRecords(lines, |lines|));
      KeptPageRecords(lines, |lines|);
    }
  }

  /** The csv result stated against the reference definition: the header line followed by
      the comma-joined data records of every page, in page order, joined by newlines. */
  lemma MergeIsHeaderThenData(pages: seq<string>)
    ensures Merge(pages) == Join('\n', [Join(',', Header(pages))] + JoinEach(AllData(pages)))
  {
    KeptRecords(pages);
  }

  /** Every field of a line is free of the characters the line lacks and of ','. */
  lemma FieldsFree(line: string, c: char)
    requires Free(line, c)
    ensures forall k :: 0 <= k < |Fields(line)| ==> Free(Fields(line)[k], c) && Free(Fields(line)[k], ',')
  {
    var pieces := Split(line, ',');
    StripAllAt(pieces, '"');
    SplitKeepsFree(line, ',', c);
    SplitPiecesFree(line, ',');
    forall k | 0 <= k < |pieces|
      ensures Free(Fields(line)[k], c) && Free(Fields(line)[k], ',')
    {
      StripKeepsFree(pieces[k], '"', c);
      StripKeepsFree(pieces[k], '"', ',');
    }
  }

  /** A header step on a line without newlines adds no field with a comma or a newline. */
  lemma HeaderStepFree(header: seq<string>, line: string)
    requires forall k :: 0 <= k < |header| ==> Free(header[k], ',') && Free(header[k], '\n')
    requires Free(line, '\n')
    ensures var h := HeaderStep(header, Split(line, ','));
      forall k :: 0 <= k < |h| ==> Free(h[k], ',') && Free(h[k], '\n')
  {
    var columns := Split(line, ',');
    FieldsFree(line, '\n');
    if |header| < |columns| {
      var taken := columns[..|columns| - |header|];
      var added := StripAll(taken, '"');
      StripAllAt(taken, '"');
      StripAllAt(columns, '"');
      forall k | 0 <= k < |added|
        ensures Free(added[k], ',') && Free(added[k], '\n')
      {
        assert added[k] == Fields(line)[k];
      }
      var h := header + added;
      forall k | 0 <= k < |h|
        ensures Free(h[k], ',') && Free(h[k], '\n')
      {
        if k >= |header| {
          assert h[k] == added[k - |header|];
        }
      }
    }
  }

  /** No header field holds a comma or a newline. */
  lemma {:induction false} HeaderFree(pages: seq<string>)
    ensures forall k :: 0 <= k < |Header(pages)| ==> Free(Header(pages)[k], ',') && Free(Header(pages)[k], '\n')
    decreases |pages|
  {
    if |pages| > 0 {
      var line := Lines(pages[|pages| - 1])[0];
      HeaderFree(pages[..|pages| - 1]);
      SplitPiecesFree(pages[|pages| - 1], '\n');
      assert Free(line, '\n');
      HeaderStepFree(Header(pages[..|pages| - 1]), line);
      assert Header(pages) == HeaderStep(Header(pages[..|pages| - 1]), Split(line, ','));
    }
  }

  /** No field of a data record holds a comma or a newline, and no data record is empty
      or the single empty field. */
  lemma {:induction false} DataRecordsFree(lines: seq<string>, n: nat)
    requires n <= |lines|
    requires forall k :: 0 <= k < |lines| ==> Free(lines[k], '\n')
    ensures forall r :: r in DataRecords(lines, n) ==>
      r != [] && r != [""] && forall k :: 0 <= k < |r| ==> Free(r[k], ',') && Free(r[k], '\n')
    decreases n
  {
    if n > 1 {
      DataRecordsFree(lines, n - 1);
      FieldsFree(lines[n - 1], '\n');
    }
  }

  lemma {:induction false} AllDataFree(pages: seq<string>)
    ensures forall r :: r in AllData(pages) ==>
      r != [] && r != [""] && forall k :: 0 <= k < |r| ==> Free(r[k], ',') && Free(r[k], '\n')
    decreases |pages|
  {
    if |pages| > 0 {
      AllDataFree(pages[..|pages| - 1]);
      var lines := Lines(pages[|pages| - 1]);
      SplitPiecesFree(pages[|pages| - 1], '\n');
      DataRecordsFree(lines, |lines|);
    }
  }

  /** A record that is neither empty nor [''] joins to a non-empty line. */
  lemma JoinNonEmpty(r: seq<string>)
    requires r != [] && r != [""]
    ensures |Join(',', r)| > 0
  {
    if |r| == 1 {
      assert r == [r[0]];
    }
  }

  /** Reading the csv text back: its lines are the header line and one line per data
      record, and splitting each on ',' gives back the header and the records. */
  lemma MergeRoundTrip(pages: seq<string>)
    ensures var lines := Split(Merge(pages), '\n');
      && |lines| == 1 + |AllData(pages)|
      && (|Header(pages)| > 0 ==> Split(lines[0], ',') == Header(pages))
      && forall k :: 0 <= k < |AllData(pages)| ==> Split(lines[k + 1], ',') == AllData(pages)[k]
  {
    MergeIsHeaderThenData(pages);
    var header, data := Header(pages), AllData(pages);
    var out := [Join(',', header)] + JoinEach(data);
    HeaderFree(pages);
    AllDataFree(pages);
    OutputLinesFree(header, data);
    SplitJoin(out, '\n');
    if |header| > 0 {
      SplitJoin(header, ',');
    }
    forall k | 0 <= k < |data|
      ensures Split(out[k + 1], ',') == data[k]
    {
      assert data[k] in data;
      SplitJoin(data[k], ',');
    }
  }

  /** The last character of a join is the last character of its last non-empty part. */
  lemma {:induction false} JoinLast(parts: seq<string>, sep: char)
    requires |parts| >= 1 && |parts[|parts| - 1]| > 0
    ensures var j := Join(sep, parts); |j| > 0 && j[|j| - 1] == parts[|parts| - 1][|parts[|parts| - 1]| - 1]
    decreases |parts|
  {
    if |parts| > 1 {
      JoinLast(parts[1..], sep);
    }
  }

  /** Lines without newlines, the last one non-empty, join to a text not ending in a newline. */
  lemma JoinedLinesEnd(lines: seq<string>)
    requires forall k :: 0 <= k < |lines| ==> Free(lines[k], '\n')
    requires |lines| == 1 || (|lines| > 1 && |lines[|lines| - 1]| > 0)
    ensures var j := Join('\n', lines); |j| > 0 ==> j[|j| - 1] != '\n'
  {
    var last := lines[|lines| - 1];
    if |last| > 0 {
      JoinLast(lines, '\n');
    } else {
      assert Join('\n', lines) == last;
    }
  }

  /** Lines joined from newline-free fields hold no newline, and a record that is
      neither empty nor [''] gives a non-empty line. */
  lemma OutputLinesFree(header: seq<string>, data: seq<seq<string>>)
    requires forall k :: 0 <= k < |header| ==> Free(header[k], '\n')
    requires forall r :: r in data ==>
      r != [] && r != [""] && forall k :: 0 <= k < |r| ==> Free(r[k], ',') && Free(r[k], '\n')
    ensures var out := [Join(',', header)] + JoinEach(data);
      && (forall k :: 0 <= k < |out| ==> Free(out[k], '\n'))
      && (forall k :: 1 <= k < |out| ==> |out[k]| > 0)
  {
    var out := [Join(',', header)] + JoinEach(data);
    JoinFree(header, ',', '\n');
    forall k | 1 <= k < |out|
      ensures Free(out[k], '\n') && |out[k]| > 0
    {
      var r := data[k - 1];
      assert r in data;
      assert out[k] == Join(',', r);
      JoinFree(r, ',', '\n');
      JoinNonEmpty(r);
    }
  }

  /** The csv text never ends with a newline. */
  lemma MergeNoTrailingNewline(pages: seq<string>)
    ensures var out := Merge(pages); |out| > 0 ==> out[|out| - 1] != '\n'
  {
    MergeIsHeaderThenData(pages);
    HeaderFree(pages);
    AllDataFree(pages);
    OutputLinesFree(Header(pages), AllData(pages));
    JoinedLinesEnd([Join(',', Header(pages))] + JoinEach(AllData(pages)));
  }

  /** When no later page's line 0 has more columns than the first page's, the header is
      line 0 of the first page, split on ',' and stripped of '"'. */
  lemma {:induction false} HeaderFromFirstPage(pages: seq<string>)
    requires |pages| >= 1
    requires forall p :: 0 < p < |pages| ==>
      |Split(Lines(pages[p])[0], ',')| <= |Split(Lines(pages[0])[0], ',')|
    ensures Header(pages) == Fields(Lines(pages[0])[0])
    decreases |pages|
  {
    if |pages| == 1 {
      var columns := Split(Lines(pages[0])[0], ',');
      assert pages[..0] == [];
      assert columns[..|columns|] == columns;
    } else {
      var init := pages[..|pages| - 1];
      assert forall p :: 0 <= p < |init| ==> init[p] == pages[p];
      HeaderFromFirstPage(init);
    }
  }

  /** A later page whose line 0 has more columns than the header so far adds that line's
      FIRST columns, not its extra ones: header "a" and a line 0 of "x","y" give a, x. */
  lemma HeaderGrowsFromFront(first: string, second: string, a: string, x: string, y: string)
    requires Plain(a) && Plain(x) && Plain(y)
    requires Lines(first)[0] == Quoted(a) && Lines(second)[0] == Quoted(x) + "," + Quoted(y)
    ensures Header([first, second]) == [a, x]
  {
    var pages := [first, second];
    assert pages[..1] == [first];
    HeaderOfFirstPage(first, a);
    var columns := Split(Quoted(x) + "," + Quoted(y), ',');
    SplitFreePrefix(Quoted(x), Quoted(y), ',');
    SplitFree(Quoted(y), ',');
    assert Quoted(x) + "," + Quoted(y) == Quoted(x) + [','] + Quoted(y);
    assert columns == [Quoted(x), Quoted(y)];
    StripQuoted(x);
    assert StripAll(columns[..1], '"') == [x] + StripAll([], '"');
    assert Header(pages) == HeaderStep([a], columns);
  }

  /** A value between double quotes, as the service writes a csv field. */
  function Quoted(v: string): string
  {
    ['"'] + v + ['"']
  }

  /** A value that holds no double quote is read back from its quoted form. */
  lemma StripQuoted(v: string)
    requires Free(v, '"')
    ensures Strip(Quoted(v), '"') == v
  {
    var q := Quoted(v);
    assert q[0] == '"' && q[1..] == v + ['"'];
    var t := v + ['"'];
    if |v| > 0 {
      assert t[0] == v[0] != '"';
      assert StripLeft(q, '"') == t;
      assert t[..|t| - 1] == v;
      assert v[|v| - 1] != '"';
      assert StripRight(v, '"') == v;
      assert StripRight(t, '"') == StripRight(v, '"');
    } else {
      assert t[1..] == [];
      assert StripLeft(q, '"') == [];
    }
  }

  /** A quoted one-column line gives that one field. */
  lemma FieldsQuoted(v: string)
    requires Free(v, '"') && Free(v, ',')
    ensures Fields(Quoted(v)) == [v]
  {
    SplitFree(Quoted(v), ',');
    StripQuoted(v);
    assert StripAll([Quoted(v)], '"') == [Strip(Quoted(v), '"')] + StripAll([], '"');
  }

  /** A line made of a lone double quote, like an empty line, adds no record. */
  lemma DataOfBlank()
    ensures DataOf("") == []
    ensures DataOf("\"") == []
  {
    assert Split("", ',') == [""];
    assert Strip("", '"') == "";
    assert Fields("") == [""];
    SplitFree("\"", ',');
    assert StripLeft("\"", '"') == "";
    assert Fields("\"") == [Strip("\"", '"')] + StripAll([], '"');
  }

  /** Two newline-free lines followed by a rest split into those lines and the rest's lines. */
  lemma LinesPrefix(x: string, y: string, rest: string)
    requires Free(x, '\n') && Free(y, '\n')
    ensures Split(x + "\n" + y + "\n" + rest, '\n') == [x, y] + Split(rest, '\n')
  {
    SplitFreePrefix(y, rest, '\n');
    SplitFreePrefix(x, y + "\n" + rest, '\n');
    assert x + "\n" + y + "\n" + rest == x + ['\n'] + (y + ['\n'] + rest);
  }

  /** A value fit for one csv field: not empty, no quote, comma or newline. */
  predicate Plain(v: string)
  {
    |v| > 0 && Free(v, '"') && Free(v, ',') && Free(v, '\n')
  }

  /** A quoted plain value is a data line with that one field. */
  lemma DataOfQuoted(v: string)
    requires Plain(v)
    ensures DataOf(Quoted(v)) == [[v]]
  {
    FieldsQuoted(v);
    assert [v] != [""];
  }

  /** The data records of three lines: line 0 is skipped. */
  lemma DataRecordsThree(lines: seq<string>)
    requires |lines| == 3
    ensures DataRecords(lines, 3) == DataOf(lines[1]) + DataOf(lines[2])
  {
    assert DataRecords(lines, 2) == [] + DataOf(lines[1]);
  }

  /** A one-column page splits into its header line, its value line and its final line. */
  lemma OneColumnLines(h: string, v: string, last: string)
    requires Plain(h) && Plain(v) && Free(last, '\n')
    ensures Lines(Quoted(h) + "\n" + Quoted(v) + "\n" + last) == [Quoted(h), Quoted(v), last]
  {
    LinesPrefix(Quoted(h), Quoted(v), last);
    SplitFree(last, '\n');
  }

  /** The data of a one-column page is its value; a final empty or lone-quote line adds nothing. */
  lemma OneColumnData(h: string, v: string, last: string)
    requires Plain(v)
    requires last == "" || last == "\""
    ensures DataRecords([Quoted(h), Quoted(v), last], 3) == [[v]]
  {
    DataOfQuoted(v);
    DataOfBlank();
    DataRecordsThree([Quoted(h), Quoted(v), last]);
  }

  /** The header after a first page whose line 0 is one quoted plain name. */
  lemma HeaderOfFirstPage(page: string, h: string)
    requires Plain(h) && Lines(page)[0] == Quoted(h)
    ensures Header([page]) == [h]
  {
    assert [page][..0] == [];
    SplitFree(Quoted(h), ',');
    FieldsQuoted(h);
    assert Header([page]) == HeaderStep([], Split(Quoted(h), ','));
  }

  /** A later page whose line 0 is the same one quoted name leaves the header as it is. */
  lemma HeaderOfNextPage(pages: seq<string>, h: string)
    requires |pages| > 1 && Plain(h) && Lines(pages[|pages| - 1])[0] == Quoted(h)
    requires Header(pages[..|pages| - 1]) == [h]
    ensures Header(pages) == [h]
  {
    SplitFree(Quoted(h), ',');
  }

  /** The data of a run of pages followed by one more page. */
  lemma AllDataNext(pages: seq<string>)
    requires |pages| > 0
    ensures AllData(pages) == AllData(pages[..|pages| - 1]) + DataRecords(Lines(pages[|pages| - 1]), |Lines(pages[|pages| - 1])|)
  {
  }

  /** One-column records: the csv text is the header name and the values, one per line. */
  lemma MergeOneColumn(pages: seq<string>, h: string, values: seq<string>)
    requires Header(pages) == [h]
    requires AllData(pages) == seq(|values|, i requires 0 <= i < |values| => [values[i]])
    ensures Merge(pages) == Join('\n', [h] + values)
  {
    MergeIsHeaderThenData(pages);
    assert Join(',', [h]) == h;
    assert JoinEach(AllData(pages)) == values by {
      forall i | 0 <= i < |values|
        ensures JoinEach(AllData(pages))[i] == values[i]
      {
        assert Join(',', [values[i]]) == values[i];
      }
    }
  }

  /** test_parse_query_results_csv, one page: the header line, then the value, unquoted and
      without the trailing newline. */
  lemma MergeOnePage(h: string, v: string)
    requires Plain(h) && Plain(v)
    ensures Merge([Quoted(h) + "\n" + Quoted(v) + "\n"]) == h + "\n" + v
  {
    var page := Quoted(h) + "\n" + Quoted(v) + "\n" + "";
    assert page == Quoted(h) + "\n" + Quoted(v) + "\n";
    OneColumnLines(h, v, "");
    OneColumnData(h, v, "");
    HeaderOfFirstPage(page, h);
    assert [page][..0] == [];
    AllDataNext([page]);
    assert AllData([page]) == [[v]];
    MergeOneColumn([page], h, [v]);
    assert Join('\n', [h, v]) == h + "\n" + v by {
      assert Join('\n', [v]) == v;
    }
  }

  /** The data records of four lines: line 0 is skipped. */
  lemma DataRecordsFour(lines: seq<string>)
    requires |lines| == 4
    ensures DataRecords(lines, 4) == DataOf(lines[1]) + DataOf(lines[2]) + DataOf(lines[3])
  {
    assert DataRecords(lines, 2) == [] + DataOf(lines[1]);
  }

  /** The second page of the two-page example splits into a header line, two value lines
      and the empty line after the final newline. */
  lemma SecondPageLines(h: string, b: string, c: string)
    requires Plain(h) && Plain(b) && Plain(c)
    ensures Lines(Quoted(h) + "\n" + Quoted(b) + "\n" + Quoted(c) + "\n") == [Quoted(h), Quoted(b), Quoted(c), ""]
  {
    var page := Quoted(h) + "\n" + Quoted(b) + "\n" + (Quoted(c) + "\n");
    assert page == Quoted(h) + "\n" + Quoted(b) + "\n" + Quoted(c) + "\n";
    LinesPrefix(Quoted(h), Quoted(b), Quoted(c) + "\n");
    SplitFreePrefix(Quoted(c), "", '\n');
    assert Quoted(c) + "\n" == Quoted(c) + ['\n'] + "";
  }

  /** The second page's data: its two values, in order. */
  lemma SecondPageData(h: string, b: string, c: string)
    requires Plain(b) && Plain(c)
    ensures DataRecords([Quoted(h), Quoted(b), Quoted(c), ""], 4) == [[b], [c]]
  {
    DataOfQuoted(b);
    DataOfQuoted(c);
    DataOfBlank();
    DataRecordsFour([Quoted(h), Quoted(b), Quoted(c), ""]);
  }

  /** The header of the two-page example: the name both pages start with. */
  lemma TwoPagesHeader(first: string, second: string, h: string)
    requires Plain(h) && Lines(first)[0] == Quoted(h) && Lines(second)[0] == Quoted(h)
    ensures Header([first, second]) == [h]
  {
    var pages := [first, second];
    assert pages[..1] == [first];
    HeaderOfFirstPage(first, h);
    HeaderOfNextPage(pages, h);
  }

  /** The data of the two-page example: the first page's value, then the second's two. */
  lemma TwoPagesData(first: string, second: string, a: string, b: string, c: string)
    requires DataRecords(Lines(first), |Lines(first)|) == [[a]]
    requires DataRecords(Lines(second), |Lines(second)|) == [[b], [c]]
    ensures AllData([first, second]) == [[a], [b], [c]]
  {
    var pages := [first, second];
    PairPrefixes(first, second);
    AllDataNext([first]);
    AllDataNext(pages);
  }

  lemma JoinFourLines(h: string, a: string, b: string, c: string)
    ensures Join('\n', [h, a, b, c]) == h + "\n" + a + "\n" + b + "\n" + c
  {
    assert Join('\n', [c]) == c;
    assert Join('\n', [b, c]) == b + "\n" + c;
    assert Join('\n', [a, b, c]) == a + "\n" + (b + "\n" + c);
  }

  /** test_parse_query_results_csv, two pages: the first page's stray final quote adds no
      record, the second page's header line adds nothing, the values follow in page order. */
  lemma MergeTwoPages(h: string, a: string, b: string, c: string)
    requires Plain(h) && Plain(a) && Plain(b) && Plain(c)
    ensures Merge([Quoted(h) + "\n" + Quoted(a) + "\n" + "\"",
                   Quoted(h) + "\n" + Quoted(b) + "\n" + Quoted(c) + "\n"]) == h + "\n" + a + "\n" + b + "\n" + c
  {
    var first := Quoted(h) + "\n" + Quoted(a) + "\n" + "\"";
    var second := Quoted(h) + "\n" + Quoted(b) + "\n" + Quoted(c) + "\n";
    OneColumnLines(h, a, "\"");
    OneColumnData(h, a, "\"");
    SecondPageLines(h, b, c);
    SecondPageData(h, b, c);
    TwoPagesHeader(first, second, h);
    TwoPagesData(first, second, a, b, c);
    MergeOneColumn([first, second], h, [a, b, c]);
    JoinFourLines(h, a, b, c);
  }
}
