/** The py and json branches of Client._parse_query_results and Client._pythonify_result:
    the pages' envelopes merged under the first page's header, each row zipped into a record. */
module Structured {
  import opened Common

  /** A value in a row, as json.loads / ast.literal_eval produce it (floats are not modelled). */
  datatype Cell = Str(s: string) | Num(n: int) | Bool(b: bool) | Null

  /** payload[0]['RESULT'] of one page: the column names and the positional rows. */
  datatype Envelope = Envelope(header: seq<string>, rows: seq<seq<Cell>>)

  /** One company: column name to value (a Python dict). */
  type Record = map<string, Cell>

  /** The dict _pythonify_result builds for one row: new_company[header[i]] = row[i]
      for i in order, so a later column overwrites an earlier one of the same name. */
  function Zip(header: seq<string>, row: seq<Cell>): Record
    requires |row| <= |header|
    decreases |row|
  {
    if |row| == 0 then map[]
    else Zip(header, row[..|row| - 1])[header[|row| - 1] := row[|row| - 1]]
  }

  /** _pythonify_result on the merged rows: IndexError at the first row longer than the header. */
  function Pythonify(header: seq<string>, rows: seq<seq<Cell>>): Result<seq<Record>, Error>
    decreases |rows|
  {
    if |rows| == 0 then Ok([])
    else
      match Pythonify(header, rows[..|rows| - 1])
      case Err(e) => Err(e)
      case Ok(records) =>
        var row := rows[|rows| - 1];
        if |row| > |header| then Err(IndexError) else Ok(records + [Zip(header, row)])
  }

  /** The rows of all pages, page after page. */
  function ConcatRows(envelopes: seq<Envelope>): seq<seq<Cell>>
    decreases |envelopes|
  {
    if |envelopes| == 0 then []
    else ConcatRows(envelopes[..|envelopes| - 1]) + envelopes[|envelopes| - 1].rows
  }

  /** result['RESULT'] after the merge loop: the first page's envelope with every later
      page's rows appended; None while no page has been seen (result is still {}). */
  function Merge(envelopes: seq<Envelope>): Option<Envelope>
  {
    if |envelopes| == 0 then None else Some(Envelope(envelopes[0].header, ConcatRows(envelopes)))
  }

  /** _pythonify_result applied to the merged result: KeyError when there was no page. */
  function MergedRecords(envelopes: seq<Envelope>): Result<seq<Record>, Error>
  {
    match Merge(envelopes)
    case None => Err(KeyError("RESULT"))
    case Some(env) => Pythonify(env.header, env.rows)
  }

  /** json.loads / ast.literal_eval followed by [0]['RESULT'] on every page, first failure wins. */
  function DecodeAll(responses: seq<string>, decode: string -> Option<Envelope>): Result<seq<Envelope>, Error>
    decreases |responses|
  {
    if |responses| == 0 then Ok([])
    else
      match DecodeAll(responses[..|responses| - 1], decode)
      case Err(e) => Err(e)
      case Ok(envelopes) =>
        match decode(responses[|responses| - 1])
        case None => Err(ValueError("payload could not be decoded"))
        case Some(env) => Ok(envelopes + [env])
  }

  /** The merge loop's step: the first page becomes the result, a later page's rows are
      appended to it. */
  lemma MergeStep(envelopes: seq<Envelope>, env: Envelope)
    ensures Merge(envelopes + [env]) == Some(
      if envelopes == [] then env
      else Envelope(Merge(envelopes).value.header, Merge(envelopes).value.rows + env.rows))
  {
    assert (envelopes + [env])[..|envelopes|] == envelopes;
    if envelopes == [] {
      assert [] + [env] == [env];
      MergedSinglePage(env);
    }
  }

  /** Once a page fails to decode, decoding more pages keeps that failure. */
  lemma {:induction false} DecodeAllErrPersists(responses: seq<string>, decode: string -> Option<Envelope>, j: nat)
    requires j <= |responses|
    requires DecodeAll(responses[..j], decode).Err?
    ensures DecodeAll(responses, decode) == DecodeAll(responses[..j], decode)
    decreases |responses| - j
  {
    if j == |responses| {
      assert responses[..j] == responses;
    } else {
      var init := responses[..|responses| - 1];
      assert init[..j] == responses[..j];
      DecodeAllErrPersists(init, decode, j);
    }
  }

  /** Decoding fails only with the decoding error. */
  lemma {:induction false} DecodeAllError(responses: seq<string>, decode: string -> Option<Envelope>)
    ensures DecodeAll(responses, decode).Err? ==>
      DecodeAll(responses, decode).error == ValueError("payload could not be decoded")
    decreases |responses|
  {
    if |responses| > 0 {
      DecodeAllError(responses[..|responses| - 1], decode);
    }
  }

  /** Decoders that agree on the payloads decode them alike. */
  lemma {:induction false} DecodeAllAgree(responses: seq<string>, f: string -> Option<Envelope>, g: string -> Option<Envelope>)
    requires forall k :: 0 <= k < |responses| ==> f(responses[k]) == g(responses[k])
    ensures DecodeAll(responses, f) == DecodeAll(responses, g)
    decreases |responses|
  {
    if |responses| > 0 {
      var init := responses[..|responses| - 1];
      assert forall k :: 0 <= k < |init| ==> init[k] == responses[k];
      DecodeAllAgree(init, f, g);
    }
  }

  /** Zipping a row gives every column name it reaches, and nothing else. */
  lemma {:induction false} ZipKeys(header: seq<string>, row: seq<Cell>)
    requires |row| <= |header|
    ensures forall k :: k in Zip(header, row) <==> k in header[..|row|]
    decreases |row|
  {
    if |row| > 0 {
      ZipKeys(header, row[..|row| - 1]);
      assert header[..|row|] == header[..|row| - 1] + [header[|row| - 1]];
    }
  }

  /** With distinct column names, column i of the record holds value i of the row. */
  lemma {:induction false} ZipAt(header: seq<string>, row: seq<Cell>, i: nat)
    requires |row| <= |header|
    requires forall j, k :: 0 <= j < k < |header| ==> header[j] != header[k]
    requires i < |row|
    ensures header[i] in Zip(header, row) && Zip(header, row)[header[i]] == row[i]
    decreases |row|
  {
    if i < |row| - 1 {
      ZipAt(header, row[..|row| - 1], i);
      assert row[..|row| - 1][i] == row[i];
    }
  }

  /** _pythonify_result succeeds exactly when no row is longer than the header, and then
      gives one record per row, in row order, each the row zipped with the header. */
  lemma {:induction false} PythonifyAt(header: seq<string>, rows: seq<seq<Cell>>)
    ensures Pythonify(header, rows).Ok? <==> forall k :: 0 <= k < |rows| ==> |rows[k]| <= |header|
    ensures Pythonify(header, rows).Err? ==> Pythonify(header, rows).error == IndexError
    ensures Pythonify(header, rows).Ok? ==>
      var records := Pythonify(header, rows).value;
      && |records| == |rows|
      && forall k :: 0 <= k < |rows| ==> |rows[k]| <= |header| && records[k] == Zip(header, rows[k])
    decreases |rows|
  {
    if |rows| > 0 {
      var init := rows[..|rows| - 1];
      PythonifyAt(header, init);
      assert forall k :: 0 <= k < |init| ==> init[k] == rows[k];
    }
  }

  /** Concatenating pages keeps page order: the rows of a longer run of pages are the rows
      of the first part followed by those of the second. */
  lemma {:induction false} ConcatRowsAppend(first: seq<Envelope>, second: seq<Envelope>)
    ensures ConcatRows(first + second) == ConcatRows(first) + ConcatRows(second)
    decreases |second|
  {
    if |second| == 0 {
      assert first + second == first;
    } else {
      var n := |second| - 1;
      ConcatRowsAppend(first, second[..n]);
      assert (first + second)[..|first + second| - 1] == first + second[..n];
    }
  }

  /** The number of merged rows is the sum of the pages' row counts. */
  function TotalRows(envelopes: seq<Envelope>): nat
    decreases |envelopes|
  {
    if |envelopes| == 0 then 0 else |envelopes[0].rows| + TotalRows(envelopes[1..])
  }

  lemma {:induction false} ConcatRowsLength(envelopes: seq<Envelope>)
    ensures |ConcatRows(envelopes)| == TotalRows(envelopes)
    decreases |envelopes|
  {
    if |envelopes| > 0 {
      ConcatRowsLength(envelopes[1..]);
      ConcatRowsAppend([envelopes[0]], envelopes[1..]);
      assert [envelopes[0]] + envelopes[1..] == envelopes;
      assert ConcatRows([envelopes[0]]) == envelopes[0].rows by {
        assert [envelopes[0]][..0] == [];
      }
    }
  }

  /** The merged result: one record per row of every page, in page order and in-page row
      order, each zipped with the first page's header; no page gives KeyError and a row
      longer than that header gives IndexError. */
  lemma MergedRecordsAt(envelopes: seq<Envelope>)
    ensures |envelopes| == 0 ==> MergedRecords(envelopes) == Err(KeyError("RESULT"))
    ensures |envelopes| > 0 ==>
      var header, rows := envelopes[0].header, ConcatRows(envelopes);
      && (MergedRecords(envelopes).Ok? <==> forall k :: 0 <= k < |rows| ==> |rows[k]| <= |header|)
      && (MergedRecords(envelopes).Ok? ==>
            && |MergedRecords(envelopes).value| == |rows| == TotalRows(envelopes)
            && forall k :: 0 <= k < |rows| ==>
                 |rows[k]| <= |header| && MergedRecords(envelopes).value[k] == Zip(header, rows[k]))
  {
    if |envelopes| > 0 {
      PythonifyAt(envelopes[0].header, ConcatRows(envelopes));
      ConcatRowsLength(envelopes);
    }
  }

  /** A single page goes through the same merge and gives its own rows zipped with its header. */
  lemma MergedSinglePage(env: Envelope)
    ensures ConcatRows([env]) == env.rows
    ensures MergedRecords([env]) == Pythonify(env.header, env.rows)
  {
    assert [env][..0] == [];
    assert ConcatRows([env]) == [] + env.rows;
    assert [] + env.rows == env.rows;
  }

  /** Decoding succeeds exactly when every page decodes, and keeps page order. */
  lemma {:induction false} DecodeAllAt(responses: seq<string>, decode: string -> Option<Envelope>)
    ensures DecodeAll(responses, decode).Ok? <==> forall k :: 0 <= k < |responses| ==> decode(responses[k]).Some?
    ensures DecodeAll(responses, decode).Ok? ==>
      && |DecodeAll(responses, decode).value| == |responses|
      && forall k :: 0 <= k < |responses| ==> decode(responses[k]) == Some(DecodeAll(responses, decode).value[k])
    decreases |responses|
  {
    if |responses| > 0 {
      var init := responses[..|responses| - 1];
      DecodeAllAt(init, decode);
      assert forall k :: 0 <= k < |init| ==> init[k] == responses[k];
    }
  }

  /** A one-column row zips to a one-entry record. */
  lemma ZipOneColumn(name: string, c: Cell)
    ensures Zip([name], [c]) == map[name := c]
  {
    assert [c][..0] == [];
  }

  /** One page of one one-column row: one record. */
  lemma MergedOneColumnOnePage(name: string, c: Cell)
    ensures MergedRecords([Envelope([name], [[c]])]) == Ok([map[name := c]])
  {
    var env := Envelope([name], [[c]]);
    MergedSinglePage(env);
    MergedRecordsAt([env]);
    ZipOneColumn(name, c);
    var records := MergedRecords([env]).value;
    assert records == [records[0]];
  }

  /** test__parse_query_results_json / _py, one page: one record. */
  lemma MergedRecordsOnePage()
    ensures MergedRecords([Envelope(["bedrijfsnaam"], [[Str("Kinkrsoftware")]])]) ==
      Ok([map["bedrijfsnaam" := Str("Kinkrsoftware")]])
  {
    MergedOneColumnOnePage("bedrijfsnaam", Str("Kinkrsoftware"));
  }

  /** The rows of two one-column pages, of one and two rows. */
  lemma ConcatOneColumnPages(name: string, c1: Cell, c2: Cell, c3: Cell)
    ensures ConcatRows([Envelope([name], [[c1]]), Envelope([name], [[c2], [c3]])]) == [[c1], [c2], [c3]]
  {
    var first, second := Envelope([name], [[c1]]), Envelope([name], [[c2], [c3]]);
    ConcatRowsAppend([first], [second]);
    MergedSinglePage(first);
    MergedSinglePage(second);
    assert [first] + [second] == [first, second];
  }

  /** Two one-column pages, of one and two rows: three records in page order. */
  lemma MergedOneColumnTwoPages(name: string, c1: Cell, c2: Cell, c3: Cell)
    ensures MergedRecords([Envelope([name], [[c1]]), Envelope([name], [[c2], [c3]])]) ==
      Ok([map[name := c1], map[name := c2], map[name := c3]])
  {
    var pages := [Envelope([name], [[c1]]), Envelope([name], [[c2], [c3]])];
    ConcatOneColumnPages(name, c1, c2, c3);
    MergedRecordsAt(pages);
    ZipOneColumn(name, c1);
    ZipOneColumn(name, c2);
    ZipOneColumn(name, c3);
    var records := MergedRecords(pages).value;
    assert records == [records[0], records[1], records[2]];
  }

  /** test__parse_query_results_json / _py, two pages: three records in page order. */
  lemma MergedRecordsTwoPages()
    ensures MergedRecords([
      Envelope(["bedrijfsnaam"], [[Str("Friesland Bank N.V.")]]),
      Envelope(["bedrijfsnaam"], [[Str("Bineko-export B.V.")], [Str("Bytefabriek")]])]) == Ok([
      map["bedrijfsnaam" := Str("Friesland Bank N.V.")],
      map["bedrijfsnaam" := Str("Bineko-export B.V.")],
      map["bedrijfsnaam" := Str("Bytefabriek")]])
  {
    MergedOneColumnTwoPages("bedrijfsnaam", Str("Friesland Bank N.V."), Str("Bineko-export B.V."), Str("Bytefabriek"));
  }
}
