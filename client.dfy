/** OpenKVK/Client.py: the client of the OpenKVK company-register service. A client keeps
    a response format, a row limit and an active-companies switch; a query is extended with
    filters, cut into pages of at most 99 rows, sent page by page, and the pages' payloads
    are put back together in the chosen format. */
module OpenKvk {
  import opened Common
  import opened Text
  import opened UrlEncode
  import opened Pagination
  import opened QueryOptions
  import Structured
  import Csv

  /** Client.BASE_URL. */
  const BaseUrl: string := "http://api.openkvk.nl/"

  /** Client.DEFAULT_RESPONSE_FORMAT. */
  const DefaultResponseFormat: string := "py"

  /** The formats setResponseFormat accepts. */
  predicate Supported(format: string)
  {
    format == "json" || format == "py" || format == "csv"
  }

  /** A Python value as setActiveOnly receives it. */
  datatype PyValue = PyBool(b: bool) | PyInt(i: int) | PyStr(s: string) | PyNone

  /** What _parse_query_results returns: a list of dicts (py), the json.dumps text of
      such a list (json, standing for the text by the records it encodes), or csv text. */
  datatype Output =
    | PyRecords(records: seq<Structured.Record>)
    | JsonText(records: seq<Structured.Record>)
    | CsvText(text: string)

  /** json.loads and ast.literal_eval, each followed by [0]['RESULT']: the envelope of a
      payload, or None when the payload is rejected or lacks those keys. */
  datatype Decoders = Decoders(json: string -> Option<Structured.Envelope>, py: string -> Option<Structured.Envelope>)

  /** urllib2.urlopen(url).read(): the body of the response, or the failure. */
  type Fetch = string -> Result<string, Error>

  /** Every filter key and value is a Python 2 str. */
  predicate FiltersAreBytes(filters: seq<(string, string)>)
  {
    forall k :: 0 <= k < |filters| ==> IsByteString(filters[k].0) && IsByteString(filters[k].1)
  }

  /** `filters or {}`: no dictionary means no filters. */
  function OrEmpty(filters: Option<seq<(string, string)>>): seq<(string, string)>
  {
    if filters.Some? then filters.value else []
  }

  /** The records the py and json branches build: every payload decoded, the pages merged
      and the merged rows zipped with the header. */
  function DecodedRecords(responses: seq<string>, decode: string -> Option<Structured.Envelope>): Result<seq<Structured.Record>, Error>
  {
    match Structured.DecodeAll(responses, decode)
    case Err(e) => Err(e)
    case Ok(envelopes) => Structured.MergedRecords(envelopes)
  }

  /** _parse_query_results for a response format. */
  function ParseResults(format: string, responses: seq<string>, decoders: Decoders): Result<Output, Error>
  {
    if format == "json" then
      match DecodedRecords(responses, decoders.json)
      case Err(e) => Err(e)
      case Ok(records) => Ok(JsonText(records))
    else if format == "py" then
      match DecodedRecords(responses, decoders.py)
      case Err(e) => Err(e)
      case Ok(records) => Ok(PyRecords(records))
    else if format == "csv" then Ok(CsvText(Csv.Merge(responses)))
    else Err(ValueError("Unsupported response format"))
  }

  /** The url _do_query requests for one page query. */
  function PageUrl(format: string, page: string): string
    requires IsByteString(page)
  {
    BaseUrl + format + "/" + EncodeQuery(page)
  }

  /** The urls for the page queries, in order. */
  function Urls(format: string, pages: seq<string>): (r: seq<string>)
    requires forall k :: 0 <= k < |pages| ==> IsByteString(pages[k])
    ensures |r| == |pages|
  {
    seq(|pages|, i requires 0 <= i < |pages| => PageUrl(format, pages[i]))
  }

  /** Fetching the urls one after the other; the first failure ends the run. */
  function FetchAll(urls: seq<string>, fetch: Fetch): Result<seq<string>, Error>
    decreases |urls|
  {
    if |urls| == 0 then Ok([])
    else
      match FetchAll(urls[..|urls| - 1], fetch)
      case Err(e) => Err(e)
      case Ok(responses) =>
        match fetch(urls[|urls| - 1])
        case Err(e) => Err(e)
        case Ok(body) => Ok(responses + [body])
  }

  /** A query built from byte strings is a byte string. */
  lemma WithOptionsBytes(basequery: string, activeOnly: bool, filters: seq<(string, string)>)
    requires IsByteString(basequery) && FiltersAreBytes(filters)
    ensures IsByteString(WithOptions(basequery, activeOnly, filters))
  {
    FilterClausesBytes(filters);
  }

  lemma {:induction false} FilterClausesBytes(filters: seq<(string, string)>)
    requires FiltersAreBytes(filters)
    ensures IsByteString(FilterClauses(filters))
    decreases |filters|
  {
    if |filters| > 0 {
      FilterClausesBytes(filters[..|filters| - 1]);
    }
  }

  /** Every page query of a byte-string query is a byte string. */
  lemma PagesBytes(query: string, total: int)
    requires IsByteString(query)
    ensures forall k :: 0 <= k < |Divide(query, total)| ==> IsByteString(Divide(query, total)[k])
  {
    DivideAt(query, total, 0);
    forall k | 0 <= k < |Divide(query, total)|
      ensures IsByteString(Divide(query, total)[k])
    {
      DivideAt(query, total, k);
      PageQueryBytes(query, LimitAt(total, k), DefaultLimit * k);
    }
  }

  lemma PageQueryBytes(query: string, pageLimit: int, offset: int)
    requires IsByteString(query)
    ensures IsByteString(PageQuery(query, pageLimit, offset))
  {
    IntToStringBytes(pageLimit);
    IntToStringBytes(offset);
  }

  /** The urls _do_query requests: one per page of the query with its options. */
  function RequestUrls(format: string, activeOnly: bool, basequery: string, total: int, filters: seq<(string, string)>): seq<string>
    requires IsByteString(basequery) && FiltersAreBytes(filters)
  {
    var query := WithOptions(basequery, activeOnly, filters);
    WithOptionsBytes(basequery, activeOnly, filters);
    PagesBytes(query, total);
    Urls(format, Divide(query, total))
  }

  /** _do_query: fetch every page, then parse the responses. A result comes back only for a
      supported format and only when every page request succeeded; for csv, exactly then. */
  function RunQuery(format: string, activeOnly: bool, basequery: string, total: int,
                    filters: seq<(string, string)>, fetch: Fetch, decoders: Decoders): (r: Result<Output, Error>)
    requires IsByteString(basequery) && FiltersAreBytes(filters)
    ensures var urls := RequestUrls(format, activeOnly, basequery, total, filters);
      r.Ok? ==> Supported(format) && forall k :: 0 <= k < |urls| ==> fetch(urls[k]).Ok?
    ensures var urls := RequestUrls(format, activeOnly, basequery, total, filters);
      format == "csv" ==> (r.Ok? <==> forall k :: 0 <= k < |urls| ==> fetch(urls[k]).Ok?)
  {
    var urls := RequestUrls(format, activeOnly, basequery, total, filters);
    FetchAllAt(urls, fetch);
    match FetchAll(urls, fetch)
    case Err(e) => Err(e)
    case Ok(responses) =>
      ParseResultsErrors(format, responses, decoders);
      ParseResults(format, responses, decoders)
  }

  /** _parse_query_results raises the unsupported-format ValueError exactly for a format
      other than json, py and csv; json and py fail only on an undecodable payload, on no
      pages at all (KeyError) or on a row longer than the header (IndexError). */
  lemma ParseResultsErrors(format: string, responses: seq<string>, decoders: Decoders)
    ensures ParseResults(format, responses, decoders) == Err(ValueError("Unsupported response format")) <==> !Supported(format)
    ensures format == "csv" ==> ParseResults(format, responses, decoders).Ok?
    ensures (format == "json" || format == "py") && ParseResults(format, responses, decoders).Err? ==>
      ParseResults(format, responses, decoders).error in
        {ValueError("payload could not be decoded"), KeyError("RESULT"), IndexError}
  {
    var decode := if format == "json" then decoders.json else decoders.py;
    Structured.DecodeAllError(responses, decode);
    var decoded := Structured.DecodeAll(responses, decode);
    if decoded.Ok? && |decoded.value| > 0 {
      Structured.PythonifyAt(decoded.value[0].header, Structured.ConcatRows(decoded.value));
    }
  }

  /** json and py differ only in the decoder: with decoders that agree on the payloads,
      both give the same records, or the same error. */
  lemma JsonAndPyAgree(responses: seq<string>, decoders: Decoders)
    requires forall k :: 0 <= k < |responses| ==> decoders.json(responses[k]) == decoders.py(responses[k])
    ensures ParseResults("json", responses, decoders).Ok? <==> ParseResults("py", responses, decoders).Ok?
    ensures ParseResults("json", responses, decoders).Ok? ==>
      ParseResults("json", responses, decoders).value.records == ParseResults("py", responses, decoders).value.records
    ensures ParseResults("json", responses, decoders).Err? ==>
      ParseResults("json", responses, decoders) == ParseResults("py", responses, decoders)
  {
    Structured.DecodeAllAgree(responses, decoders.json, decoders.py);
  }

  /** With no responses, json and py raise KeyError on the empty result and csv gives the
      empty text. */
  lemma ParseNoResponses(decoders: Decoders)
    ensures ParseResults("json", [], decoders) == Err(KeyError("RESULT"))
    ensures ParseResults("py", [], decoders) == Err(KeyError("RESULT"))
    ensures ParseResults("csv", [], decoders) == Ok(CsvText(""))
  {
    assert Csv.Header([]) == [];
    assert Csv.Records([]) == [];
    assert Csv.OutputLines([], []) == [""];
  }

  /** Fetching succeeds exactly when every url does, giving the bodies in url order;
      otherwise the error is that of the first url that failed. */
  lemma {:induction false} FetchAllAt(urls: seq<string>, fetch: Fetch)
    ensures FetchAll(urls, fetch).Ok? <==> forall k :: 0 <= k < |urls| ==> fetch(urls[k]).Ok?
    ensures FetchAll(urls, fetch).Ok? ==>
      && |FetchAll(urls, fetch).value| == |urls|
      && forall k :: 0 <= k < |urls| ==> fetch(urls[k]) == Ok(FetchAll(urls, fetch).value[k])
    ensures FetchAll(urls, fetch).Err? ==>
      exists j :: 0 <= j < |urls| && fetch(urls[j]) == Err(FetchAll(urls, fetch).error)
        && forall k :: 0 <= k < j ==> fetch(urls[k]).Ok?
    decreases |urls|
  {
    if |urls| > 0 {
      var init := urls[..|urls| - 1];
      FetchAllAt(init, fetch);
      assert forall k :: 0 <= k < |init| ==> init[k] == urls[k];
    }
  }

  /** _do_query requests one url per page: url i asks, under the format's path, for the
      query with its options limited to LimitAt(total, i) rows from offset 99 * i. */
  lemma RequestUrlsAt(format: string, activeOnly: bool, basequery: string, total: int,
                      filters: seq<(string, string)>, i: nat)
    requires IsByteString(basequery) && FiltersAreBytes(filters)
    requires i < PageCount(total)
    ensures var urls := RequestUrls(format, activeOnly, basequery, total, filters);
      var query := WithOptions(basequery, activeOnly, filters);
      && |urls| == PageCount(total)
      && IsByteString(PageQuery(query, LimitAt(total, i), DefaultLimit * i))
      && urls[i] == BaseUrl + format + "/" + EncodeQuery(PageQuery(query, LimitAt(total, i), DefaultLimit * i))
  {
    var query := WithOptions(basequery, activeOnly, filters);
    WithOptionsBytes(basequery, activeOnly, filters);
    DivideAt(query, total, i);
    PageQueryBytes(query, LimitAt(total, i), DefaultLimit * i);
  }

  /** When every request succeeds, _do_query parses the bodies in page order. */
  lemma RunQuerySucceeds(format: string, activeOnly: bool, basequery: string, total: int,
                         filters: seq<(string, string)>, fetch: Fetch, decoders: Decoders)
    requires IsByteString(basequery) && FiltersAreBytes(filters)
    requires var urls := RequestUrls(format, activeOnly, basequery, total, filters);
      forall k :: 0 <= k < |urls| ==> fetch(urls[k]).Ok?
    ensures var urls := RequestUrls(format, activeOnly, basequery, total, filters);
      RunQuery(format, activeOnly, basequery, total, filters, fetch, decoders) ==
        ParseResults(format, seq(|urls|, k requires 0 <= k < |urls| => fetch(urls[k]).value), decoders)
  {
    var urls := RequestUrls(format, activeOnly, basequery, total, filters);
    FetchAllAt(urls, fetch);
    assert FetchAll(urls, fetch).value == seq(|urls|, k requires 0 <= k < |urls| => fetch(urls[k]).value);
  }

  /** When request j is the first to fail, _do_query raises its error and parses nothing. */
  lemma RunQueryFails(format: string, activeOnly: bool, basequery: string, total: int,
                      filters: seq<(string, string)>, fetch: Fetch, decoders: Decoders, j: nat)
    requires IsByteString(basequery) && FiltersAreBytes(filters)
    requires var urls := RequestUrls(format, activeOnly, basequery, total, filters);
      && j < |urls| && fetch(urls[j]).Err?
      && forall k :: 0 <= k < j ==> fetch(urls[k]).Ok?
    ensures var urls := RequestUrls(format, activeOnly, basequery, total, filters);
      RunQuery(format, activeOnly, basequery, total, filters, fetch, decoders) == Err(fetch(urls[j]).error)
  {
    var urls := RequestUrls(format, activeOnly, basequery, total, filters);
    FetchAllAt(urls, fetch);
    var i :| 0 <= i < |urls| && fetch(urls[i]) == Err(FetchAll(urls, fetch).error)
      && forall k :: 0 <= k < i ==> fetch(urls[k]).Ok?;
    assert i == j;
  }

  /** get_by_kvk sends one request, for the kvk query with its options, LIMIT 1 OFFSET 0. */
  lemma KvkSingleRequest(format: string, activeOnly: bool, kvk: int, fields: seq<string>)
    requires IsByteString(Join(',', fields))
    ensures var query := WithOptions(KvkQuery(kvk, fields), activeOnly, []);
      var urls := RequestUrls(format, activeOnly, KvkQuery(kvk, fields), 1, []);
      && IsByteString(query + " LIMIT 1 OFFSET 0;")
      && urls == [BaseUrl + format + "/" + EncodeQuery(query + " LIMIT 1 OFFSET 0;")]
  {
    var query := WithOptions(KvkQuery(kvk, fields), activeOnly, []);
    WithOptionsBytes(KvkQuery(kvk, fields), activeOnly, []);
    DivideOneRow(query);
    PagesBytes(query, 1);
  }

  /** get_by_kvk's base query. */
  function KvkQuery(kvk: int, fields: seq<string>): (q: string)
    ensures IsByteString(Join(',', fields)) ==> IsByteString(q)
  {
    IntToStringBytes(kvk);
    "SELECT " + Join(',', fields) + " FROM kvk WHERE kvks = " + IntToString(kvk)
  }

  /** get_by_name's base query. */
  function NameQuery(name: string, fields: seq<string>): (q: string)
    ensures IsByteString(Join(',', fields)) && IsByteString(name) ==> IsByteString(q)
  {
    "SELECT " + Join(',', fields) + " FROM kvk WHERE bedrijfsnaam ILIKE '%" + name + "%'"
  }

  /** get_by_sbi's base query. */
  function SbiQuery(sbi: string, fields: seq<string>): (q: string)
    ensures IsByteString(Join(',', fields)) && IsByteString(sbi) ==> IsByteString(q)
  {
    "SELECT " + Join(',', fields) + " FROM kvk JOIN kvk_sbi" + " ON kvk_sbi.kvk = kvk.kvk" + " WHERE code = '" + sbi + "'"
  }

  /** get_by_city's base query. */
  function CityQuery(city: string, fields: seq<string>): (q: string)
    ensures IsByteString(Join(',', fields)) && IsByteString(city) ==> IsByteString(q)
  {
    "SELECT " + Join(',', fields) + " FROM kvk WHERE plaats ILIKE '%" + city + "%'"
  }

  /** The csv branch of _parse_query_results on one line: on line 0 the header takes the
      line's columns, from the first on, while it has fewer names than the line has columns;
      on any other line the stripped columns make the record. */
  method CsvLine(a: nat, line: string, header: seq<string>) returns (newHeader: seq<string>, record: seq<string>)
    ensures newHeader == (if a == 0 then Csv.HeaderStep(header, Split(line, ',')) else header)
    ensures record == Csv.LineRecord(a, line)
  {
    var columns := Split(line, ',');
    newHeader := header;
    record := [];
    for j := 0 to |columns|
      invariant LineState(a, columns, header, j, newHeader, record)
    {
      var item := Strip(columns[j], '"');
      LineStep(a, columns, header, j, newHeader, record);
      if a == 0 && |newHeader| < |columns| {
        newHeader := newHeader + [item];
      } else if a != 0 {
        record := record + [item];
      }
    }
    LineDone(a, line, header, newHeader, record);
  }

  /** How many of a line 0's columns the header has taken after j of them: all of them
      while it was shorter than the line, then no more. */
  function Taken(header: seq<string>, columns: seq<string>, j: nat): nat
  {
    var gap := if |header| < |columns| then |columns| - |header| else 0;
    if j < gap then j else gap
  }

  /** The state of CsvLine after j columns. */
  ghost predicate LineState(a: nat, columns: seq<string>, header: seq<string>, j: nat,
                            curHeader: seq<string>, record: seq<string>)
  {
    && j <= |columns|
    && (a != 0 ==> curHeader == header && record == StripAll(columns[..j], '"'))
    && (a == 0 ==> record == [] && curHeader == header + StripAll(columns[..Taken(header, columns, j)], '"'))
  }

  /** One column of CsvLine keeps LineState. */
  lemma LineStep(a: nat, columns: seq<string>, header: seq<string>, j: nat, curHeader: seq<string>, record: seq<string>)
    requires j < |columns| && LineState(a, columns, header, j, curHeader, record)
    ensures var item := Strip(columns[j], '"');
      if a == 0 && |curHeader| < |columns| then LineState(a, columns, header, j + 1, curHeader + [item], record)
      else if a != 0 then LineState(a, columns, header, j + 1, curHeader, record + [item])
      else LineState(a, columns, header, j + 1, curHeader, record)
  {
    if a == 0 {
      HeaderColumnStep(columns, header, j, curHeader);
    } else {
      StripAllSnoc(columns, '"', j);
    }
  }

  /** One column of line 0: taken into the header while the header is shorter than the line. */
  lemma HeaderColumnStep(columns: seq<string>, header: seq<string>, j: nat, curHeader: seq<string>)
    requires j < |columns| && curHeader == header + StripAll(columns[..Taken(header, columns, j)], '"')
    ensures |curHeader| < |columns| ==>
      curHeader + [Strip(columns[j], '"')] == header + StripAll(columns[..Taken(header, columns, j + 1)], '"')
    ensures |curHeader| >= |columns| ==>
      curHeader == header + StripAll(columns[..Taken(header, columns, j + 1)], '"')
  {
    var taken := Taken(header, columns, j);
    assert |curHeader| == |header| + taken;
    if |curHeader| < |columns| {
      assert taken == j && Taken(header, columns, j + 1) == j + 1;
      StripAllSnoc(columns, '"', j);
      var done := StripAll(columns[..j], '"');
      assert curHeader + [Strip(columns[j], '"')] == header + (done + [Strip(columns[j], '"')]);
    } else {
      assert Taken(header, columns, j + 1) == taken;
    }
  }

  /** After every column, CsvLine has computed the header step and the line's record. */
  lemma LineDone(a: nat, line: string, header: seq<string>, curHeader: seq<string>, record: seq<string>)
    requires var columns := Split(line, ','); LineState(a, columns, header, |columns|, curHeader, record)
    ensures curHeader == (if a == 0 then Csv.HeaderStep(header, Split(line, ',')) else header)
    ensures record == Csv.LineRecord(a, line)
  {
    var columns := Split(line, ',');
    assert columns[..|columns|] == columns;
    if a == 0 && |header| >= |columns| {
      assert columns[..0] == [];
      assert header + StripAll([], '"') == header;
    }
  }

  /** The csv branch on one response: its lines, one after the other. */
  method CsvPage(page: string, header: seq<string>, records: seq<seq<string>>)
    returns (newHeader: seq<string>, newRecords: seq<seq<string>>)
    ensures newHeader == Csv.HeaderStep(header, Split(Csv.Lines(page)[0], ','))
    ensures newRecords == records + Csv.PageRecords(Csv.Lines(page), |Csv.Lines(page)|)
  {
    var rows := Split(page, '\n');
    newHeader, newRecords := header, records;
    for a := 0 to |rows|
      invariant PageInvariant(rows, a, header, records, newHeader, newRecords)
    {
      var record;
      var lineHeader := newHeader;
      newHeader, record := CsvLine(a, rows[a], lineHeader);
      var kept := if record != [""] then newRecords + [record] else newRecords;
      PageStep(rows, a, header, records, lineHeader, newRecords, newHeader, record, kept);
      newRecords := kept;
    }
    assert rows == Csv.Lines(page);
  }

  /** The state of CsvPage after the first a lines. */
  ghost predicate PageInvariant(rows: seq<string>, a: nat, header: seq<string>, records: seq<seq<string>>,
                                curHeader: seq<string>, curRecords: seq<seq<string>>)
  {
    && 0 < |rows|
    && a <= |rows|
    && curHeader == (if a == 0 then header else Csv.HeaderStep(header, Split(rows[0], ',')))
    && curRecords == records + Csv.PageRecords(rows, a)
  }

  /** One line of CsvPage keeps PageInvariant. */
  lemma PageStep(rows: seq<string>, a: nat, header: seq<string>, records: seq<seq<string>>,
                 curHeader: seq<string>, curRecords: seq<seq<string>>,
                 nextHeader: seq<string>, record: seq<string>, nextRecords: seq<seq<string>>)
    requires a < |rows| && PageInvariant(rows, a, header, records, curHeader, curRecords)
    requires nextHeader == (if a == 0 then Csv.HeaderStep(curHeader, Split(rows[a], ',')) else curHeader)
    requires record == Csv.LineRecord(a, rows[a])
    requires nextRecords == (if record != [""] then curRecords + [record] else curRecords)
    ensures PageInvariant(rows, a + 1, header, records, nextHeader, nextRecords)
  {
    PageRecordsStep(rows, a, record);
    if a == 0 {
      assert curHeader == header;
    }
  }

  /** The records of one more line: its record, unless that is the blank-line record ['']. */
  lemma PageRecordsStep(lines: seq<string>, a: nat, record: seq<string>)
    requires a < |lines| && record == Csv.LineRecord(a, lines[a])
    ensures Csv.PageRecords(lines, a + 1) == Csv.PageRecords(lines, a) + (if record == [""] then [] else [record])
  {
  }

  /** The csv branch of _parse_query_results: the header line, then every non-empty record,
      joined by newlines. */
  method CsvMerge(pages: seq<string>) returns (text: string)
    ensures text == Csv.Merge(pages)
  {
    var header: seq<string> := [];
    var records: seq<seq<string>> := [];
    for p := 0 to |pages|
      invariant header == Csv.Header(pages[..p]) && records == Csv.Records(pages[..p])
    {
      var pageHeader, pageRecords := CsvPage(pages[p], header, records);
      PagesStep(pages, p, header, records, pageHeader, pageRecords);
      header, records := pageHeader, pageRecords;
    }
    assert pages[..|pages|] == pages;
    var result := [Join(',', header)];
    for k := 0 to |records|
      invariant result == Csv.OutputLines(header, records[..k])
    {
      var next := if |records[k]| > 0 then result + [Join(',', records[k])] else result;
      OutputStep(header, records, k, result, next);
      result := next;
    }
    assert records[..|records|] == records;
    text := Join('\n', result);
  }

  /** One more response read by CsvMerge: the header and the records of one more page. */
  lemma PagesStep(pages: seq<string>, p: nat, header: seq<string>, records: seq<seq<string>>,
                  nextHeader: seq<string>, nextRecords: seq<seq<string>>)
    requires p < |pages|
    requires header == Csv.Header(pages[..p]) && records == Csv.Records(pages[..p])
    requires nextHeader == Csv.HeaderStep(header, Split(Csv.Lines(pages[p])[0], ','))
    requires nextRecords == records + Csv.PageRecords(Csv.Lines(pages[p]), |Csv.Lines(pages[p])|)
    ensures nextHeader == Csv.Header(pages[..p + 1]) && nextRecords == Csv.Records(pages[..p + 1])
  {
    assert pages[..p + 1][..p] == pages[..p];
  }

  /** One more record written by CsvMerge: its line, when the record is not empty. */
  lemma OutputStep(header: seq<string>, records: seq<seq<string>>, k: nat, result: seq<string>, next: seq<string>)
    requires k < |records| && result == Csv.OutputLines(header, records[..k])
    requires next == (if |records[k]| > 0 then result + [Join(',', records[k])] else result)
    ensures next == Csv.OutputLines(header, records[..k + 1])
  {
    assert records[..k + 1][..k] == records[..k];
    Csv.JoinEachSnoc(Csv.Kept(records[..k]), records[k]);
  }

  /** Decoding one more payload: the earlier envelopes and the new one, or the failure. */
  lemma DecodeStep(responses: seq<string>, decode: string -> Option<Structured.Envelope>, k: nat)
    requires k < |responses| && Structured.DecodeAll(responses[..k], decode).Ok?
    ensures Structured.DecodeAll(responses[..k + 1], decode) ==
      if decode(responses[k]).None? then Err(ValueError("payload could not be decoded"))
      else Ok(Structured.DecodeAll(responses[..k], decode).value + [decode(responses[k]).value])
  {
    assert responses[..k + 1][..k] == responses[..k];
  }

  /** Fetching one more url: the earlier bodies and the new one, or the failure. */
  lemma FetchStep(urls: seq<string>, fetch: Fetch, q: nat)
    requires q < |urls| && FetchAll(urls[..q], fetch).Ok?
    ensures FetchAll(urls[..q + 1], fetch) ==
      if fetch(urls[q]).Err? then Err(fetch(urls[q]).error)
      else Ok(FetchAll(urls[..q], fetch).value + [fetch(urls[q]).value])
  {
    assert urls[..q + 1][..q] == urls[..q];
  }

  /** Once a fetch fails, fetching more urls keeps that failure. */
  lemma {:induction false} FetchAllErrPersists(urls: seq<string>, fetch: Fetch, j: nat)
    requires j <= |urls|
    requires FetchAll(urls[..j], fetch).Err?
    ensures FetchAll(urls, fetch) == FetchAll(urls[..j], fetch)
    decreases |urls| - j
  {
    if j == |urls| {
      assert urls[..j] == urls;
    } else {
      var init := urls[..|urls| - 1];
      assert init[..j] == urls[..j];
      FetchAllErrPersists(init, fetch, j);
    }
  }

  /** A row longer than the header makes the whole conversion fail with IndexError. */
  lemma PythonifyTooLong(header: seq<string>, rows: seq<seq<Structured.Cell>>, k: nat)
    requires k < |rows| && |rows[k]| > |header|
    requires Structured.Pythonify(header, rows[..k]).Ok?
    ensures Structured.Pythonify(header, rows) == Err(IndexError)
  {
    Structured.PythonifyAt(header, rows);
  }

  /** The state of the _query_divider loop after i pages: the first i pages written, and
      the rows left, the offset and the limit of page i. */
  ghost predicate DividerState(query: string, total: int, pages: int, i: nat, buffer: seq<string>,
                               left: int, offset: int, pageLimit: int)
  {
    && pages == PageCount(total) == |Divide(query, total)|
    && i <= pages
    && buffer == Divide(query, total)[..i]
    && (i < pages ==> left == total - DefaultLimit * i && offset == DefaultLimit * i && pageLimit == LimitAt(total, i))
  }

  /** Every page before the last is full, and the limit of the next page is what is left,
      at most DefaultLimit. */
  lemma LimitNext(total: int, i: nat)
    requires i + 1 < PageCount(total)
    ensures LimitAt(total, i) == DefaultLimit
    ensures var left := total - DefaultLimit * (i + 1);
      LimitAt(total, i + 1) == if left < DefaultLimit then left else DefaultLimit
  {
  }

  /** One page of the _query_divider loop keeps DividerState. */
  lemma DividerStep(query: string, total: int, pages: int, i: nat, buffer: seq<string>,
                    left: int, offset: int, pageLimit: int)
    requires i < pages && DividerState(query, total, pages, i, buffer, left, offset, pageLimit)
    ensures var nextLeft := left - pageLimit;
      DividerState(query, total, pages, i + 1, buffer + [PageQuery(query, pageLimit, offset)],
                   nextLeft, offset + pageLimit, if nextLeft < DefaultLimit then nextLeft else pageLimit)
  {
    DivideAt(query, total, i);
    TakeSnoc(Divide(query, total), i);
    if i + 1 < pages {
      LimitNext(total, i);
    }
  }

  class Client {
    var responseFormat: string
    var limit: int
    var onlyActiveCompanies: bool

    /** A missing or empty format means "py", a missing or zero limit means 99; the
        arguments default to None, None and true. */
    constructor (format: Option<string> := None, pageLimit: Option<int> := None, activeOnly: bool := true)
      ensures format.Some? && format.value != "" ==> responseFormat == format.value
      ensures format == None || format == Some("") ==> responseFormat == DefaultResponseFormat
      ensures pageLimit.Some? && pageLimit.value != 0 ==> limit == pageLimit.value
      ensures pageLimit == None || pageLimit == Some(0) ==> limit == DefaultLimit
      ensures onlyActiveCompanies == activeOnly
    {
      responseFormat := if format.Some? && format.value != "" then format.value else DefaultResponseFormat;
      limit := if pageLimit.Some? && pageLimit.value != 0 then pageLimit.value else DefaultLimit;
      onlyActiveCompanies := activeOnly;
    }

    /** setResponseFormat: json, py and csv are taken; anything else raises ValueError and
        leaves the client as it was. */
    method SetResponseFormat(format: string) returns (outcome: Outcome<Error>)
      modifies this
      ensures Supported(format) ==> outcome == Pass && responseFormat == format
      ensures !Supported(format) ==>
        outcome == Fail(ValueError("Chosen Format is not Supported")) && responseFormat == old(responseFormat)
      ensures limit == old(limit) && onlyActiveCompanies == old(onlyActiveCompanies)
    {
      if format == "json" || format == "py" || format == "csv" {
        responseFormat := format;
        outcome := Pass;
      } else {
        outcome := Fail(ValueError("Chosen Format is not Supported"));
      }
    }

    /** setActiveOnly: a bool is taken; any other value raises TypeError and leaves the
        client as it was. */
    method SetActiveOnly(value: PyValue) returns (outcome: Outcome<Error>)
      modifies this
      ensures value.PyBool? ==> outcome == Pass && onlyActiveCompanies == value.b
      ensures !value.PyBool? ==>
        outcome == Fail(TypeError("Parameter is not a Boolean value")) && onlyActiveCompanies == old(onlyActiveCompanies)
      ensures responseFormat == old(responseFormat) && limit == old(limit)
    {
      if value.PyBool? {
        onlyActiveCompanies := value.b;
        outcome := Pass;
      } else {
        outcome := Fail(TypeError("Parameter is not a Boolean value"));
      }
    }

    /** _query_divider: the page queries for total rows, page i asking for LimitAt(total, i)
        rows from offset 99 * i. */
    method QueryDivider(query: string, total: int) returns (buffer: seq<string>)
      ensures buffer == Divide(query, total)
      ensures |buffer| == PageCount(total)
    {
      var pages: int;
      if total > DefaultLimit {
        pages := (total + DefaultLimit - 1) / DefaultLimit;
      } else {
        pages := 1;
      }
      DivideAt(query, total, 0);
      buffer := [];
      var left := total;
      var offset := 0;
      var pageLimit := if total > DefaultLimit then DefaultLimit else total;
      for i := 0 to pages
        invariant DividerState(query, total, pages, i, buffer, left, offset, pageLimit)
      {
        DividerStep(query, total, pages, i, buffer, left, offset, pageLimit);
        buffer := buffer + [PageQuery(query, pageLimit, offset)];
        left := left - pageLimit;
        offset := offset + pageLimit;
        if left < DefaultLimit {
          pageLimit := left;
        }
      }
      assert Divide(query, total)[..pages] == Divide(query, total);
    }

    /** _query_construct_options: the active-only clause when the switch is on, then one
        clause per filter entry. */
    method ConstructOptions(basequery: string, filters: Option<seq<(string, string)>>) returns (query: string)
      ensures query == WithOptions(basequery, onlyActiveCompanies, OrEmpty(filters))
    {
      var entries := if filters.Some? then filters.value else [];
      query := basequery;
      if onlyActiveCompanies {
        query := query + ActiveOnlyClause;
      }
      var prefix := query;
      for k := 0 to |entries|
        invariant query == prefix + FilterClauses(entries[..k])
      {
        assert entries[..k + 1][..k] == entries[..k];
        query := query + FilterClause(entries[k].0, entries[k].1);
      }
      assert entries[..|entries|] == entries;
    }

    /** _pythonify_result: one dict per merged row, column name to value; KeyError when
        there is no merged result, IndexError at the first row longer than the header. */
    method PythonifyResult(result: Option<Structured.Envelope>) returns (r: Result<seq<Structured.Record>, Error>)
      ensures result.None? ==> r == Err(KeyError("RESULT"))
      ensures result.Some? ==> r == Structured.Pythonify(result.value.header, result.value.rows)
    {
      if result.None? {
        return Err(KeyError("RESULT"));
      }
      var header, rows := result.value.header, result.value.rows;
      var newResult: seq<Structured.Record> := [];
      for k := 0 to |rows|
        invariant Structured.Pythonify(header, rows[..k]) == Ok(newResult)
      {
        assert rows[..k + 1][..k] == rows[..k];
        var company := rows[k];
        var newCompany: Structured.Record := map[];
        for i := 0 to |company|
          invariant i <= |header|
          invariant newCompany == Structured.Zip(header, company[..i])
        {
          if i >= |header| {
            PythonifyTooLong(header, rows, k);
            return Err(IndexError);
          }
          assert company[..i + 1][..i] == company[..i];
          newCompany := newCompany[header[i] := company[i]];
        }
        assert company[..|company|] == company;
        newResult := newResult + [newCompany];
      }
      assert rows[..|rows|] == rows;
      r := Ok(newResult);
    }

    /** _parse_query_results with the client's response format. */
    method ParseQueryResults(responses: seq<string>, decoders: Decoders) returns (r: Result<Output, Error>)
      ensures r == ParseResults(responseFormat, responses, decoders)
    {
      if responseFormat == "json" {
        var merged: Option<Structured.Envelope> := None;
        for k := 0 to |responses|
          invariant Structured.DecodeAll(responses[..k], decoders.json).Ok?
          invariant merged == Structured.Merge(Structured.DecodeAll(responses[..k], decoders.json).value)
        {
          var payload := decoders.json(responses[k]);
          DecodeStep(responses, decoders.json, k);
          if payload.None? {
            Structured.DecodeAllErrPersists(responses, decoders.json, k + 1);
            return Err(ValueError("payload could not be decoded"));
          }
          Structured.MergeStep(Structured.DecodeAll(responses[..k], decoders.json).value, payload.value);
          if merged.None? {
            merged := Some(payload.value);
          } else {
            merged := Some(Structured.Envelope(merged.value.header, merged.value.rows + payload.value.rows));
          }
        }
        assert responses[..|responses|] == responses;
        var records := PythonifyResult(merged);
        if records.Err? {
          return Err(records.error);
        }
        r := Ok(JsonText(records.value));
      } else if responseFormat == "py" {
        var envelopes: seq<Structured.Envelope> := [];
        for k := 0 to |responses|
          invariant Structured.DecodeAll(responses[..k], decoders.py) == Ok(envelopes)
        {
          var payload := decoders.py(responses[k]);
          DecodeStep(responses, decoders.py, k);
          if payload.None? {
            Structured.DecodeAllErrPersists(responses, decoders.py, k + 1);
            return Err(ValueError("payload could not be decoded"));
          }
          envelopes := envelopes + [payload.value];
        }
        assert responses[..|responses|] == responses;
        var merged: Option<Structured.Envelope> := None;
        for i := 0 to |envelopes|
          invariant merged == Structured.Merge(envelopes[..i])
        {
          assert envelopes[..i + 1] == envelopes[..i] + [envelopes[i]];
          Structured.MergeStep(envelopes[..i], envelopes[i]);
          if i == 0 {
            merged := Some(envelopes[i]);
          } else {
            merged := Some(Structured.Envelope(merged.value.header, merged.value.rows + envelopes[i].rows));
          }
        }
        assert envelopes[..|envelopes|] == envelopes;
        var records := PythonifyResult(merged);
        if records.Err? {
          return Err(records.error);
        }
        r := Ok(PyRecords(records.value));
      } else if responseFormat == "csv" {
        var text := CsvMerge(responses);
        r := Ok(CsvText(text));
      } else {
        r := Err(ValueError("Unsupported response format"));
      }
    }

    /** _do_query: the query with the client's options, cut into pages; each page fetched
        from BASE_URL + format + "/" + the encoded page query, the first failed fetch ending
        the call; then the responses parsed. */
    method DoQuery(basequery: string, total: int, filters: Option<seq<(string, string)>>, fetch: Fetch, decoders: Decoders)
      returns (r: Result<Output, Error>)
      requires IsByteString(basequery) && FiltersAreBytes(OrEmpty(filters))
      ensures r == RunQuery(responseFormat, onlyActiveCompanies, basequery, total, OrEmpty(filters), fetch, decoders)
    {
      var query := ConstructOptions(basequery, filters);
      var buffer := QueryDivider(query, total);
      WithOptionsBytes(basequery, onlyActiveCompanies, OrEmpty(filters));
      PagesBytes(query, total);
      ghost var urls := RequestUrls(responseFormat, onlyActiveCompanies, basequery, total, OrEmpty(filters));
      assert urls == Urls(responseFormat, buffer);
      var responses: seq<string> := [];
      for q := 0 to |buffer|
        invariant FetchAll(urls[..q], fetch) == Ok(responses)
      {
        var url := BaseUrl + responseFormat + "/" + EncodeQuery(buffer[q]);
        assert url == urls[q];
        var response := fetch(url);
        FetchStep(urls, fetch, q);
        if response.Err? {
          FetchAllErrPersists(urls, fetch, q + 1);
          return Err(response.error);
        }
        responses := responses + [response.value];
      }
      assert urls[..|buffer|] == urls;
      r := ParseQueryResults(responses, decoders);
    }

    /** get_by_kvk: the company with the given KvK number, at most one row, no filters;
        the fields default to every column. */
    method GetByKvk(kvk: int, fetch: Fetch, decoders: Decoders, fields: seq<string> := ["*"]) returns (r: Result<Output, Error>)
      requires IsByteString(Join(',', fields))
      ensures r == RunQuery(responseFormat, onlyActiveCompanies, KvkQuery(kvk, fields), 1, [], fetch, decoders)
    {
      r := DoQuery(KvkQuery(kvk, fields), 1, None, fetch, decoders);
    }

    /** get_by_name: companies whose name contains name, at most limit rows (99 by default),
        no filters; the fields default to every column. */
    method GetByName(name: string, fetch: Fetch, decoders: Decoders, limit: int := 99, fields: seq<string> := ["*"])
      returns (r: Result<Output, Error>)
      requires IsByteString(name) && IsByteString(Join(',', fields))
      ensures r == RunQuery(responseFormat, onlyActiveCompanies, NameQuery(name, fields), limit, [], fetch, decoders)
    {
      r := DoQuery(NameQuery(name, fields), limit, None, fetch, decoders);
    }

    /** get_by_sbi: companies with the given SBI code, at most limit rows (99 by default); the filters the
        caller passes are dropped. */
    method GetBySbi(sbi: string, fetch: Fetch, decoders: Decoders, limit: int := 99, fields: seq<string> := ["*"],
                    filters: Option<seq<(string, string)>> := None) returns (r: Result<Output, Error>)
      requires IsByteString(sbi) && IsByteString(Join(',', fields))
      ensures r == RunQuery(responseFormat, onlyActiveCompanies, SbiQuery(sbi, fields), limit, [], fetch, decoders)
    {
      r := DoQuery(SbiQuery(sbi, fields), limit, None, fetch, decoders);
    }

    /** get_by_city: companies whose city contains city, at most limit rows (99 by default); the filters
        the caller passes are dropped. */
    method GetByCity(city: string, fetch: Fetch, decoders: Decoders, limit: int := 99, fields: seq<string> := ["*"],
                     filters: Option<seq<(string, string)>> := None) returns (r: Result<Output, Error>)
      requires IsByteString(city) && IsByteString(Join(',', fields))
      ensures r == RunQuery(responseFormat, onlyActiveCompanies, CityQuery(city, fields), limit, [], fetch, decoders)
    {
      r := DoQuery(CityQuery(city, fields), limit, None, fetch, decoders);
    }

    /** get_custom: the caller's query with the client's options, at most limit rows. */
    method GetCustom(query: string, limit: int, fetch: Fetch, decoders: Decoders) returns (r: Result<Output, Error>)
      requires IsByteString(query)
      ensures r == RunQuery(responseFormat, onlyActiveCompanies, query, limit, [], fetch, decoders)
    {
      r := DoQuery(query, limit, None, fetch, decoders);
    }
  }
}
