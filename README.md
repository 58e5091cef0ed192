# OpenKVK client: query engine

This project models the query engine of `OpenKVK/Client.py`, a Python 2 client for the
OpenKVK company-register HTTP service, and proves properties of the model.

A `Client` keeps three settings: a response format (set through `setResponseFormat` to
`json`, `py` or `csv`; the constructor stores any non-empty format unchecked), a row limit
and an active-companies switch. A query runs in these steps:

- the base query is extended with ` AND isnull(status)` when the active switch is on, and
  with one ` AND k = 'v'` clause per filter entry (`_query_construct_options`);
- the result is cut into pages of at most 99 rows, `"<q> LIMIT l OFFSET o;"`
  (`_query_divider`);
- each page is encoded for a URL (`_urlencode_query`) and fetched from
  `http://api.openkvk.nl/<format>/<encoded page>`, one page after the other (`_do_query`);
- the payloads are put back together (`_parse_query_results` and `_pythonify_result`):
  - for `json` and `py`, the rows of every page are concatenated under the first page's
    header and each row is zipped into a record;
  - for `csv`, the header comes from each page's line 0, the data lines of every page are
    kept in order with their `"` stripped, and everything is joined with newlines.

Module layout:

| module | file | what it holds |
|---|---|---|
| `Common` | `common.dfy` | `Option`, `Result`, `Outcome` and the Python exceptions as an `Error` value |
| `Text` | `text.dfy` | Python's `split`, `join` and `strip` of one character, and `"{0}".format` of an int |
| `UrlEncode` | `urlencode.dfy` | `_urlencode_query`: the quote replacement, then `urllib.quote` with the client's safe set; `urllib.unquote` as its reading |
| `Pagination` | `pagination.dfy` | `_query_divider` as functions, with the page-limit and offset properties |
| `QueryOptions` | `queryoptions.dfy` | `_query_construct_options` as a fold over the filter entries |
| `Structured` | `structured.dfy` | the `json`/`py` reassembly: page merge, zip of rows with the header, decoding of every page |
| `Csv` | `csv.dfy` | the `csv` reassembly as functions, a reference definition (header line, then the data lines of every page), and the test examples |
| `OpenKvk` | `client.dfy` | the `Client` class with its fields and methods, the csv loops as methods, `_do_query` as `RunQuery`, and the `get_by_*` facade |

The mutating parts of the source are methods of the `Client` class or module-level methods:

- the setters;
- the divider loop;
- the filter loop;
- the pythonify loops;
- the three branches of the result parser, including the nested csv loops;
- the fetch loop of `_do_query`.

Each method with a loop, and each method that runs a query, is proved equal to a
specification function. The constructor and the two setters state the new field values
directly. The lemmas state what the source promises about the specification functions.

External effects are parameters of the model:

- The HTTP transport (`urllib2.urlopen(url).read()`) is a function `fetch` from a URL to a
  body or an error.
- `json.loads` and `ast.literal_eval`, each followed by `[0]['RESULT']`, are a pair of
  decoder functions from a payload to an optional envelope (header and rows).

## Model

| member | source | states |
|---|---|---|
| OpenKvk.Client.constructor | OpenKVK/Client.py:17-20 | a missing or empty format becomes "py", a missing or zero limit becomes 99, the active switch is stored as given; the arguments default to None, None and true |
| OpenKvk.Client.SetResponseFormat | OpenKVK/Client.py:23-37 | exactly json, py and csv are stored and give success; anything else gives ValueError("Chosen Format is not Supported") and leaves every field unchanged |
| OpenKvk.Client.SetActiveOnly | OpenKVK/Client.py:39-48 | a bool is stored; any other Python value gives TypeError("Parameter is not a Boolean value") and leaves every field unchanged |
| OpenKvk.Client.QueryDivider | OpenKVK/Client.py:57-82 | the loop over `total`, `offset` and `limit` returns exactly the page queries of Divide, PageCount(total) of them |
| OpenKvk.DividerStep | OpenKVK/Client.py:75-80 | one iteration of the divider loop appends page i of Divide and moves the rows left, the offset and the limit to those of page i+1 |
| OpenKvk.LimitNext | OpenKVK/Client.py:77-80 | every page before the last is full (the property); its second clause only unfolds LimitAt for page i + 1, the rows left capped at 99, for the loop proof |
| Pagination.PageCount | OpenKVK/Client.py:66-69 | at least one page; above 99 rows the count is the ceiling of total/99, i.e. 99·(n-1) < total ≤ 99·n |
| Pagination.PageLimitsAt | OpenKVK/Client.py:74-80 | the limit list has PageCount(total) entries and entry i is the closed form LimitAt(total, i) |
| Pagination.PageQuery | OpenKVK/Client.py:76 | a page query starts with the query unchanged, is longer than it, and ends with `;` |
| Pagination.DivideAt | OpenKVK/Client.py:71-80 | the divider yields PageCount(total) pages and page i is `query LIMIT LimitAt(total,i) OFFSET 99·i;` |
| Pagination.DivideSinglePage | OpenKVK/Client.py:66-76 | up to 99 rows give exactly one page, `query LIMIT total OFFSET 0;` |
| Pagination.LimitsSum | OpenKVK/Client.py:72-80 | the page limits add up to the total |
| Pagination.LimitsShape | OpenKVK/Client.py:74-80 | every page but the last asks for 99 rows, none for more than 99, the last for the remainder, at least one row when total > 0 |
| Pagination.OffsetsAreRunningSums | OpenKVK/Client.py:73-78 | the offset of page i, 99·i, is the sum of the limits of the pages before it, so offsets increase |
| Pagination.DivideOneRow | OpenKVK/Client.py:66-76 | one row gives the single page `query LIMIT 1 OFFSET 0;` |
| Pagination.DivideOne | OpenKVK/test/test_openkvk.py:36 | dividing "x" for 1 row gives ["x LIMIT 1 OFFSET 0;"] |
| Pagination.DivideFiveHundred | OpenKVK/test/test_openkvk.py:39-44 | 500 rows give limits [99,99,99,99,99,5] at offsets 0, 99, 198, 297, 396 and 495 |
| Text.ParseNatToString | OpenKVK/Client.py:76 | the digits written for LIMIT and OFFSET are decimal digits that read back to the number |
| OpenKvk.Client.ConstructOptions | OpenKVK/Client.py:84-103 | the loop returns WithOptions: the base query, the active-only clause if the switch is on, then one clause per filter entry, with a missing dictionary read as no filters |
| QueryOptions.FilterClausesAppend | OpenKVK/Client.py:100-102 | the clauses of two runs of filter entries are the first run's clauses followed by the second's |
| QueryOptions.FilterClausesSingle | OpenKVK/Client.py:101 | one entry k, v contributes exactly ` AND k = 'v'` |
| QueryOptions.FilterClausesLength | OpenKVK/Client.py:100-102 | each entry adds its key, its value and 10 characters of clause syntax |
| QueryOptions.WithOptionsShape | OpenKVK/Client.py:95-103 | the base query is a prefix of the result; the active clause follows it when the switch is on; with the switch off and no filters the base query comes back unchanged; the result's length is the sum of its parts |
| UrlEncode.QuoteAppend | OpenKVK/Client.py:55 | `urllib.quote` works byte by byte: it distributes over concatenation |
| UrlEncode.QuoteOutputPasses | OpenKVK/Client.py:55 | every character of quoted output is a letter, a digit, one of `_.-` or a safe character |
| UrlEncode.QuoteIdentity | OpenKVK/Client.py:55 | a string of letters, digits, `_.-` and safe characters is left unchanged by quote |
| UrlEncode.EncodeQuery | OpenKVK/Client.py:50-55 | every character of the encoded query is one `urllib.quote` passes through: an ASCII letter or digit, `_.-`, or one of ``*;%'`=&`` |
| UrlEncode.EncodeNoDoubleQuote | OpenKVK/Client.py:54-55 | the encoded query holds no double quote |
| UrlEncode.EncodeKeepsSafe | OpenKVK/Client.py:54-55 | letters, digits, `_.-` and the safe characters pass through the encoder unchanged |
| UrlEncode.EncodeIdempotent | OpenKVK/Client.py:55 | since `%` is safe, encoding an already encoded query leaves it unchanged |
| UrlEncode.ReplaceAppend | OpenKVK/Client.py:54 | the double-quote replacement distributes over concatenation |
| UrlEncode.EncodeAppend | OpenKVK/Client.py:54-55 | the whole encoder distributes over concatenation |
| UrlEncode.EncodeSpaceAndQuote | OpenKVK/test/test_openkvk.py:19-20 | a space is sent as `%20` and a double quote as a single quote |
| UrlEncode.UnquoteEscape | OpenKVK/Client.py:55 | a `%XX` escape the encoder writes unquotes to the byte it encodes |
| UrlEncode.UnquoteQuote | OpenKVK/Client.py:55 | for a byte string without `%`, unquote(quote(s)) == s |
| UrlEncode.EncodeDecode | OpenKVK/Client.py:54-55 | for a query without `%`, unquoting the encoded query gives the query with double quotes turned into single quotes |
| UrlEncode.EncodeSpacedWords | OpenKVK/Client.py:55 | a word of safe characters, a space and a rest encode to the word, `%20` and the encoded rest |
| UrlEncode.EncodeFourWords | OpenKVK/Client.py:55 | four words of safe characters separated by spaces encode to the words separated by `%20` |
| UrlEncode.EncodeSelectAll | OpenKVK/test/test_openkvk.py:13-14 | "SELECT * FROM KVK;" encodes to "SELECT%20*%20FROM%20KVK;" |
| Structured.ZipKeys | OpenKVK/Client.py:115-117 | a record's keys are exactly the column names its row reaches |
| Structured.ZipAt | OpenKVK/Client.py:116-117 | with distinct column names, column i of the record holds value i of the row |
| Structured.ZipOneColumn | OpenKVK/Client.py:116-117 | a one-column row zips to a one-entry record |
| Structured.PythonifyAt | OpenKVK/Client.py:113-119 | success exactly when no row is longer than the header, and then one record per row, in row order, each the row zipped with the header; the only failure is IndexError |
| OpenKvk.Client.PythonifyResult | OpenKVK/Client.py:105-119 | the nested loops give KeyError("RESULT") when there is no merged result, otherwise exactly Pythonify of its header and rows |
| OpenKvk.PythonifyTooLong | OpenKVK/Client.py:114-117 | a row longer than the header, after rows that fit, makes the whole conversion IndexError |
| Structured.MergeStep | OpenKVK/Client.py:130-133 | the merge loop's step: the first page becomes the result, a later page's rows are appended under the kept header |
| Structured.ConcatRowsAppend | OpenKVK/Client.py:139-142 | merging keeps page order: the rows of two runs of pages are the first run's rows followed by the second's |
| Structured.ConcatRowsLength | OpenKVK/Client.py:127-144 | the merged row count is the sum of the pages' row counts |
| Structured.MergedRecordsAt | OpenKVK/Client.py:127-144 | no pages give KeyError("RESULT"); otherwise one record per row of every page, in page order and in-page row order, zipped with the first page's header, failing exactly when a row is longer than that header |
| Structured.MergedSinglePage | OpenKVK/Client.py:136-144 | a single page goes through the same merge and gives its own rows zipped with its header |
| Structured.MergedOneColumnOnePage | OpenKVK/Client.py:127-144 | one page with one one-column row gives one one-entry record |
| Structured.ConcatOneColumnPages | OpenKVK/Client.py:139-142 | two one-column pages of one and two rows merge to their three rows in page order |
| Structured.MergedOneColumnTwoPages | OpenKVK/Client.py:127-144 | those two pages give three one-entry records in page order |
| Structured.MergedRecordsOnePage | OpenKVK/test/test_openkvk.py:64 | the Kinkrsoftware page gives [{"bedrijfsnaam": "Kinkrsoftware"}] |
| Structured.MergedRecordsTwoPages | OpenKVK/test/test_openkvk.py:66 | the two test pages give the Friesland Bank N.V., Bineko-export B.V. and Bytefabriek records in that order |
| Structured.DecodeAllAt | OpenKVK/Client.py:137 | decoding succeeds exactly when every payload decodes, and keeps page order |
| Structured.DecodeAllError | OpenKVK/Client.py:137 | decoding fails only with the decoding ValueError |
| Structured.DecodeAllErrPersists | OpenKVK/Client.py:128-129 | once a payload fails to decode, decoding more payloads keeps that failure |
| Structured.DecodeAllAgree | OpenKVK/Client.py:127-144 | decoders that agree on the payloads decode them alike |
| OpenKvk.DecodeStep | OpenKVK/Client.py:128-129 | decoding one more payload appends its envelope, or fails with the decoding error |
| OpenKvk.JsonAndPyAgree | OpenKVK/Client.py:127-144 | json and py differ only in the decoder: with decoders that agree on the payloads they give the same records or the same error |
| OpenKvk.ParseResultsErrors | OpenKVK/Client.py:127-171 | the unsupported-format ValueError is raised exactly for a format other than json, py and csv; csv never fails; json and py fail only with the decoding ValueError, KeyError("RESULT") or IndexError |
| OpenKvk.ParseNoResponses | OpenKVK/Client.py:126-169 | with no responses, json and py raise KeyError("RESULT") and csv returns the empty text |
| OpenKvk.Client.ParseQueryResults | OpenKVK/Client.py:121-173 | the three branch loops compute ParseResults for the client's format: decode and merge for json and py, the csv merge for csv, ValueError otherwise |
| OpenKvk.CsvLine | OpenKVK/Client.py:151-164 | on line 0 the header grows by the line's first columns, stripped, while it is shorter than the line and no record is built; on a later line the record is the line's stripped fields |
| OpenKvk.LineStep | OpenKVK/Client.py:155-162 | one column of a line keeps the line loop's state: on line 0 it goes to the header while the header is shorter than the line, on a later line it goes to the record |
| OpenKvk.HeaderColumnStep | OpenKVK/Client.py:157-158 | on line 0, column j is appended to the header, stripped, exactly while the header has fewer names than the line has columns |
| OpenKvk.LineDone | OpenKVK/Client.py:153-162 | after every column, the header is the header step of line 0 and the record is the line's stripped fields |
| OpenKvk.PageStep | OpenKVK/Client.py:151-164 | one more line of a page keeps the page loop's invariant |
| OpenKvk.PageRecordsStep | OpenKVK/Client.py:163-164 | a line's record is appended unless it is [''] |
| OpenKvk.CsvPage | OpenKVK/Client.py:149-164 | the loop over one response's lines gives the header step of its line 0 and appends exactly that page's records |
| OpenKvk.PagesStep | OpenKVK/Client.py:149-164 | one more response moves the header and the records to those of one more page |
| OpenKvk.OutputStep | OpenKVK/Client.py:166-168 | one more record adds its comma-joined line when it is not empty |
| OpenKvk.CsvMerge | OpenKVK/Client.py:145-169 | the nested csv loops return exactly Csv.Merge of the responses |
| Csv.KeptAppend | OpenKVK/Client.py:166-168 | the non-empty-record filter distributes over concatenation |
| Csv.KeptSingle | OpenKVK/Client.py:167 | a single record is kept exactly when it is non-empty |
| Csv.KeptFirstLine | OpenKVK/Client.py:151-164 | line 0 contributes only an empty record, which never reaches the output |
| Csv.KeptNextLine | OpenKVK/Client.py:153-164 | a later line reaches the output with its stripped fields unless they are [''] |
| Csv.KeptPageRecords | OpenKVK/Client.py:149-168 | of one page's records, those that reach the output are the page's data records |
| Csv.KeptRecords | OpenKVK/Client.py:149-168 | the records that reach the output are the data records of every page, in page order |
| Csv.MergeIsHeaderThenData | OpenKVK/Client.py:145-169 | the csv text is the header line followed by the comma-joined data records of every page, in page order, joined by newlines |
| Csv.FieldsFree | OpenKVK/Client.py:153-156 | the fields of a line hold no comma and no character the line lacks |
| Csv.HeaderStepFree | OpenKVK/Client.py:157-158 | a header step adds no field with a comma or a newline |
| Csv.HeaderFree | OpenKVK/Client.py:146-165 | no header field holds a comma or a newline |
| Csv.DataRecordsFree | OpenKVK/Client.py:151-164 | no data record of a page is empty or [''], and no field holds a comma or a newline |
| Csv.AllDataFree | OpenKVK/Client.py:149-164 | the same holds for the data records of every page |
| Csv.JoinNonEmpty | OpenKVK/Client.py:163-168 | a record that is neither empty nor [''] gives a non-empty line |
| Csv.OutputLinesFree | OpenKVK/Client.py:165-168 | output lines hold no newline and every data line is non-empty |
| Csv.MergeRoundTrip | OpenKVK/Client.py:145-169 | the csv text splits on newlines into 1 + (number of data records) lines; splitting them on commas gives back the header (when there is at least one page) and each data record |
| Text.JoinSplit | OpenKVK/Client.py:150-168 | joining the pieces of a split with the same separator gives the original string back, so the `split` of each response and the `join` of the output are inverses |
| Csv.JoinLast | OpenKVK/Client.py:169 | a join ends with the last character of its last part when that part is non-empty |
| Csv.JoinedLinesEnd | OpenKVK/Client.py:169 | newline-free lines whose last one is non-empty join to a text that does not end in a newline |
| Csv.MergeNoTrailingNewline | OpenKVK/Client.py:145-169 | the csv text never ends with a newline |
| Csv.HeaderFromFirstPage | OpenKVK/Client.py:157-158 | when no later page's line 0 has more columns, the header is the first page's line 0, split and stripped |
| Csv.HeaderGrowsFromFront | OpenKVK/Client.py:157-158 | after a first page whose line 0 is `"a"`, a second page whose line 0 is `"x","y"` gives the header a, x: the wider line adds its first column, not its extra one |
| Csv.StripQuoted | OpenKVK/Client.py:156 | a quote-free value is read back from its quoted form |
| Csv.FieldsQuoted | OpenKVK/Client.py:153-156 | a quoted one-column line gives that one field |
| Csv.DataOfBlank | OpenKVK/Client.py:153-164 | an empty line and a lone `"` line add no record |
| Csv.LinesPrefix | OpenKVK/Client.py:150 | two newline-free lines and a rest split into those two lines and the rest's lines |
| Csv.DataOfQuoted | OpenKVK/Client.py:153-164 | a quoted plain value is a data line with that one field |
| Csv.DataRecordsThree | OpenKVK/Client.py:151-164 | the data of three lines skips line 0 |
| Csv.DataRecordsFour | OpenKVK/Client.py:151-164 | the data of four lines skips line 0 |
| Csv.OneColumnLines | OpenKVK/Client.py:150 | a one-column page splits into its header line, its value line and its final line |
| Csv.OneColumnData | OpenKVK/Client.py:151-164 | such a page's data is its value; a final empty or lone-quote line adds nothing |
| Csv.HeaderOfFirstPage | OpenKVK/Client.py:157-158 | a first page whose line 0 is one quoted name gives the header [name] |
| Csv.HeaderOfNextPage | OpenKVK/Client.py:157-158 | a later page with the same line 0 leaves the header unchanged |
| Csv.MergeOneColumn | OpenKVK/Client.py:165-169 | with a one-name header and one-field records, the text is the name and the values, one per line |
| Csv.SecondPageLines | OpenKVK/Client.py:150 | a page of a header line and two values, ending in a newline, splits into four lines, the last empty |
| Csv.SecondPageData | OpenKVK/Client.py:151-164 | that page's data is its two values in order |
| Csv.TwoPagesHeader | OpenKVK/Client.py:157-158 | two pages starting with the same quoted name give that name as the header |
| Csv.TwoPagesData | OpenKVK/Client.py:149-164 | the data of two pages is the first page's data followed by the second's |
| Csv.JoinFourLines | OpenKVK/Client.py:169 | four lines join with three newlines |
| Csv.MergeOnePage | OpenKVK/test/test_openkvk.py:74 | a page `"h"\n"v"\n` gives `h\nv`, unquoted and without the trailing newline |
| Csv.MergeTwoPages | OpenKVK/test/test_openkvk.py:76 | pages `"h"\n"a"\n"` and `"h"\n"b"\n"c"\n` give `h\na\nb\nc`: the stray quote and the repeated header add nothing |
| OpenKvk.WithOptionsBytes | OpenKVK/Client.py:183 | a base query and filters of Python 2 strs give a query that is a str |
| OpenKvk.PagesBytes | OpenKVK/Client.py:184 | every page query of a str query is a str, so each page can be encoded |
| OpenKvk.FetchAllAt | OpenKVK/Client.py:186-191 | the fetch loop succeeds exactly when every URL does, giving the bodies in URL order; otherwise its error is that of the first URL that failed |
| OpenKvk.FetchStep | OpenKVK/Client.py:187-191 | fetching one more URL appends its body, or fails with its error |
| OpenKvk.FetchAllErrPersists | OpenKVK/Client.py:187-191 | once a fetch fails, later URLs do not change the failure |
| OpenKvk.RequestUrlsAt | OpenKVK/Client.py:183-188 | one URL per page, PageCount(total) of them; URL i is BASE_URL + format + "/" + the encoded query-with-options limited to LimitAt(total,i) rows from offset 99·i |
| OpenKvk.RunQuery | OpenKVK/Client.py:175-194 | a result comes back only for a supported format and only when every page request succeeded; for csv, exactly when every request succeeded |
| OpenKvk.RunQuerySucceeds | OpenKVK/Client.py:175-194 | when every request succeeds, the result is the parse of the bodies in page order |
| OpenKvk.RunQueryFails | OpenKVK/Client.py:187-191 | when request j is the first to fail, the call fails with its error and nothing is parsed |
| OpenKvk.Client.DoQuery | OpenKVK/Client.py:175-194 | options, divider, fetch loop and parser together compute RunQuery for the client's format and active switch |
| OpenKvk.KvkQuery | OpenKVK/Client.py:203 | the kvk base query is a Python 2 str when the field names are |
| OpenKvk.NameQuery | OpenKVK/Client.py:215 | the name base query is a str when the field names and the name are |
| OpenKvk.SbiQuery | OpenKVK/Client.py:225 | the sbi base query is a str when the field names and the code are |
| OpenKvk.CityQuery | OpenKVK/Client.py:235 | the city base query is a str when the field names and the city are |
| OpenKvk.KvkSingleRequest | OpenKVK/Client.py:196-204 | get_by_kvk sends exactly one request, for its query with options, LIMIT 1 OFFSET 0 |
| OpenKvk.Client.GetByKvk | OpenKVK/Client.py:196-204 | RunQuery of the kvk query for 1 row with no filters; fields default to every column |
| OpenKvk.Client.GetByName | OpenKVK/Client.py:207-216 | RunQuery of the name query for limit rows (default 99) with no filters; fields default to every column |
| OpenKvk.Client.GetBySbi | OpenKVK/Client.py:218-226 | RunQuery of the sbi query for limit rows (default 99) with no filters, whatever filters the caller passes; fields default to every column |
| OpenKvk.Client.GetByCity | OpenKVK/Client.py:228-236 | RunQuery of the city query for limit rows (default 99) with no filters, whatever filters the caller passes; fields default to every column |
| OpenKvk.Client.GetCustom | OpenKVK/Client.py:267-275 | RunQuery of the caller's query for limit rows with no filters |

## Left out

- HTTP transport (`urllib2.urlopen(url).read()`, OpenKVK/Client.py:189-190): network I/O.
  It is the `fetch` parameter, and a failed request is a `TransportError` or whatever
  error `fetch` returns.
- The debug `print response_buffer` (OpenKVK/Client.py:125): output only.
- `json.loads` and `ast.literal_eval` (OpenKVK/Client.py:129, 137): foreign parsers. They
  are the `Decoders` parameters.
  - A payload they reject, or one that lacks `[0]['RESULT']`, is one decoding
    `ValueError`. The model does not tell a malformed payload from a missing key.
- `json.dumps` (OpenKVK/Client.py:135): foreign serialiser whose key order and spacing the
  code does not fix. `JsonText(records)` stands for the text by the records it encodes.
- Floating-point cells in payloads: `Cell` has strings, integers, booleans and null only.
- Pagination.PageCount: uses the exact ceiling of total/99.
  - The source computes it with `float` division and `math.ceil`.
  - The two differ only for totals above 2^53, which are not modelled.
  - Integers are unbounded, as in Python.
- OpenKvk.Client.DoQuery and the `get_by_*` methods require the query, the filter entries,
  the field names and the search terms to be byte strings (Python 2 `str`).
  - A `unicode` query with a character outside ASCII, on which `urllib.quote` raises
    `KeyError`, is not modelled.
- `fields` is a sequence of column names joined with `,`. The source's default `'*'` is a
  one-character string, which `",".join` turns into `*`, so its default is written `["*"]` here.
- Dafny places defaulted parameters last, so the `get_by_*` methods take `fetch` and the
  decoders before `limit`, `fields` and `filters`; the defaults themselves (`limit` 99,
  `fields` every column, `filters` None, and the constructor's None, None, true) are kept.
- Filters are a sequence of key/value pairs in the dictionary's iteration order. Python 2
  does not fix that order for a `dict`.
- The dictionary itself is not modelled.
  - Two filter entries cannot share a key in the source. The model does not exclude that.
  - Keys and values are formatted with `"{0}"`, so only string keys and values are
    modelled.
- OpenKvk.Client.constructor: the active-companies argument is a `bool`.
  - The source stores any value unvalidated, and `_query_construct_options` then uses its
    Python truthiness.
  - `limit` is any integer; `limit or 99` is modelled for None and 0 only.
- The `limit` field (OpenKVK/Client.py:19) is kept but used nowhere, as in the source. The
  divider always uses 99.
- The json branch extends the first page's `ROWS` list in place (OpenKVK/Client.py:133), so
  the decoded first payload is changed too. The model merges values and does not capture
  that aliasing, which nothing reads afterwards.
- `isinstance(line, str)` (OpenKVK/Client.py:152): always true for the lines of a `str`
  response, so it is not a branch of the model.
  - A `unicode` csv response, for which it is false and which would add no records, is not
    modelled.
- `search` (OpenKVK/Client.py:238-243): a fixed format string with `limit=200`. It is only
  another instance of `_do_query` and the divider.
- `get_by_postcode_distance` (OpenKVK/Client.py:245-265): an empty stub that returns `None`.
- `BaseClient`, `QueryBuilder`, `ApiClient`, `query()` and `get_bankruptcies`: the test file
  imports or calls them, but their source is not part of this model.
  - The tests of `_urlencode_query`, `setResponseFormat`, `_query_divider` and
    `_parse_query_results` are stated against `Client`'s members of the same names:
    UrlEncode.EncodeSelectAll, UrlEncode.EncodeSpaceAndQuote, OpenKvk.Client.SetResponseFormat,
    Pagination.DivideOne, Pagination.DivideFiveHundred, Structured.MergedRecordsOnePage,
    Structured.MergedRecordsTwoPages, Csv.MergeOnePage and Csv.MergeTwoPages.
  - `test_query` and `test_get_banktruptcies` call members `Client` does not have, and
    `test_get_by_kvk` and `test_get_by_name` compare with the live service's reply; none of
    the four is modelled.
- `OpenKVK/cli.py` (argument parsing and file output) and `setup.py` (packaging): no query
  logic.
- Behaviours of the code worth knowing:
  - The safe set passed to `urllib.quote` is exactly ``*;%'`=&``.
  - The csv header can grow from a later page's line 0, and it then takes that line's first
    columns (Csv.HeaderGrowsFromFront).
  - `get_custom` takes the caller's query and limit as they are. It does not extract a
    `LIMIT` clause from the query, and it makes no type check.
  - `Client.py` has no bankruptcy listing.
- `%` in the safe set means a literal `%XX` in a query, as in `ILIKE '%AB%'`, reaches the
  service unescaped. A server that unquotes it reads a different byte.
  - UrlEncode.EncodeDecode: states the read-back only for queries without `%`, because the
    source's encoding cannot be read back for the others.
  - UrlEncode.EncodeIdempotent states the other side.
- The csv examples (Csv.MergeOnePage, Csv.MergeTwoPages) are stated for any plain header
  name and values. The test's own literal strings are one instance.
  - Csv.MergeOnePage, Csv.MergeTwoPages: require a non-empty name and values free of `"`,
    `,` and newline, which the test's strings are.
