/** Client._urlencode_query: double quotes become single quotes, then Python 2's
    urllib.quote(query, safe="*;%'`=&") percent-encodes the rest. */
module UrlEncode {
  import opened Common
  import opened Text

  /** A Python 2 str: every element is a byte. */
  predicate IsByteString(s: string)
  {
    forall i :: 0 <= i < |s| ==> s[i] as int < 256
  }

  /** urllib's always_safe set: ASCII letters, digits and "_.-". */
  predicate AlwaysSafe(c: char)
  {
    ('A' <= c <= 'Z') || ('a' <= c <= 'z') || ('0' <= c <= '9') || c == '_' || c == '.' || c == '-'
  }

  /** The safe argument the client passes to urllib.quote. */
  const QuerySafe: string := "*;%'`=&"

  /** The characters urllib.quote leaves as they are. */
  predicate PassesThrough(c: char)
  {
    AlwaysSafe(c) || c in QuerySafe
  }

  const HexDigits: string := "0123456789ABCDEF"

  /** The value of a hex digit of either case, as urllib.unquote reads it. */
  function HexValue(c: char): nat
  {
    if '0' <= c <= '9' then c as int - '0' as int
    else if 'A' <= c <= 'F' then c as int - 'A' as int + 10
    else if 'a' <= c <= 'f' then c as int - 'a' as int + 10
    else 0
  }

  /** urllib.unquote accepts hex digits in upper and lower case. */
  predicate IsHex(c: char)
  {
    ('0' <= c <= '9') || ('A' <= c <= 'F') || ('a' <= c <= 'f')
  }

  /** One byte through urllib.quote: itself, or "%XX" with upper-case hex. */
  function QuoteChar(c: char): string
    requires c as int < 256
  {
    if PassesThrough(c) then [c]
    else ['%', HexDigits[c as int / 16], HexDigits[c as int % 16]]
  }

  /** urllib.quote with the client's safe set, byte by byte. */
  function Quote(s: string): string
    requires IsByteString(s)
    decreases |s|
  {
    if |s| == 0 then "" else QuoteChar(s[0]) + Quote(s[1..])
  }

  /** query.replace('"', "'"). */
  function ReplaceDoubleQuotes(s: string): (r: string)
    ensures |r| == |s|
    ensures forall i :: 0 <= i < |s| ==> r[i] == (if s[i] == '"' then '\'' else s[i])
  {
    seq(|s|, i requires 0 <= i < |s| => if s[i] == '"' then '\'' else s[i])
  }

  /** Client._urlencode_query: every character of the result is one urllib.quote passes
      through, so the result is safe to put in a url path. */
  function EncodeQuery(query: string): (r: string)
    requires IsByteString(query)
    ensures forall i :: 0 <= i < |r| ==> PassesThrough(r[i])
  {
    assert IsByteString(ReplaceDoubleQuotes(query));
    QuoteOutputPasses(ReplaceDoubleQuotes(query));
    Quote(ReplaceDoubleQuotes(query))
  }

  /** urllib.unquote: every "%XX" with two hex digits becomes that byte, the rest is kept. */
  function Unquote(s: string): string
    decreases |s|
  {
    if |s| >= 3 && s[0] == '%' && IsHex(s[1]) && IsHex(s[2]) then
      [(HexValue(s[1]) * 16 + HexValue(s[2])) as char] + Unquote(s[3..])
    else if |s| == 0 then ""
    else [s[0]] + Unquote(s[1..])
  }

  /** Decimal formatting yields a byte string. */
  lemma IntToStringBytes(n: int)
    ensures IsByteString(IntToString(n))
  {
    ParseNatToString(if n < 0 then -n else n);
  }

  /** Quote works character by character, so it distributes over concatenation. */
  lemma {:induction false} QuoteAppend(a: string, b: string)
    requires IsByteString(a) && IsByteString(b)
    ensures IsByteString(a + b)
    ensures Quote(a + b) == Quote(a) + Quote(b)
    decreases |a|
  {
    if |a| == 0 {
      assert a + b == b;
    } else {
      QuoteAppend(a[1..], b);
      DropAppend(a, b);
      ConcatAssoc(QuoteChar(a[0]), Quote(a[1..]), Quote(b));
    }
  }

  /** Everything Quote produces is a character urllib.quote passes through. */
  lemma {:induction false} QuoteOutputPasses(s: string)
    requires IsByteString(s)
    ensures forall i :: 0 <= i < |Quote(s)| ==> PassesThrough(Quote(s)[i])
    decreases |s|
  {
    if |s| > 0 {
      QuoteOutputPasses(s[1..]);
      var c := s[0];
      if !PassesThrough(c) {
        assert c as int / 16 < 16;
        assert forall d :: d in HexDigits ==> AlwaysSafe(d);
      }
    }
  }

  /** A string of pass-through characters is left unchanged by Quote. */
  lemma {:induction false} QuoteIdentity(s: string)
    requires forall i :: 0 <= i < |s| ==> PassesThrough(s[i])
    ensures IsByteString(s)
    ensures Quote(s) == s
    decreases |s|
  {
    if |s| > 0 {
      QuoteIdentity(s[1..]);
      assert [s[0]] + s[1..] == s;
    }
  }

  /** The encoded query holds no double quote. */
  lemma EncodeNoDoubleQuote(query: string)
    requires IsByteString(query)
    ensures Free(EncodeQuery(query), '"')
  {
    QuoteOutputPasses(ReplaceDoubleQuotes(query));
  }

  /** Letters, digits and the safe characters pass through the encoder unchanged. */
  lemma EncodeKeepsSafe(query: string)
    requires forall i :: 0 <= i < |query| ==> PassesThrough(query[i])
    ensures IsByteString(query)
    ensures EncodeQuery(query) == query
  {
    QuoteIdentity(query);
    assert ReplaceDoubleQuotes(query) == query;
  }

  /** Because '%' is safe, encoding an encoded query changes nothing. */
  lemma EncodeIdempotent(query: string)
    requires IsByteString(query)
    ensures IsByteString(EncodeQuery(query))
    ensures EncodeQuery(EncodeQuery(query)) == EncodeQuery(query)
  {
    QuoteOutputPasses(ReplaceDoubleQuotes(query));
    EncodeKeepsSafe(EncodeQuery(query));
  }

  /** Replacing double quotes works character by character. */
  lemma ReplaceAppend(a: string, b: string)
    ensures ReplaceDoubleQuotes(a + b) == ReplaceDoubleQuotes(a) + ReplaceDoubleQuotes(b)
  {
  }

  /** The encoder works character by character, so it distributes over concatenation. */
  lemma EncodeAppend(a: string, b: string)
    requires IsByteString(a) && IsByteString(b)
    ensures IsByteString(a + b)
    ensures EncodeQuery(a + b) == EncodeQuery(a) + EncodeQuery(b)
  {
    ReplaceAppend(a, b);
    QuoteAppend(ReplaceDoubleQuotes(a), ReplaceDoubleQuotes(b));
  }

  /** A space is sent as "%20"; a double quote as a single quote. */
  lemma EncodeSpaceAndQuote()
    ensures EncodeQuery(" ") == "%20"
    ensures EncodeQuery("\"") == "'"
  {
    assert ReplaceDoubleQuotes(" ") == " ";
    assert ReplaceDoubleQuotes("\"") == "'";
    assert Quote(" ") == QuoteChar(' ') + Quote("");
    assert Quote("'") == QuoteChar('\'') + Quote("");
  }

  /** Upper-case hex digits are read back by HexValue. */
  lemma HexDigitValue(d: nat)
    requires d < 16
    ensures IsHex(HexDigits[d]) && HexValue(HexDigits[d]) == d
  {
  }

  /** A "%XX" escape unquotes to the byte it encodes. */
  lemma UnquoteEscape(c: char, rest: string)
    requires c as int < 256
    ensures Unquote(['%', HexDigits[c as int / 16], HexDigits[c as int % 16]] + rest) == [c] + Unquote(rest)
  {
    var hi, lo := c as int / 16, c as int % 16;
    HexDigitValue(hi);
    HexDigitValue(lo);
    var e := ['%', HexDigits[hi], HexDigits[lo]] + rest;
    assert e[0] == '%' && e[1] == HexDigits[hi] && e[2] == HexDigits[lo];
    assert e[3..] == rest;
    assert hi * 16 + lo == c as int;
  }

  /** Reading the escapes back: with no '%' in the query, unquoting the encoded query
      gives the query with its double quotes turned into single quotes. */
  lemma {:induction false} UnquoteQuote(s: string)
    requires IsByteString(s)
    requires Free(s, '%')
    ensures Unquote(Quote(s)) == s
    decreases |s|
  {
    if |s| > 0 {
      UnquoteQuote(s[1..]);
      var c := s[0];
      var rest := Quote(s[1..]);
      assert Quote(s) == QuoteChar(c) + rest;
      if PassesThrough(c) {
        assert c != '%';
        var e := [c] + rest;
        assert e[0] == c && e[1..] == rest;
        assert Unquote(e) == [c] + Unquote(rest);
      } else {
        UnquoteEscape(c, rest);
      }
      assert [s[0]] + s[1..] == s;
    }
  }

  lemma EncodeDecode(query: string)
    requires IsByteString(query)
    requires Free(query, '%')
    ensures Unquote(EncodeQuery(query)) == ReplaceDoubleQuotes(query)
  {
    UnquoteQuote(ReplaceDoubleQuotes(query));
  }

  /** Words of safe characters joined by single spaces are sent joined by "%20". */
  lemma EncodeSpacedWords(w: string, rest: string, encodedRest: string)
    requires forall i :: 0 <= i < |w| ==> PassesThrough(w[i])
    requires IsByteString(rest) && EncodeQuery(rest) == encodedRest
    ensures IsByteString(w + " " + rest)
    ensures EncodeQuery(w + " " + rest) == w + "%20" + encodedRest
  {
    EncodeSpaceAndQuote();
    EncodeKeepsSafe(w);
    EncodeAppend(w, " ");
    EncodeAppend(w + " ", rest);
  }

  /** Four words of safe characters joined by single spaces are sent joined by "%20". */
  lemma EncodeFourWords(a: string, b: string, c: string, d: string)
    requires forall i :: 0 <= i < |a| ==> PassesThrough(a[i])
    requires forall i :: 0 <= i < |b| ==> PassesThrough(b[i])
    requires forall i :: 0 <= i < |c| ==> PassesThrough(c[i])
    requires forall i :: 0 <= i < |d| ==> PassesThrough(d[i])
    ensures IsByteString(a + " " + (b + " " + (c + " " + d)))
    ensures EncodeQuery(a + " " + (b + " " + (c + " " + d))) == a + "%20" + (b + "%20" + (c + "%20" + d))
  {
    EncodeKeepsSafe(d);
    EncodeSpacedWords(c, d, d);
    EncodeSpacedWords(b, c + " " + d, c + "%20" + d);
    EncodeSpacedWords(a, b + " " + (c + " " + d), b + "%20" + (c + "%20" + d));
  }

  /** The first case of test_client_urlencode_query. */
  lemma EncodeSelectAll()
    ensures EncodeQuery("SELECT * FROM KVK;") == "SELECT%20*%20FROM%20KVK;"
  {
    EncodeFourWords("SELECT", "*", "FROM", "KVK;");
    SelectAllSpelling();
  }

  lemma SelectAllSpelling()
    ensures "SELECT" + " " + ("*" + " " + ("FROM" + " " + "KVK;")) == "SELECT * FROM KVK;"
    ensures "SELECT" + "%20" + ("*" + "%20" + ("FROM" + "%20" + "KVK;")) == "SELECT%20*%20FROM%20KVK;"
  {
  }
}
