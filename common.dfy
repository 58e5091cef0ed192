/** Result and error values shared by the client model. */
module Common {

  datatype Option<+T> = None | Some(value: T)

  datatype Result<+T, +E> = Ok(value: T) | Err(error: E)

  /** Success or failure of an operation that yields no value (a Python call returning None). */
  datatype Outcome<+E> = Pass | Fail(error: E)

  /** The Python exceptions the client raises or lets propagate. */
  datatype Error =
    | ValueError(message: string)   // unsupported format; a payload json.loads / ast.literal_eval rejects
    | TypeError(message: string)    // a setter received a value of the wrong type
    | KeyError(key: string)         // a missing key in a parsed payload or in the merged result
    | IndexError                    // a row with more values than the header has names
    | TransportError(message: string) // urllib2.urlopen / read failed

  /** A prefix one element longer is the shorter prefix and that element. */
  lemma TakeSnoc<T>(s: seq<T>, i: nat)
    requires i < |s|
    ensures s[..i + 1] == s[..i] + [s[i]]
  {
  }

  /** Dropping the last element of a concatenation drops it from the second part. */
  lemma AppendInit<T>(f: seq<T>, g: seq<T>)
    requires |g| > 0
    ensures (f + g)[..|f + g| - 1] == f + g[..|g| - 1]
    ensures (f + g)[|f + g| - 1] == g[|g| - 1]
  {
  }

  /** Dropping the first element of a concatenation drops it from the first part. */
  lemma DropAppend<T>(f: seq<T>, g: seq<T>)
    requires |f| > 0
    ensures (f + g)[0] == f[0] && (f + g)[1..] == f[1..] + g
  {
  }

  /** A sequence of six elements is the display of its elements. */
  lemma SixElements<T>(s: seq<T>)
    requires |s| == 6
    ensures s == [s[0], s[1], s[2], s[3], s[4], s[5]]
  {
  }

  lemma ConcatAssoc<T>(x: seq<T>, y: seq<T>, z: seq<T>)
    ensures x + (y + z) == (x + y) + z
  {
  }

  /** The prefixes of a two-element sequence. */
  lemma PairPrefixes<T>(x: T, y: T)
    ensures [x, y][..1] == [x] && [x][..0] == [] && [x, y][1] == y
  {
  }
}
