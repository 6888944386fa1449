/**
 * Reading a named parameter back out of a URL's query: the query is what
 * follows the first `?` and precedes any `#` fragment, its pairs are separated
 * by `&`, a pair's name ends at its first `=`, and the value is percent-decoded
 * with `decodeURIComponent`. This is the reading a receiving endpoint applies to
 * the URLs the components build.
 */
module UrlQuery {
  import opened Wrappers
  import opened Strings
  import UriComponent

  /** `s` up to its first `c`, or all of `s`. */
  function Before(s: string, c: char): string {
    match IndexOf(s, c)
    case None => s
    case Some(i) => s[..i]
  }

  /** The query of the URL `u`. */
  function Query(u: string): string {
    var beforeFragment := Before(u, '#');
    match IndexOf(beforeFragment, '?')
    case None => ""
    case Some(i) => beforeFragment[i + 1..]
  }

  /** A query pair split at its first `=` into name and raw value. */
  function NameValue(pair: string): (string, string) {
    match IndexOf(pair, '=')
    case None => (pair, "")
    case Some(i) => (pair[..i], pair[i + 1..])
  }

  /** The decoded value of the first pair named `name`. */
  function Lookup(pairs: seq<string>, name: string): Option<string> {
    if pairs == [] then None
    else
      var (n, v) := NameValue(pairs[0]);
      if n == name then UriComponent.Decode(v) else Lookup(pairs[1..], name)
  }

  /** The decoded value of the parameter `name` of URL `u`. */
  function Param(u: string, name: string): Option<string> {
    Lookup(Split(Query(u), '&'), name)
  }

  /** An encoded string has none of the characters that structure a query. */
  lemma EncodedIsQuerySafe(s: string)
    ensures var e := UriComponent.Encode(s);
      Free(e, '&') && Free(e, '#') && Free(e, '=') && Free(e, '?') && Free(e, '+')
  {
    UriComponent.EncodeIsEncoded(s);
  }

  /** The query of `endpoint?url=<e>` is `url=<e>` when nothing before it opens a fragment. */
  lemma QueryOfBuiltUrl(endpoint: string, e: string)
    requires Free(endpoint, '?') && Free(endpoint, '#') && Free(e, '#')
    ensures Query(endpoint + "?url=" + e) == "url=" + e
  {
    var u := endpoint + "?url=" + e;
    FreeConcat(endpoint, "?url=", '#');
    FreeConcat(endpoint + "?url=", e, '#');
    assert Before(u, '#') == u;
    assert u[..|endpoint|] == endpoint && u[|endpoint|] == '?';
    IndexOfAt(u, '?', |endpoint|);
    assert u[|endpoint| + 1..] == "url=" + e;
  }

  /** A string with no separator splits into itself alone. */
  lemma SplitFree(s: string, sep: char)
    requires Free(s, sep)
    ensures Split(s, sep) == [s]
  {
    var parts := Split(s, sep);
    assert |parts| == 1 && Join(parts, sep) == parts[0];
  }

  /** The pair `url=<e>` has the name `url` and the raw value `e`. */
  lemma NameValueOfUrlPair(e: string)
    ensures NameValue("url=" + e) == ("url", e)
  {
    var q := "url=" + e;
    assert q[..3] == "url" && q[3] == '=';
    IndexOfAt(q, '=', 3);
    assert q[4..] == e;
  }

  /** A query that is the single pair `url=<e>` yields `e`, decoded, for `url`. */
  lemma LookupSinglePair(e: string)
    requires Free(e, '&')
    ensures Lookup(Split("url=" + e, '&'), "url") == UriComponent.Decode(e)
  {
    var q := "url=" + e;
    FreeConcat("url=", e, '&');
    SplitFree(q, '&');
    NameValueOfUrlPair(e);
  }

  /**
   * For an endpoint with no query or fragment of its own, the parameter `url`
   * of `endpoint?url=<encodeURIComponent(value)>` reads back as `value`.
   */
  lemma ParamOfBuiltUrl(endpoint: string, value: string)
    requires Free(endpoint, '?') && Free(endpoint, '#')
    ensures Param(endpoint + "?url=" + UriComponent.Encode(value), "url") == Some(value)
  {
    var e := UriComponent.Encode(value);
    EncodedIsQuerySafe(value);
    QueryOfBuiltUrl(endpoint, e);
    LookupSinglePair(e);
    UriComponent.DecodeEncode(value);
  }
}
