/**
 * The redirect test anchor: a link through the external redirect endpoint to
 * `url`, showing `url` itself as its text.
 */
module TestUrlButton {
  import opened Wrappers
  import opened Strings
  import opened UriComponent
  import opened UrlQuery
  import opened Constants

  /**
   * The anchor's href, written with the endpoint spelled out as the component
   * does; it is the redirect endpoint with `url` as its percent-encoded `url`
   * parameter.
   */
  function RedirectHref(url: string): (href: string)
    ensures href == REDIRECT_TEST_URL + "?url=" + Encode(url)
    ensures Param(href, "url") == Some(url)
  {
    assert "https://httpbin.org/redirect-to?url=" == REDIRECT_TEST_URL + "?url=";
    EndpointsHaveNoQuery();
    ParamOfBuiltUrl(REDIRECT_TEST_URL, url);
    "https://httpbin.org/redirect-to?url=" + Encode(url)
  }

  /** Distinct targets give distinct redirect links. */
  lemma RedirectHrefInjective(u: string, v: string)
    requires RedirectHref(u) == RedirectHref(v)
    ensures u == v
  {
    assert Param(RedirectHref(u), "url") == Some(u);
  }

  /** Nothing after `?url=` can start another parameter, a fragment or a second query. */
  lemma RedirectParamIsQuerySafe(url: string)
    ensures var tail := RedirectHref(url)[|REDIRECT_TEST_URL + "?url="|..];
      IsEncoded(tail) && Free(tail, '&') && Free(tail, '#') && Free(tail, '=') && Free(tail, '?')
  {
    var prefix := REDIRECT_TEST_URL + "?url=";
    assert RedirectHref(url)[|prefix|..] == Encode(url);
    EncodeIsEncoded(url);
    EncodedIsQuerySafe(url);
  }

  /**
   * The parts of the example URL need no escaping. This lemma and the next exist
   * only to split the example literals into pieces that the general lemma
   * `EncodeSimpleUrl` applies to.
   */
  lemma ExampleParts()
    ensures AllUnreserved("https") && AllUnreserved("example.com") && AllUnreserved("a") && AllUnreserved("b")
  {
  }

  /** The example URL and its encoding, each spelled as the concatenation of its pieces. */
  lemma ExampleSpelling()
    ensures "https://example.com/a/b" == "https" + ":" + "/" + "/" + "example.com" + "/" + "a" + "/" + "b"
    ensures "https%3A%2F%2Fexample.com%2Fa%2Fb"
         == "https" + "%3A" + "%2F" + "%2F" + "example.com" + "%2F" + "a" + "%2F" + "b"
  {
  }

  /** The encoding of `https://example.com/a/b`. */
  lemma EncodeExample()
    ensures Encode("https://example.com/a/b") == "https%3A%2F%2Fexample.com%2Fa%2Fb"
  {
    ExampleParts();
    ExampleSpelling();
    EncodeSimpleUrl("https", "example.com", "a", "b");
  }

  /** The redirect link for `https://example.com/a/b`. */
  lemma RedirectHrefExample()
    ensures RedirectHref("https://example.com/a/b")
         == "https://httpbin.org/redirect-to?url=" + "https%3A%2F%2Fexample.com%2Fa%2Fb"
  {
    EncodeExample();
  }

  /** The rendered anchor: where it leads and what it shows. */
  datatype Anchor = Anchor(href: string, text: string)

  /** The anchor shows `url` unencoded, and the redirect it opens leads to exactly what it shows. */
  function Render(url: string): (a: Anchor)
    ensures a.text == url
    ensures a.href == RedirectHref(url)
    ensures Param(a.href, "url") == Some(a.text)
  {
    Anchor(RedirectHref(url), url)
  }
}
