/**
 * The fixed URLs of the inspector. Each is written as scheme, host and path
 * pieces so that facts about its characters can be established piece by piece;
 * the values are the literal strings of src/constants/index.tsx.
 */
module Constants {
  import opened Strings

  /** The QR-image endpoint. */
  const QRCODE_API_URL: string := "https://" + "qrcode-generator-sage-alpha.vercel.app" + "/api/qr-image"

  /** The redirect-testing endpoint. */
  const REDIRECT_TEST_URL: string := "https://" + "httpbin.org" + "/redirect-to"

  /** Neither endpoint has a query or a fragment of its own. */
  lemma EndpointsHaveNoQuery()
    ensures Free(QRCODE_API_URL, '?') && Free(QRCODE_API_URL, '#')
    ensures Free(REDIRECT_TEST_URL, '?') && Free(REDIRECT_TEST_URL, '#')
  {
    assert Free("https://", '?') && Free("https://", '#');
    assert Free("qrcode-generator-sage-alpha.vercel.app", '?');
    assert Free("qrcode-generator-sage-alpha.vercel.app", '#');
    assert Free("/api/qr-image", '?') && Free("/api/qr-image", '#');
    assert Free("httpbin.org", '?') && Free("httpbin.org", '#');
    assert Free("/redirect-to", '?') && Free("/redirect-to", '#');
  }
}
