/**
 * The custom-path form: an input for a path under `baseUrl` and, once a path is
 * typed, a redirect test link and a QR-code button for the resulting URL. The
 * typed path is owned by the parent and forwarded through `onPathChange`.
 */
module CustomPathForm {
  import opened Wrappers
  import opened UrlQuery
  import TestUrlButton
  import QrCodeButton
  import UriComponent
  import Constants

  const FALLBACK_PATH: string := "/test"

  /** `customUrl`: `baseUrl` followed by the typed path, or by `/test` while nothing is typed. */
  function CustomUrl(baseUrl: string, customPath: string): (u: string)
    ensures baseUrl <= u
    ensures customPath == "" ==> u == baseUrl + FALLBACK_PATH
    ensures customPath != "" ==> u[|baseUrl|..] == customPath
  {
    if customPath != "" then baseUrl + customPath else baseUrl + FALLBACK_PATH
  }

  /** The two actions shown under the input: the test link's href and the QR button's `url` prop. */
  datatype Actions = Actions(testHref: string, qrButtonUrl: string)

  /** The rendered form: the base URL header, the input's value, and the actions if any. */
  datatype Form = Form(header: string, inputValue: string, actions: Option<Actions>)

  /**
   * The form for the current path. The actions appear exactly when a path is
   * typed, so they never use the fallback; the test link redirects to, and the
   * QR button receives, `baseUrl` followed by the typed path, unencoded.
   */
  function Render(baseUrl: string, customPath: string): (f: Form)
    ensures f.header == baseUrl && f.inputValue == customPath
    ensures f.actions.Some? <==> customPath != ""
    ensures f.actions.Some? ==> f.actions.value.qrButtonUrl == baseUrl + customPath
    ensures f.actions.Some? ==> f.actions.value.testHref == TestUrlButton.RedirectHref(baseUrl + customPath)
    ensures f.actions.Some? ==> Param(f.actions.value.testHref, "url") == Some(baseUrl + customPath)
  {
    var customUrl := CustomUrl(baseUrl, customPath);
    var actions :=
      if customPath != "" then Some(Actions(TestUrlButton.RedirectHref(customUrl), customUrl)) else None;
    Form(baseUrl, customPath, actions)
  }

  /**
   * The QR image the form's button requests carries the custom URL encoded once:
   * its `url` parameter decodes to the custom URL itself, not to its encoding.
   */
  lemma QrEncodesCustomUrlOnce(baseUrl: string, customPath: string)
    requires customPath != ""
    ensures var qr := QrCodeButton.QrImageUrl(Render(baseUrl, customPath).actions.value.qrButtonUrl);
      && qr == Constants.QRCODE_API_URL + "?url=" + UriComponent.Encode(baseUrl + customPath)
      && Param(qr, "url") == Some(baseUrl + customPath)
  {
  }

  /** The input's change handler: `onPathChange` receives the input's value. */
  function OnChange(targetValue: string): (forwarded: string)
    ensures forwarded == targetValue
  {
    targetValue
  }

  /** With the parent storing what was forwarded, the input shows exactly what was typed. */
  lemma InputShowsTypedValue(baseUrl: string, typed: string)
    ensures Render(baseUrl, OnChange(typed)).inputValue == typed
  {
  }
}
