# Universal Link / App Link inspector: a Dafny model of its string logic

The inspector is a single web page. It fetches two well-known deep-link manifests from its own origin: the Apple app-site-association document and the Android asset-links list. It then shows them and offers test links for the universal links they declare. This project models the thin layer of string logic inside that page and its components:

- **Test-link expansion** (`Page`). The Apple manifest's `applinks.details` is flattened into one link per (appID, path) pair, in order. The wildcard path `*` is rewritten to `/test`. Each link's href is `baseUrl` followed by that path, and its visible text is the href. Its badge is the last dot-separated part of the appID. Its React key is `index-pathIndex`. The two configuration panels show the well-known URL and either the document or `Loading...`.
- **Percent-encoding** (`UriComponent`). ECMAScript's `encodeURIComponent` and `decodeURIComponent` (the Encode and Decode operations of section 19.2.6 of ECMA-262) are modelled over full Unicode through UTF-8. Encoding keeps the unreserved characters of section 2.3 of RFC 2396 and writes every other octet as `%` plus two upper-case hex digits (section 2.1 of RFC 3986).
- **Reading a query parameter back** (`UrlQuery`). This is a reference definition of "the `url` parameter of a URL": the text after the first `?` and before any `#`, split at `&`, each pair split at its first `=`, and the value percent-decoded. It is what the round-trip properties are stated against.
- **The three components.** `TestUrlButton` builds the redirect link through the redirect endpoint. `QrCodeButton` builds the QR-image request and holds the modal's `showQR` state as a class with one method per event handler. `CustomPathForm` builds the custom URL, with the `/test` fallback, and the actions shown once a path is typed.
- **Data** (`Manifests`, `Constants`). The parsed manifest types of `src/types/index.ts` become datatypes. The endpoint constants of `src/constants/index.tsx` are written as scheme, host and path parts whose concatenation is the literal string.

`baseUrl` (the page's `window.location.origin`, initially empty) is a parameter everywhere. A manifest that has not loaded is `None`.

The QR button encodes whatever `url` it receives. Its one caller, the custom-path form, passes the unencoded custom URL (src/components/custom-path-form.tsx:43).

## Model

| member | source | states |
|---|---|---|
| `Page.EffectivePath` | src/app/page.tsx:67 | the wildcard `*` becomes `/test`; every other path, `""` included, is kept unchanged; the result is never `*` |
| `Page.Badge` | src/app/page.tsx:73 | `appID.split('.').pop()` contains no dot; it is a suffix of appID; it equals appID exactly when appID has no dot; otherwise a dot stands right before it |
| `Page.Key` | src/app/page.tsx:66 | the key is the decimal index, a `-`, then the decimal path index; both parts are digits only |
| `Page.MakeLink` | src/app/page.tsx:65-73 | one link: key `index-pathIndex`, href `baseUrl` followed by the effective path, text equal to the href, and the app's badge |
| `Page.DetailLinks` | src/app/page.tsx:64 | the inner `paths.map`: one link per path of the detail, at that path's position |
| `Page.LinkGroups` | src/app/page.tsx:63 | the outer `details.map`: one group of links per detail, at that detail's position |
| `Strings.Split` | src/app/page.tsx:73 | `split('.')`: at least one part; no part contains the separator; the parts joined with the separator give the input back; there is a single part exactly when the input has no separator |
| `Page.KeyInjective` | src/app/page.tsx:66 | the key `${index}-${pathIndex}` determines both indices |
| `Page.TestLinks` | src/app/page.tsx:59-64 | a manifest that is not loaded gives no links; a loaded one gives as many links as its details have paths in total |
| `Page.TestLinkAt` | src/app/page.tsx:63-73 | the link for path j of detail i sits after the links of all earlier details and earlier paths (detail order, then path order); it carries key `i-j`, href `baseUrl + effectivePath`, text equal to the href, and the app's badge |
| `Page.LocateTestLink` | src/app/page.tsx:63-70 | every emitted link is the link for exactly such a (detail, path) pair, so nothing else is emitted |
| `Page.TestLinkShape` | src/app/page.tsx:67-73 | every href starts with `baseUrl` and never opens the wildcard; the text equals the href; the badge has no dot |
| `Page.TestLinkKeysDistinct` | src/app/page.tsx:63-66 | no two links of the expansion share a React key |
| `Page.ExpansionOfTwoDetails` | src/app/page.tsx:63-70 | details with two paths and with one path give exactly three links, in detail order and then path order |
| `Page.ExampleBadges` | src/app/page.tsx:73 | the badges of `T.A` and `T.B` are `A` and `B` |
| `Page.ExampleLinks` | src/app/page.tsx:66-73 | the rendered links for (`T.A`, `/x`), (`T.A`, `/y`), (`T.B`, `/z`) have keys `0-0`, `0-1`, `1-0` and badges `A`, `A`, `B` |
| `Page.ExpansionExample` | src/app/page.tsx:63-73 | details `T.A` with `/x`, `/y` and `T.B` with `/z` give exactly those three links, in that order |
| `Page.ShowConfig` | src/app/page.tsx:104-106 | a panel shows `Loading...` exactly when its document is not loaded; otherwise it shows the document (the Android panel at line 127 is the same) |
| `Page.AppleConfigUrl` | src/app/page.tsx:98 | the iOS configuration URL is `baseUrl` followed by `/.well-known/apple-app-site-association` |
| `Page.AndroidConfigUrl` | src/app/page.tsx:120 | the Android configuration URL is `baseUrl` followed by `/.well-known/assetlinks.json` |
| `UriComponent.Encode` | src/components/qr-code-button.tsx:18 | `encodeURIComponent`: the output is at least as long as the input, and every output character is unreserved or `%` |
| `UriComponent.Decode` | src/components/test-url-button.tsx:9 | `decodeURIComponent`, the decoder the round trip is stated against: a decoded string is never longer than its input, and text without `%` decodes to itself |
| `UriComponent.Utf8RoundTrip` | src/components/qr-code-button.tsx:18 | the UTF-8 octets `encodeURIComponent` escapes decode back to the character, and the lead octet gives their number |
| `UriComponent.DecodeEncode` | src/components/qr-code-button.tsx:18 | `decodeURIComponent(encodeURIComponent(s)) == s` for every string |
| `UriComponent.EncodeInjective` | src/components/test-url-button.tsx:9 | distinct strings have distinct encodings |
| `UriComponent.EncodeIsEncoded` | src/components/qr-code-button.tsx:18 | every encoding is a sequence of unreserved characters and `%HH` escapes with upper-case hex; every character is unreserved or `%` |
| `UriComponent.EncodeUnreserved` | src/components/test-url-button.tsx:9 | a string of unreserved characters is its own encoding |
| `UriComponent.EncodeAppend` | src/components/test-url-button.tsx:9 | the encoding of a concatenation is the concatenation of the encodings |
| `UriComponent.EncodeSimpleUrl` | src/components/test-url-button.tsx:9 | `scheme://host/p/q` with unreserved parts encodes with `:` as `%3A` and each `/` as `%2F` |
| `UrlQuery.EncodedIsQuerySafe` | src/components/qr-code-button.tsx:18 | an encoding contains no `&`, `#`, `=`, `?` or `+` |
| `UrlQuery.ParamOfBuiltUrl` | src/components/qr-code-button.tsx:18 | for an endpoint without `?` or `#`, the `url` parameter of `endpoint?url=<encodeURIComponent(v)>` reads back as `v` |
| `Constants.EndpointsHaveNoQuery` | src/constants/index.tsx:2-5 | neither the QR endpoint nor the redirect endpoint contains a `?` or a `#` |
| `TestUrlButton.RedirectHref` | src/components/test-url-button.tsx:9 | the hard-coded prefix is the redirect constant followed by `?url=`; the href's `url` parameter reads back as `url` |
| `TestUrlButton.RedirectHrefInjective` | src/components/test-url-button.tsx:9 | distinct urls give distinct hrefs |
| `TestUrlButton.RedirectParamIsQuerySafe` | src/components/test-url-button.tsx:9 | what follows `?url=` is a well-formed encoding with no `&`, `#`, `=` or `?` |
| `TestUrlButton.EncodeExample` | src/components/test-url-button.tsx:9 | `https://example.com/a/b` encodes as `https%3A%2F%2Fexample.com%2Fa%2Fb` |
| `TestUrlButton.RedirectHrefExample` | src/components/test-url-button.tsx:9 | the redirect link for `https://example.com/a/b` is `https://httpbin.org/redirect-to?url=https%3A%2F%2Fexample.com%2Fa%2Fb` |
| `TestUrlButton.Render` | src/components/test-url-button.tsx:8-14 | the anchor shows `url` unencoded, and the redirect it opens carries exactly what it shows |
| `QrCodeButton.QrImageUrl` | src/components/qr-code-button.tsx:18 | the image URL is the QR endpoint, then `?url=`, then `encodeURIComponent(url)`; that tail is a well-formed encoding; its `url` parameter reads back as `url`; it is never empty |
| `QrCodeButton.QrImageUrlInjective` | src/components/qr-code-button.tsx:18 | distinct urls give distinct image requests |
| `QrCodeButton.Step` | src/components/qr-code-button.tsx:23-45 | the handlers' transitions: the QR button opens the modal; the backdrop and the close button close it; a click inside the dialog keeps the state |
| `QrCodeButton.RunIsLastDecision` | src/components/qr-code-button.tsx:23-45 | after any sequence of clicks the modal is open exactly when the last click that is not inside the dialog was on the QR button; with no such click the state is unchanged |
| `QrCodeButton.OpenIdempotent` | src/components/qr-code-button.tsx:23 | a second open after an open changes nothing |
| `QrCodeButton.QRCodeButton.constructor` | src/components/qr-code-button.tsx:16 | the modal starts closed |
| `QrCodeButton.QRCodeButton.QrCodeUrl` | src/components/qr-code-button.tsx:18 | `qrCodeUrl` is the QR image URL of `url` and its `url` parameter reads back as `url`; it has no `reads` clause, so `showQR` cannot affect it |
| `QrCodeButton.QRCodeButton.View` | src/components/qr-code-button.tsx:33-63 | the modal is rendered exactly when `showQR` holds, and then always with its image, whose source is the QR URL of `url`; that URL is computed without reading any state, so it never depends on `showQR` |
| `QrCodeButton.QRCodeButton.Open` | src/components/qr-code-button.tsx:23 | the open handler sets `showQR` from any state |
| `QrCodeButton.QRCodeButton.ClickBackdrop` | src/components/qr-code-button.tsx:36 | a backdrop click clears `showQR` |
| `QrCodeButton.QRCodeButton.ClickClose` | src/components/qr-code-button.tsx:45 | a close-button click clears `showQR` |
| `QrCodeButton.QRCodeButton.ClickDialog` | src/components/qr-code-button.tsx:40 | a click inside the dialog leaves `showQR` as it was: its handler only stops propagation to the backdrop, and the method has no `modifies` clause |
| `CustomPathForm.CustomUrl` | src/components/custom-path-form.tsx:14 | an empty path gives `baseUrl + "/test"`; a non-empty one gives `baseUrl` followed by the path as typed, `*` included |
| `CustomPathForm.Render` | src/components/custom-path-form.tsx:33-47 | the test link and QR button appear exactly when a path is typed, so they never use the fallback; the QR button receives `baseUrl + path` unencoded; the test link is the redirect href for `baseUrl + path` (the same template as the test button), and its `url` parameter reads back as `baseUrl + path` |
| `CustomPathForm.OnChange` | src/components/custom-path-form.tsx:28 | `onPathChange` receives the input's value unchanged |
| `CustomPathForm.QrEncodesCustomUrlOnce` | src/components/custom-path-form.tsx:43 | the QR image requested by the form's button is the QR endpoint, `?url=` and the custom URL encoded exactly once; its `url` parameter decodes to the custom URL itself, not to its encoding |
| `CustomPathForm.InputShowsTypedValue` | src/components/custom-path-form.tsx:27-28 | `onPathChange` receives the input's value unchanged, so once the parent stores it the input shows what was typed |

## Left out

- Fetching the manifests (`fetch`, `res.json()`, `useEffect`, `console.error`, src/app/page.tsx:35-47): this is network I/O and a JSON parser. The manifests enter as parsed `Option` values, and `baseUrl` as a parameter.
- `JSON.stringify` of the documents in the configuration panels is a foreign serialiser. `Page.ShowConfig` returns the document that would be serialised.
- The manifest's shape is not checked: a missing `applinks` or `paths` throws in the page and is not representable in the model.
- src/components/config-section.tsx is presentational and is not part of this model. So are layout, styling, SVG icons, Next.js image loading, and how the redirect and QR endpoints behave.
- The Android `AssetLink` list is displayed only, so nothing is derived from it beyond its panel.
- The paragraph `{showQR}` at src/components/qr-code-button.tsx:65 renders a boolean, which React displays as nothing, so the model gives it no content.
- The `URIError` that `encodeURIComponent` throws on a lone UTF-16 surrogate is not modelled. A Dafny `char` is a Unicode scalar value, so such a string cannot be formed.
- `UrlQuery.Param` is a reference reading of a query, not the WHATWG `URLSearchParams` algorithm: it neither reads `+` as a space nor decodes parameter names. Encodings never contain `+`, so this does not affect the properties stated.
- DOM event bubbling is not modelled. `ClickDialog` stands for its effect: propagation stops, so the backdrop's handler does not run. The close button's click also stops at the dialog, which leaves the state cleared.
- The `title` and `className` props of the QR button are presentational. The `url` prop is fixed for a component instance. A prop change while the modal is open is not modelled.
- The parent component that owns `customPath` and renders `CustomPathForm`, `TestUrlButton` and `QRCodeButton` is not part of this model. src/app/page.tsx does not render them, so they are modelled as stand-alone components.
