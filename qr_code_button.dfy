/**
 * The QR-code button: a button that opens a modal showing a QR image for
 * `url`, fetched from the QR-image endpoint. The modal's visibility is the
 * component's one piece of state.
 */
module QrCodeButton {
  import opened Wrappers
  import opened Strings
  import opened UriComponent
  import opened UrlQuery
  import opened Constants

  /**
   * The image request for `url`: the QR endpoint with `url` as its
   * percent-encoded `url` parameter.
   */
  function QrImageUrl(url: string): (r: string)
    ensures r == QRCODE_API_URL + "?url=" + Encode(url)
    ensures IsEncoded(r[|QRCODE_API_URL + "?url="|..])
    ensures Param(r, "url") == Some(url)
    ensures r != ""
  {
    var r := QRCODE_API_URL + "?url=" + Encode(url);
    EndpointsHaveNoQuery();
    ParamOfBuiltUrl(QRCODE_API_URL, url);
    EncodeIsEncoded(url);
    assert r[|QRCODE_API_URL + "?url="|..] == Encode(url);
    r
  }

  /** Distinct targets give distinct image requests. */
  lemma QrImageUrlInjective(u: string, v: string)
    requires QrImageUrl(u) == QrImageUrl(v)
    ensures u == v
  {
    assert Param(QrImageUrl(u), "url") == Some(u);
  }

  /** The events the modal's handlers respond to. */
  datatype ModalEvent =
    | OpenClick      // the QR button
    | BackdropClick  // the dimmed backdrop around the dialog
    | CloseClick     // the close button in the dialog's header
    | DialogClick    // anywhere inside the dialog; propagation to the backdrop is stopped

  /** The visibility after one event. */
  function Step(showQR: bool, e: ModalEvent): (next: bool)
    ensures e == OpenClick ==> next
    ensures e == BackdropClick || e == CloseClick ==> !next
    ensures e == DialogClick ==> next == showQR
  {
    match e
    case OpenClick => true
    case BackdropClick => false
    case CloseClick => false
    case DialogClick => showQR
  }

  /** The visibility after a sequence of events, applied first to last. */
  function Run(showQR: bool, events: seq<ModalEvent>): bool {
    if events == [] then showQR
    else Step(Run(showQR, events[..|events| - 1]), events[|events| - 1])
  }

  /** The event of `events` that last decided visibility, if any: clicks inside the dialog decide nothing. */
  function LastDecision(events: seq<ModalEvent>): Option<bool> {
    if events == [] then None
    else
      var e := events[|events| - 1];
      if e == DialogClick then LastDecision(events[..|events| - 1]) else Some(e == OpenClick)
  }

  /**
   * After any sequence of events the modal is open exactly when the last event
   * other than a click inside the dialog was a click on the QR button; with no
   * such event the visibility is what it was.
   */
  lemma {:induction false} RunIsLastDecision(showQR: bool, events: seq<ModalEvent>)
    ensures Run(showQR, events) == LastDecision(events).GetOr(showQR)
  {
    if events != [] {
      RunIsLastDecision(showQR, events[..|events| - 1]);
    }
  }

  /** Opening again changes nothing. */
  lemma OpenIdempotent(events: seq<ModalEvent>, showQR: bool)
    ensures Run(showQR, events + [OpenClick, OpenClick]) == Run(showQR, events + [OpenClick])
  {
    var once, twice := events + [OpenClick], events + [OpenClick, OpenClick];
    assert twice[..|twice| - 1] == once;
  }

  /** What the modal shows: nothing, or the dialog with its image when there is an image URL. */
  datatype ModalView = Hidden | Shown(image: Option<string>)

  class QRCodeButton {
    /** The `url` prop. */
    const url: string
    /** The `showQR` state. */
    var showQR: bool

    /** A freshly mounted button: its modal starts closed. */
    constructor(url: string)
      ensures this.url == url && !showQR
    {
      this.url := url;
      showQR := false;
    }

    /** `qrCodeUrl`: it reads no state, so the modal's visibility cannot affect it. */
    function QrCodeUrl(): (r: string)
      ensures r == QrImageUrl(url)
      ensures Param(r, "url") == Some(url)
    {
      QrImageUrl(url)
    }

    /** The modal; the image is rendered whenever the modal is, since the image URL is never empty. */
    function View(): (v: ModalView)
      reads this
      ensures v.Shown? <==> showQR
      ensures v.Shown? ==> v.image == Some(QrImageUrl(url))
    {
      var qrCodeUrl := QrCodeUrl();
      if showQR then Shown(if qrCodeUrl != "" then Some(qrCodeUrl) else None) else Hidden
    }

    /** The QR button's click handler. */
    method Open()
      modifies this
      ensures showQR == Step(old(showQR), OpenClick)
      ensures showQR
    {
      showQR := true;
    }

    /** The backdrop's click handler. */
    method ClickBackdrop()
      modifies this
      ensures showQR == Step(old(showQR), BackdropClick)
      ensures !showQR
    {
      showQR := false;
    }

    /** The close button's click handler. */
    method ClickClose()
      modifies this
      ensures showQR == Step(old(showQR), CloseClick)
      ensures !showQR
    {
      showQR := false;
    }

    /**
     * A click inside the dialog: its handler only stops propagation, so the
     * backdrop's never runs. Having no `modifies` clause, it cannot change the state.
     */
    method ClickDialog()
      ensures showQR == old(showQR) == Step(old(showQR), DialogClick)
    {
    }
  }
}
