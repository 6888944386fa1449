/**
 * The string logic of the inspector page: the list of app-transition test
 * links derived from the Apple manifest, and the two configuration panels.
 */
module Page {
  import opened Wrappers
  import opened Strings
  import opened Sequences
  import opened Manifests

  const WILDCARD_PATH: string := "*"
  const TEST_PATH: string := "/test"
  const APPLE_WELL_KNOWN_PATH: string := "/.well-known/apple-app-site-association"
  const ANDROID_WELL_KNOWN_PATH: string := "/.well-known/assetlinks.json"
  const LOADING_TEXT: string := "Loading..."

  /** The path a test link opens: the wildcard becomes `/test`, any other path stays. */
  function EffectivePath(path: string): (r: string)
    ensures path == WILDCARD_PATH ==> r == TEST_PATH
    ensures path != WILDCARD_PATH ==> r == path
    ensures r != WILDCARD_PATH
  {
    if path == WILDCARD_PATH then TEST_PATH else path
  }

  /** The badge of an app: `appID.split('.').pop()`, the text after its last dot. */
  function Badge(appID: string): (b: string)
    ensures Free(b, '.')
    ensures |b| <= |appID| && appID[|appID| - |b|..] == b
    ensures Free(appID, '.') <==> b == appID
    ensures !Free(appID, '.') ==> |b| < |appID| && appID[|appID| - |b| - 1] == '.'
  {
    var parts := Split(appID, '.');
    JoinEndsWithLast(parts, '.');
    parts[|parts| - 1]
  }

  /** The React key of the link for path `pathIndex` of detail `index`. */
  function Key(index: nat, pathIndex: nat): (k: string)
    ensures var d := |DecimalString(index)|;
      && d < |k| && k[d] == '-'
      && k[..d] == DecimalString(index) && k[d + 1..] == DecimalString(pathIndex)
      && AllDigits(k[..d]) && AllDigits(k[d + 1..])
  {
    DecimalString(index) + "-" + DecimalString(pathIndex)
  }

  /** Two keys are equal only for the same pair of indices. */
  lemma KeyInjective(i: nat, j: nat, i': nat, j': nat)
    requires Key(i, j) == Key(i', j')
    ensures i == i' && j == j'
  {
    var a, b, a', b' := DecimalString(i), DecimalString(j), DecimalString(i'), DecimalString(j');
    var k := Key(i, j);
    assert k == a + "-" + b && k == a' + "-" + b';
    assert k[..|a|] == a && k[..|a'|] == a';
    IndexOfAt(k, '-', |a|);
    IndexOfAt(k, '-', |a'|);
    assert a == k[..|a|] == a';
    assert b == k[|a| + 1..] == b';
    DecimalInjective(i, i');
    DecimalInjective(j, j');
  }

  /** One rendered test link: its key, its href, its visible text and its badge. */
  datatype TestLink = TestLink(key: string, href: string, text: string, badge: string)

  /** The link for path `pathIndex` of detail `index`. */
  function MakeLink(baseUrl: string, index: nat, pathIndex: nat, appID: string, path: string): (link: TestLink)
    ensures link.key == Key(index, pathIndex)
    ensures baseUrl <= link.href && link.href[|baseUrl|..] == EffectivePath(path)
    ensures link.text == link.href
    ensures link.badge == Badge(appID)
  {
    var href := baseUrl + EffectivePath(path);
    TestLink(Key(index, pathIndex), href, href, Badge(appID))
  }

  /** The inner `paths.map`: one link per path of the detail, in order. */
  function DetailLinks(baseUrl: string, index: nat, detail: AppLinkDetail): (links: seq<TestLink>)
    ensures |links| == |detail.paths|
    ensures forall j :: 0 <= j < |links| ==>
      links[j] == MakeLink(baseUrl, index, j, detail.appID, detail.paths[j])
  {
    seq(|detail.paths|, j requires 0 <= j < |detail.paths| =>
      MakeLink(baseUrl, index, j, detail.appID, detail.paths[j]))
  }

  /** The outer `details.map`: one group of links per detail, in order. */
  function LinkGroups(baseUrl: string, details: seq<AppLinkDetail>): (groups: seq<seq<TestLink>>)
    ensures |groups| == |details|
    ensures forall i :: 0 <= i < |groups| ==> groups[i] == DetailLinks(baseUrl, i, details[i])
  {
    seq(|details|, i requires 0 <= i < |details| => DetailLinks(baseUrl, i, details[i]))
  }

  /** The number of paths of all the details together. */
  function PathCount(details: seq<AppLinkDetail>): nat {
    if details == [] then 0
    else PathCount(details[..|details| - 1]) + |details[|details| - 1].paths|
  }

  /** The test links the page renders: none while the manifest is not loaded. */
  function TestLinks(baseUrl: string, config: Option<AppleAppSiteAssociation>): (links: seq<TestLink>)
    ensures config.None? ==> links == []
    ensures config.Some? ==> |links| == PathCount(config.value.applinks.details)
  {
    match config
    case None => []
    case Some(m) =>
      var groups := LinkGroups(baseUrl, m.applinks.details);
      FlattenLength(groups);
      OffsetIsPathCount(baseUrl, m.applinks.details, |groups|);
      assert m.applinks.details[..|groups|] == m.applinks.details;
      Flatten(groups)
  }

  /** The links of the first `k` details are as many as their paths. */
  lemma {:induction false} OffsetIsPathCount(baseUrl: string, details: seq<AppLinkDetail>, k: nat)
    requires k <= |details|
    ensures Offset(LinkGroups(baseUrl, details), k) == PathCount(details[..k])
  {
    if k > 0 {
      OffsetIsPathCount(baseUrl, details, k - 1);
      assert details[..k][..k - 1] == details[..k - 1];
    }
  }

  /**
   * The link for path `j` of detail `i` comes right after the links of the
   * details before `i` and the paths of detail `i` before `j`: detail order,
   * then path order.
   */
  lemma TestLinkAt(baseUrl: string, m: AppleAppSiteAssociation, i: nat, j: nat)
    requires i < |m.applinks.details| && j < |m.applinks.details[i].paths|
    ensures var links, d := TestLinks(baseUrl, Some(m)), m.applinks.details[i];
      PathCount(m.applinks.details[..i]) + j < |links| &&
      links[PathCount(m.applinks.details[..i]) + j] == MakeLink(baseUrl, i, j, d.appID, d.paths[j])
  {
    var groups := LinkGroups(baseUrl, m.applinks.details);
    FlattenAt(groups, i, j);
    OffsetIsPathCount(baseUrl, m.applinks.details, i);
  }

  /** Every link is the one for some (detail, path) pair. */
  lemma LocateTestLink(baseUrl: string, m: AppleAppSiteAssociation, k: nat) returns (i: nat, j: nat)
    requires k < |TestLinks(baseUrl, Some(m))|
    ensures i < |m.applinks.details| && j < |m.applinks.details[i].paths|
    ensures k == PathCount(m.applinks.details[..i]) + j
    ensures var d := m.applinks.details[i];
      TestLinks(baseUrl, Some(m))[k] == MakeLink(baseUrl, i, j, d.appID, d.paths[j])
  {
    var groups := LinkGroups(baseUrl, m.applinks.details);
    assert TestLinks(baseUrl, Some(m)) == Flatten(groups);
    i, j := Locate(groups, k);
    OffsetIsPathCount(baseUrl, m.applinks.details, i);
    TestLinkAt(baseUrl, m, i, j);
  }

  /**
   * Every link opens `baseUrl` followed by its effective path, shows its href as
   * its text, carries the badge of its app, and never opens the wildcard.
   */
  lemma TestLinkShape(baseUrl: string, config: Option<AppleAppSiteAssociation>, k: nat)
    requires k < |TestLinks(baseUrl, config)|
    ensures var link := TestLinks(baseUrl, config)[k];
      && baseUrl <= link.href
      && link.text == link.href
      && link.href[|baseUrl|..] != WILDCARD_PATH
      && Free(link.badge, '.')
  {
    var i, j := LocateTestLink(baseUrl, config.value, k);
  }

  /** No two links share a React key. */
  lemma TestLinkKeysDistinct(baseUrl: string, config: Option<AppleAppSiteAssociation>, k: nat, k': nat)
    requires k < k' < |TestLinks(baseUrl, config)|
    ensures TestLinks(baseUrl, config)[k].key != TestLinks(baseUrl, config)[k'].key
  {
    var m := config.value;
    var i, j := LocateTestLink(baseUrl, m, k);
    var i', j' := LocateTestLink(baseUrl, m, k');
    OffsetIsPathCount(baseUrl, m.applinks.details, i);
    OffsetIsPathCount(baseUrl, m.applinks.details, i');
    if TestLinks(baseUrl, config)[k].key == TestLinks(baseUrl, config)[k'].key {
      KeyInjective(i, j, i', j');
      assert false;
    }
  }

  /** The badges of `T.A` and `T.B`. */
  lemma ExampleBadges()
    ensures Badge("T.A") == "A" && Badge("T.B") == "B"
  {
    assert "T.A"[1] == '.' && "T.B"[1] == '.';
    var a, b := Badge("T.A"), Badge("T.B");
    assert |a| == 1 && |b| == 1;
  }

  /** A manifest with two details, of two paths and of one path, gives three links in order. */
  lemma ExpansionOfTwoDetails(baseUrl: string, m: AppleAppSiteAssociation)
    requires |m.applinks.details| == 2
    requires |m.applinks.details[0].paths| == 2 && |m.applinks.details[1].paths| == 1
    ensures var d0, d1 := m.applinks.details[0], m.applinks.details[1];
      TestLinks(baseUrl, Some(m)) == [
        MakeLink(baseUrl, 0, 0, d0.appID, d0.paths[0]),
        MakeLink(baseUrl, 0, 1, d0.appID, d0.paths[1]),
        MakeLink(baseUrl, 1, 0, d1.appID, d1.paths[0])]
  {
    var details := m.applinks.details;
    var d0, d1 := details[0], details[1];
    var links := TestLinks(baseUrl, Some(m));
    assert details[..0] == [] && details[..1] == [details[0]] && details[..2] == details;
    assert PathCount(details[..1]) == 2;
    assert |links| == 3;
    TestLinkAt(baseUrl, m, 0, 0);
    TestLinkAt(baseUrl, m, 0, 1);
    TestLinkAt(baseUrl, m, 1, 0);
    assert links[0] == MakeLink(baseUrl, 0, 0, d0.appID, d0.paths[0]);
    assert links[1] == MakeLink(baseUrl, 0, 1, d0.appID, d0.paths[1]);
    assert links[2] == MakeLink(baseUrl, 1, 0, d1.appID, d1.paths[0]);
  }

  /** Each example link as the page renders it. */
  lemma ExampleLinks(baseUrl: string)
    ensures MakeLink(baseUrl, 0, 0, "T.A", "/x") == TestLink("0-0", baseUrl + "/x", baseUrl + "/x", "A")
    ensures MakeLink(baseUrl, 0, 1, "T.A", "/y") == TestLink("0-1", baseUrl + "/y", baseUrl + "/y", "A")
    ensures MakeLink(baseUrl, 1, 0, "T.B", "/z") == TestLink("1-0", baseUrl + "/z", baseUrl + "/z", "B")
  {
    ExampleBadges();
    assert Key(0, 0) == "0-0" && Key(0, 1) == "0-1" && Key(1, 0) == "1-0";
  }

  /**
   * Two details, `T.A` with paths `/x` and `/y` and `T.B` with path `/z`, give
   * exactly three links in that order.
   */
  lemma ExpansionExample(baseUrl: string)
    ensures var m := AppleAppSiteAssociation(
              AppLinks([], [AppLinkDetail("T.A", ["/x", "/y"]), AppLinkDetail("T.B", ["/z"])]), None, None);
      TestLinks(baseUrl, Some(m)) == [
        TestLink("0-0", baseUrl + "/x", baseUrl + "/x", "A"),
        TestLink("0-1", baseUrl + "/y", baseUrl + "/y", "A"),
        TestLink("1-0", baseUrl + "/z", baseUrl + "/z", "B")]
  {
    var m := AppleAppSiteAssociation(
      AppLinks([], [AppLinkDetail("T.A", ["/x", "/y"]), AppLinkDetail("T.B", ["/z"])]), None, None);
    ExpansionOfTwoDetails(baseUrl, m);
    ExampleLinks(baseUrl);
  }

  /** What a configuration panel shows: a placeholder until the document is loaded. */
  datatype ConfigDisplay<T> = Placeholder(text: string) | Json(document: T)

  function ShowConfig<T>(config: Option<T>): (d: ConfigDisplay<T>)
    ensures d.Placeholder? <==> config.None?
    ensures d.Placeholder? ==> d.text == LOADING_TEXT
    ensures d.Json? ==> d.document == config.value
  {
    match config
    case None => Placeholder(LOADING_TEXT)
    case Some(doc) => Json(doc)
  }

  /** The configuration URL shown in the iOS panel. */
  function AppleConfigUrl(baseUrl: string): (u: string)
    ensures baseUrl <= u && u[|baseUrl|..] == APPLE_WELL_KNOWN_PATH
  {
    baseUrl + APPLE_WELL_KNOWN_PATH
  }

  /** The configuration URL shown in the Android panel. */
  function AndroidConfigUrl(baseUrl: string): (u: string)
    ensures baseUrl <= u && u[|baseUrl|..] == ANDROID_WELL_KNOWN_PATH
  {
    baseUrl + ANDROID_WELL_KNOWN_PATH
  }
}
