/**
 * The two well-known manifests as the page holds them once they are parsed:
 * the Apple app-site-association document and the Android asset-links list.
 * Field names follow the JSON documents.
 */
module Manifests {
  import opened Wrappers

  /** One `applinks.details` entry: an app identifier `TEAMID.BUNDLEID` and its paths. */
  datatype AppLinkDetail = AppLinkDetail(appID: string, paths: seq<string>)

  datatype AppLinks = AppLinks(apps: seq<string>, details: seq<AppLinkDetail>)

  /** The `activitycontinuation` and `webcredentials` sections. */
  datatype AppList = AppList(apps: seq<string>)

  datatype AppleAppSiteAssociation = AppleAppSiteAssociation(
    applinks: AppLinks,
    activitycontinuation: Option<AppList>,
    webcredentials: Option<AppList>)

  datatype AssetLinkTarget = AssetLinkTarget(
    namespace: string,
    package_name: string,
    sha256_cert_fingerprints: seq<string>)

  /** One statement of `assetlinks.json`; displayed only. */
  datatype AssetLink = AssetLink(relation: seq<string>, target: AssetLinkTarget)
}
