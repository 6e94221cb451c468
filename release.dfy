/** Selection of the language-server asset from the latest GitHub release (`getLatestRelease`).
    The HTTP request and `JSON.parse` are not modelled: the request arrives as its outcome,
    and a successful response carries its status and, when the body parsed, the release. */
module Release {
  import opened Wrappers
  import opened Platform

  /** One entry of the release's `assets` array. */
  datatype Asset = Asset(name: string, browserDownloadUrl: string)

  /** The fields of the release JSON that are read: `tag_name` and `assets`. */
  datatype ReleaseBody = ReleaseBody(tagName: string, assets: seq<Asset>)

  /** An HTTP response; `body` is None when its text is not a release object. */
  datatype Response = Response(status: int, body: Option<ReleaseBody>)

  /** What `getLatestRelease` resolves with. */
  datatype ReleaseInfo = ReleaseInfo(tagName: string, url: string)

  datatype ReleaseError =
    | RequestFailed(reason: string)        // the request itself was rejected
    | BadStatus(status: int)               // "Received an error code from Github"
    | MalformedBody                        // the body is not a release object
    | TargetUnsupported(cause: PlatformError)
    | AssetMissing(exeName: string)        // "No <exeName> in the latest release"

  const OkStatus: int := 200

  /** `Array.prototype.find` by name: the index of the first asset called `name`. */
  function FindAsset(assets: seq<Asset>, name: string): (r: Option<nat>)
    ensures r.Some? ==> r.value < |assets| && assets[r.value].name == name
    ensures r.Some? ==> forall j :: 0 <= j < r.value ==> assets[j].name != name
    ensures r.None? <==> forall j :: 0 <= j < |assets| ==> assets[j].name != name
  {
    if assets == [] then None
    else if assets[0].name == name then Some(0)
    else match FindAsset(assets[1..], name)
      case None => None
      case Some(k) => Some(k + 1)
  }

  /** `getLatestRelease`, from the outcome of the request onwards. The checks come in the
      source's order: the request, the status, the body, the asset name, the asset. */
  function LatestRelease(response: Result<Response, string>, platform: string, arch: string)
    : (r: Result<ReleaseInfo, ReleaseError>)
    ensures response.Err? ==> r == Err(RequestFailed(response.error))
    ensures response.Ok? && response.value.status != OkStatus ==> r == Err(BadStatus(response.value.status))
    ensures r.Ok? <==>
              && response.Ok? && response.value.status == OkStatus && response.value.body.Some?
              && IsSupported(platform, arch)
              && exists j :: 0 <= j < |response.value.body.value.assets|
                   && response.value.body.value.assets[j].name == ExeName(platform, arch).value
    ensures r.Ok? ==>
              var body := response.value.body.value;
              exists j :: 0 <= j < |body.assets|
                && body.assets[j].name == ExeName(platform, arch).value
                && (forall i :: 0 <= i < j ==> body.assets[i].name != ExeName(platform, arch).value)
                && r.value == ReleaseInfo(body.tagName, body.assets[j].browserDownloadUrl)
  {
    match response
    case Err(reason) => Err(RequestFailed(reason))
    case Ok(resp) =>
      if resp.status != OkStatus then Err(BadStatus(resp.status))
      else match resp.body
        case None => Err(MalformedBody)
        case Some(body) =>
          match ExeName(platform, arch)
          case Err(e) => Err(TargetUnsupported(e))
          case Ok(exeName) =>
            match FindAsset(body.assets, exeName)
            case None => Err(AssetMissing(exeName))
            case Some(j) => Ok(ReleaseInfo(body.tagName, body.assets[j].browserDownloadUrl))
  }

  /** Only the first asset of a given name is ever used: assets after it do not change the result. */
  lemma {:induction false} LaterAssetsIgnored(body: ReleaseBody, extra: seq<Asset>, platform: string, arch: string)
    requires IsSupported(platform, arch)
    requires exists j :: 0 <= j < |body.assets| && body.assets[j].name == ExeName(platform, arch).value
    ensures LatestRelease(Ok(Response(OkStatus, Some(body))), platform, arch)
         == LatestRelease(Ok(Response(OkStatus, Some(body.(assets := body.assets + extra)))), platform, arch)
  {
    FindAssetPrefix(body.assets, extra, ExeName(platform, arch).value);
  }

  lemma {:induction false} FindAssetPrefix(assets: seq<Asset>, extra: seq<Asset>, name: string)
    requires exists j :: 0 <= j < |assets| && assets[j].name == name
    ensures FindAsset(assets + extra, name) == FindAsset(assets, name)
  {
    if assets[0].name != name {
      assert (assets + extra)[1..] == assets[1..] + extra;
      FindAssetPrefix(assets[1..], extra, name);
    }
  }
}
