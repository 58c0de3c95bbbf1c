/** The update check against the project's latest GitHub release (updater.py). */
module Updater {
  import opened Text

  /** `APP_VERSION` and `REPO_INFO` of config.py. */
  const AppVersion := "1.1.0"
  const RepoOwner := "GuilllasDefas"
  const RepoName := "YT-Downloader"

  /** One entry of the release's `assets`; `None` stands for a missing key. */
  datatype Asset = Asset(name: Option<string>, browserDownloadUrl: Option<string>)

  /** The fields of the release document the check reads; `None` stands for a missing key. */
  datatype Release = Release(tagName: Option<string>, htmlUrl: Option<string>, body: Option<string>,
                             assets: Option<seq<Asset>>)

  /** The answer to the GitHub request: the request raised (timeout,
      connection error), or a status with a body that is a release object
      (`None` when `response.json()` raises). */
  datatype Reply = Unreachable | Reply(status: int, release: Option<Release>)

  /** `(False, None)`, or `(True, release_info)` with `release_info['download_url']` set. */
  datatype Check = NoUpdate | Update(release: Release, downloadUrl: Option<string>)

  // ---------------------------------------------------------------------------
  // Choosing the download asset
  // ---------------------------------------------------------------------------

  /** The three kinds of asset, in order of preference. */
  datatype Tier = Installer | Executable | Archive

  predicate Fits(tier: Tier, name: string) {
    match tier
    case Installer => EndsWith(name, ".exe") && Contains(Lower(name), "setup")
    case Executable => EndsWith(name, ".exe")
    case Archive => EndsWith(name, ".zip")
  }

  /** Outcome of one loop over the assets: no fit, the URL of the first fit,
      or a KeyError (an asset met before the fit has no name, or the fit has no URL). */
  datatype Scan = NotFound | Found(url: string) | KeyError(key: string)

  /** Asset `j` is the first fit of `tier` at or after `from`, every asset before it having a name. */
  predicate FirstFitAt(assets: seq<Asset>, tier: Tier, from: nat, j: nat) {
    from <= j < |assets| && assets[j].name.Some? && Fits(tier, assets[j].name.value) &&
    forall i | from <= i < j :: assets[i].name.Some? && !Fits(tier, assets[i].name.value)
  }

  /** No asset at or after `from` fits `tier`, and every one of them has a name. */
  predicate NoFit(assets: seq<Asset>, tier: Tier, from: nat) {
    forall i | from <= i < |assets| :: assets[i].name.Some? && !Fits(tier, assets[i].name.value)
  }

  function ScanFrom(assets: seq<Asset>, tier: Tier, from: nat): (r: Scan)
    requires from <= |assets|
    ensures r.NotFound? <==> NoFit(assets, tier, from)
    decreases |assets| - from
  {
    if from == |assets| then NotFound
    else
      var a := assets[from];
      if a.name.None? then KeyError("name")
      else if Fits(tier, a.name.value) then
        if a.browserDownloadUrl.Some? then Found(a.browserDownloadUrl.value) else KeyError("browser_download_url")
      else ScanFrom(assets, tier, from + 1)
  }

  /** The scan finds the URL of the first fitting asset, and only that. */
  lemma {:induction false} ScanFindsFirstFit(assets: seq<Asset>, tier: Tier, from: nat, j: nat)
    requires from <= |assets|
    requires FirstFitAt(assets, tier, from, j)
    ensures ScanFrom(assets, tier, from) ==
              if assets[j].browserDownloadUrl.Some? then Found(assets[j].browserDownloadUrl.value)
              else KeyError("browser_download_url")
    decreases j - from
  {
    if from < j {
      ScanFindsFirstFit(assets, tier, from + 1, j);
    }
  }

  /** A found URL is that of the first fitting asset. */
  lemma {:induction false} FoundIsFirstFit(assets: seq<Asset>, tier: Tier, from: nat)
    requires from <= |assets|
    requires ScanFrom(assets, tier, from).Found?
    ensures exists j: nat :: FirstFitAt(assets, tier, from, j) &&
                        assets[j].browserDownloadUrl == Some(ScanFrom(assets, tier, from).url)
    decreases |assets| - from
  {
    var a := assets[from];
    if !Fits(tier, a.name.value) {
      FoundIsFirstFit(assets, tier, from + 1);
      var j: nat :| FirstFitAt(assets, tier, from + 1, j) &&
               assets[j].browserDownloadUrl == Some(ScanFrom(assets, tier, from + 1).url);
      assert FirstFitAt(assets, tier, from, j);
    } else {
      assert FirstFitAt(assets, tier, from, from);
    }
  }

  /** One of the three `for asset in release_info.get('assets', [])` loops, stopping at the first fit. */
  method FindInTier(assets: seq<Asset>, tier: Tier) returns (r: Scan)
    ensures r == ScanFrom(assets, tier, 0)
  {
    var i := 0;
    while i < |assets|
      invariant 0 <= i <= |assets|
      invariant ScanFrom(assets, tier, 0) == ScanFrom(assets, tier, i)
    {
      var asset := assets[i];
      if asset.name.None? {
        return KeyError("name");
      }
      if Fits(tier, asset.name.value) {
        if asset.browserDownloadUrl.None? {
          return KeyError("browser_download_url");
        }
        return Found(asset.browserDownloadUrl.value);
      }
      i := i + 1;
    }
    return NotFound;
  }

  /** The URL a scan leaves in `download_url`, if any. */
  function UrlOf(s: Scan): Option<string> {
    if s.Found? then Some(s.url) else None
  }

  /** The download URL the check settles on: the first tier whose first fit
      has a non-empty URL, else `html_url`; a KeyError met on the way is an error. */
  function Chosen(assets: seq<Asset>, htmlUrl: Option<string>): Result<Option<string>> {
    var s1 := ScanFrom(assets, Installer, 0);
    if s1.KeyError? then Err(s1.key)
    else if Truthy(UrlOf(s1)) then Ok(UrlOf(s1))
    else
      var s2 := ScanFrom(assets, Executable, 0);
      if s2.KeyError? then Err(s2.key)
      else if Truthy(UrlOf(s2)) then Ok(UrlOf(s2))
      else
        var s3 := ScanFrom(assets, Archive, 0);
        if s3.KeyError? then Err(s3.key)
        else if Truthy(UrlOf(s3)) then Ok(UrlOf(s3))
        else Ok(htmlUrl)
  }

  /** The three loops in a row, then the fallback to `html_url`. */
  method SelectDownloadUrl(assets: seq<Asset>, htmlUrl: Option<string>) returns (r: Result<Option<string>>)
    ensures r == Chosen(assets, htmlUrl)
  {
    var downloadUrl: Option<string> := None;
    var s := FindInTier(assets, Installer);
    if s.KeyError? {
      return Err(s.key);
    }
    if s.Found? {
      downloadUrl := Some(s.url);
    }
    if !Truthy(downloadUrl) {
      s := FindInTier(assets, Executable);
      if s.KeyError? {
        return Err(s.key);
      }
      if s.Found? {
        downloadUrl := Some(s.url);
      }
    }
    if !Truthy(downloadUrl) {
      s := FindInTier(assets, Archive);
      if s.KeyError? {
        return Err(s.key);
      }
      if s.Found? {
        downloadUrl := Some(s.url);
      }
    }
    if Truthy(downloadUrl) {
      return Ok(downloadUrl);
    }
    return Ok(htmlUrl);
  }

  /** An installer (`.exe` with "setup" in any case) wins: the earliest one. */
  lemma InstallerWins(assets: seq<Asset>, htmlUrl: Option<string>, j: nat, url: string)
    requires FirstFitAt(assets, Installer, 0, j) && assets[j].browserDownloadUrl == Some(url) && url != ""
    ensures Chosen(assets, htmlUrl) == Ok(Some(url))
  {
    ScanFindsFirstFit(assets, Installer, 0, j);
  }

  /** With no installer, the earliest `.exe` wins. */
  lemma ExecutableWins(assets: seq<Asset>, htmlUrl: Option<string>, j: nat, url: string)
    requires NoFit(assets, Installer, 0)
    requires FirstFitAt(assets, Executable, 0, j) && assets[j].browserDownloadUrl == Some(url) && url != ""
    ensures Chosen(assets, htmlUrl) == Ok(Some(url))
  {
    ScanFindsFirstFit(assets, Executable, 0, j);
  }

  /** With no `.exe` at all, the earliest `.zip` wins. */
  lemma ArchiveWins(assets: seq<Asset>, htmlUrl: Option<string>, j: nat, url: string)
    requires NoFit(assets, Executable, 0)
    requires FirstFitAt(assets, Archive, 0, j) && assets[j].browserDownloadUrl == Some(url) && url != ""
    ensures Chosen(assets, htmlUrl) == Ok(Some(url))
  {
    assert NoFit(assets, Installer, 0);
    ScanFindsFirstFit(assets, Archive, 0, j);
  }

  /** With neither `.exe` nor `.zip`, the release page is used. */
  lemma FallbackToReleasePage(assets: seq<Asset>, htmlUrl: Option<string>)
    requires NoFit(assets, Executable, 0) && NoFit(assets, Archive, 0)
    ensures Chosen(assets, htmlUrl) == Ok(htmlUrl)
  {
    assert NoFit(assets, Installer, 0);
  }

  /** Whatever URL is chosen from the assets is that of the first fit of some tier. */
  lemma ChosenComesFromFirstFit(assets: seq<Asset>, htmlUrl: Option<string>)
    requires Chosen(assets, htmlUrl).Ok? && Chosen(assets, htmlUrl).value != htmlUrl
    ensures exists tier, j: nat :: FirstFitAt(assets, tier, 0, j) &&
                              assets[j].browserDownloadUrl == Chosen(assets, htmlUrl).value
  {
    if ScanFrom(assets, Installer, 0).Found? && ScanFrom(assets, Installer, 0).url != "" {
      FoundIsFirstFit(assets, Installer, 0);
    } else if ScanFrom(assets, Executable, 0).Found? && ScanFrom(assets, Executable, 0).url != "" {
      FoundIsFirstFit(assets, Executable, 0);
    } else {
      FoundIsFirstFit(assets, Archive, 0);
    }
  }

  // ---------------------------------------------------------------------------
  // Versions
  // ---------------------------------------------------------------------------

  /** `tag.replace('v', '').strip()`: every lower-case `v` goes, wherever it is. */
  function NormalizeTag(tag: string): (r: string)
    ensures 'v' !in r
    ensures r == Strip(RemoveChar(tag, 'v'))
  {
    var s := RemoveChar(tag, 'v');
    var l := LStrip(s);
    assert forall i | 0 <= i < |l| :: l[i] == s[|s| - |l| + i];
    var r := RStrip(l);
    assert forall i | 0 <= i < |r| :: r[i] == l[i];
    r
  }

  /** A tag with a leading `v` and surrounding blanks comes out as the bare version. */
  lemma NormalizeLeadingV(tag: string)
    requires tag == " v1.2.3 "
    ensures NormalizeTag(tag) == "1.2.3"
  {
    var pad, rest := " ", "1.2.3 ";
    assert tag == pad + ['v'] + rest;
    RemoveOneOccurrence(pad, 'v', rest);
    PaddedVersionStripped(pad + rest);
  }

  /** Removing the one `c` between two texts without it joins the two texts. */
  lemma RemoveOneOccurrence(before: string, c: char, after: string)
    requires c !in before && c !in after
    ensures RemoveChar(before + [c] + after, c) == before + after
  {
    RemoveCharAppend(before + [c], after, c);
    RemoveCharAppend(before, [c], c);
    RemoveCharOne(c, c);
  }

  lemma PaddedVersionStripped(s: string)
    requires s == " 1.2.3 "
    ensures Strip(s) == "1.2.3"
  {
    var l := LStrip(s);
    assert l == "1.2.3 " by {
      assert SpaceRunEnd(s, 1) == 1;
    }
    assert RStrip(l) == "1.2.3" by {
      assert SpaceRunStart(l, 5) == 5;
    }
  }

  /** Every `v` goes, not only a leading one: `1.0-dev` loses the `v` of `dev`. */
  lemma NormalizeInnerV(tag: string)
    requires tag == "1.0-dev"
    ensures NormalizeTag(tag) == "1.0-de"
  {
    var kept := "1.0-de";
    assert tag == kept + ['v'] + [];
    RemoveOneOccurrence(kept, 'v', []);
    assert kept + [] == kept;
    StripKeeps(kept);
  }

  /** The test release of test mode. */
  function TestRelease(owner: string, name: string): Release {
    var latest := "https://github.com/" + owner + "/" + name + "/releases/latest";
    Release(Some("v9.9.9"), Some(latest), Some("Esta é uma versão de teste simulada para verificar a funcionalidade do updater."), None)
  }

  /** The verdict of a real check. `newer(a, b)` stands for
      `version.parse(a) > version.parse(b)`, `None` when parsing raises. */
  function Verdict(reply: Reply, current: string, newer: (string, string) -> Option<bool>): Check {
    if reply.Unreachable? || reply.status != 200 || reply.release.None? then NoUpdate
    else
      var release := reply.release.value;
      if release.tagName.None? then NoUpdate
      else
        var latest := NormalizeTag(release.tagName.value);
        var installed := Strip(current);
        match Chosen(release.assets.GetOr([]), release.htmlUrl)
        case Err(_) => NoUpdate
        case Ok(url) => if IsNewer(newer(latest, installed), latest, installed) then Update(release, url) else NoUpdate
  }

  /** The comparison: `version.parse` when both versions parse, else plain inequality of the strings. */
  function IsNewer(parsed: Option<bool>, latest: string, installed: string): bool {
    match parsed
    case Some(isNewer) => isNewer
    case None => latest != installed
  }

  /** A failed request reports no update, and an update carries the release the server sent. */
  lemma VerdictNeedsReply(reply: Reply, current: string, newer: (string, string) -> Option<bool>)
    ensures reply.Unreachable? || reply.status != 200 ==> Verdict(reply, current, newer) == NoUpdate
    ensures Verdict(reply, current, newer).Update? ==>
              reply.Reply? && reply.status == 200 && reply.release.Some? &&
              Verdict(reply, current, newer).release == reply.release.value
  {
  }

  /** Each exception after a 200 reply (no release in the body, no
      `tag_name`, a KeyError while choosing the asset) also reports no update. */
  lemma VerdictAfterFailure(reply: Reply, current: string, newer: (string, string) -> Option<bool>)
    requires reply.Reply? && reply.status == 200
    requires reply.release.None? || reply.release.value.tagName.None? ||
             Chosen(reply.release.value.assets.GetOr([]), reply.release.value.htmlUrl).Err?
    ensures Verdict(reply, current, newer) == NoUpdate
  {
  }

  /** When both versions parse, an update is reported exactly when the
      latest is newer, and it carries the chosen download URL. */
  lemma ParsedComparison(reply: Reply, current: string, newer: (string, string) -> Option<bool>, isNewer: bool)
    requires reply.Reply? && reply.status == 200 && reply.release.Some?
    requires reply.release.value.tagName.Some?
    requires Chosen(reply.release.value.assets.GetOr([]), reply.release.value.htmlUrl).Ok?
    requires newer(NormalizeTag(reply.release.value.tagName.value), Strip(current)) == Some(isNewer)
    ensures Verdict(reply, current, newer).Update? <==> isNewer
    ensures Verdict(reply, current, newer).Update? ==>
              Verdict(reply, current, newer).downloadUrl ==
                Chosen(reply.release.value.assets.GetOr([]), reply.release.value.htmlUrl).value
  {
  }

  /** When the versions cannot be parsed, an update is reported exactly when
      the normalised strings differ, and it carries the chosen download URL. */
  lemma FallbackComparison(reply: Reply, current: string, newer: (string, string) -> Option<bool>)
    requires reply.Reply? && reply.status == 200 && reply.release.Some?
    requires reply.release.value.tagName.Some?
    requires Chosen(reply.release.value.assets.GetOr([]), reply.release.value.htmlUrl).Ok?
    requires newer(NormalizeTag(reply.release.value.tagName.value), Strip(current)).None?
    ensures Verdict(reply, current, newer).Update? <==>
              NormalizeTag(reply.release.value.tagName.value) != Strip(current)
    ensures Verdict(reply, current, newer).Update? ==>
              Verdict(reply, current, newer).downloadUrl ==
                Chosen(reply.release.value.assets.GetOr([]), reply.release.value.htmlUrl).value
  {
  }

  class AutoUpdater {
    const repoOwner: string
    const repoName: string
    const debug: bool
    const testMode: bool
    const currentVersion: string

    constructor (testMode: bool := false)
      ensures this.testMode == testMode && debug
      ensures repoOwner == RepoOwner && repoName == RepoName && currentVersion == AppVersion
    {
      repoOwner := RepoOwner;
      repoName := RepoName;
      debug := true;
      this.testMode := testMode;
      currentVersion := AppVersion;
    }

    /** `verificar_atualizacao()`. In test mode the reply is never looked at. */
    method CheckForUpdate(reply: Reply, newer: (string, string) -> Option<bool>) returns (r: Check)
      ensures testMode ==> r.Update? && r.release == TestRelease(repoOwner, repoName)
      ensures testMode ==> r.downloadUrl == r.release.htmlUrl
      ensures !testMode ==> r == Verdict(reply, currentVersion, newer)
    {
      if testMode {
        var release := TestRelease(repoOwner, repoName);
        return Update(release, release.htmlUrl);
      }
      if reply.Unreachable? || reply.status != 200 || reply.release.None? {
        return NoUpdate;
      }
      var release := reply.release.value;
      if release.tagName.None? {
        return NoUpdate;
      }
      var latest := NormalizeTag(release.tagName.value);
      var installed := Strip(currentVersion);
      var url := SelectDownloadUrl(release.assets.GetOr([]), release.htmlUrl);
      if url.Err? {
        return NoUpdate;
      }
      var isNewer := IsNewer(newer(latest, installed), latest, installed);
      r := if isNewer then Update(release, url.value) else NoUpdate;
    }

    /** `verificar_e_notificar()`: true exactly when an update was found (the dialog is not modelled). */
    method CheckAndNotify(reply: Reply, newer: (string, string) -> Option<bool>) returns (found: bool)
      ensures testMode ==> found
      ensures !testMode ==> found == Verdict(reply, currentVersion, newer).Update?
    {
      var r := CheckForUpdate(reply, newer);
      return r.Update?;
    }
  }
}
