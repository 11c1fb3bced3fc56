/** utils/assets.ts: the URL path of a static asset, which depends on whether the site is served
    from GitHub Pages. The hostname is a parameter. */
module Assets {
  import opened Strings

  const GitHubHost: string := "github.io"
  const GitHubBase: string := "/social_media-new/"

  /** `cleanPath`: one leading '/' removed, if there is one. */
  function CleanPath(path: string): (r: string)
    ensures "/" <= path ==> r == path[1..]
    ensures !("/" <= path) ==> r == path
  {
    if "/" <= path then path[1..] else path
  }

  /** Only one '/' is removed: a path starting with "//" keeps one. */
  lemma CleanPathStripsOnce(rest: string)
    ensures CleanPath("//" + rest) == "/" + rest
  {
    assert ("//" + rest)[1..] == "/" + rest;
  }

  /** getAssetPath: the clean path under "/social_media-new/" on a github.io host and under "/"
      anywhere else; either way an absolute path. */
  function GetAssetPath(hostname: string, path: string): (r: string)
    ensures |r| >= 1 && r[0] == '/'
    ensures Contains(hostname, GitHubHost) ==> r == GitHubBase + CleanPath(path)
    ensures !Contains(hostname, GitHubHost) ==> r == "/" + CleanPath(path)
  {
    var cleanPath := CleanPath(path);
    if Contains(hostname, GitHubHost) then GitHubBase + cleanPath else "/" + cleanPath
  }

  /** "p" and "/p" name the same asset. */
  lemma LeadingSlashIrrelevant(hostname: string, p: string)
    requires !("/" <= p)
    ensures GetAssetPath(hostname, "/" + p) == GetAssetPath(hostname, p)
  {
    assert ("/" + p)[1..] == p;
  }

  /** Off GitHub Pages an asset path is its own asset path. */
  lemma IdempotentOffGitHub(hostname: string, path: string)
    requires !Contains(hostname, GitHubHost)
    ensures GetAssetPath(hostname, GetAssetPath(hostname, path)) == GetAssetPath(hostname, path)
  {
    var r := GetAssetPath(hostname, path);
    assert r == "/" + CleanPath(path);
    assert ("/" + CleanPath(path))[1..] == CleanPath(path);
  }

  /** On GitHub Pages applying it twice nests the base path. */
  lemma NotIdempotentOnGitHub(hostname: string, path: string)
    requires Contains(hostname, GitHubHost)
    ensures GetAssetPath(hostname, GetAssetPath(hostname, path)) == GitHubBase + GitHubBase[1..] + CleanPath(path)
  {
    var c := CleanPath(path);
    var r := GitHubBase + c;
    assert GetAssetPath(hostname, path) == r;
    assert r[1..] == GitHubBase[1..] + c;
    assert CleanPath(r) == GitHubBase[1..] + c;
  }
}
