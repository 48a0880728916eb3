/**
 * Resolution of stored image paths to loadable URLs (`getFullImageUrl`) and the
 * derivation of the backend's root URL (`API_ROOT_URL`) from `VITE_API_URL`.
 *
 * `getFullImageUrl` exists in four copies. Three of them (AdminDashboardPage,
 * AdminMenuItemCard, AdminAdvertisementPage) are `FullImageUrl`; the copy in
 * AdminMenuFormPage treats every `/`-prefixed path as host-relative and is
 * `FullImageUrlSlash`. Absent paths are "" (the code only tests `!imagePath`).
 *
 * `ApiRootUrl` is `API_ROOT_URL` as the code computes it (the first "/api" is
 * removed, wherever it is), and the pages use it. `ApiRootUrlStripped` removes the
 * trailing "/api" the variable ends with, which is what the pages evidently mean.
 */
module ImageUrl {
  import opened Optional
  import opened Text

  const API_SUFFIX := "/api"
  const API_SUFFIX_SLASH := "/api/"
  const UPLOADS := "/uploads/"

  /**
   * `API_ROOT_URL`: `VITE_API_URL` with its first "/api" removed, or the page's
   * fallback when the variable is unset (an empty value counts as unset).
   */
  function ApiRootUrl(viteApiUrl: string, fallback: string): string {
    if viteApiUrl != "" then ReplaceFirst(viteApiUrl, API_SUFFIX, "") else fallback
  }

  /** The three cases of `ApiRootUrl`. */
  lemma ApiRootUrlCases(viteApiUrl: string, fallback: string)
    ensures viteApiUrl == "" ==> ApiRootUrl(viteApiUrl, fallback) == fallback
    ensures viteApiUrl != "" && (forall j: nat :: !OccursAt(viteApiUrl, API_SUFFIX, j)) ==>
      ApiRootUrl(viteApiUrl, fallback) == viteApiUrl
    ensures forall i: nat :: (viteApiUrl != "" && OccursAt(viteApiUrl, API_SUFFIX, i)
        && (forall j: nat :: j < i ==> !OccursAt(viteApiUrl, API_SUFFIX, j))) ==>
      ApiRootUrl(viteApiUrl, fallback) == viteApiUrl[..i] + viteApiUrl[i + 4..]
  {
    forall i: nat | viteApiUrl != "" && OccursAt(viteApiUrl, API_SUFFIX, i)
        && (forall j: nat :: j < i ==> !OccursAt(viteApiUrl, API_SUFFIX, j))
      ensures ApiRootUrl(viteApiUrl, fallback) == viteApiUrl[..i] + viteApiUrl[i + 4..]
    {
      ReplaceFirstPresent(viteApiUrl, API_SUFFIX, "", i);
      assert viteApiUrl[..i] + "" == viteApiUrl[..i];
    }
  }

  /**
   * A set value is taken as the root unchanged exactly when it contains no "/api";
   * otherwise the root is four characters shorter.
   */
  lemma ApiRootUrlUnchangedIff(viteApiUrl: string, fallback: string)
    ensures viteApiUrl != "" ==> (ApiRootUrl(viteApiUrl, fallback) == viteApiUrl <==> !Includes(viteApiUrl, API_SUFFIX))
    ensures viteApiUrl != "" && Includes(viteApiUrl, API_SUFFIX) ==>
      |ApiRootUrl(viteApiUrl, fallback)| == |viteApiUrl| - |API_SUFFIX|
  {
    IncludesIff(viteApiUrl, API_SUFFIX);
    var k := IndexOf(viteApiUrl, API_SUFFIX);
    if k.Some? {
      ReplaceFirstPresent(viteApiUrl, API_SUFFIX, "", k.value);
    } else {
      ReplaceFirstAbsent(viteApiUrl, API_SUFFIX, "");
    }
  }

  /**
   * `replace` removes the first "/api", not a trailing one: for a backend host
   * named "api" (as in "http://api:5000/api", with `rest` = ":5000") the "/" of "//"
   * is taken instead, and the trailing "/api" stays.
   */
  lemma ApiRootUrlManglesApiHost(rest: string, fallback: string)
    ensures ApiRootUrl("http://api" + rest + API_SUFFIX, fallback) == "http:/" + rest + API_SUFFIX
  {
    var v := "http://api" + rest + API_SUFFIX;
    assert v[..6] == "http:/" && v[6..10] == API_SUFFIX && v[10..] == rest + API_SUFFIX;
    forall j: nat | j < 6 ensures !OccursAt(v, API_SUFFIX, j) {
      assert v[j..j + 4][1] == v[j + 1] != 'a';
    }
    ReplaceFirstPresent(v, API_SUFFIX, "", 6);
  }

  /**
   * The root the variable evidently means: `VITE_API_URL` without the "/api" (or
   * "/api/") it ends with.
   */
  function ApiRootUrlStripped(viteApiUrl: string, fallback: string): string {
    if viteApiUrl == "" then fallback
    else if EndsWith(viteApiUrl, API_SUFFIX) then viteApiUrl[..|viteApiUrl| - |API_SUFFIX|]
    else if EndsWith(viteApiUrl, API_SUFFIX_SLASH) then viteApiUrl[..|viteApiUrl| - |API_SUFFIX_SLASH|]
    else viteApiUrl
  }

  /**
   * Stripping recovers the host for every base URL of the form host + "/api" or
   * host + "/api/"; where "/api" occurs only at the end, the page's `replace`
   * computes the same root.
   */
  lemma ApiRootUrlStrippedRoundTrip(host: string, fallback: string)
    ensures ApiRootUrlStripped(host + API_SUFFIX, fallback) == host
    ensures ApiRootUrlStripped(host + API_SUFFIX_SLASH, fallback) == host
    ensures (forall j: nat :: j < |host| ==> !OccursAt(host + API_SUFFIX, API_SUFFIX, j)) ==>
      ApiRootUrl(host + API_SUFFIX, fallback) == host
  {
    var v := host + API_SUFFIX;
    assert ApiRootUrlStripped(v, fallback) == host by {
      assert v[|v| - |API_SUFFIX|..] == API_SUFFIX;
      assert v[..|v| - |API_SUFFIX|] == host;
    }
    var w := host + API_SUFFIX_SLASH;
    assert ApiRootUrlStripped(w, fallback) == host by {
      assert w[|w| - |API_SUFFIX|..][3] == '/' != API_SUFFIX[3];
      assert w[|w| - |API_SUFFIX_SLASH|..] == API_SUFFIX_SLASH;
      assert w[..|w| - |API_SUFFIX_SLASH|] == host;
    }
    if forall j: nat :: j < |host| ==> !OccursAt(v, API_SUFFIX, j) {
      assert OccursAt(v, API_SUFFIX, |host|);
      ReplaceFirstPresent(v, API_SUFFIX, "", |host|);
      assert v[..|host|] == host;
    }
  }

  /** `getFullImageUrl` as in AdminDashboardPage, AdminMenuItemCard and AdminAdvertisementPage. */
  function FullImageUrl(root: string, path: string): (r: string)
    ensures r == "" <==> path == ""
    ensures path != "" && !StartsWith(path, "http") ==> StartsWith(r, root)
  {
    if path == "" then ""
    else if StartsWith(path, "http") then path
    else if StartsWith(path, UPLOADS) then root + path
    else root + UPLOADS + path
  }

  /** `getFullImageUrl` as in AdminMenuFormPage: any `/`-prefixed path is host-relative. */
  function FullImageUrlSlash(root: string, path: string): (r: string)
    ensures r == "" <==> path == ""
    ensures path != "" && !StartsWith(path, "http") ==> StartsWith(r, root)
  {
    if path == "" then ""
    else if StartsWith(path, "http") then path
    else if StartsWith(path, "/") then root + path
    else root + UPLOADS + path
  }

  /** `a` ends with `b`. */
  predicate EndsWith(a: string, b: string) {
    |b| <= |a| && a[|a| - |b|..] == b
  }

  /**
   * Every resolved URL ends with the stored path, and is either the path itself
   * (absent or already absolute) or the root, a separator part, and the path.
   */
  lemma FullImageUrlShape(root: string, path: string)
    ensures EndsWith(FullImageUrl(root, path), path)
    ensures root != "" ==>
      (FullImageUrl(root, path) == path <==> path == "" || StartsWith(path, "http"))
    ensures path != "" && !StartsWith(path, "http") ==>
      (FullImageUrl(root, path) == root + path <==> StartsWith(path, UPLOADS))
  {
    var r := FullImageUrl(root, path);
    if path != "" && !StartsWith(path, "http") {
      if StartsWith(path, UPLOADS) {
        assert r[|r| - |path|..] == path;
      } else {
        assert r == root + (UPLOADS + path);
        assert r[|r| - |path|..] == path;
        assert |r| != |root + path|;
      }
    }
  }

  /**
   * With an absolute root (an `http...` URL, as both fallbacks are), resolving an
   * already resolved URL changes nothing.
   */
  lemma FullImageUrlIdempotent(root: string, path: string)
    requires StartsWith(root, "http")
    ensures FullImageUrl(root, FullImageUrl(root, path)) == FullImageUrl(root, path)
    ensures FullImageUrlSlash(root, FullImageUrlSlash(root, path)) == FullImageUrlSlash(root, path)
  {
    var r := FullImageUrl(root, path);
    if path != "" && !StartsWith(path, "http") {
      assert r[..4] == root[..4];
    }
    var q := FullImageUrlSlash(root, path);
    if path != "" && !StartsWith(path, "http") {
      assert q[..4] == root[..4];
    }
  }

  /**
   * The two copies disagree exactly on paths that start with "/" but neither with
   * "http" nor with "/uploads/": e.g. "/images/a.png" becomes `root + "/images/a.png"`
   * in AdminMenuFormPage and `root + "/uploads//images/a.png"` elsewhere.
   */
  lemma VariantsDifferOnlyOnOtherSlashPaths(root: string, path: string)
    ensures FullImageUrl(root, path) != FullImageUrlSlash(root, path) <==>
      path != "" && StartsWith(path, "/") && !StartsWith(path, UPLOADS) && !StartsWith(path, "http")
  {
    if path != "" && StartsWith(path, "/") && !StartsWith(path, UPLOADS) && !StartsWith(path, "http") {
      assert |FullImageUrl(root, path)| != |FullImageUrlSlash(root, path)|;
    }
    if StartsWith(path, UPLOADS) {
      assert path[..1] == UPLOADS[..1];
    }
  }
}
