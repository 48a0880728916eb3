/**
 * The URL handling of the advertisement page (src/pages/AdminAdvertisementPage.jsx):
 * `API_BASE_URL`, `API_ROOT_URL` and its `getFullImageUrl`.
 */
module AdminAdvertisementPage {
  import opened Text
  import ImageUrl

  /** `API_ROOT_URL` when `VITE_API_URL` is unset. */
  const FALLBACK_ROOT := "http://localhost:5000"
  /** `API_BASE_URL` when `VITE_API_URL` is unset. */
  const FALLBACK_BASE := "http://localhost:5000/api"

  /** `API_BASE_URL` for a given `VITE_API_URL` ("" when unset). */
  function ApiBase(viteApiUrl: string): (r: string)
    ensures r != ""
    ensures viteApiUrl != "" ==> r == viteApiUrl
  {
    if viteApiUrl != "" then viteApiUrl else FALLBACK_BASE
  }

  /**
   * `API_ROOT_URL` for a given `VITE_API_URL` ("" when unset): the fallback when
   * unset, otherwise the variable with its first "/api" cut out; a set value is
   * used unchanged exactly when it contains no "/api".
   */
  function ApiRoot(viteApiUrl: string): (r: string)
    ensures viteApiUrl == "" ==> r == FALLBACK_ROOT
    ensures viteApiUrl != "" ==> (r == viteApiUrl <==> !Includes(viteApiUrl, ImageUrl.API_SUFFIX))
  {
    ImageUrl.ApiRootUrlUnchangedIff(viteApiUrl, FALLBACK_ROOT);
    ImageUrl.ApiRootUrl(viteApiUrl, FALLBACK_ROOT)
  }

  /**
   * The page's `getFullImageUrl`: "" exactly for an absent path, an absolute path
   * as it is, and every result ends with the stored path.
   */
  function AdImageUrl(viteApiUrl: string, imagePath: string): (r: string)
    ensures r == "" <==> imagePath == ""
    ensures StartsWith(imagePath, "http") ==> r == imagePath
    ensures ImageUrl.EndsWith(r, imagePath)
  {
    ImageUrl.FullImageUrlShape(ApiRoot(viteApiUrl), imagePath);
    ImageUrl.FullImageUrl(ApiRoot(viteApiUrl), imagePath)
  }

  /**
   * The base URL is the root followed by "/api" when the variable is unset, and for
   * a host followed by "/api" when "/api" occurs nowhere before that suffix; then the
   * root is the host.
   */
  lemma BaseIsRootWithApi(viteApiUrl: string, host: string)
    ensures viteApiUrl == "" ==> ApiBase(viteApiUrl) == ApiRoot(viteApiUrl) + ImageUrl.API_SUFFIX
    ensures (forall j: nat :: j < |host| ==> !OccursAt(host + ImageUrl.API_SUFFIX, ImageUrl.API_SUFFIX, j)) ==>
      && ApiRoot(host + ImageUrl.API_SUFFIX) == host
      && ApiBase(host + ImageUrl.API_SUFFIX) == ApiRoot(host + ImageUrl.API_SUFFIX) + ImageUrl.API_SUFFIX
  {
    ImageUrl.ApiRootUrlStrippedRoundTrip(host, FALLBACK_ROOT);
  }

  /**
   * With the variable unset, a bare file name is served from the local backend's
   * uploads directory and a "/uploads/" path from the local backend.
   */
  lemma LocalImageUrls(name: string)
    requires name != "" && !StartsWith(name, "http") && !StartsWith(name, ImageUrl.UPLOADS)
    ensures AdImageUrl("", name) == FALLBACK_ROOT + "/uploads/" + name
    ensures AdImageUrl("", ImageUrl.UPLOADS + name) == FALLBACK_ROOT + "/uploads/" + name
  {
    assert StartsWith(ImageUrl.UPLOADS + name, ImageUrl.UPLOADS);
    assert (ImageUrl.UPLOADS + name)[..4] == "/upl";
  }
}
