/**
 * The menu item card of the admin menu (src/components/AdminMenuItemCard.jsx):
 * the image source, the colour of the stock line and the availability badge.
 */
module AdminMenuItemCard {
  import opened Text
  import opened Menu
  import ImageUrl

  /** `API_ROOT_URL` when `VITE_API_URL` is unset. */
  const FALLBACK_ROOT := "http://localhost:5000"

  const PLACEHOLDER := "https://placehold.co/400x400/1e293b/475569?text=Image+Missing"
  const LOW_STOCK_COLOR := "text-red-500"
  const STOCK_COLOR := "text-green-600"
  const AVAILABLE := "Available"
  const UNAVAILABLE := "Unavailable"
  const AVAILABLE_STYLE := "bg-green-700 text-green-300"
  const UNAVAILABLE_STYLE := "bg-red-700 text-red-300"

  /** What the card shows besides the item's own text. */
  datatype Card = Card(imageSrc: string, stockColor: string, badgeLabel: string, badgeStyle: string)

  /**
   * `API_ROOT_URL` for a given `VITE_API_URL` ("" when unset): the fallback when
   * unset, otherwise the variable with its first "/api" cut out; a set value is
   * used unchanged exactly when it contains no "/api".
   */
  function ApiRoot(viteApiUrl: string): (r: string)
    ensures viteApiUrl == "" ==> r == FALLBACK_ROOT
    ensures viteApiUrl != "" ==> (r == viteApiUrl <==> !Includes(viteApiUrl, ImageUrl.API_SUFFIX))
  {
    ImageUrl.ApiRootUrlUnchangedIff(viteApiUrl, FALLBACK_ROOT);
    ImageUrl.ApiRootUrl(viteApiUrl, FALLBACK_ROOT)
  }

  /** `imageUrl || placeholder`, with `imageUrl = getFullImageUrl(item.imageUrl)`. */
  function ImageSrc(root: string, imagePath: string): string {
    var imageUrl := ImageUrl.FullImageUrl(root, imagePath);
    if imageUrl != "" then imageUrl else PLACEHOLDER
  }

  /** `stockColor` */
  function StockColor(stock: int): string {
    if stock <= 10 then LOW_STOCK_COLOR else STOCK_COLOR
  }

  /** The badge text. */
  function BadgeLabel(stock: int): string {
    if stock > 0 then AVAILABLE else UNAVAILABLE
  }

  /** The badge style. */
  function BadgeStyle(stock: int): string {
    if stock > 0 then AVAILABLE_STYLE else UNAVAILABLE_STYLE
  }

  /**
   * The card for `item` under the root URL `root`: some image is always shown, and
   * the badge's style is the available one exactly when its text says "Available".
   */
  function CardFor(item: MenuItem, root: string): (r: Card)
    ensures r.imageSrc != ""
    ensures r.badgeStyle == AVAILABLE_STYLE <==> r.badgeLabel == AVAILABLE
  {
    Card(ImageSrc(root, item.imageUrl), StockColor(item.stock), BadgeLabel(item.stock), BadgeStyle(item.stock))
  }

  /**
   * The placeholder stands in exactly for an absent image; any stored path is
   * shown resolved: unchanged when absolute, otherwise under the root, and
   * always ending with the stored path.
   */
  lemma ImageSrcSpec(root: string, imagePath: string)
    ensures imagePath == "" ==> ImageSrc(root, imagePath) == PLACEHOLDER
    ensures imagePath != "" ==> ImageSrc(root, imagePath) == ImageUrl.FullImageUrl(root, imagePath)
    ensures imagePath != "" ==> ImageUrl.EndsWith(ImageSrc(root, imagePath), imagePath)
    ensures StartsWith(imagePath, "http") ==> ImageSrc(root, imagePath) == imagePath
    ensures imagePath != "" && !StartsWith(imagePath, "http") ==> StartsWith(ImageSrc(root, imagePath), root)
  {
    ImageUrl.FullImageUrlShape(root, imagePath);
  }

  /**
   * Colour and badge follow two different thresholds: the stock line is red
   * exactly up to 10, the badge says "Available" exactly above 0, so stock 1 to
   * 10 is shown red and yet available; the badge's style always matches its text.
   */
  lemma StockSignals(item: MenuItem, root: string)
    ensures CardFor(item, root).stockColor == LOW_STOCK_COLOR <==> item.stock <= 10
    ensures CardFor(item, root).badgeLabel == AVAILABLE <==> item.stock > 0
    ensures CardFor(item, root).badgeStyle == AVAILABLE_STYLE <==> CardFor(item, root).badgeLabel == AVAILABLE
    ensures 1 <= item.stock <= 10 ==>
      CardFor(item, root).stockColor == LOW_STOCK_COLOR && CardFor(item, root).badgeLabel == AVAILABLE
    ensures CardFor(item, root).stockColor == STOCK_COLOR ==> CardFor(item, root).badgeLabel == AVAILABLE
  {
  }
}
