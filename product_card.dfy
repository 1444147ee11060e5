/** The car-part card: the images it shows, the stock badge (label and colour) and
    whether its Buy button is enabled. */
module ProductCard {
  import opened Carousel
  import opened Listings

  const InStockColor := "bg-green-100 text-green-800 border-green-200"
  const LowStockColor := "bg-automotive-orange/10 text-automotive-orange border-automotive-orange/20"
  const MutedColor := "bg-muted text-muted-foreground"

  /** `getAvailabilityColor`: the two known statuses get their own classes, anything
      else, "out_of_stock" included, the muted default. */
  function AvailabilityColor(status: string): (classes: string)
    ensures classes == InStockColor <==> status == "in_stock"
    ensures classes == LowStockColor <==> status == "low_stock"
    ensures classes == MutedColor <==> status != "in_stock" && status != "low_stock"
  {
    assert |InStockColor| != |LowStockColor| && |InStockColor| != |MutedColor| && |LowStockColor| != |MutedColor|;
    match status
    case "in_stock" => InStockColor
    case "low_stock" => LowStockColor
    case _ => MutedColor
  }

  function InStockLabel(language: string): string
  {
    if language == "fr" then "En stock" else "In Stock"
  }

  function LowStockLabel(language: string): string
  {
    if language == "fr" then "Stock faible" else "Low Stock"
  }

  /** What the card shows of one listing. */
  datatype CardView = CardView(imgs: seq<string>, badgeLabel: string, badgeColor: string, buyDisabled: bool)

  /** The card for a product with the given images and stock status. */
  function View(images: seq<string>, stockStatus: string, language: string): (v: CardView)
    ensures v.imgs == ImagesOrPlaceholder(images) && v.imgs != []
    ensures v.badgeLabel == InStockLabel(language) <==> stockStatus == "in_stock"
    ensures v.badgeLabel != InStockLabel(language) ==> v.badgeLabel == LowStockLabel(language)
    ensures v.badgeColor == AvailabilityColor(stockStatus)
    ensures v.buyDisabled <==> stockStatus == "out_of_stock"
  {
    assert InStockLabel(language) != LowStockLabel(language) by {
      assert InStockLabel(language)[0] != LowStockLabel(language)[0];
    }
    CardView(
      ImagesOrPlaceholder(images),
      if stockStatus == "in_stock" then InStockLabel(language) else LowStockLabel(language),
      AvailabilityColor(stockStatus),
      stockStatus == "out_of_stock")
  }

  /** An out-of-stock part is labelled "Low Stock" in the muted colour while its Buy
      button is disabled; a low-stock part keeps its button. */
  lemma OutOfStockReadsLowStock(images: seq<string>, language: string)
    ensures View(images, "out_of_stock", language).badgeLabel == LowStockLabel(language)
    ensures View(images, "out_of_stock", language).badgeColor == MutedColor
    ensures View(images, "out_of_stock", language).buyDisabled
    ensures !View(images, "low_stock", language).buyDisabled
  {
  }

  /** The card as the storefront grid renders it: the API row is spread into the props,
      so `images` is the row's list, but the row carries `stock_status` and no
      `stockStatus`, which is therefore undefined; like "" it equals none of the statuses.
      No `language` is passed, so the labels are the English default. */
  function StorefrontCard(row: Product): (v: CardView)
    ensures v.imgs == ImagesOrPlaceholder(row.images)
    ensures v.badgeLabel == "Low Stock" && v.badgeColor == MutedColor
    ensures !v.buyDisabled
  {
    View(row.images, "", "en")
  }

  /** On the storefront every part, whatever its stored status, reads "Low Stock" in the
      muted colour, and an out-of-stock part can still be bought. */
  lemma OutOfStockRowStaysBuyable(row: Product, other: Product)
    requires row.stock_status == "out_of_stock" && other.stock_status == "in_stock"
    ensures !StorefrontCard(row).buyDisabled
    ensures StorefrontCard(row).badgeLabel == StorefrontCard(other).badgeLabel
    ensures StorefrontCard(row).badgeColor == StorefrontCard(other).badgeColor
  {
  }

  /** The card the grid evidently means to render: the status taken from the row's
      `stock_status`. */
  function StorefrontCardFixed(row: Product): (v: CardView)
    ensures v.imgs == ImagesOrPlaceholder(row.images)
    ensures v.badgeLabel == "In Stock" <==> row.stock_status == "in_stock"
    ensures v.badgeColor == AvailabilityColor(row.stock_status)
    ensures v.buyDisabled <==> row.stock_status == "out_of_stock"
  {
    View(row.images, row.stock_status, "en")
  }
}
