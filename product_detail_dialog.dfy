/** The car-part detail dialog: nothing without a product, otherwise its slideshow. */
module ProductDetailDialog {
  import opened Wrappers
  import opened Carousel
  import opened Listings

  /** `if (!product) return null`, then the three-way image fallback. */
  function Shown(product: Option<Product>): (imgs: Option<seq<string>>)
    ensures imgs == None <==> product == None
    ensures imgs.Some? ==> imgs.value != [] && imgs.value == ImagesOrImage(product.value.images, product.value.image)
  {
    match product
    case None => None
    case Some(p) => Some(ImagesOrImage(p.images, p.image))
  }
}
