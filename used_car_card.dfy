/** The used-car card: the images it shows and the unit of its mileage line. */
module UsedCarCard {
  import opened Carousel
  import opened Listings
  import Storefront

  datatype CardView = CardView(imgs: seq<string>, mileageUnit: string)

  /** The card for a used car: its images with the single-image and placeholder
      fallbacks, and "km" exactly when the language is French. */
  function View(car: UsedCar, language: string): (v: CardView)
    ensures v.imgs != []
    ensures v.imgs == ImagesOrImage(car.images, car.image)
    ensures v.mileageUnit == "km" <==> language == "fr"
    ensures v.mileageUnit != "km" ==> v.mileageUnit == "miles"
  {
    CardView(ImagesOrImage(car.images, car.image), Storefront.MileageUnit(language))
  }

  /** A car with neither images nor a single image shows the placeholder alone, so its
      slideshow never auto-advances. */
  lemma BareCarShowsPlaceholder(car: UsedCar, language: string, paused: bool)
    requires car.images == [] && car.image == ""
    ensures View(car, language).imgs == [PlaceholderImage]
    ensures !AutoAdvances(paused, |View(car, language).imgs|)
  {
  }
}
