/** The used-car detail dialog: nothing without a car, otherwise its slideshow, whose
    current image is served from the API host when it is an upload path. */
module UsedCarDetailDialog {
  import opened Wrappers
  import opened Strings
  import opened Carousel
  import opened Listings
  import opened Storefront
  import Server

  /** `if (!car) return null`, then the three-way image fallback. */
  function Shown(car: Option<UsedCar>): (imgs: Option<seq<string>>)
    ensures imgs == None <==> car == None
    ensures imgs.Some? ==> imgs.value != [] && imgs.value == ImagesOrImage(car.value.images, car.value.image)
  {
    match car
    case None => None
    case Some(c) => Some(ImagesOrImage(c.images, c.image))
  }

  /** The `src` of the dialog's `<img>`: `imgs[index]?.startsWith(...)` is undefined when
      the index is past the list, and otherwise the resolved image. */
  function SrcAt(imgs: seq<string>, index: nat): (src: Option<string>)
    ensures index >= |imgs| ==> src == None
    ensures index < |imgs| && StartsWith(imgs[index], Server.UploadsRoute) ==> src == Some(ApiHost + imgs[index])
    ensures index < |imgs| && !StartsWith(imgs[index], Server.UploadsRoute) ==> src == Some(imgs[index])
  {
    if index < |imgs| then Some(ResolveImageSrc(imgs[index])) else None
  }

  /** While the slideshow is valid the dialog always has a source, and an image the server
      stored is fetched from the API host. */
  lemma ShownUploadResolves(s: Slideshow, filename: string)
    requires s.Valid()
    ensures SrcAt(s.imgs, s.index).Some?
    ensures s.Current() == Server.UploadsRoute + filename ==>
      SrcAt(s.imgs, s.index) == Some(ApiHost + "/uploads/" + filename)
  {
    UploadedImageResolves(filename);
  }
}
