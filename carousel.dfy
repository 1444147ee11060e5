/** The image slideshow shared by the two cards and the two detail dialogs: the list of
    images to show, with its placeholder fallback, and the `index` state that the interval
    advances and the dots set. */
module Carousel {

  const PlaceholderImage := "/placeholder.svg"

  /** `images.length ? images : ["/placeholder.svg"]`, the product card's list. */
  function ImagesOrPlaceholder(images: seq<string>): (imgs: seq<string>)
    ensures imgs != []
    ensures images != [] ==> imgs == images
    ensures images == [] ==> imgs == [PlaceholderImage]
  {
    if |images| > 0 then images else [PlaceholderImage]
  }

  /** `(images && images.length) ? images : (image ? [image] : ["/placeholder.svg"])`;
      `image` is "" when the listing has no single image. */
  function ImagesOrImage(images: seq<string>, image: string): (imgs: seq<string>)
    ensures imgs != []
    ensures images != [] ==> imgs == images
    ensures images == [] && image != "" ==> imgs == [image]
    ensures images == [] && image == "" ==> imgs == [PlaceholderImage]
  {
    if |images| > 0 then images
    else if image != "" then [image]
    else [PlaceholderImage]
  }

  /** Without a single image the three-way fallback is the product card's two-way one,
      and every shown image comes from the listing or is the placeholder. */
  lemma FallbacksAgree(images: seq<string>, image: string)
    ensures ImagesOrImage(images, "") == ImagesOrPlaceholder(images)
    ensures forall s :: s in ImagesOrImage(images, image) ==> s in images || s == image || s == PlaceholderImage
  {
  }

  /** The interval is installed only when the pointer is not on the slideshow and there
      is more than one image. */
  predicate AutoAdvances(paused: bool, count: nat)
  {
    !(paused || count <= 1)
  }

  /** `(i + 1) % imgs.length`: the next index, wrapping from the last back to the first. */
  function Next(i: nat, count: nat): (j: nat)
    requires count > 0
    ensures j < count
    ensures i + 1 < count ==> j == i + 1
    ensures i + 1 == count ==> j == 0
  {
    (i + 1) % count
  }

  /** The index after `steps` firings of the interval. */
  function Advance(i: nat, count: nat, steps: nat): nat
    requires count > 0
  {
    if steps == 0 then i else Next(Advance(i, count, steps - 1), count)
  }

  /** Firings that stay short of the end move one image each. */
  lemma {:induction false} AdvanceWithin(i: nat, count: nat, steps: nat)
    requires i + steps < count
    ensures Advance(i, count, steps) == i + steps
  {
    if steps > 0 {
      AdvanceWithin(i, count, steps - 1);
    }
  }

  /** Firings compose: `a` firings and then `b` more are `a + b` firings. */
  lemma {:induction false} AdvanceSplit(i: nat, count: nat, a: nat, b: nat)
    requires count > 0
    ensures Advance(i, count, a + b) == Advance(Advance(i, count, a), count, b)
  {
    if b > 0 {
      AdvanceSplit(i, count, a, b - 1);
    }
  }

  /** From index `i`, `count - i` firings wrap round to the first image. */
  lemma AdvanceWraps(i: nat, count: nat)
    requires i < count
    ensures Advance(i, count, count - i) == 0
  {
    AdvanceWithin(i, count, count - i - 1);
  }

  /** The slideshow cycles: after `count` firings it is back where it started, and every
      image is reached within fewer than `count` firings. */
  lemma CyclesThroughEveryImage(i: nat, j: nat, count: nat)
    requires i < count && j < count
    ensures Advance(i, count, count) == i
    ensures exists steps: nat :: steps < count && Advance(i, count, steps) == j
  {
    AdvanceWraps(i, count);
    AdvanceSplit(i, count, count - i, i);
    AdvanceWithin(0, count, i);
    if i <= j {
      AdvanceWithin(i, count, j - i);
      assert Advance(i, count, j - i) == j;
    } else {
      AdvanceSplit(i, count, count - i, j);
      AdvanceWithin(0, count, j);
      assert Advance(i, count, count - i + j) == j;
    }
  }

  /** The guard skips exactly the firings that would do nothing: unpaused, the interval is
      installed if and only if a firing would move the index. */
  lemma GuardSkipsOnlyIdleSteps(paused: bool, i: nat, count: nat)
    requires i < count
    ensures !paused ==> (AutoAdvances(paused, count) <==> Next(i, count) != i)
    ensures paused ==> !AutoAdvances(paused, count)
  {
  }

  /** The `index` state of one slideshow over a fixed list of images. */
  class Slideshow {
    var imgs: seq<string>
    var index: nat

    ghost predicate Valid()
      reads this
    {
      imgs != [] && index < |imgs|
    }

    /** `useState(0)` over the display list. */
    constructor (shown: seq<string>)
      requires shown != []
      ensures Valid() && imgs == shown && index == 0
    {
      imgs := shown;
      index := 0;
    }

    /** The image the `<img>` shows: always one of the list. */
    function Current(): (src: string)
      reads this
      requires Valid()
      ensures src in imgs
    {
      imgs[index]
    }

    /** One firing of the interval: the index moves on when the interval is installed and
        stays otherwise. */
    method Tick(paused: bool)
      requires Valid()
      modifies this`index
      ensures Valid()
      ensures index == if AutoAdvances(paused, |imgs|) then Next(old(index), |imgs|) else old(index)
    {
      if paused || |imgs| <= 1 {
        return;
      }
      index := (index + 1) % |imgs|;
    }

    /** A click on dot `i`; the dots are drawn one per image, and only when there are
        several. */
    method SelectDot(i: nat)
      requires Valid() && |imgs| > 1 && i < |imgs|
      modifies this`index
      ensures Valid() && index == i
    {
      index := i;
    }
  }
}
