/** The reusable image slideshow: a current slide over the images it is given, arrows,
    dots and an optional interval that move between them, and an optional click
    callback that receives the current image. */
module ImageSlideshow {
  import opened Optional
  import opened Cyclic

  /** The slideshow's state over a fixed, non-empty list of images. */
  class Slideshow {
    const images: seq<string>
    /** The `autoPlay` property. */
    const autoPlay: bool
    /** Whether an `onImageClick` callback was supplied. */
    const hasImageClick: bool
    var currentIndex: nat

    /** The current index names one of the images. */
    ghost predicate Valid()
      reads this
    {
      currentIndex < |images|
    }

    /** The first image. */
    constructor (images: seq<string>, autoPlay: bool, hasImageClick: bool)
      requires |images| > 0
      ensures Valid()
      ensures this.images == images && this.autoPlay == autoPlay && this.hasImageClick == hasImageClick
      ensures currentIndex == 0
    {
      this.images := images;
      this.autoPlay := autoPlay;
      this.hasImageClick := hasImageClick;
      currentIndex := 0;
    }

    /** The right arrow: one forward, wrapping from the last image to the first. */
    method NextSlide()
      requires Valid()
      modifies this
      ensures Valid()
      ensures currentIndex == Next(old(currentIndex), |images|)
    {
      currentIndex := (currentIndex + 1) % |images|;
    }

    /** The left arrow: one back, wrapping from the first image to the last. */
    method PrevSlide()
      requires Valid()
      modifies this
      ensures Valid()
      ensures currentIndex == Prev(old(currentIndex), |images|)
    {
      currentIndex := (currentIndex - 1 + |images|) % |images|;
    }

    /** A tick of the interval, which runs only when auto-play was asked for: as the
        right arrow. */
    method Tick()
      requires Valid()
      modifies this
      ensures Valid()
      ensures autoPlay ==> currentIndex == Next(old(currentIndex), |images|)
      ensures !autoPlay ==> currentIndex == old(currentIndex)
    {
      if autoPlay {
        NextSlide();
      }
    }

    /** A dot click: show image `index`. */
    method SelectDot(index: nat)
      requires Valid() && index < |images|
      modifies this
      ensures Valid()
      ensures currentIndex == index
    {
      currentIndex := index;
    }

    /** A click on the image: the current image goes to the callback when one was
        supplied, and nothing happens otherwise. */
    method HandleImageClick() returns (delivered: Option<string>)
      requires Valid()
      ensures delivered.Some? <==> hasImageClick
      ensures delivered.Some? ==> delivered.value == images[currentIndex]
    {
      if hasImageClick {
        delivered := Some(images[currentIndex]);
      } else {
        delivered := None;
      }
    }

    /** The dot indicators over the current state. */
    function ActiveDots(): (dots: seq<bool>)
      reads this
      requires Valid()
      ensures |dots| == |images|
      ensures (set index | 0 <= index < |images| && dots[index]) == {currentIndex}
    {
      ExactlyOneDot(|images|, currentIndex);
      Dots(|images|, currentIndex)
    }
  }
}
