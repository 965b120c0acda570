/** The hero slideshow: ten fixed images shown one at a time, arrows, dots and an
    interval that move between them, and a modal opened on the current image. */
module HeroSlideshow {
  import opened Optional
  import opened Text
  import opened Cyclic
  import opened OptimizedImage

  const HeroImages: seq<string> := [
    "https://res.cloudinary.com/devpq4myi/image/upload/v1751186714/IMG_3153_i3b43h.webp",
    "https://res.cloudinary.com/devpq4myi/image/upload/v1751186713/IMG_3146_yxa5vn.webp",
    "https://res.cloudinary.com/devpq4myi/image/upload/v1751186711/IMG_3152_bmnho0.webp",
    "https://res.cloudinary.com/devpq4myi/image/upload/v1751186711/IMG_3161_mybxsd.webp",
    "https://res.cloudinary.com/devpq4myi/image/upload/v1751186708/IMG_3164_he8rzy.webp",
    "https://res.cloudinary.com/devpq4myi/image/upload/v1751186707/IMG_3139_k5hr9s.webp",
    "https://res.cloudinary.com/devpq4myi/image/upload/v1751186706/IMG_3163_lkjsml.webp",
    "https://res.cloudinary.com/devpq4myi/image/upload/v1751188238/IMG_3169_xal1hx.webp",
    "https://res.cloudinary.com/devpq4myi/image/upload/v1751186702/IMG_3162_oiurdl.webp",
    "https://res.cloudinary.com/devpq4myi/image/upload/v1751186698/IMG_3159_wlpwbo.webp"
  ]

  /** The pointer position of a click, in viewport coordinates. */
  datatype Point = Point(x: real, y: real)

  /** What the modal shows when it is open. */
  datatype HeroModal = HeroModal(src: string, alt: string, name: string, clickPosition: Point)

  /** The slide at `index` is rendered with `priority` exactly when it is the first. */
  function SlidePriority(index: nat): bool {
    index == 0
  }

  /** Only the first slide is loaded eagerly; every other slide is loaded lazily. */
  lemma OnlyFirstSlideEager(index: nat)
    requires index < |HeroImages|
    ensures LoadingFor(SlidePriority(index)) == Eager <==> index == 0
    ensures index != 0 ==> LoadingFor(SlidePriority(index)) == Lazy
  {
  }

  /** The alternative text of the modal image: 'Jewelry Image ' and the 1-based number
      of the slide. */
  function ModalAlt(index: nat): (alt: string)
    ensures |alt| > 14 && alt[..14] == "Jewelry Image "
    ensures AllDigits(alt[14..]) && alt[14] != '0'
  {
    "Jewelry Image " + NatToString(index + 1)
  }

  /** The number in the modal's text is the slide's 1-based position. */
  lemma ModalAltNumbersFromOne(index: nat)
    ensures |ModalAlt(index)| > 14 && AllDigits(ModalAlt(index)[14..])
    ensures DecimalValue(ModalAlt(index)[14..]) == index + 1
  {
    assert ModalAlt(index)[14..] == NatToString(index + 1);
    DecimalValueOfNatToString(index + 1);
  }

  /** Going forward ten times over the ten images comes back to the same image, and
      fewer steps never do. */
  lemma TenStepsGoRound(i: nat)
    requires i < |HeroImages|
    ensures NextIter(i, |HeroImages|, |HeroImages|) == i
    ensures forall k | 0 < k < |HeroImages| :: NextIter(i, |HeroImages|, k) != i
  {
    FullCircle(i, |HeroImages|);
  }

  /** The slideshow's state: the current slide and the modal (None when closed). */
  class Slideshow {
    var currentIndex: nat
    var modalImage: Option<HeroModal>

    /** The current index names one of the images. */
    ghost predicate Valid()
      reads this
    {
      currentIndex < |HeroImages|
    }

    /** The first slide, with the modal closed. */
    constructor ()
      ensures Valid()
      ensures currentIndex == 0 && modalImage == None
    {
      currentIndex := 0;
      modalImage := None;
    }

    /** The left arrow: from the first slide to the last, otherwise one back. */
    method GoToPrevious()
      requires Valid()
      modifies this
      ensures Valid()
      ensures currentIndex == Prev(old(currentIndex), |HeroImages|)
      ensures modalImage == old(modalImage)
    {
      currentIndex := if currentIndex == 0 then |HeroImages| - 1 else currentIndex - 1;
    }

    /** The right arrow: one forward, wrapping from the last slide to the first. */
    method GoToNext()
      requires Valid()
      modifies this
      ensures Valid()
      ensures currentIndex == Next(old(currentIndex), |HeroImages|)
      ensures modalImage == old(modalImage)
    {
      currentIndex := (currentIndex + 1) % |HeroImages|;
    }

    /** A tick of the five-second interval, which always runs: as the right arrow. */
    method Tick()
      requires Valid()
      modifies this
      ensures Valid()
      ensures currentIndex == Next(old(currentIndex), |HeroImages|)
      ensures modalImage == old(modalImage)
    {
      currentIndex := (currentIndex + 1) % |HeroImages|;
    }

    /** A dot click: show slide `index`. */
    method GoToSlide(index: nat)
      requires Valid() && index < |HeroImages|
      modifies this
      ensures Valid()
      ensures currentIndex == index && modalImage == old(modalImage)
    {
      currentIndex := index;
    }

    /** A click on the image opens the modal on the current image, remembering where
        the click was. */
    method HandleImageClick(clientX: real, clientY: real)
      requires Valid()
      modifies this
      ensures Valid()
      ensures modalImage == Some(HeroModal(HeroImages[currentIndex], ModalAlt(currentIndex),
                                           "Western Jewellers", Point(clientX, clientY)))
      ensures currentIndex == old(currentIndex)
    {
      modalImage := Some(HeroModal(HeroImages[currentIndex], ModalAlt(currentIndex),
                                   "Western Jewellers", Point(clientX, clientY)));
    }

    /** Closing the modal. */
    method CloseModal()
      requires Valid()
      modifies this
      ensures Valid()
      ensures modalImage == None && currentIndex == old(currentIndex)
    {
      modalImage := None;
    }

    /** The dot indicators over the current state. */
    function ActiveDots(): (dots: seq<bool>)
      reads this
      requires Valid()
      ensures |dots| == |HeroImages|
      ensures (set index | 0 <= index < |HeroImages| && dots[index]) == {currentIndex}
    {
      ExactlyOneDot(|HeroImages|, currentIndex);
      Dots(|HeroImages|, currentIndex)
    }
  }
}
