/** The testimonials carousel: the current testimonial, the auto-play flag that the
    navigation switches off and a timer switches back on, and the star rating. */
module Testimonials {
  import opened Cyclic

  /** One entry of the testimonials data, whose contents are a parameter of the model. */
  datatype Testimonial = Testimonial(id: int, name: string, rating: real, comment: string,
                                     location: string, avatar: string)

  /** The number of stars drawn for every rating. */
  const StarCount := 5

  /** The stars of a rating, filled or not: star `i` is filled when `i < rating`. */
  function RenderStars(rating: real): (filled: seq<bool>)
    ensures |filled| == StarCount
    ensures forall i | 0 <= i < StarCount :: filled[i] <==> (i as real) < rating
  {
    seq(StarCount, i requires 0 <= i < StarCount => (i as real) < rating)
  }

  /** The filled stars come first: a filled star has only filled stars before it. */
  lemma FilledStarsFirst(rating: real, i: nat, j: nat)
    requires i <= j < StarCount && RenderStars(rating)[j]
    ensures RenderStars(rating)[i]
  {
  }

  /** A whole rating from 0 to 5 fills exactly that many stars; a rating above 5 fills
      all five and one of 0 or below fills none. */
  lemma WholeRatingStars(rating: int)
    ensures 0 <= rating <= StarCount ==>
              RenderStars(rating as real) == seq(rating, _ => true) + seq(StarCount - rating, _ => false)
    ensures rating >= StarCount ==> RenderStars(rating as real) == seq(StarCount, _ => true)
    ensures rating <= 0 ==> RenderStars(rating as real) == seq(StarCount, _ => false)
  {
    if 0 <= rating <= StarCount {
      var expected := seq(rating, _ => true) + seq(StarCount - rating, _ => false);
      assert forall i | 0 <= i < StarCount :: expected[i] == (i < rating);
    }
  }

  /** A fractional rating fills the star it falls within: 4.5 fills all five. */
  lemma FractionalRatingRoundsUp()
    ensures RenderStars(4.5) == [true, true, true, true, true]
    ensures RenderStars(4.0) == [true, true, true, true, false]
  {
  }

  /** The carousel's state over a fixed, non-empty list of testimonials. */
  class Carousel {
    const testimonials: seq<Testimonial>
    var currentIndex: nat
    var isAutoPlaying: bool

    /** The current index names a testimonial. */
    ghost predicate Valid()
      reads this
    {
      currentIndex < |testimonials|
    }

    /** The first testimonial, with auto-play on. */
    constructor (testimonials: seq<Testimonial>)
      requires |testimonials| > 0
      ensures Valid()
      ensures this.testimonials == testimonials && currentIndex == 0 && isAutoPlaying
    {
      this.testimonials := testimonials;
      currentIndex := 0;
      isAutoPlaying := true;
    }

    /** A tick of the five-second interval: it runs only while auto-play is on, and then
        moves to the next testimonial. */
    method Tick()
      requires Valid()
      modifies this
      ensures Valid()
      ensures old(isAutoPlaying) ==> currentIndex == Next(old(currentIndex), |testimonials|)
      ensures !old(isAutoPlaying) ==> currentIndex == old(currentIndex)
      ensures isAutoPlaying == old(isAutoPlaying)
    {
      if isAutoPlaying {
        currentIndex := (currentIndex + 1) % |testimonials|;
      }
    }

    /** The ten-second timer that a navigation starts: auto-play comes back on. */
    method ResumeAutoPlay()
      requires Valid()
      modifies this
      ensures Valid()
      ensures isAutoPlaying && currentIndex == old(currentIndex)
    {
      isAutoPlaying := true;
    }

    /** A dot click: show testimonial `index` and pause auto-play. */
    method GoToSlide(index: nat)
      requires Valid() && index < |testimonials|
      modifies this
      ensures Valid()
      ensures currentIndex == index && !isAutoPlaying
    {
      currentIndex := index;
      isAutoPlaying := false;
    }

    /** The right arrow: the next testimonial, wrapping round, and auto-play paused. */
    method NextSlide()
      requires Valid()
      modifies this
      ensures Valid()
      ensures currentIndex == Next(old(currentIndex), |testimonials|) && !isAutoPlaying
    {
      currentIndex := (currentIndex + 1) % |testimonials|;
      isAutoPlaying := false;
    }

    /** The left arrow: the previous testimonial, wrapping round, and auto-play paused. */
    method PrevSlide()
      requires Valid()
      modifies this
      ensures Valid()
      ensures currentIndex == Prev(old(currentIndex), |testimonials|) && !isAutoPlaying
    {
      currentIndex := (currentIndex - 1 + |testimonials|) % |testimonials|;
      isAutoPlaying := false;
    }

    /** The dot indicators over the current state. */
    function ActiveDots(): (dots: seq<bool>)
      reads this
      requires Valid()
      ensures |dots| == |testimonials|
      ensures (set index | 0 <= index < |testimonials| && dots[index]) == {currentIndex}
    {
      ExactlyOneDot(|testimonials|, currentIndex);
      Dots(|testimonials|, currentIndex)
    }
  }
}
