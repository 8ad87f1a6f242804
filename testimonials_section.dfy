/** The older testimonial carousel (`TestimonialsSection`): five
    testimonials, previous/next buttons, dots, three preview cards and an
    interval that always advances; there is no pause flag. */
module TestimonialsSection {
  import opened Carousel

  /** `testimonials.length`: the five testimonials. */
  const Count: nat := 5

  /** Preview cards are rendered for `testimonials.slice(0, 3)` only. */
  const PreviewCount: nat := 3

  class TestimonialsSectionState {
    var currentIndex: nat

    /** The current slide is one of the five. */
    predicate Valid()
      reads this
    {
      currentIndex < Count
    }

    constructor ()
      ensures Valid()
      ensures currentIndex == 0
    {
      currentIndex := 0;
    }

    /** `nextTestimonial`. */
    method Next()
      requires Valid()
      modifies this
      ensures Valid()
      ensures currentIndex == NextIndex(old(currentIndex), Count)
    {
      currentIndex := (currentIndex + 1) % Count;
    }

    /** `prevTestimonial`. */
    method Prev()
      requires Valid()
      modifies this
      ensures Valid()
      ensures currentIndex == PrevIndex(old(currentIndex), Count)
    {
      currentIndex := (currentIndex - 1 + Count) % Count;
    }

    /** Clicking dot `k`: there is one dot per testimonial. */
    method SelectDot(k: nat)
      requires k < Count
      modifies this
      ensures Valid()
      ensures currentIndex == k
    {
      currentIndex := k;
    }

    /** Clicking preview card `k`: there are cards for the first three only. */
    method SelectPreview(k: nat)
      requires k < PreviewCount
      modifies this
      ensures Valid()
      ensures currentIndex == k
    {
      currentIndex := k;
    }

    /** One firing of the five-second interval: always the next slide. */
    method IntervalTick()
      requires Valid()
      modifies this
      ensures Valid()
      ensures currentIndex == NextIndex(old(currentIndex), Count)
    {
      Next();
    }
  }
}
