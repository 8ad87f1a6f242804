/** The autoplaying testimonial carousel (`TestimonialsCarousel`): five
    testimonials, a current slide, previous/next buttons, one dot per slide,
    preview cards for the first three, and a play/pause flag that gates the
    five-second autoplay interval. */
module TestimonialsCarousel {
  import opened Carousel
  import opened Text

  /** The names of the five testimonials, in display order. */
  const Names: seq<string> := ["Dr. Sarah Ahmed", "Mohammad Rahman", "Fatima Khan", "Ahmed Hassan", "Lisa Chen"]

  /** `testimonials.length`. */
  const Count: nat := 5

  /** Preview cards are rendered for `testimonials.slice(0, 3)` only. */
  const PreviewCount: nat := 3

  /** The fallback avatar text of the first testimonial. */
  lemma FirstInitials()
    ensures Initials(Names[0]) == "DSA"
  {
    var words := ["Dr.", "Sarah", "Ahmed"];
    assert Join(words, ' ') == Names[0];
    InitialsOfJoinedWords(words);
  }

  class TestimonialsCarouselState {
    var currentIndex: nat
    var isAutoPlaying: bool

    /** The current slide is one of the five. */
    predicate Valid()
      reads this
    {
      currentIndex < Count
    }

    constructor ()
      ensures Valid()
      ensures currentIndex == 0 && isAutoPlaying
    {
      currentIndex := 0;
      isAutoPlaying := true;
    }

    /** `nextTestimonial`. */
    method Next()
      requires Valid()
      modifies this`currentIndex
      ensures Valid()
      ensures currentIndex == NextIndex(old(currentIndex), Count)
    {
      currentIndex := (currentIndex + 1) % Count;
    }

    /** `prevTestimonial`. */
    method Prev()
      requires Valid()
      modifies this`currentIndex
      ensures Valid()
      ensures currentIndex == PrevIndex(old(currentIndex), Count)
    {
      currentIndex := (currentIndex - 1 + Count) % Count;
    }

    /** Clicking dot `k`: there is one dot per testimonial. */
    method SelectDot(k: nat)
      requires k < Count
      modifies this`currentIndex
      ensures Valid()
      ensures currentIndex == k
    {
      currentIndex := k;
    }

    /** Clicking preview card `k`: there are cards for the first three only. */
    method SelectPreview(k: nat)
      requires k < PreviewCount
      modifies this`currentIndex
      ensures Valid()
      ensures currentIndex == k
    {
      currentIndex := k;
    }

    /** The play/pause button. */
    method ToggleAutoPlay()
      modifies this`isAutoPlaying
      ensures isAutoPlaying == !old(isAutoPlaying)
    {
      isAutoPlaying := !isAutoPlaying;
    }

    /** One firing of the autoplay interval, which exists only while
        autoplay is on: it advances the slide then, and nothing otherwise. */
    method AutoPlayTick()
      requires Valid()
      modifies this`currentIndex
      ensures Valid()
      ensures isAutoPlaying ==> currentIndex == NextIndex(old(currentIndex), Count)
      ensures !isAutoPlaying ==> currentIndex == old(currentIndex)
    {
      if isAutoPlaying {
        Next();
      }
    }
  }
}
