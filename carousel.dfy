/** The testimonial carousel (components/Feedback.tsx): the testimonials are cut into slides of
    one (narrow screens) or three, and the arrows move the current slide round the ring. */
module Carousel {

  /** The testimonials shipped with the page. */
  const TestimonialCount: nat := 6

  /** The slides laid end to end. */
  function Flatten<T>(slides: seq<seq<T>>): seq<T> {
    if slides == [] then [] else Flatten(slides[..|slides| - 1]) + slides[|slides| - 1]
  }

  /** `window.innerWidth < 768 ? 1 : 3`. */
  function ItemsPerSlide(width: int): (n: nat)
    ensures n == 1 || n == 3
    ensures n == 1 <==> width < 768
  {
    if width < 768 then 1 else 3
  }

  lemma MulMonotone(a: int, b: int, per: int)
    requires per > 0 && a <= b
    ensures a * per <= b * per
  {
    assert b * per - a * per == (b - a) * per;
  }

  /** The number `k` of slices of length `per` that cover `n` items, the last one partly, is
      the rounded-up quotient. */
  lemma CeilingQuotient(n: nat, per: nat, k: nat)
    requires per >= 1
    requires k * per >= n && (k == 0 || (k - 1) * per < n)
    ensures k == (n + per - 1) / per
  {
    var q := (n + per - 1) / per;
    var r := (n + per - 1) % per;
    assert n + per - 1 == q * per + r && 0 <= r < per;
    if k < q {
      MulMonotone(k, q - 1, per);
    } else if k > q {
      MulMonotone(q, k - 1, per);
    }
  }

  /** The `for` loop pushing `slice(i, i + itemsPerSlide)`: the slides give back the list in
      order, each holds 1 to `per` testimonials, all but the last exactly `per`, and there are
      ⌈|items| / per⌉ of them. */
  method Chunk<T>(items: seq<T>, per: nat) returns (slides: seq<seq<T>>)
    requires per >= 1
    ensures Flatten(slides) == items
    ensures forall k :: 0 <= k < |slides| ==> 0 < |slides[k]| <= per
    ensures forall k :: 0 <= k < |slides| - 1 ==> |slides[k]| == per
    ensures |slides| == (|items| + per - 1) / per
  {
    slides := [];
    var i := 0;
    while i < |items|
      invariant i == |slides| * per
      invariant |slides| == 0 || (|slides| - 1) * per < |items|
      invariant Flatten(slides) == items[..if i < |items| then i else |items|]
      invariant forall k :: 0 <= k < |slides| ==> 0 < |slides[k]| <= per
      invariant forall k :: 0 <= k < |slides| - 1 ==> |slides[k]| == per
      invariant i <= |items| ==> forall k :: 0 <= k < |slides| ==> |slides[k]| == per
      decreases |items| - i
    {
      var end := if i + per < |items| then i + per else |items|;
      var slide := items[i..end];
      assert (slides + [slide])[..|slides|] == slides;
      assert items[..end] == items[..i] + slide;
      slides := slides + [slide];
      assert (|slides| - 1) * per == i;
      i := i + per;
    }
    assert items[..|items|] == items;
    CeilingQuotient(|items|, per, |slides|);
  }

  /** The six testimonials make six slides on a narrow screen and two on a wide one. */
  lemma SlideCounts(width: int)
    ensures (TestimonialCount + ItemsPerSlide(width) - 1) / ItemsPerSlide(width) == if width < 768 then 6 else 2
  {
  }

  /** `nextSlide`: one slide on, wrapping from the last to the first. */
  function NextSlide(prev: int, totalSlides: int): (i: int)
    requires 0 <= prev && totalSlides >= 1
    ensures 0 <= i < totalSlides
    ensures prev < totalSlides - 1 ==> i == prev + 1
    ensures prev == totalSlides - 1 ==> i == 0
  {
    (prev + 1) % totalSlides
  }

  /** `prevSlide`: one slide back, wrapping from the first to the last. */
  function PrevSlide(prev: int, totalSlides: int): (i: int)
    requires 0 <= prev && totalSlides >= 1
    ensures 0 <= i < totalSlides
    ensures 0 < prev < totalSlides ==> i == prev - 1
    ensures prev == 0 ==> i == totalSlides - 1
  {
    (prev - 1 + totalSlides) % totalSlides
  }

  /** On an index in range the two arrows undo each other. */
  lemma NextPrevInverse(i: int, totalSlides: int)
    requires 0 <= i < totalSlides
    ensures PrevSlide(NextSlide(i, totalSlides), totalSlides) == i
    ensures NextSlide(PrevSlide(i, totalSlides), totalSlides) == i
  {
    if i == totalSlides - 1 {
      assert NextSlide(i, totalSlides) == 0;
    } else {
      assert NextSlide(i, totalSlides) == i + 1;
    }
    if i == 0 {
      assert PrevSlide(i, totalSlides) == totalSlides - 1;
    } else {
      assert PrevSlide(i, totalSlides) == i - 1;
    }
  }

  /** The effect run when the slide count changes: an index past the end goes back to 0. */
  function ResetIndex(currentSlide: int, totalSlides: int): (i: int)
    ensures currentSlide >= totalSlides ==> i == 0
    ensures currentSlide < totalSlides ==> i == currentSlide
    ensures 0 <= currentSlide && totalSlides >= 1 ==> 0 <= i < totalSlides
  {
    if currentSlide >= totalSlides then 0 else currentSlide
  }
}
