/**
 * The testimonial slider: a set of slides, a row of indicator dots, the index
 * of the current slide, a `showSlide` routine that renders one slide and its
 * dot, and an interval tick that advances to the next slide.
 */
module Carousel {
  import opened ClassLists
  import opened Wrappers

  const ActiveClass := "active"
  const SelectedDotClass := "bg-cyan-500"
  const IdleDotClass := "bg-gray-700"

  /** The classes of a dot that `showSlide` rewrites; every other class is left alone. */
  const DotStyles: set<string> := {ActiveClass, SelectedDotClass, IdleDotClass}

  /** The slides after the first loop of `showSlide`: no slide is active any more. */
  function ClearedSlides(s: seq<ClassList>): (r: seq<ClassList>)
    ensures |r| == |s|
    ensures forall j :: 0 <= j < |r| ==> ActiveClass !in r[j]
    ensures forall j :: 0 <= j < |r| ==> r[j] - {ActiveClass} == s[j] - {ActiveClass}
  {
    seq(|s|, j requires 0 <= j < |s| => Remove(s[j], ActiveClass))
  }

  /** The slides after `showSlide(index)`: exactly slide `index` is active. */
  function ShownSlides(s: seq<ClassList>, index: nat): (r: seq<ClassList>)
    requires index < |s|
    ensures |r| == |s|
    ensures forall j :: 0 <= j < |r| ==> (ActiveClass in r[j] <==> j == index)
    ensures forall j :: 0 <= j < |r| ==> r[j] - {ActiveClass} == s[j] - {ActiveClass}
  {
    var cleared := ClearedSlides(s);
    cleared[index := Add(cleared[index], ActiveClass)]
  }

  /** A dot put back in the idle style by the second loop of `showSlide`. */
  function IdleDot(c: ClassList): (r: ClassList)
    ensures ActiveClass !in r && SelectedDotClass !in r && IdleDotClass in r
    ensures r - DotStyles == c - DotStyles
  {
    Add(Remove(Remove(c, ActiveClass), SelectedDotClass), IdleDotClass)
  }

  /** A dot given the selected style, after it was made idle. */
  function SelectedDot(c: ClassList): (r: ClassList)
    ensures ActiveClass in r && SelectedDotClass in r && IdleDotClass !in r
    ensures r - DotStyles == c - DotStyles
  {
    Remove(Add(Add(c, ActiveClass), SelectedDotClass), IdleDotClass)
  }

  /** The dots after the second loop of `showSlide`: every dot is idle. */
  function ClearedDots(d: seq<ClassList>): (r: seq<ClassList>)
    ensures |r| == |d|
    ensures forall j :: 0 <= j < |r| ==>
      ActiveClass !in r[j] && SelectedDotClass !in r[j] && IdleDotClass in r[j]
    ensures forall j :: 0 <= j < |r| ==> r[j] - DotStyles == d[j] - DotStyles
  {
    seq(|d|, j requires 0 <= j < |d| => IdleDot(d[j]))
  }

  /**
   * The dots after `showSlide(index)`: dot `index`, when there is one, is the
   * only selected dot; with fewer dots than `index + 1` every dot is idle.
   */
  function ShownDots(d: seq<ClassList>, index: nat): (r: seq<ClassList>)
    ensures |r| == |d|
    ensures forall j :: 0 <= j < |r| ==>
      (ActiveClass in r[j] <==> j == index) &&
      (SelectedDotClass in r[j] <==> j == index) &&
      (IdleDotClass in r[j] <==> j != index)
    ensures forall j :: 0 <= j < |r| ==> r[j] - DotStyles == d[j] - DotStyles
    ensures index >= |d| ==> r == ClearedDots(d)
  {
    var cleared := ClearedDots(d);
    if index < |d| then cleared[index := SelectedDot(cleared[index])] else cleared
  }

  /** The index the interval callback moves to: the successor, wrapping to 0 after the last slide. */
  function NextSlide(current: nat, n: nat): (r: nat)
    requires current < n
    ensures r < n
    ensures r == 0 <==> current == n - 1
    ensures r != 0 ==> r == current + 1
  {
    (current + 1) % n
  }

  /** The current index after `k` ticks from the initial index 0, with no click in between. */
  function SlideAfterTicks(n: nat, k: nat): (r: nat)
    requires n > 0
    ensures r < n
  {
    if k == 0 then 0 else NextSlide(SlideAfterTicks(n, k - 1), n)
  }

  lemma MultipleAtLeast(d: int, n: int)
    requires d >= 1 && n > 0
    ensures d * n >= n
  {
  }

  /** Euclidean division is unique: a quotient and a remainder in range determine `x % n`. */
  lemma ModUnique(x: int, n: int, q: int, r: int)
    requires n > 0 && 0 <= r < n && x == q * n + r
    ensures x % n == r
  {
    var q0, r0 := x / n, x % n;
    assert (q - q0) * n == r0 - r;
    if q > q0 {
      MultipleAtLeast(q - q0, n);
    } else if q < q0 {
      MultipleAtLeast(q0 - q, n);
    }
  }

  lemma ModSuccessor(a: nat, n: nat)
    requires n > 0
    ensures (a + 1) % n == if a % n == n - 1 then 0 else a % n + 1
  {
    var q, r := a / n, a % n;
    if r == n - 1 {
      ModUnique(a + 1, n, q + 1, 0);
    } else {
      ModUnique(a + 1, n, q, r + 1);
    }
  }

  /** Auto-advance is periodic: the k-th tick from the start shows slide k mod n. */
  lemma {:induction false} TicksArePeriodic(n: nat, k: nat)
    requires n > 0
    ensures SlideAfterTicks(n, k) == k % n
    ensures n > 1 && k == 1 ==> SlideAfterTicks(n, k) == 1
  {
    if k > 0 {
      TicksArePeriodic(n, k - 1);
      ModSuccessor(k - 1, n);
    }
  }

  /** Showing the same slide twice leaves the slides as showing it once. */
  lemma ShowSlidesIdempotent(s: seq<ClassList>, index: nat)
    requires index < |s|
    ensures ShownSlides(ShownSlides(s, index), index) == ShownSlides(s, index)
  {
  }

  /** Selecting the same dot twice leaves the dots as selecting it once. */
  lemma ShowDotsIdempotent(d: seq<ClassList>, index: nat)
    ensures ShownDots(ShownDots(d, index), index) == ShownDots(d, index)
  {
    var once := ShownDots(d, index);
    var twice := ShownDots(once, index);
    forall j | 0 <= j < |d| ensures twice[j] == once[j] {
      assert twice[j] - DotStyles == once[j] - DotStyles;
      assert ActiveClass in twice[j] <==> ActiveClass in once[j];
      assert SelectedDotClass in twice[j] <==> SelectedDotClass in once[j];
      assert IdleDotClass in twice[j] <==> IdleDotClass in once[j];
    }
  }

  /**
   * The slider built by `initTestimonialSlider`: the slides and dots found in the
   * page (queried once) and the captured `currentSlide` index.
   */
  class Slider {
    const slides: array<ClassList>
    const dots: array<ClassList>
    var currentSlide: nat

    /** The slider exists only with at least one slide, and `currentSlide` always names one. */
    ghost predicate Valid()
      reads this
    {
      slides != dots && currentSlide < slides.Length
    }

    /** Exactly the current slide is active and exactly its dot, if any, is selected. */
    ghost predicate Rendered()
      reads this, slides, dots
    {
      (forall j :: 0 <= j < slides.Length ==> (ActiveClass in slides[j] <==> j == currentSlide)) &&
      (forall j :: 0 <= j < dots.Length ==>
        (ActiveClass in dots[j] <==> j == currentSlide) &&
        (SelectedDotClass in dots[j] <==> j == currentSlide) &&
        (IdleDotClass in dots[j] <==> j != currentSlide))
    }

    /** The slider starts at index 0 and renders nothing: the page's own markup is kept. */
    constructor (slides: array<ClassList>, dots: array<ClassList>)
      requires slides.Length > 0 && slides != dots
      ensures Valid()
      ensures this.slides == slides && this.dots == dots && currentSlide == 0
    {
      this.slides := slides;
      this.dots := dots;
      currentSlide := 0;
    }

    /**
     * `showSlide(index)`. Both loops always run; an index past the last slide
     * then throws a TypeError at `slides[index]`, after every slide and dot has
     * been cleared and before `currentSlide` is updated.
     */
    method ShowSlide(index: nat) returns (thrown: bool)
      requires Valid()
      modifies this, slides, dots
      ensures Valid()
      ensures thrown <==> index >= slides.Length
      ensures !thrown ==>
        slides[..] == ShownSlides(old(slides[..]), index) &&
        dots[..] == ShownDots(old(dots[..]), index) &&
        currentSlide == index && Rendered()
      ensures thrown ==>
        slides[..] == ClearedSlides(old(slides[..])) &&
        dots[..] == ClearedDots(old(dots[..])) &&
        currentSlide == old(currentSlide)
    {
      for j := 0 to slides.Length
        invariant forall k :: 0 <= k < j ==> slides[k] == Remove(old(slides[k]), ActiveClass)
        invariant forall k :: j <= k < slides.Length ==> slides[k] == old(slides[k])
        invariant dots[..] == old(dots[..]) && currentSlide == old(currentSlide)
      {
        slides[j] := Remove(slides[j], ActiveClass);
      }
      assert slides[..] == ClearedSlides(old(slides[..]));

      for j := 0 to dots.Length
        invariant forall k :: 0 <= k < j ==> dots[k] == IdleDot(old(dots[k]))
        invariant forall k :: j <= k < dots.Length ==> dots[k] == old(dots[k])
        invariant slides[..] == ClearedSlides(old(slides[..])) && currentSlide == old(currentSlide)
      {
        dots[j] := IdleDot(dots[j]);
      }
      assert dots[..] == ClearedDots(old(dots[..]));

      if index >= slides.Length {
        thrown := true;
        return;
      }
      slides[index] := Add(slides[index], ActiveClass);
      if index < dots.Length {
        dots[index] := SelectedDot(dots[index]);
      }
      currentSlide := index;
      thrown := false;
    }

    /** The interval callback: show the slide after the current one. */
    method Tick()
      requires Valid()
      modifies this, slides, dots
      ensures Valid()
      ensures currentSlide == NextSlide(old(currentSlide), slides.Length)
      ensures slides[..] == ShownSlides(old(slides[..]), currentSlide)
      ensures dots[..] == ShownDots(old(dots[..]), currentSlide)
      ensures Rendered()
    {
      var next := NextSlide(currentSlide, slides.Length);
      var _ := ShowSlide(next);
    }

    /** The click handler of dot `i`: `showSlide(i)`, which throws when there is no slide `i`. */
    method ClickDot(i: nat) returns (thrown: bool)
      requires Valid() && i < dots.Length
      modifies this, slides, dots
      ensures Valid()
      ensures thrown <==> i >= slides.Length
      ensures !thrown ==> currentSlide == i && Rendered()
      ensures !thrown ==>
        slides[..] == ShownSlides(old(slides[..]), i) && dots[..] == ShownDots(old(dots[..]), i)
      ensures thrown ==> slides[..] == ClearedSlides(old(slides[..])) && dots[..] == ClearedDots(old(dots[..]))
      ensures thrown ==>
        (forall j :: 0 <= j < slides.Length ==> ActiveClass !in slides[j]) &&
        (forall j :: 0 <= j < dots.Length ==> ActiveClass !in dots[j]) &&
        currentSlide == old(currentSlide)
    {
      thrown := ShowSlide(i);
    }

    /** The click handler with dots past the last slide ignored, as the slider's design intends. */
    method ClickDotIgnoringExtra(i: nat)
      requires Valid() && i < dots.Length
      modifies this, slides, dots
      ensures Valid()
      ensures i < slides.Length ==> currentSlide == i && Rendered()
      ensures i < slides.Length ==>
        slides[..] == ShownSlides(old(slides[..]), i) && dots[..] == ShownDots(old(dots[..]), i)
      ensures i >= slides.Length ==>
        currentSlide == old(currentSlide) && slides[..] == old(slides[..]) && dots[..] == old(dots[..])
      ensures old(Rendered()) ==> Rendered()
    {
      if i < slides.Length {
        var _ := ShowSlide(i);
      }
    }
  }

  /**
   * `initTestimonialSlider`: with no slides there is no slider (no click handler,
   * no interval); otherwise a slider at index 0 that has not rendered anything yet.
   */
  method InitTestimonialSlider(slides: array<ClassList>, dots: array<ClassList>) returns (slider: Option<Slider>)
    requires slides != dots
    ensures slider.None? <==> slides.Length == 0
    ensures slider.Some? ==>
      fresh(slider.value) && slider.value.Valid() && slider.value.currentSlide == 0 &&
      slider.value.slides == slides && slider.value.dots == dots
  {
    if slides.Length == 0 {
      return None;
    }
    var s := new Slider(slides, dots);
    slider := Some(s);
  }

  /**
   * One slide and two dots: after a tick, a click on the second dot leaves no
   * slide visible at all.
   */
  method ExtraDotScenario() returns (anySlideShown: bool)
    ensures !anySlideShown
  {
    var slides := new ClassList[1](_ => {});
    var dots := new ClassList[2](_ => {});
    var slider := new Slider(slides, dots);
    slider.Tick();
    assert ActiveClass in slides[0];
    var thrown := slider.ClickDot(1);
    anySlideShown := ActiveClass in slides[0];
  }

  /**
   * Three slides and dots: clicking dot 2 shows slide 2, and the next tick
   * wraps around to slide 0.
   */
  method ClickThenTickScenario()
    returns (afterClick: nat, clickShowsSlide2: bool, afterTick: nat, tickShowsSlide0: bool)
    ensures afterClick == 2 && clickShowsSlide2
    ensures afterTick == 0 && tickShowsSlide0
  {
    var slides := new ClassList[3](_ => {});
    var dots := new ClassList[3](_ => {});
    var slider := new Slider(slides, dots);
    var _ := slider.ClickDot(2);
    afterClick := slider.currentSlide;
    clickShowsSlide2 := ActiveClass in slides[2] && ActiveClass !in slides[0] &&
      ActiveClass !in slides[1] && SelectedDotClass in dots[2];
    slider.Tick();
    afterTick := slider.currentSlide;
    tickShowsSlide0 := ActiveClass in slides[0];
  }
}
