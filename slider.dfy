/** The slider widget: the mutable index `currentSlide`, the `.slide` elements
    whose `translateX` it sets, and the dot buttons it creates and marks.
    Each method is one of the closure's functions or event handlers. */
module SliderWidget {
  import opened Dom
  import opened Decimal
  import opened SliderSpec

  /** A `<button class="dots__dot" data-slide="…">`; `active` is whether it
      carries `dots__dot--active`. */
  datatype Dot = Dot(slide: string, active: bool)

  function Labels(dots: seq<Dot>): seq<string>
  {
    seq(|dots|, i requires 0 <= i < |dots| => dots[i].slide)
  }

  function ActiveFlags(dots: seq<Dot>): seq<bool>
  {
    seq(|dots|, i requires 0 <= i < |dots| => dots[i].active)
  }

  class Slider {
    /** `slides.length`, fixed once the page is loaded. */
    const maxSlide: nat
    /** The `translateX` percentage of each `.slide`, in document order. */
    const slides: array<int>
    var currentSlide: int
    /** The children of the `.dots` container, in document order. */
    var dots: seq<Dot>

    /** One dot per slide, the `i`-th labelled with `i`. */
    ghost predicate DotsCreated()
      reads this
    {
      |dots| == maxSlide && forall i :: 0 <= i < |dots| ==> dots[i].slide == Digits(i)
    }

    /** Between events: the index is in range, every slide is rendered
        relative to it and only its dot is active. */
    ghost predicate Valid()
      reads this, slides
    {
      1 <= maxSlide && slides.Length == maxSlide && 0 <= currentSlide < maxSlide
      && DotsCreated()
      && slides[..] == Offsets(currentSlide, maxSlide)
      && ActiveFlags(dots) == Indicator(currentSlide, maxSlide)
    }

    /** `slider()`: starts at slide 0 and runs `init`. With no slide at all,
        `querySelector` in `activateDot(0)` returns null and `.classList` on
        null raises a TypeError, so one slide is needed. */
    constructor (slideCount: nat)
      requires slideCount >= 1
      ensures Valid() && fresh(slides)
      ensures maxSlide == slideCount && currentSlide == 0
      ensures forall i :: 0 <= i < maxSlide ==> slides[i] == 100 * i
    {
      maxSlide := slideCount;
      slides := new int[slideCount];
      currentSlide := 0;
      dots := [];
      new;
      Init();
    }

    /** `init`: render slide 0, create the dots, activate dot 0. */
    method Init()
      requires 1 <= maxSlide && slides.Length == maxSlide
      requires currentSlide == 0 && dots == []
      modifies this, slides
      ensures Valid() && currentSlide == 0
    {
      GoToSlide(0);
      CreateDots();
      ActivateDot(0);
    }

    /** `createDots`: appends one inactive dot per slide, labelled with its index. */
    method CreateDots()
      modifies this`dots
      ensures |dots| == |old(dots)| + maxSlide && dots[..|old(dots)|] == old(dots)
      ensures forall i :: 0 <= i < maxSlide ==> dots[|old(dots)| + i] == Dot(Digits(i), false)
    {
      var i := 0;
      while i < maxSlide
        invariant 0 <= i <= maxSlide
        invariant |dots| == |old(dots)| + i && dots[..|old(dots)|] == old(dots)
        invariant forall j :: 0 <= j < i ==> dots[|old(dots)| + j] == Dot(Digits(j), false)
      {
        dots := dots + [Dot(Digits(i), false)];
        i := i + 1;
      }
    }

    /** `activateDot(slide)`: clears every dot, then marks the first dot whose
        `data-slide` is `slide`. When there is none, `querySelector` returns
        null and `.classList` on null raises a TypeError; the precondition
        says there is one. */
    method ActivateDot(slide: nat)
      requires DotsCreated() && slide < maxSlide
      modifies this`dots
      ensures DotsCreated()
      ensures ActiveFlags(dots) == Indicator(slide, maxSlide)
    {
      var i := 0;
      while i < |dots|
        invariant 0 <= i <= |dots| && DotsCreated()
        invariant forall j :: 0 <= j < i ==> !dots[j].active
      {
        dots := dots[i := dots[i].(active := false)];
        i := i + 1;
      }
      var found := QuerySelector(Labels(dots), Digits(slide));
      assert Labels(dots)[slide] == Digits(slide);
      var k := found.value;
      DigitsInjective(k, slide);
      dots := dots[k := dots[k].(active := true)];
    }

    /** `goToSlide(slide)`: every slide `i` is translated by `100 * (i - slide)` percent. */
    method GoToSlide(slide: int)
      requires slides.Length == maxSlide
      modifies slides
      ensures slides[..] == Offsets(slide, maxSlide)
    {
      for i := 0 to slides.Length
        invariant forall j :: 0 <= j < i ==> slides[j] == Offset(j, slide)
      {
        slides[i] := Offset(i, slide);
      }
    }

    /** `nextSlide`: advance with wraparound, then render and mark the dot. */
    method NextSlide()
      requires Valid()
      modifies this, slides
      ensures Valid()
      ensures currentSlide == Next(old(currentSlide), maxSlide)
    {
      currentSlide := if currentSlide == maxSlide - 1 then 0 else currentSlide + 1;
      GoToSlide(currentSlide);
      ActivateDot(currentSlide);
    }

    /** `prevSlide`: retreat with wraparound, then render and mark the dot. */
    method PrevSlide()
      requires Valid()
      modifies this, slides
      ensures Valid()
      ensures currentSlide == Prev(old(currentSlide), maxSlide)
    {
      currentSlide := if currentSlide == 0 then maxSlide - 1 else currentSlide - 1;
      GoToSlide(currentSlide);
      ActivateDot(currentSlide);
    }

    /** The `keydown` handler: the left arrow retreats, the right arrow
        advances, any other key does nothing. */
    method OnKeyDown(key: string)
      requires Valid()
      modifies this, slides
      ensures Valid()
      ensures currentSlide == Step(old(currentSlide), maxSlide, KeyDown(key))
      ensures key != "ArrowLeft" && key != "ArrowRight" ==> unchanged(this, slides)
    {
      if key == "ArrowLeft" {
        PrevSlide();
      }
      if key == "ArrowRight" {
        NextSlide();
      }
    }

    /** The dot container's `click` handler. `target` is the dot the click
        landed on, if any. The index becomes the number the dot's `data-slide`
        denotes. The handler assigns the attribute string itself, which breaks
        the strict comparisons of `nextSlide` and `prevSlide` afterwards; this
        method models the intended numeric index (see DotClickCoercion). */
    method OnDotClick(target: Option<nat>)
      requires Valid()
      requires target.Some? ==> target.value < |dots|
      modifies this, slides
      ensures Valid()
      ensures currentSlide == Step(old(currentSlide), maxSlide, DotContainerClick(target))
      ensures target.None? ==> unchanged(this, slides)
    {
      if target.Some? {
        ParseDigitsOfDigits(target.value);
        currentSlide := ParseDigits(dots[target.value].slide);
        GoToSlide(currentSlide);
        ActivateDot(currentSlide);
      }
    }

    /** Routes one user input to its handler: the two buttons, the keyboard
        and the dot container. */
    method Handle(input: Input)
      requires Valid() && Admissible(input, maxSlide)
      modifies this, slides
      ensures Valid()
      ensures currentSlide == Step(old(currentSlide), maxSlide, input)
    {
      match input
      case RightButton => NextSlide();
      case LeftButton => PrevSlide();
      case KeyDown(key) => OnKeyDown(key);
      case DotContainerClick(target) => OnDotClick(target);
    }
  }
}
