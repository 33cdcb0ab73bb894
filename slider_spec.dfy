/** What the slider shows as a function of its index: the wraparound steps of
    `nextSlide` and `prevSlide`, the offsets `goToSlide` renders, the dot that
    `activateDot` marks, and the index after any sequence of user inputs. */
module SliderSpec {
  import opened Dom

  /** Index after `nextSlide`: the last slide wraps to the first. */
  function Next(cur: int, maxSlide: int): (r: int)
    ensures 0 <= cur < maxSlide ==> 0 <= r < maxSlide && r == (cur + 1) % maxSlide
  {
    if cur == maxSlide - 1 then 0 else cur + 1
  }

  /** Index after `prevSlide`: the first slide wraps to the last. */
  function Prev(cur: int, maxSlide: int): (r: int)
    ensures 0 <= cur < maxSlide ==> 0 <= r < maxSlide && r == (cur - 1) % maxSlide
  {
    if cur == 0 then maxSlide - 1 else cur - 1
  }

  /** Retreating undoes advancing, and advancing undoes retreating. */
  lemma NextPrevInverse(cur: int, maxSlide: int)
    requires 0 <= cur < maxSlide
    ensures Prev(Next(cur, maxSlide), maxSlide) == cur
    ensures Next(Prev(cur, maxSlide), maxSlide) == cur
  {
  }

  /** `nextSlide` applied `k` times. */
  function NextIter(cur: int, maxSlide: int, k: nat): int
  {
    if k == 0 then cur else Next(NextIter(cur, maxSlide, k - 1), maxSlide)
  }

  /** `prevSlide` applied `k` times. */
  function PrevIter(cur: int, maxSlide: int, k: nat): int
  {
    if k == 0 then cur else Prev(PrevIter(cur, maxSlide, k - 1), maxSlide)
  }

  /** Up to one full turn, `k` advances move the index `k` places forward,
      modulo the number of slides. */
  lemma {:induction false} NextIterShift(cur: int, maxSlide: int, k: nat)
    requires 0 <= cur < maxSlide && k <= maxSlide
    ensures NextIter(cur, maxSlide, k) == if cur + k < maxSlide then cur + k else cur + k - maxSlide
  {
    if k > 0 {
      NextIterShift(cur, maxSlide, k - 1);
    }
  }

  /** Up to one full turn, `k` retreats move the index `k` places back,
      modulo the number of slides. */
  lemma {:induction false} PrevIterShift(cur: int, maxSlide: int, k: nat)
    requires 0 <= cur < maxSlide && k <= maxSlide
    ensures PrevIter(cur, maxSlide, k) == if k <= cur then cur - k else cur - k + maxSlide
  {
    if k > 0 {
      PrevIterShift(cur, maxSlide, k - 1);
    }
  }

  /** Advancing once per slide returns to the starting slide; so does retreating. */
  lemma Cycle(cur: int, maxSlide: int)
    requires 0 <= cur < maxSlide
    ensures NextIter(cur, maxSlide, maxSlide) == cur
    ensures PrevIter(cur, maxSlide, maxSlide) == cur
  {
    NextIterShift(cur, maxSlide, maxSlide);
    PrevIterShift(cur, maxSlide, maxSlide);
  }

  /** Horizontal translation, in percent, that `goToSlide(s)` gives the slide at `i`. */
  function Offset(i: int, s: int): int
  {
    100 * (i - s)
  }

  /** Offsets of all slides after `goToSlide(s)`: the shown slide sits at 0,
      earlier ones to the left, later ones to the right, one full width apart. */
  function Offsets(s: int, maxSlide: nat): (r: seq<int>)
    ensures |r| == maxSlide
    ensures forall i :: 0 <= i < maxSlide ==>
      (r[i] == 0 <==> i == s) && (r[i] < 0 <==> i < s) && (r[i] > 0 <==> i > s)
    ensures forall i :: 0 < i < maxSlide ==> r[i] == r[i - 1] + 100
  {
    seq(maxSlide, i => Offset(i, s))
  }

  /** Active flags of the dots after `activateDot(s)`: exactly one dot is
      active, the one for slide `s`. */
  function Indicator(s: int, maxSlide: nat): (r: seq<bool>)
    ensures |r| == maxSlide
    ensures 0 <= s < maxSlide ==> CountTrue(r) == 1 && r[s]
  {
    var r := seq(maxSlide, i => i == s);
    if 0 <= s < maxSlide then OnlyAtIff(r, s); r else r
  }

  /** The user actions the slider listens to. `DotContainerClick(Some(t))` is a
      click on the `t`-th dot; `None` is a click in the dot container that
      misses every dot. */
  datatype Input =
    | RightButton
    | LeftButton
    | KeyDown(key: string)
    | DotContainerClick(target: Option<nat>)

  /** A click can only land on a dot that exists. */
  predicate Admissible(input: Input, maxSlide: nat)
  {
    input.DotContainerClick? && input.target.Some? ==> input.target.value < maxSlide
  }

  /** Index after one input. The dot with position `t` carries `data-slide` `t`,
      so a click on it selects slide `t` (with the number, not the attribute
      string, as the index). */
  function Step(cur: int, maxSlide: nat, input: Input): int
  {
    match input
    case RightButton => Next(cur, maxSlide)
    case LeftButton => Prev(cur, maxSlide)
    case KeyDown(key) =>
      if key == "ArrowLeft" then Prev(cur, maxSlide)
      else if key == "ArrowRight" then Next(cur, maxSlide)
      else cur
    case DotContainerClick(target) =>
      if target.Some? then target.value else cur
  }

  /** Index after a sequence of inputs, handled one after the other. */
  function Run(cur: int, maxSlide: nat, inputs: seq<Input>): int
    decreases inputs
  {
    if inputs == [] then cur else Run(Step(cur, maxSlide, inputs[0]), maxSlide, inputs[1..])
  }

  /** Whatever the user does, the index stays a valid slide index. */
  lemma {:induction false} RunStaysInRange(cur: int, maxSlide: nat, inputs: seq<Input>)
    requires 0 <= cur < maxSlide
    requires forall j :: 0 <= j < |inputs| ==> Admissible(inputs[j], maxSlide)
    ensures 0 <= Run(cur, maxSlide, inputs) < maxSlide
    decreases inputs
  {
    if inputs != [] {
      assert Admissible(inputs[0], maxSlide);
      assert forall j :: 0 <= j < |inputs| - 1 ==> inputs[1..][j] == inputs[j + 1];
      RunStaysInRange(Step(cur, maxSlide, inputs[0]), maxSlide, inputs[1..]);
    }
  }

  /** The index is reached by advancing from slide 0 exactly `cur` times, so
      the slider can show every slide. */
  lemma {:induction false} EverySlideReachable(cur: int, maxSlide: nat)
    requires 0 <= cur < maxSlide
    ensures NextIter(0, maxSlide, cur) == cur
  {
    NextIterShift(0, maxSlide, cur);
  }

  /** Three slides: retreating from the first shows the last; advancing from
      the last shows the first; a jump to dot 1 shows slide 1. */
  lemma ThreeSlides()
    ensures Prev(0, 3) == 2 && Offsets(2, 3) == [-200, -100, 0] && Indicator(2, 3) == [false, false, true]
    ensures Next(2, 3) == 0 && Offsets(0, 3) == [0, 100, 200] && Indicator(0, 3) == [true, false, false]
    ensures Step(0, 3, DotContainerClick(Some(1))) == 1 && Offsets(1, 3)[1] == 0
  {
  }
}
