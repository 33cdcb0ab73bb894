/** What the slider does after a dot click as the code is written. The click
    handler stores `e.target.dataset.slide`, a string, in `currentSlide`;
    `nextSlide` and `prevSlide` then compare it with numbers by `===` and
    compute `currentSlide + 1` / `currentSlide - 1` with JavaScript's rules,
    and `activateDot` looks the result up through the selector
    `[data-slide="${slide}"]`. */
module DotClickCoercion {
  import opened Decimal
  import SliderSpec

  /** The values `currentSlide` can hold. `===` between two of them is
      datatype equality: a string is never strictly equal to a number. */
  datatype JsValue = Number(num: int) | Text(str: string)

  /** `v + 1`: addition on a number, concatenation on a string. */
  function PlusOne(v: JsValue): JsValue
  {
    match v
    case Number(k) => Number(k + 1)
    case Text(s) => Text(s + "1")
  }

  /** `v - 1`: a string of digits is first converted to its number. */
  function MinusOne(v: JsValue): JsValue
    requires v.Text? ==> AllDigits(v.str)
  {
    match v
    case Number(k) => Number(k - 1)
    case Text(s) => Number(ParseDigits(s) - 1)
  }

  /** `nextSlide`'s update of `currentSlide`, exactly as written. */
  function NextAsWritten(cur: JsValue, maxSlide: int): JsValue
  {
    if cur == Number(maxSlide - 1) then Number(0) else PlusOne(cur)
  }

  /** `prevSlide`'s update of `currentSlide`, exactly as written. */
  function PrevAsWritten(cur: JsValue, maxSlide: int): JsValue
    requires cur.Text? ==> AllDigits(cur.str)
  {
    if cur == Number(0) then Number(maxSlide - 1) else MinusOne(cur)
  }

  /** The text `${v}` puts into the selector. */
  function Rendered(v: JsValue): string
  {
    match v
    case Number(k) => if k >= 0 then Digits(k) else "-" + Digits(-k)
    case Text(s) => s
  }

  /** `activateDot(v)` marks dot `i` (whose `data-slide` is the label of `i`). */
  predicate Selects(v: JsValue, i: nat)
  {
    Digits(i) == Rendered(v)
  }

  /** While `currentSlide` holds a number, the updates as written are the
      model's wraparound steps. */
  lemma OnNumbersAsModelled(cur: int, maxSlide: int)
    requires 0 <= cur < maxSlide
    ensures NextAsWritten(Number(cur), maxSlide) == Number(SliderSpec.Next(cur, maxSlide))
    ensures PrevAsWritten(Number(cur), maxSlide) == Number(SliderSpec.Prev(cur, maxSlide))
  {
  }

  /** After a click on dot `t`, advancing concatenates: from dot 0 no dot
      matches the selector (and `.classList` on the null that `querySelector` returns raises a TypeError in `activateDot`), from dot `t >= 1` the
      selector picks dot `10 * t + 1` if it exists. Either way the dot of the
      next slide is never the one selected. */
  lemma NextAfterDotClickAsWritten(t: nat, maxSlide: nat)
    requires t < maxSlide
    ensures NextAsWritten(Text(Digits(t)), maxSlide) == Text(Digits(t) + "1")
    ensures forall i: nat :: i < maxSlide && Selects(NextAsWritten(Text(Digits(t)), maxSlide), i) ==>
      t >= 1 && i == 10 * t + 1
    ensures !Selects(NextAsWritten(Text(Digits(t)), maxSlide), SliderSpec.Next(t, maxSlide))
  {
    var v := NextAsWritten(Text(Digits(t)), maxSlide);
    if t == 0 {
      assert Rendered(v) == "01";
      forall i: nat
        ensures !Selects(v, i)
      {
        if i == 0 {
          assert |Digits(i)| == 1;
        } else {
          assert Digits(i)[0] != '0';
        }
      }
    } else {
      AppendOne(t);
      forall i: nat | Selects(v, i)
        ensures i == 10 * t + 1
      {
        DigitsInjective(i, 10 * t + 1);
      }
    }
  }

  /** After a click on dot 0, retreating yields the number -1, which no dot's
      label matches (so `.classList` on null raises a TypeError in `activateDot`) instead of the last slide. */
  lemma PrevAfterDotClickAsWritten(maxSlide: nat)
    requires 1 <= maxSlide
    ensures PrevAsWritten(Text(Digits(0)), maxSlide) == Number(-1)
    ensures forall i: nat :: !Selects(PrevAsWritten(Text(Digits(0)), maxSlide), i)
    ensures !Selects(PrevAsWritten(Text(Digits(0)), maxSlide), SliderSpec.Prev(0, maxSlide))
  {
  }

  /** With the label converted to its number at the click, as the slider model
      does, advancing from a clicked dot reaches exactly the next slide's dot. */
  lemma NextAfterDotClickCorrected(t: nat, maxSlide: nat)
    requires t < maxSlide
    ensures NextAsWritten(Number(ParseDigits(Digits(t))), maxSlide) == Number(SliderSpec.Next(t, maxSlide))
    ensures forall i: nat :: i < maxSlide ==>
      (Selects(NextAsWritten(Number(ParseDigits(Digits(t))), maxSlide), i) <==> i == SliderSpec.Next(t, maxSlide))
  {
    ParseDigitsOfDigits(t);
    var n := SliderSpec.Next(t, maxSlide);
    forall i: nat | i < maxSlide
      ensures Selects(Number(n), i) <==> i == n
    {
      DigitsInjective(i, n);
    }
  }

  /** With the label converted to its number at the click, retreating from a
      clicked dot reaches exactly the previous slide's dot, with wraparound. */
  lemma PrevAfterDotClickCorrected(t: nat, maxSlide: nat)
    requires t < maxSlide
    ensures PrevAsWritten(Number(ParseDigits(Digits(t))), maxSlide) == Number(SliderSpec.Prev(t, maxSlide))
    ensures forall i: nat :: i < maxSlide ==>
      (Selects(PrevAsWritten(Number(ParseDigits(Digits(t))), maxSlide), i) <==> i == SliderSpec.Prev(t, maxSlide))
  {
    ParseDigitsOfDigits(t);
    var p := SliderSpec.Prev(t, maxSlide);
    forall i: nat | i < maxSlide
      ensures Selects(Number(p), i) <==> i == p
    {
      DigitsInjective(i, p);
    }
  }
}
