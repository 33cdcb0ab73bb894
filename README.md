# Bankist landing page: slider and tabs

This project is a Dafny model of the two stateful widgets of the Bankist landing page script.

**The image slider.** A mutable index `currentSlide` runs over a fixed list of `.slide` elements.
- `nextSlide` and `prevSlide` move the index with wraparound.
- `goToSlide` translates every slide by `100 * (i - slide)` percent.
- `activateDot` clears every dot button and marks the one whose `data-slide` is the index.
- `init` renders slide 0, creates one dot per slide and marks dot 0.
- Handlers: the two buttons, the arrow keys and a click on a dot.

**The tabbed "operations" component.** Hovering a tab clears every tab and content panel. It then activates that tab and the panel whose key is the tab's `data-tab`.

Layout:
- `dom.dfy` (module `Dom`): `querySelector` as a first-match scan, plus "exactly one element carries the class" in both directions.
- `decimal.dfy` (module `Decimal`): the `data-slide` labels, written `${i}`, and their numeric value.
- `slider_spec.dfy` (module `SliderSpec`): the slider as pure functions of the index. It holds the wraparound steps, the offsets, the active-dot flags and the index after any sequence of inputs, with the lemmas about them.
- `slider.dfy` (module `SliderWidget`): class `Slider`. Its fields are the index, the slides' offsets (an `array<int>`) and the dot container's children (a `seq<Dot>` that `CreateDots` appends to). Each method is proved against `SliderSpec`. `Valid()` says that the offsets and the dots agree with the index.
- `tabs.dfy` (module `Tabs`): class `TabbedComponent`. It has two `array<bool>` fields of active flags, one for the tabs and one for the panels.
- `dot_click_coercion.dfy` (module `DotClickCoercion`): what `nextSlide` and `prevSlide` do once a dot click has stored a string in `currentSlide`. See "## Findings".

The dot-click handler stores the `data-slide` string (script.js:237). `SliderWidget.Slider.OnDotClick` stores the label's number, which is the evident intent, and `DotClickCoercion` models the string behaviour. `SliderSpec.ThreeSlides` checks `100 * (i - slide)` on three slides; for example, slide 0 is at -200 when slide 2 is shown.

## Model

| member | source | states |
|---|---|---|
| `SliderSpec.Next` | script.js:209 | For an index in range, the next index is in range and equals the index plus one modulo the slide count. |
| `SliderSpec.Prev` | script.js:215 | For an index in range, the previous index is in range and equals the index minus one modulo the slide count. |
| `SliderSpec.NextPrevInverse` | script.js:208-218 | Retreating after advancing restores the index, and so does advancing after retreating. |
| `SliderSpec.NextIterShift` | script.js:208-212 | Up to one full turn, `k` advances move the index `k` places forward with wraparound. |
| `SliderSpec.PrevIterShift` | script.js:214-218 | Up to one full turn, `k` retreats move the index `k` places back with wraparound. |
| `SliderSpec.Cycle` | script.js:208-218 | Advancing once per slide returns to the starting index, and so does retreating once per slide. |
| `SliderSpec.EverySlideReachable` | script.js:208-212 | Every slide is reached from slide 0 by advancing as many times as its index. |
| `SliderSpec.Offsets` | script.js:202-206 | The shown slide has offset 0, earlier slides negative, later slides positive, and neighbours are 100 apart. |
| `SliderSpec.Indicator` | script.js:193-200 | For an index in range, exactly one dot is active, and it is the dot of that index. |
| `SliderSpec.RunStaysInRange` | script.js:227-241 | After any sequence of button clicks, key presses and dot clicks, the index is still a valid slide index. |
| `SliderSpec.ThreeSlides` | script.js:202-218 | With three slides: retreating from 0 shows slide 2 at offsets -200, -100, 0 with dot 2 active; advancing from 2 shows slide 0; dot 1 selects slide 1. |
| `SliderWidget.Slider.constructor` | script.js:173-225 | A slider with at least one slide starts at index 0, with slide `i` at offset `100 * i`, one dot per slide and only dot 0 active. |
| `SliderWidget.Slider.Init` | script.js:220-224 | Rendering slide 0, creating the dots and activating dot 0 establishes the invariant at index 0. |
| `SliderWidget.Slider.CreateDots` | script.js:184-191 | Appends one inactive dot per slide, the `i`-th labelled `i`, and keeps the existing children. |
| `SliderWidget.Slider.ActivateDot` | script.js:193-200 | Afterwards exactly the dot labelled with the slide is active, and the labels are unchanged. |
| `SliderWidget.Slider.GoToSlide` | script.js:202-206 | Every slide `i` gets offset `100 * (i - slide)`. |
| `SliderWidget.Slider.NextSlide` | script.js:208-212 | The index becomes `Next` of the old index, and the offsets and the active dot follow it. |
| `SliderWidget.Slider.PrevSlide` | script.js:214-218 | The index becomes `Prev` of the old index, and the offsets and the active dot follow it. |
| `SliderWidget.Slider.OnKeyDown` | script.js:230-233 | ArrowLeft retreats, ArrowRight advances, and any other key changes nothing. |
| `SliderWidget.Slider.OnDotClick` | script.js:235-241 | A click on dot `t` makes `t` the index and re-renders. A click that misses every dot changes nothing. |
| `SliderWidget.Slider.Handle` | script.js:227-241 | Each input updates the index as `SliderSpec.Step` says and keeps the invariant. |
| `Dom.QuerySelector` | script.js:197-199 | Returns the first element carrying the key, or none when no element carries it. |
| `Dom.OnlyAtIff` | script.js:193-200 | "Only element `k` is active" holds exactly when one element is active and `k` is active. |
| `Dom.NoneTrue` | script.js:194-196 | No element is active exactly when the count of active elements is 0. |
| `Decimal.Digits` | script.js:188 | A label is a non-empty digit string, starts with '0' only for 0, and has one character exactly below 10. |
| `Decimal.ParseDigitsOfDigits` | script.js:188 | Converting a dot's label back to a number gives the slide index. |
| `Decimal.DigitsInjective` | script.js:198 | Two slides have the same label exactly when they are the same slide. |
| `Decimal.AppendOne` | script.js:209 | Appending "1" to the label of a positive `t` gives the label of `10 * t + 1`. |
| `Tabs.TabbedComponent.constructor` | script.js:75-77 | The tabs, the panels and their active flags are as the page markup gives them. |
| `Tabs.TabbedComponent.Mouseover` | script.js:79-90 | Outside every tab nothing changes. On a tab, that tab is the one active tab and the first panel keyed by its `data-tab` is the one active panel. `thrown` holds exactly when no panel has that key, after the clearing and the tab's activation. |
| `DotClickCoercion.OnNumbersAsModelled` | script.js:208-218 | While the index holds a number, the updates as written agree with `Next` and `Prev`. |
| `DotClickCoercion.NextAfterDotClickAsWritten` | script.js:208-241 | After a click on dot `t`, advancing gives the string label of `t` followed by "1". It selects no dot when `t` is 0, otherwise at most dot `10 * t + 1`. It never selects the next slide's dot. |
| `DotClickCoercion.PrevAfterDotClickAsWritten` | script.js:214-241 | After a click on dot 0, retreating gives -1. No dot matches -1, so the last slide's dot is not selected. |
| `DotClickCoercion.NextAfterDotClickCorrected` | script.js:208-241 | If the label is converted to its number at the click, advancing selects exactly the next slide's dot. |
| `DotClickCoercion.PrevAfterDotClickCorrected` | script.js:214-241 | If the label is converted to its number at the click, retreating selects exactly the previous slide's dot. |

## Left out

- Modal, cookie banner, smooth scrolling, `randint`/`randColor`, the navigation hover fade, the sticky header, section reveal and lazy images (script.js:1-71, 92-169): DOM, floating-point, random-number and IntersectionObserver effects with no index logic.
- `sliderEl.style.overflow = 'visible'` (script.js:182): a single style write.
- Event-listener registration and element lookups by class (script.js:75-77, 175-179, 227-235): each handler is a method. The element that `e.target`, `closest` or the `dots__dot` class check resolves to is a parameter (`Option<nat>`: which tab or dot, or none).
- `style.transform` strings: each slide's offset is the integer percentage inside `translateX(…%)`.
- The string stored by a dot click (script.js:237): `SliderWidget.Slider.OnDotClick` stores the label's number. Its literal effect is modelled separately in `DotClickCoercion`.
- SliderWidget.Slider.constructor: needs at least one slide. With none, `querySelector` in `activateDot(0)` returns null during `init` and `.classList` on null raises a TypeError.
- SliderWidget.Slider.constructor: assumes the page markup leaves the `.dots` container empty. `createDots` appends `beforeend` to whatever children are already there (script.js:186), and `SliderWidget.Slider.Init` requires there are none.
- SliderWidget.Slider.ActivateDot: requires a dot for the slide to exist. Otherwise `querySelector` returns null and `.classList` on null raises a TypeError.
- The tab panel lookup `.operations__content--${key}` is modelled as equality of each panel's key with the tab's `data-tab`, over the `.operations__content` list only. Panels carrying several such classes are not modelled. The source's lookup is document-wide (script.js:87-88): an element outside that list carrying `operations__content--<key>` would be activated and never cleared by script.js:84, and the model does not capture it.

## Findings

| source | as written | input that shows it | evidently intended | confidence | as-written member | corrected member |
|---|---|---|---|---|---|---|
| script.js:237 | A dot click stores the `data-slide` string. `nextSlide` then fails `===` against a number and concatenates "1". | 3 slides; click dot 0, then the right button: the index becomes "01", no dot matches, and `activateDot` throws on null | the index becomes 1 | high; not executed | `DotClickCoercion.NextAfterDotClickAsWritten` | `DotClickCoercion.NextAfterDotClickCorrected` |
| script.js:237 | A dot click stores the `data-slide` string. After dot 0, `prevSlide` fails `=== 0` and computes "0" - 1 = -1. | 3 slides; click dot 0, then the left button: the index becomes -1, no dot matches, and `activateDot` throws on null | the index wraps to 2 | high; not executed | `DotClickCoercion.PrevAfterDotClickAsWritten` | `DotClickCoercion.PrevAfterDotClickCorrected` |
