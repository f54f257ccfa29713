# Portfolio page script: project slider and typewriter

This project models the two stateful parts of the portfolio page's
`script.js` and proves properties of them in Dafny.

- **Project slider** (module `ProjectSlider`). Each `.slider-wrapper` region
  gets one carousel (class `Slider`). A carousel holds:
  - `currentIndex`,
  - a fixed `totalSlides`,
  - one `active` flag per indicator dot (a `bool` array),
  - the `disabled` flags of the prev and next buttons,
  - the horizontal offset in percent,
  - the recorded touch coordinates.

  `goToSlide` clamps its request. `nextSlide` and `prevSlide` are guarded
  single steps. Every move re-runs `updateSlider`, which re-derives the dots,
  the button flags and the offset from the index.

  Input comes from three places. Button clicks and arrow keys call
  `nextSlide`/`prevSlide`. The key listener sits on the document, so one key
  press moves every slider (`BroadcastKey`). A swipe navigates only when its
  distance is outside a ±50 dead zone. `InitProjectSlider` turns the list of
  regions on the page into sliders. A region missing a required element is
  skipped with a warning, and a page with no region at all logs one warning.
- **Typewriter** (module `TypingAnimation`). The state is a phrase index, a
  character count and a direction flag, over four fixed phrases. Each call of
  `typeEffect` (class `Typewriter`, method `TypeEffect`, specified by the pure
  function `Step`) does three things:
  - moves one character,
  - returns the prefix to show,
  - returns the delay before the next call: 100, 1500, 50 or 500 ms.

Each slider method is proved against the pure functions `Clamp`, `NextIndex`,
`PrevIndex` and `Render`. The object invariant `Slider.Valid()` states that
the index is in range and that the shown UI equals `Render(currentIndex,
totalSlides)`. The lemmas then state what that rendering and those steps
mean.

With zero slides, `nextBtn.disabled = (0 === -1)` is false, so the next
button stays enabled although `nextSlide` does nothing; lemma `ZeroSlides`
states this.

## Model

| member | source | states |
|---|---|---|
| `ProjectSlider.Clamp` | script.js:171-174 | goToSlide's index is 0 below the range, `n-1` above it, the request itself inside it, and 0 when there are no slides |
| `ProjectSlider.NextIndex` | script.js:177-182 | nextSlide adds 1 exactly when the index is below `n-1`, otherwise leaves it, and keeps the index in range |
| `ProjectSlider.PrevIndex` | script.js:185-190 | prevSlide subtracts 1 exactly when the index is above 0, otherwise leaves it (no wrap-around), and keeps the index in range |
| `ProjectSlider.CountDotFlags` | script.js:165 | after a render the number of active dots is 1 when the index names a slide and 0 otherwise |
| `ProjectSlider.ExactlyOneDotActive` | script.js:163-168 | with at least one slide, exactly one dot is active after a render, and it is the dot at `currentIndex` |
| `ProjectSlider.PrevDisabledIffStuck` | script.js:166 | the prev button is disabled exactly when prevSlide would not move |
| `ProjectSlider.NextDisabledIffStuck` | script.js:167 | with at least one slide, the next button is disabled exactly when nextSlide would not move |
| `ProjectSlider.ZeroSlides` | script.js:167-172 | with no slides goToSlide yields 0 and there are no dots; prev is disabled, next is not, and nextSlide does nothing |
| `ProjectSlider.ClampIdempotent` | script.js:172 | goToSlide applied to its own result changes nothing, and its result is always a valid index |
| `ProjectSlider.StepsAreClampedGoTo` | script.js:172-188 | from a valid index, nextSlide equals goToSlide(index+1) and prevSlide equals goToSlide(index-1) |
| `ProjectSlider.NextPrevInverse` | script.js:177-190 | a step that moved is undone by the opposite step |
| `ProjectSlider.NextTimesClamps` | script.js:177-182 | k presses of next from a valid index give goToSlide(index+k): they saturate at the last slide and never wrap |
| `ProjectSlider.PrevTimesClamps` | script.js:185-190 | k presses of prev from a valid index give goToSlide(index-k): they saturate at slide 0 and never wrap |
| `ProjectSlider.SwipeDeadZone` | script.js:217-222 | a swipe moves forward iff `startX-endX > 50` and back iff `< -50`; a distance of at most 50, exactly 50 included, does nothing; reversing a swipe reverses its direction |
| `ProjectSlider.ArrowRightFromFirstOfFour` | script.js:204-207 | four slides at index 0: one right-arrow press gives index 1, only the second dot active, both buttons enabled, offset -100 |
| `ProjectSlider.RegionsPartition` | script.js:129-144 | every region either becomes a slider or is skipped with a warning; a page without regions logs a single warning |
| `ProjectSlider.AllCompleteNoWarnings` | script.js:134-148 | when every region has its four elements, there is one slider per region, in page order, with that region's slide count, and no warning |
| `ProjectSlider.Slider.constructor` | script.js:146-158 | builds one dot per slide, starts at index 0 and renders; afterwards the UI is the rendering of index 0, so dot 0 is the only active dot |
| `ProjectSlider.Slider.UpdateSlider` | script.js:163-168 | the dots, the button flags and the offset `-(currentIndex*100)` become the rendering of the unchanged index |
| `ProjectSlider.Slider.GoToSlide` | script.js:156-174 | the index becomes `Clamp(index, totalSlides)` and the UI is its rendering |
| `ProjectSlider.Slider.NextSlide` | script.js:177-182 | the index becomes `NextIndex` of the old one; at the last slide nothing at all changes, and the render is not re-run |
| `ProjectSlider.Slider.PrevSlide` | script.js:185-190 | the index becomes `PrevIndex` of the old one; at slide 0 nothing at all changes |
| `ProjectSlider.Slider.OnKeyDown` | script.js:204-207 | ArrowLeft applies prevSlide, ArrowRight applies nextSlide, any other key changes nothing; the touch coordinates are kept |
| `ProjectSlider.Slider.OnTouchStart` | script.js:213-215 | records the start coordinate |
| `ProjectSlider.Slider.OnTouchEnd` | script.js:217-223 | applies exactly the one step `SwipeNav` chooses; inside the dead zone the index and UI are unchanged |
| `ProjectSlider.BroadcastKey` | script.js:204-207 | one key press applies the same step to every slider on the page, each on its own index, keeps each slider valid and keeps its touch coordinates |
| `ProjectSlider.InitProjectSlider` | script.js:126-148 | one fresh, rendered slider at index 0 with touch coordinates 0 per complete region, in page order, with no shared state; the warnings logged are `Warnings(regions)` |
| `TypingAnimation.Step` | script.js:74-99 | typing adds one character, and the delay is 1500 on reaching the phrase length, else 100. Deleting removes one character; at 0 typing restarts on phrase `(roleIndex+1) % 4` with delay 500, else the delay is 50. The text shown is the prefix of the current phrase, and the state invariant is preserved |
| `TypingAnimation.StepTimes` | script.js:62-99 | any number of ticks from a reachable state stays within `0 <= roleIndex < 4` and `charIndex` between 0 and the phrase length |
| `TypingAnimation.StepTimesAdd` | script.js:83-96 | a+b ticks are a ticks followed by b ticks |
| `TypingAnimation.TypingPhase` | script.js:77-86 | typing completes the phrase after exactly the missing number of ticks and then switches to deleting |
| `TypingAnimation.DeletingPhase` | script.js:87-97 | deleting empties the phrase after exactly `charIndex` ticks and starts typing the next phrase, wrapping after the last |
| `TypingAnimation.RoleCycle` | script.js:74-99 | one phrase takes twice its length in ticks and leads to the next phrase |
| `TypingAnimation.FirstPhraseTyped` | script.js:62-86 | from "Web Developer" with nothing shown, 13 ticks type the whole phrase and switch to deleting |
| `TypingAnimation.Periodic` | script.js:62-99 | after 114 ticks, twice the total length of the four phrases, the animation is back in its initial state |
| `TypingAnimation.Typewriter.constructor` | script.js:70-72 | starts at phrase 0, no characters, typing |
| `TypingAnimation.Typewriter.TypeEffect` | script.js:74-99 | updates the three fields in place and returns the shown text and the delay, exactly as `Step` prescribes, keeping the invariant |

## Left out

- DOM lookup (`querySelectorAll`, `parentElement`) is modelled as a list of `Region` values. Each value has four presence flags and a slide count. The `console.warn` messages are modelled only as a count of warnings.
- Event listener registration, `preventDefault`, `setTimeout` scheduling, `innerHTML` markup and CSS transform strings are not modelled. The model keeps the chosen delay, the shown prefix (without the cursor markup) and the integer offset in percent.
- The timer chain: `initTypingAnimation` calls `typeEffect` once at start-up and then through a timer forever. The model gives the step and the state after k steps, not the timer chain.
- The `.webdev` element being absent is not modelled: the script would fail when writing `innerHTML`.
- Slider.OnTouchEnd: touch coordinates (`screenX`) are modelled as integers, not floating-point numbers.
- The order in which the document runs the key listeners of several sliders is the page order. The sliders share no state, so `BroadcastKey` processes them in sequence order.
- Skill bars and scroll reveals (`IntersectionObserver` callbacks) are not modelled. They only toggle CSS classes under browser control.
- Parallax (`updateParallax`) is not modelled. It is floating-point arithmetic on a scroll offset and a string attribute.
- Smooth scroll (`initSmoothScroll`) is not modelled. It is listener wiring, a 300 ms timer and `scrollIntoView`, with no logic.
