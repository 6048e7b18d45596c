# Glovance site script: a verified model of its stateful widgets

The marketing site's `script.js` wires a handful of widgets to the page. This
project models, in Dafny, the parts of it that make decisions or keep state,
with every element's CSS `classList` as a set of class names:

- **Testimonial slider** (`Carousel`): the slides, the indicator dots and the
  captured `currentSlide` index; `showSlide(index)` clears every slide and dot
  and activates one of each; the interval tick moves to
  `(currentSlide + 1) % slides.length`; a dot's click handler shows its slide.
  The slider is a class over two arrays, and its methods are proved against
  specification functions on sequences (`ShownSlides`, `ShownDots`).
- **FAQ accordion** (`Faq`): a click on an item closes every other item and
  toggles the clicked item and its answer panel.
- **Contact form checks** (`ContactForm`, `Text`): `isValidEmail` as the
  language of `^[^\s@]+@[^\s@]+\.[^\s@]+$`; `validateForm` on submit,
  `validateField` on blur, and the error state that `showError` and
  `clearError` set (the `form-error` class and the `.error-message` label's
  text and `hidden` flag). `trim()` and `\s` use the ECMAScript white-space
  and line-terminator code points.
- **Navbar background** (`Navigation`): solid past 50 pixels of scroll,
  translucent otherwise.
- **Page transitions** (`PageTransitions`): the `href` filter that decides
  which link clicks fade the page out, and the selector that gathers the links.

`wrappers.dfy` holds `Option` (an attribute or form value that may be
missing) and `class_lists.dfy` the `classList.add/remove/toggle` operations.

Where the slider's intended design and its code differ, the model follows
the code: the slider does not render slide 0 when it is set up (it only sets
`currentSlide = 0`; the script marks nothing active until the first tick or
click, and the markup's own classes are kept), and a dot
with no matching slide is not ignored (see Findings).

## Model

| member | source | states |
|---|---|---|
| `Carousel.ClearedSlides` | script.js:86-88 | after the first loop no slide has `active`, and every other class of every slide is kept |
| `Carousel.IdleDot` | script.js:92-94 | a dot made idle lacks `active` and `bg-cyan-500`, has `bg-gray-700`, and keeps every other class |
| `Carousel.SelectedDot` | script.js:102-103 | a selected dot has `active` and `bg-cyan-500`, lacks `bg-gray-700`, and keeps every other class |
| `Carousel.ShownSlides` | script.js:84-98 | after `showSlide(index)` slide `index` is active and every other slide is not; other classes are kept |
| `Carousel.ClearedDots` | script.js:91-95 | after the second loop every dot lacks `active` and `bg-cyan-500` and has `bg-gray-700`; other classes are kept |
| `Carousel.ShownDots` | script.js:91-104 | dot `index`, when it exists, alone has `active` and `bg-cyan-500` and lacks `bg-gray-700`; every other dot is idle; with too few dots all dots are idle |
| `Carousel.NextSlide` | script.js:117-119 | the tick's next index stays below the slide count, is the successor, and wraps to 0 exactly after the last slide |
| `Carousel.SlideAfterTicks` | script.js:79-120 | from the initial index 0, every index reached by ticks names a slide |
| `Carousel.TicksArePeriodic` | script.js:79-120 | the k-th tick from the start shows slide k mod n; with more than one slide the first tick shows slide 1 |
| `Carousel.ShowSlidesIdempotent` | script.js:84-98 | showing the same slide twice leaves the slides as showing it once |
| `Carousel.ShowDotsIdempotent` | script.js:91-104 | selecting the same dot twice leaves the dots as selecting it once |
| `Carousel.Slider.constructor` | script.js:77-79 | the slider keeps the queried slides and dots and starts at index 0 without rendering anything |
| `Carousel.Slider.ShowSlide` | script.js:84-107 | an index within the slides renders exactly that slide and its dot and sets `currentSlide`; an index past the last slide clears every slide and dot, throws, and leaves `currentSlide` unchanged |
| `Carousel.Slider.Tick` | script.js:117-120 | the interval step moves `currentSlide` to its successor mod n, never throws, and leaves exactly that slide and dot shown |
| `Carousel.Slider.ClickDot` | script.js:110-114 | a click on dot i leaves the slides and dots exactly as `showSlide(i)` renders them and sets `currentSlide` when slide i exists; otherwise it throws, leaving every slide and dot cleared as the two loops left them and `currentSlide` unchanged |
| `Carousel.Slider.ClickDotIgnoringExtra` | script.js:110-114 | corrected handler: a dot with a slide leaves the slides and dots exactly as `showSlide(i)` renders them; a dot past the last slide changes nothing; a rendered slider stays rendered |
| `Carousel.InitTestimonialSlider` | script.js:76-81 | with no slides there is no slider; otherwise a fresh slider at index 0 over the queried elements |
| `Carousel.ExtraDotScenario` | script.js:98-114 | with one slide and two dots, clicking the second dot leaves no slide visible |
| `Carousel.ClickThenTickScenario` | script.js:106-120 | with three slides, clicking dot 2 shows slide 2 and the next tick wraps to slide 0 |
| `Faq.ClickedItems` | script.js:167-175 | after a click on item i no other item is active, item i's `active` is negated, and other classes are kept |
| `Faq.ClickedAnswers` | script.js:167-177 | after a click on item i every other answer is hidden, answer i's `hidden` is negated, and other classes are kept |
| `Faq.ClickKeepsConsistent` | script.js:165-178 | if every item was active exactly when its answer was shown, that still holds after a click |
| `Faq.ClickLeavesAtMostOneOpen` | script.js:165-178 | after any click at most one item is active and at most one answer is shown |
| `Faq.Accordion.constructor` | script.js:160-163 | the accordion keeps the queried items and their answers, one answer per item |
| `Faq.Accordion.Click` | script.js:165-178 | the click handler leaves the items and answers as `ClickedItems`/`ClickedAnswers` say, so at most one item is open and consistency is preserved |
| `Text.IsWhitespace` | script.js:315 | space, tab, line feed and carriage return are white space for `\s` and `trim()`; no ASCII letter or digit, `@` or `.` is |
| `Text.TrimStart` | script.js:242 | the result is a suffix of the input, does not start with white space, and only white space was dropped |
| `Text.TrimEnd` | script.js:242 | the result is a prefix of the input, does not end with white space, and only white space was dropped |
| `Text.Trim` | script.js:266 | `trim()` is the infix of the input left after removing only white space before and after it; it is empty exactly when the input is all white space, and otherwise starts and ends with non-white-space |
| `Text.TrimUnpadded` | script.js:266 | a string that neither starts nor ends with white space is its own trim |
| `Text.TrimLeadingSpace` | script.js:266 | one leading space is removed from an otherwise unpadded string |
| `ContactForm.IsValidEmail` | script.js:314-317 | an address the pattern accepts is at least five characters long, contains `@`, and neither starts nor ends with white space |
| `ContactForm.ValidEmailCharacterised` | script.js:314-316 | the pattern holds exactly when the string has no white space, exactly one `@` with something before it, and a `.` in the domain that is neither its first nor its last character |
| `ContactForm.ValidEmailUnpadded` | script.js:314-316 | an address the pattern accepts is non-empty and free of white space |
| `ContactForm.WithError` | script.js:297-304 | the input is flagged; its label, when it has one, carries the message and is visible; no label is created |
| `ContactForm.WithoutError` | script.js:306-312 | the input is unflagged; its label, when it has one, is hidden and keeps its text; no label is created |
| `ContactForm.ErrorStateOverwrites` | script.js:297-312 | `showError` leaves the field flagged with its label visible and carrying the message; `clearError` leaves it unflagged with the label hidden and its text kept |
| `ContactForm.Filled` | script.js:242-257 | the blank test on name, subject and message (a missing value, or `v.trim() === ''`) passes exactly when the value is present and has a character that is not white space |
| `ContactForm.EmailAccepted` | script.js:247 | an e-mail that is present and accepted by `isValidEmail`, as the submit check requires, is also non-blank after trimming |
| `ContactForm.ErrorsFor` | script.js:242-260 | each failing check, and only those, contributes its field's message |
| `ContactForm.SubmitErrors` | script.js:239-263 | a field gets its error exactly when it fails (blank after trimming, or an untrimmed e-mail the pattern rejects), with the source's messages; no error at all exactly when the form is valid |
| `ContactForm.BlurError` | script.js:265-295 | the trimmed value is checked; an empty e-mail gets "Please enter your email address", a non-empty invalid one "Please enter a valid email address"; other ids always pass |
| `ContactForm.PaddedEmailPassesBlurOnly` | script.js:247-280 | a valid address with a leading space passes the blur check but fails the submit check |
| `ContactForm.Form.constructor` | script.js:228 | the form starts with the given error state of its inputs |
| `ContactForm.Form.ShowError` | script.js:297-304 | only the named input's error state changes, to flagged with the message shown |
| `ContactForm.Form.ClearError` | script.js:306-312 | only the named input's error state changes, to unflagged with the label hidden |
| `ContactForm.Form.ValidateForm` | script.js:239-263 | all four checks run without short-circuit; the result is valid exactly when all pass; exactly the failing fields show their errors |
| `ContactForm.Form.ValidateField` | script.js:265-295 | passes exactly when `BlurError` finds nothing; then the input's error is cleared, else its error is shown |
| `Navigation.NavbarOnScroll` | script.js:31-39 | the navbar is solid exactly when scrolled more than 50, translucent otherwise, and keeps its other classes |
| `Navigation.LatestScrollDecides` | script.js:31-39 | only the latest scroll event determines the navbar's classes |
| `PageTransitions.HandlesLink` | script.js:333 | the filter accepts exactly a present, non-empty href whose first character is not `#` and whose first four characters are not `http` |
| `PageTransitions.LinkFilterCases` | script.js:330-333 | missing, empty, `#` and `http` hrefs are not handled; relative paths and other schemes are; a relative path starting with the letters `http` is not |
| `PageTransitions.SelectedByPrefix` | script.js:326 | `a[href^=p]` selects a link exactly when it has an href that starts with a non-empty `p`; an empty `p` selects nothing |
| `PageTransitions.TransitionNeverRuns` | script.js:326-334 | as written, no link click ever starts the transition |
| `PageTransitions.IntendedTransitionMatchesFilter` | script.js:326-334 | with the links gathered by `a[href]`, exactly the links the filter accepts get the transition: every non-empty href whose first character is not `#` and whose first four characters are not `http`, and no missing href |

## Findings

| source | as written | input that shows it | evidently intended | confidence | as-written member | corrected member |
|---|---|---|---|---|---|---|
| script.js:98-114 | a dot's click handler calls `showSlide` with the dot's index even when there is no slide at that index; `slides[index]` is then undefined and throws after every slide and dot was cleared | one slide and two dots, click the second dot | dots past the last slide are ignored (the guard at line 101 already tolerates the opposite mismatch) | medium, not executed | `Carousel.ExtraDotScenario` | `Carousel.Slider.ClickDotIgnoringExtra` |
| script.js:326 | links are gathered with `a[href^=""]`, which under section 6.3.2 of Selectors Level 3 represents nothing, so the transition handler is never attached | a page with `<a href="about.html">` | gather every link with an href, `a[href]`, and let the filter at line 333 decide | high, not executed | `PageTransitions.TransitionNeverRuns` | `PageTransitions.IntendedTransitionMatchesFilter` |

## Left out

- DOM queries, `addEventListener` wiring, `FormData`, `innerHTML` and the `DOMContentLoaded` bootstrap: element collections, field values and attribute values are parameters of the model.
- Timing: the 5000 ms slide interval, the 1500 ms simulated submission, the 5000 ms success-banner hide and the 300 ms fade before navigation. A tick is a method call; the submission flow after a valid form (spinner, success banner, form reset) is not modelled.
- `Carousel.Slider`: an element carrying both the slide and the dot class would sit in both arrays; the model requires the two collections to be distinct arrays and does not capture such aliasing.
- `Carousel.Slider.Tick`: the timer is never cancelled and is not reset by a click; the model has no notion of time, so it only states what one tick does.
- `initFAQ`: an item without `.faq-question` or `.faq-answer` would throw while wiring or clicking; the model assumes one answer per item.
- `ContactForm.Form`: error state is kept per element id, so two inputs sharing an id, or two inputs without one, share a single entry; the model does not capture that aliasing. Likewise `showError` and `clearError` reach the label through `field.parentNode.querySelector('.error-message')`, so inputs under one parent share one label, while the model gives each input its own.
- `ContactForm.Form.ValidateForm`: the inputs looked up by id are assumed present (a missing one would throw inside `showError`); `FormData.get` returning a file is not modelled.
- `PageTransitions`: the fade (`body.style.opacity`) and `window.location` navigation are foreign effects; only the decision is modelled.
- The mobile-menu toggle and its close-on-link-click handler, console logging, and the `loaded` class on the body: trivial, I/O-bound.
- Intersection-observer fade-ins and counter triggering: browser callbacks with no contract of their own.
- `animateCounter`: floating-point increments and `Math.floor`.
- `isInViewport`: reads geometry from the browser and is never called.
- Smooth scrolling for `#` anchors: `scrollTo` and `offsetTop` are foreign effects; a bare `#` href is ignored there.
