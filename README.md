# Portfolio site interactivity: a verified model

The site's `scripts.js` is mostly animation and DOM glue. Three pieces in it are real logic, and this project models and proves them:

- **The before/after slider** (module `Slider`, `slider.dfy`). Each `.before-after` box has an overlay image (`.after`) and a handle (`.slider-handle`). While the box is being dragged, both follow the pointer. `setPos` maps the pointer's x-coordinate and the box's bounding rectangle to the percentage `(x - left) / width * 100`, clamps it to [6, 94], and writes it to the overlay's width and then to the handle's left offset. Every box has its own `dragging` flag. A pointerdown or touchstart on a box sets that flag. A pointerup or touchend anywhere on the window clears the flags of all boxes. A pointermove or touchmove anywhere on the window repositions every box whose flag is set. The model has pure step functions for one box (`OnStart`, `OnMove`, `OnEnd`) and for all boxes (`PageDown`, `PageMove`, `PageUp`, `PageRun`). It also has two classes that hold the state the page mutates: `Box` (the flag and the two inline styles) and `Page` (the boxes, in registration order). Each class method is proved to change its state exactly as its step function says.
- **The contact form's submit handler** (module `ContactForm`, `contact_form.dfy`, with `Text` in `text.dfy`). It trims the three fields. It then checks that the name has at least 2 characters, that the e-mail matches `/^[^\s@]+@[^\s@]+\.[^\s@]+$/`, and that the message has at least 15 characters. Each failed check pushes its message onto a list, in the order name, e-mail, message. If the list is not empty, its items are joined with a line break into one error toast. If it is empty, a success toast is shown and the form is reset. `IsValidEmail` is a direct check: no whitespace, exactly one `@` with something before it, and after it a dot that is neither first nor last. It is proved equal, in both directions, to `MatchesEmailPattern`, which is the regular expression's language read off the pattern.
- **The mobile navigation menu** (module `MobileNav`, `mobile_nav.dfy`). The state is the menu's `open` class and the toggle's `aria-expanded` attribute. A click on the toggle flips the menu and copies the new value into `aria-expanded`. A click on an in-page link, or Escape pressed anywhere, closes an open menu. Enter or Space on the toggle clicks it.

Three behaviours of the code are easy to misread. The model states each as the code has it:

- **Missing children.** The script finds every `.before-after` box and registers its listeners even when `.after` or `.slider-handle` is missing (lines 181-184). `setPos` then throws at line 190 (no overlay) or line 191 (no handle), which ends the handler after `dragging` was already set at line 196. Without an overlay nothing is written. Without a handle only the overlay moves (`Reposition`, `Parts`).
- **Sliders share the window's events.** Each box's window-level move listener checks only its own flag (line 202), so one move repositions every box whose flag is set. A box that is idle and that no press targets is never changed by any sequence of presses, moves and releases (`UntargetedBoxUnchanged`). A drag that starts while no box is dragged changes no other box across the moves that follow (`DragIsIsolated`). Two presses with no release between them leave two boxes dragged, and one move then repositions both (`MissedReleaseCouplesBoxes`).
- **Link clicks.** The link handler calls `document.querySelector(href)` at line 64, before it closes the menu. That call throws for an `href` that is not a valid selector, such as the bare `#`, and the menu then stays open. This is the `lookupThrows` parameter of `OnAnchorClick`.

Inputs the browser supplies are parameters of the model: the pointer's x-coordinate, each box's bounding rectangle at the moment of the event, the key pressed and where the focus is, and whether the selector lookup throws. Numbers are Dafny `real`s, and the box width is a positive real (`Slider.Width`).

## Model

| member | source | states |
|---|---|---|
| Slider.ClampPct | scripts.js:188-189 | The percentage always lies in [6, 94]. It equals `(x - left) / width * 100` exactly when that raw value already lies in the range. |
| Slider.ClampMonotone | scripts.js:188-189 | For a fixed box, moving the pointer right never lowers the percentage. |
| Slider.ClampAtMin | scripts.js:188-189 | The percentage is 6 exactly when the pointer is at or left of `left + 0.06 * width`. |
| Slider.ClampAtMax | scripts.js:188-189 | The percentage is 94 exactly when the pointer is at or right of `left + 0.94 * width`. |
| Slider.OutsideBoxClamps | scripts.js:188-189 | A pointer left of the box gives 6. A pointer right of the box gives 94. |
| Slider.ClampExamples | scripts.js:188-189 | For a box spanning 100..400, x = 100 gives 6, x = 400 gives 94, x = 250 gives 50 and x = 50 gives 6. |
| Slider.Reposition | scripts.js:186-192 | `setPos` keeps the flag. On a box with both children it writes the same clamped percentage to the overlay width and the handle offset. Without a handle it writes the clamped percentage to the overlay only and changes nothing else. Without an overlay it changes nothing. It keeps a box aligned and in range. |
| Slider.OnStart | scripts.js:195-199 | A press (the touchstart listener at lines 210-214 is the same code) sets `dragging` and keeps the box's children. On a box with both children it moves overlay and handle to the clamped pointer position at once. Without an overlay only the flag changes. Without a handle the flag is set and only the overlay moves. |
| Slider.OnMove | scripts.js:201-203 | A move keeps the flag and the box's children, and does nothing to an idle box. On a dragged box with both children it puts overlay and handle at the clamped percentage. On a dragged box without an overlay it changes nothing. Without a handle only the overlay moves. Touchmove at lines 216-221 is the same. |
| Slider.OnEnd | scripts.js:205-207 | A release (touchend at lines 223-225 is the same) clears `dragging` and leaves both styles where they were. |
| Slider.StartThenMoveSamePlace | scripts.js:195-203 | A press with no move shows the same as a press followed by a move to the same x. |
| Slider.StartIdempotent | scripts.js:195-214 | A touch that fires both touchstart and pointerdown at one x has the effect of one press. |
| Slider.PageDown | scripts.js:195-199 | A press on box i changes box i as `OnStart` says and no other box. |
| Slider.PageMove | scripts.js:201-203 | A window move reaches every box, each with its own rectangle. |
| Slider.PageUp | scripts.js:205-207 | A window release leaves no box dragged and changes no style. |
| Slider.PageRun | scripts.js:181-226 | The boxes after a sequence of events, handled one at a time in order. The number of boxes never changes. |
| Slider.PageRunKeepsAligned | scripts.js:181-226 | After any events, every written percentage is in [6, 94], and every box with both children has its overlay edge and its handle at the same place. |
| Slider.MovesAfterUpAreNoOps | scripts.js:201-207 | After a release, no sequence of moves changes anything until the next press. |
| Slider.MovesTouchOnlyDragged | scripts.js:201-203 | While only box i is dragged, moves leave every other box unchanged and start no other drag. |
| Slider.DragIsIsolated | scripts.js:195-207 | A drag on box i that starts while no box is dragged never changes any other box, whatever the moves. |
| Slider.UntargetedBoxUnchanged | scripts.js:195-207 | Under any sequence of presses, moves and releases, a box that starts idle and is the target of no press ends exactly as it began. |
| Slider.MissedReleaseCouplesBoxes | scripts.js:195-203 | Two presses with no release between them leave two boxes dragged, and one move repositions both. |
| Slider.Box.constructor | scripts.js:181-184 | A box starts idle, with neither style written by the script. |
| Slider.Box.SetPos | scripts.js:186-192 | Computes and clamps the percentage in place and writes overlay then handle, as `Reposition` says. |
| Slider.Box.Start | scripts.js:195-199 | The box's pointerdown/touchstart listener changes the box exactly as `OnStart` says. |
| Slider.Box.Move | scripts.js:201-203 | The box's window pointermove/touchmove listener changes the box exactly as `OnMove` says. |
| Slider.Box.End | scripts.js:205-207 | The box's window pointerup/touchend listener changes the box exactly as `OnEnd` says. |
| Slider.Page.constructor | scripts.js:181-184 | One distinct, fresh, idle, unstyled box per `.before-after` element found, in document order. |
| Slider.Page.Down | scripts.js:195-199 | A press on box i changes the boxes exactly as `PageDown` says. |
| Slider.Page.Move | scripts.js:201-203 | Running every box's move listener in registration order changes the boxes exactly as `PageMove` says. |
| Slider.Page.Up | scripts.js:205-207 | Running every box's release listener in registration order changes the boxes exactly as `PageUp` says. |
| Text.TrimStart | scripts.js:234-236 | Removes exactly the leading whitespace: the result is a suffix, everything cut off is whitespace, and the result does not start with whitespace. |
| Text.TrimEnd | scripts.js:234-236 | Removes exactly the trailing whitespace: the result is a prefix, everything cut off is whitespace, and the result does not end with whitespace. |
| Text.Trim | scripts.js:234-236 | `trim()` returns a slice of the field with only whitespace cut off on either side, and the slice neither starts nor ends with whitespace. |
| Text.TrimIdempotent | scripts.js:234-236 | Trimming a trimmed value changes nothing. |
| Text.TrimOfWhitespace | scripts.js:234-236 | A field holding only whitespace trims to the empty string, so it fails its length check. |
| Text.Join | scripts.js:254 | `errors.join('\n')`. Its meaning is given by `SplitJoin`: splitting the result at the separator gives the pieces back when none holds the separator. |
| Text.SplitJoin | scripts.js:254 | Joining messages that hold no separator loses nothing: splitting at the separator gives the messages back. |
| ContactForm.IsValidEmail | scripts.js:265-268 | `isValidEmail`, as a direct check on the text. Its meaning is given by `IsValidEmailMatchesPattern`: it accepts exactly the regular expression's language. |
| ContactForm.IsValidEmailMatchesPattern | scripts.js:265-268 | `isValidEmail` accepts a string exactly when `/^[^\s@]+@[^\s@]+\.[^\s@]+$/` matches it (both directions). |
| ContactForm.EmailAccepted | scripts.js:265-268 | `a@b.c` is accepted. |
| ContactForm.EmailWithoutDotRejected | scripts.js:265-268 | `a@bc`, with no dot after the `@`, is rejected. |
| ContactForm.EmailWithoutLocalPartRejected | scripts.js:265-268 | `@b.c`, with nothing before the `@`, is rejected. |
| ContactForm.EmailDotAfterAtRejected | scripts.js:265-268 | `a@.c`, with the dot right after the `@`, is rejected. |
| ContactForm.EmailDotLastRejected | scripts.js:265-268 | `a@b.`, with the dot last, is rejected. |
| ContactForm.EmailTwoAtsRejected | scripts.js:265-268 | `a@b@c.d`, with two `@`, is rejected. |
| ContactForm.EmailWithSpaceRejected | scripts.js:265-268 | `a b@c.d`, holding a space, is rejected. |
| ContactForm.Fails | scripts.js:241-251 | The three conditions under which a message is pushed: trimmed name shorter than 2, trimmed e-mail not valid, trimmed message shorter than 15. `CollectErrors` and `Submit` are proved against it. |
| ContactForm.FailingOfIsFilter | scripts.js:239-251 | The failing checks of a list are exactly its members that fail, and the filter keeps their order. |
| ContactForm.Failing | scripts.js:241-251 | The failing checks in the order the handler runs them. `FailingIsExact` proves that it lists exactly the failing checks, in the order name, e-mail, message. |
| ContactForm.FailingIsExact | scripts.js:239-251 | A check is listed exactly when it fails, each at most once, in the order name, e-mail, message. |
| ContactForm.CollectErrors | scripts.js:239-251 | The pushed error list is the messages of exactly the failing checks, in order. It is empty exactly when all three checks pass. |
| ContactForm.Submit | scripts.js:231-261 | The handler shows the success toast exactly when the trimmed name has at least 2 characters, the trimmed e-mail is valid and the trimmed message has at least 15. Otherwise it shows one error toast whose text is the failing checks' messages joined with line breaks. |
| ContactForm.ErrorToastLines | scripts.js:253-256 | The error toast's lines are exactly the failing checks' messages, in order. |
| MobileNav.OnToggleClick | scripts.js:53-56 | A toggle click flips `open` and leaves `aria-expanded` equal to it. |
| MobileNav.OnAnchorClick | scripts.js:59-74 | A link click whose selector lookup returns always leaves the menu closed. If the menu was open, both the class and `aria-expanded` become false. If the lookup throws, or the menu was closed, nothing changes. |
| MobileNav.OnDocumentKey | scripts.js:463-468 | Escape always leaves the menu closed. An open menu becomes closed with `aria-expanded` false. Any other key changes nothing. |
| MobileNav.OnToggleKey | scripts.js:471-475 | Enter or Space on the toggle acts as a click on it. Any other key changes nothing. |
| MobileNav.OnKeyDown | scripts.js:463-475 | One keydown runs the toggle's listener when the toggle has focus, then bubbles to the document's. Unless it is Enter or Space on the toggle, the result is exactly the document listener's, so Escape with the focus on the toggle closes the menu and sets `aria-expanded` false. Escape always leaves the menu closed. Enter or Space on the toggle equals a click. Any other key changes nothing. |
| MobileNav.Run | scripts.js:53-475 | The menu after a sequence of clicks, link clicks and keydowns, handled one at a time in order. `RunKeepsConsistent` proves that it keeps `aria-expanded` equal to `open`. The handlers are the click listeners at lines 53-74 and the keydown listeners at lines 463-475. |
| MobileNav.StepKeepsConsistent | scripts.js:53-475 | Every navigation handler keeps `aria-expanded` equal to `open`. The handlers are the click listeners at lines 53-74 and the keydown listeners at lines 463-475. |
| MobileNav.RunKeepsConsistent | scripts.js:53-475 | After any sequence of navigation events, `aria-expanded` still equals `open`. The handlers are the click listeners at lines 53-74 and the keydown listeners at lines 463-475. |
| MobileNav.ConsistentAfterToggle | scripts.js:53-56 | Once the toggle has been clicked, at any point of a run, `aria-expanded` equals `open` after every later event, whatever the markup started with and whatever came before the click. |
| MobileNav.RunAppend | scripts.js:53-475 | Handling one sequence of navigation events and then another is the same as handling their concatenation. The handlers are the click listeners at lines 53-74 and the keydown listeners at lines 463-475. |
| MobileNav.EscapeCloses | scripts.js:463-468 | Escape leaves the menu closed wherever the focus is, including on the toggle. |
| MobileNav.ToggleTwice | scripts.js:53-56 | Two toggle clicks return a consistent menu to its state. |
| MobileNav.ActivationKeysToggle | scripts.js:471-475 | Enter or Space on the toggle, after bubbling to the document listener, does exactly what a click does. |
| MobileNav.Nav.constructor | scripts.js:51-52 | The menu starts in whatever state the markup gives it. |
| MobileNav.Nav.ToggleClick | scripts.js:53-56 | The click listener changes the two fields exactly as `OnToggleClick` says. |
| MobileNav.Nav.AnchorClick | scripts.js:59-74 | The link listener changes the two fields exactly as `OnAnchorClick` says. |
| MobileNav.Nav.DocumentKeyDown | scripts.js:463-468 | The document's keydown listener changes the two fields exactly as `OnDocumentKey` says. |
| MobileNav.Nav.ToggleKeyDown | scripts.js:471-475 | The toggle's keydown listener changes the two fields exactly as `OnToggleKey` says. |
| MobileNav.Nav.KeyDown | scripts.js:463-475 | A key event runs the toggle's listener (when the toggle has focus) and then the document's. |

## Left out

- The sticky note, the header's `scrolled` class, the counter animation, the reveal-on-scroll observers, the staggered timers, parallax, the mouse-move tilt and the injected CSS (lines 1-48, 76-178, 346-460). They are timers, eased floating-point animation and browser observers, with no state logic to state.
- The toast elements themselves (`showError`, `showSuccess`, lines 270-344). They are DOM construction and styling. The model stops at which toast is shown with which text. The error toast's removal timer refers to an undefined `toist` (line 301) and would throw; that is DOM plumbing and is not modelled.
- `contactForm.reset()` after success, `e.preventDefault()`, and the smooth `scrollIntoView` of a link's target. They are browser effects with no state in the model. The `SuccessToast` outcome stands for "toast shown and form reset".
- `getBoundingClientRect` and `setPointerCapture`. The rectangle is an input of every slider event. Pointer capture changes which element receives events, not what the handlers do.
- Slider.ClampPct: uses exact `real` arithmetic instead of IEEE-754 doubles, so rounding is not modelled. A zero-width box (where JavaScript computes NaN or an infinity) is excluded by the `Width` type. An infinite or NaN coordinate is not modelled.
- Slider.PageMove: a touch move reads `e.touches[0].clientX`. The model takes that coordinate as given and does not model several simultaneous touches.
- Text.Trim, ContactForm.Fails, ContactForm.CollectErrors, ContactForm.Submit: strings are sequences of Unicode scalar values. JavaScript counts `length` in UTF-16 code units, so a name or message containing characters outside the Basic Multilingual Plane is counted shorter here than in the browser. The whitespace set is the ECMAScript one with the space separators of Unicode 15. The same set stands for the regular expression's `\s`, as the language defines it.
- MobileNav.OnAnchorClick: which `href` values make `document.querySelector` throw is decided by the CSS selector grammar, which is not modelled. It is the `lookupThrows` input.
- MobileNav.Nav.constructor: the initial `open` class and `aria-expanded` value come from the page's markup, which is not part of this model, so they are parameters.
- `aria-expanded` is written as the string "true" or "false". The model keeps it as a boolean.
