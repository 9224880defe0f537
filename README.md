# Button interaction state machines

A model of the interaction logic of the productivity button components:
`ProductivityButton` and the eight `version*_button` variants. Each component
keeps a few `useState` flags and updates them from its handlers:
- `isPressed` and `isHovered` in every component;
- `asyncLoading` in `ProductivityButton`;
- `isAnimating` in Version 8.

The handlers are mouse, key, click and timeout callbacks guarded by the
read-only props `disabled` and `loading`. The click handler calls an optional
`onClick` callback, awaits it when it returns a Promise, and catches and logs
what it throws.

Eight of the nine components share one handler shape. They differ in four
switches, recorded in `Interaction.Behaviour`:
- whether they have Enter/Space key handlers;
- whether they have the busy lock (`ProductivityButton` only);
- whether an accepted click flashes the press for 150 ms (Versions 6 and 8);
- whether it starts Version 8's animation.

Modules:
- `Interaction`: the shared machine as values. It has a `Snapshot` of one
  mounted button, one transition function per handler, `Step`/`Run` over
  event sequences, and `Consistent`, an invariant every reachable state
  satisfies (it also admits some states no events reach). It also holds the
  trace lemmas: what no sequence of events can do, and what particular
  sequences must do.
- `Component`: `Button`, a class whose fields are the component's flags,
  with one method per handler. Each method is proved to perform exactly the
  `Interaction` transition, so the trace lemmas hold of any sequence of method
  calls on a `Button`.
- `JsValues`: the JavaScript value semantics the render code relies on:
  - `a || b` on strings, where the empty string is falsy;
  - destructuring defaults, which replace only `undefined`;
  - `filter(Boolean).join(" ")`.
- `Display`: what a component renders from its state and props. This covers
  the accessible attributes (`aria-label`, `aria-pressed`, `aria-busy`), the
  text, the icon slot, and the pressed-over-hovered choice of a scale.
- `ProductivityButton` and `Version1` to `Version8`: one module per
  component. Each fixes its `Behaviour` (`Handlers`). Versions 1, 2, 4, 6, 7
  and 8 also fix their wording (`Words`: default children, label suffix, busy
  text), and Versions 1, 2, 4, 5, 7 and 8 their scale table (`Look`). Each
  module also holds the lemmas specific to that component.
- `Version3`: a different handler set, with its own value model and class:
  - no hover;
  - unguarded press handlers;
  - no `try`, so a throwing callback escapes the click handler;
  - a fallback log line when there is no callback;
  - a class string built by filter and join.

The callback is not code the model can see. Its fate is a parameter of the
click event: it returns, throws, or returns a Promise that a later `Resolve`
or `Reject` event settles. Every `setTimeout` becomes an event that fires one
armed timeout, and firing when none is armed changes nothing. `calls` and
`errors` (`callCount` and `errorReports` in the class) count invocations of
the callback and reports written to the error console.

Two details of the handlers are easy to miss, and the model keeps both:
- The mouse-down handlers guard on `disabled`, but the key-down handlers
  (components/ProductivityButton/ProductivityButton.tsx:189-194) do not, so
  Enter or Space presses a disabled button that has key handlers
  (`Interaction.KeyDownIgnoresDisabled`).
- `ProductivityButton` sets `asyncLoading` only when there is a callback
  (components/ProductivityButton/ProductivityButton.tsx:140-141). Its
  `finally` arms the settle timer in either case.

## Model

| member | source | states |
|---|---|---|
| Interaction.InitialIsConsistent | components/ProductivityButton/ProductivityButton.tsx:104-106 | The mount state (every flag false, nothing armed) satisfies `Consistent` for every component and every props value |
| Interaction.OnMouseDown | components/ProductivityButton/ProductivityButton.tsx:165-169 | Pressed afterwards iff it was pressed already or the button is neither disabled nor loading; `asyncLoading` is not consulted; nothing but the press changes |
| Interaction.OnMouseUp | components/ProductivityButton/ProductivityButton.tsx:171-173 | The press is released unconditionally and nothing else changes |
| Interaction.OnMouseEnter | components/ProductivityButton/ProductivityButton.tsx:175-179 | Hovered afterwards iff it was hovered already or the button is not disabled (loading does not block hover); nothing else changes |
| Interaction.OnMouseLeave | components/ProductivityButton/ProductivityButton.tsx:181-184 | Both the press and the hover are cleared and nothing else changes |
| Interaction.OnKeyDown | components/ProductivityButton/ProductivityButton.tsx:189-194 | Enter or Space presses the button, with no disabled check, in components that have key handlers; any other key, or a component without them, changes nothing |
| Interaction.Complete | components/ProductivityButton/ProductivityButton.tsx:149-157 | The `catch` adds exactly one error report for a failure and no more, and under the busy lock the `finally` arms exactly one settle timer; nothing else changes |
| Interaction.OnClick | components/ProductivityButton/ProductivityButton.tsx:131-160 | A click blocked by `disabled`, `loading` or the held busy lock changes nothing. An accepted click calls the callback once if there is one. Under the lock, `asyncLoading` becomes true exactly when there is a callback. A returning or throwing callback completes at once, with one error report for a throw. A pending one leaves one more suspended handler, with no report and no settle timer yet. Press flash and animation start only in components that have them. The hover is never touched |
| Interaction.OnKeyUp | components/ProductivityButton/ProductivityButton.tsx:196-205 | Enter or Space is exactly a release followed by the click transition. Without the press flash the button ends up not pressed. Other keys, and components without key handlers, change nothing |
| Interaction.OnSettle | components/ProductivityButton/ProductivityButton.tsx:145-157 | A settling Promise completes one suspended handler. A rejection adds one error report and is not rethrown. Either way the settle timer is armed under the lock. With no suspended handler nothing changes |
| Interaction.OnSettleTimer | components/ProductivityButton/ProductivityButton.tsx:154-156 | An armed settle timeout clears `asyncLoading` and is used up; with none armed nothing changes |
| Interaction.OnFlashTimer | components/version6_button.tsx:44-45 | An armed 150 ms press-flash timeout releases the press and is used up; with none armed nothing changes |
| Interaction.OnAnimationTimer | components/version8_button.tsx:38-45 | The armed 400 ms timeout of the animation effect clears `isAnimating`; with none armed nothing changes |
| Interaction.Step | components/ProductivityButton/ProductivityButton.tsx:244-250 | Every handler keeps `Consistent` (the lock is held exactly while one activation awaits its Promise or its settle timer), calls the callback at most once and writes at most one error report |
| Interaction.Run | components/ProductivityButton/ProductivityButton.tsx:131-205 | Any sequence of events keeps `Consistent`; the call and error counters never decrease and grow by at most one per event |
| Interaction.InertWhileDisabledOrLoading | components/ProductivityButton/ProductivityButton.tsx:135-137 | While disabled or loading, no sequence of events calls the callback. While disabled, nothing sets the hover, and in a component without key handlers nothing sets the press |
| Interaction.KeyDownIgnoresDisabled | components/ProductivityButton/ProductivityButton.tsx:189-194 | A disabled button with key handlers is pressed by Enter or Space |
| Interaction.KeysIgnoredWithoutHandlers | components/version4_button.tsx:81-87 | A component with no key handlers attached is left exactly as it was by any sequence of key events |
| Interaction.LockHeldUntilSettleTimer | components/ProductivityButton/ProductivityButton.tsx:135-157 | Once `asyncLoading` is set, no sequence of events without a settle timer clears it or calls the callback again, whether the callback is pending or already settled |
| Interaction.RepeatedClicks | components/ProductivityButton/ProductivityButton.tsx:135-142 | `n` clicks on an enabled button with a callback call it `n` times without the busy lock. With the lock they call it once if the lock was free and `n > 0`, else not at all |
| Interaction.EveryOutcomeReleasesLock | components/ProductivityButton/ProductivityButton.tsx:139-157 | An activation that finds the lock free calls the callback once. For each of the four outcomes (return, throw, resolve, reject) it leaves the lock held with exactly one settle timer armed. A throw or rejection adds exactly one error report. The timer firing releases the lock, and the next click calls the callback again. A pending Promise is not released by a timer, since none is armed before it settles |
| Interaction.KeyActivationIsClick | components/ProductivityButton/ProductivityButton.tsx:189-205 | On an enabled button that is not loading, Enter or Space down then up has exactly the effect of a pointer press, release and click |
| Interaction.PressReleaseActivatesOnce | components/ProductivityButton/ProductivityButton.tsx:165-184 | Press, release and click on an idle enabled button call the callback exactly once; press then leave clears the press and calls nothing |
| Interaction.HoverRoundTrip | components/ProductivityButton/ProductivityButton.tsx:175-184 | Entering an enabled button hovers it, leaving unhovers it, and neither calls the callback |
| Interaction.FlashOutlastsKeyUp | components/version6_button.tsx:105-114 | With the press flash, a key release that activates leaves the button pressed; the flash timer then releases it |
| Interaction.AnimationClearedOnlyByTimer | components/version8_button.tsx:38-45 | Once `isAnimating` is set, no event other than the animation timer clears it |
| Component.Button.constructor | components/ProductivityButton/ProductivityButton.tsx:104-106 | A freshly mounted button is in the mount state, which satisfies `Consistent` |
| Component.Button.MouseDown | components/ProductivityButton/ProductivityButton.tsx:165-169 | Updates the fields exactly as `Interaction.OnMouseDown` and keeps `Consistent` |
| Component.Button.MouseUp | components/ProductivityButton/ProductivityButton.tsx:171-173 | Updates the fields exactly as `Interaction.OnMouseUp` and keeps `Consistent` |
| Component.Button.MouseEnter | components/ProductivityButton/ProductivityButton.tsx:175-179 | Updates the fields exactly as `Interaction.OnMouseEnter` and keeps `Consistent` |
| Component.Button.MouseLeave | components/ProductivityButton/ProductivityButton.tsx:181-184 | Updates the fields exactly as `Interaction.OnMouseLeave` and keeps `Consistent` |
| Component.Button.KeyDown | components/ProductivityButton/ProductivityButton.tsx:189-194 | Updates the fields exactly as `Interaction.OnKeyDown` and keeps `Consistent` |
| Component.Button.KeyUp | components/ProductivityButton/ProductivityButton.tsx:196-205 | Updates the fields exactly as `Interaction.OnKeyUp` (release, then the click handler) and keeps `Consistent` |
| Component.Button.Click | components/ProductivityButton/ProductivityButton.tsx:131-160 | Updates the fields exactly as `Interaction.OnClick` and keeps `Consistent` |
| Component.Button.Finish | components/ProductivityButton/ProductivityButton.tsx:149-157 | The `catch` and `finally`: updates the fields exactly as `Interaction.Complete` |
| Component.Button.Resolve | components/ProductivityButton/ProductivityButton.tsx:145-157 | Updates the fields exactly as a resolving `Interaction.OnSettle` and keeps `Consistent` |
| Component.Button.Reject | components/ProductivityButton/ProductivityButton.tsx:145-157 | Updates the fields exactly as a rejecting `Interaction.OnSettle` and keeps `Consistent` |
| Component.Button.SettleTimerFires | components/ProductivityButton/ProductivityButton.tsx:154-156 | Updates the fields exactly as `Interaction.OnSettleTimer` and keeps `Consistent` |
| Component.Button.FlashTimerFires | components/version6_button.tsx:44-45 | Updates the fields exactly as `Interaction.OnFlashTimer` and keeps `Consistent` |
| Component.Button.AnimationTimerFires | components/version8_button.tsx:38-45 | Updates the fields exactly as `Interaction.OnAnimationTimer` and keeps `Consistent` |
| Component.Button.Dispatch | components/ProductivityButton/ProductivityButton.tsx:244-250 | Delivering one event to its handler updates the fields exactly as `Interaction.Step` |
| Component.Button.DispatchAll | components/ProductivityButton/ProductivityButton.tsx:244-250 | Delivering a sequence of events in order updates the fields exactly as `Interaction.Run`, so every trace lemma holds of the mounted button |
| JsValues.OrElse | components/ProductivityButton/ProductivityButton.tsx:235 | `s \|\| fallback` is `s` when it is a non-empty string, else the fallback (an empty string falls through) |
| JsValues.WithDefault | components/version1_button.tsx:30 | A destructuring default replaces only an absent value; a present one, even an empty string, is kept |
| JsValues.FilterTruthy | components/version3_button.tsx:54 | `filter(Boolean)` keeps no more entries than it was given, and every entry it keeps is a non-empty string |
| JsValues.FilterTruthyKeeps | components/version3_button.tsx:54 | A string is in the filtered array iff it is non-empty and was present in the input |
| JsValues.FilterTruthyFour | components/version3_button.tsx:48-54 | Filtering a four-entry array keeps each entry on its own merits, in order |
| JsValues.JoinSnoc | components/version3_button.tsx:55 | Joining two or more tokens puts exactly one separator before the last token |
| Display.Children | components/version1_button.tsx:30 | `children` takes the component's default only when absent; a present value, even an empty string, is kept. The defaults are "Productivity" in Versions 1, 2, 6, 7 and 8 and "Withdraw" in Version 4 |
| Display.Render | components/version1_button.tsx:107-181 | `aria-busy` is the `loading` prop alone, and then the text is the busy text, else the children. `aria-pressed` is the press. The label is the non-empty override, else the children followed by the suffix. Each module's `Words` gives its suffix and busy text: " button" and "Loading..." in Versions 1, 6, 7 and 8, " button with icon" in Version 2, and "Processing..." in Version 4 |
| Display.IconSlot | components/version2_button.tsx:204-223 | The spinner is shown iff busy; otherwise the supplied icon, by default the clock. Busy is `loading` in Version 2 and `loading \|\| asyncLoading` in ProductivityButton |
| Display.IconShown | components/version5_button.tsx:27 | The icon is rendered unless `showIcon` is explicitly false (Versions 5 and 7) |
| Display.EmphasisOf | components/version2_button.tsx:143 | The pressed look is chosen iff pressed; the hovered look iff hovered and not pressed; the resting look otherwise |
| Display.Scale | components/version2_button.tsx:143 | Given a table that shrinks when pressed and grows when hovered: the pressed scale applies iff pressed, whatever the hover; the hovered scale applies iff only hovered; the scale is 1 at rest. Each module's `Look` gives its table: 0.95/1.05 in Versions 1, 5 and 7; 0.92/1.08 in Version 2; 0.98/1.02 in Version 4; 0.96/1.08 in Version 8 |
| Version2.SpinnerIffBusy | components/version2_button.tsx:204-240 | The spinner is in the icon slot exactly while `aria-busy` holds, and then the text is "Loading..." |
| Version2.RendersItsWording | components/version2_button.tsx:32-240 | `aria-busy` is `loading`; then the text is "Loading...", else the children, "Productivity" when absent. The label is the non-empty override, else the children + " button with icon" |
| Version2.ScalesOfLook | components/version2_button.tsx:143 | The table meets `Display.Scale`'s requirement; the scale is 0.92 when pressed whatever the hover, 1.08 when only hovered, and 1 at rest |
| Version5.Render | components/version5_button.tsx:87-89 | `aria-busy` is `loading` and `aria-pressed` the press. The label is never empty: the non-empty override, else "Blue gradient button". There is no text |
| Version5.ScalesOfLook | components/version5_button.tsx:102 | The table meets `Display.Scale`'s requirement; the scale is 0.95 when pressed whatever the hover, 1.05 when only hovered, and 1 at rest |
| ProductivityButton.SizeConfig | components/ProductivityButton/ProductivityButton.tsx:46-68 | The size lookup is total over sm/md/lg. Each step up adds 20 px width, 10 px height, 4 px padding and 2 px font. The icon is 2 px larger than the font: 16, 18 or 20 px |
| ProductivityButton.Content | components/ProductivityButton/ProductivityButton.tsx:235 | The content is never empty: it is `children` when that is a non-empty string, else "Productivity" |
| ProductivityButton.Render | components/ProductivityButton/ProductivityButton.tsx:234-275 | `aria-busy` holds iff `loading \|\| asyncLoading`, and then the text is "Loading...", else the content. `aria-pressed` is the press. The label is the non-empty override, else content + " button" |
| ProductivityButton.BusyIndicatorsAgree | components/ProductivityButton/ProductivityButton.tsx:257-275 | The spinner, `aria-busy` and the "Loading..." text all follow `loading \|\| asyncLoading`, so they appear and disappear together |
| ProductivityButton.SecondKeyActivationIsLocked | components/ProductivityButton/ProductivityButton.tsx:135-142 | Two Enter/Space activations in a row on an idle enabled button call the callback once: the second finds the lock held |
| ProductivityButton.SettledKeyActivationCallsAgain | components/ProductivityButton/ProductivityButton.tsx:152-157 | With the settle timer firing between two Enter/Space activations, the callback is called twice |
| Version1.PendingClicksPileUp | components/version1_button.tsx:37-50 | With no busy lock, `n` clicks whose callbacks all stay pending call the callback `n` times and leave `n` more suspended handlers |
| Version1.RendersItsWording | components/version1_button.tsx:107-181 | `aria-busy` is `loading`; then the text is "Loading...", else the children, "Productivity" when absent. The label is the non-empty override, else the children + " button" |
| Version1.ScalesOfLook | components/version1_button.tsx:128 | The table meets `Display.Scale`'s requirement; the scale is 0.95 when pressed whatever the hover, 1.05 when only hovered, and 1 at rest |
| Version3.OnMouseDown | components/version3_button.tsx:36-38 | The press is set with no guard, even when disabled or loading; nothing else changes |
| Version3.OnRelease | components/version3_button.tsx:40-46 | Mouse-up and mouse-leave both clear the press and change nothing else |
| Version3.OnClick | components/version3_button.tsx:28-34 | When disabled or loading nothing happens and nothing is raised. Otherwise, with a callback it is called once and a throw escapes the handler (there is no `try`). Without a callback one fallback line is logged |
| Version3.EachClickActsOnce | components/version3_button.tsx:28-34 | Over any sequence of events, calls plus fallback lines grow by exactly the number of clicks when enabled and not loading, and by none otherwise. Only calls grow with a callback, only fallback lines without one |
| Version3.GuardMatchesNativeDisabled | components/version3_button.tsx:64 | The native `disabled` attribute (`disabled \|\| loading`) holds iff a click does nothing and raises nothing |
| Version3.Text | components/version3_button.tsx:75 | The text is "Loading..." while loading, else "Productivity" |
| Version3.ClassTokensAre | components/version3_button.tsx:48-54 | The filtered tokens are the base class, then the loading class iff `loading`, then the glow class iff `glow`, then `className` iff it is not empty |
| Version3.ClassNameShape | components/version3_button.tsx:48-55 | The class string is "productivity-button", followed by " productivity-button--loading" iff loading, then " productivity-button--glow" iff glow, then " " + `className` iff that is non-empty. An empty `className` leaves no trailing space |
| Version3.Button.constructor | components/version3_button.tsx:26 | A mounted Version 3 button is not pressed and has called and logged nothing |
| Version3.Button.MouseDown | components/version3_button.tsx:36-38 | Updates the press exactly as `Version3.OnMouseDown` |
| Version3.Button.MouseUp | components/version3_button.tsx:40-42 | Updates the press exactly as `Version3.OnRelease` |
| Version3.Button.MouseLeave | components/version3_button.tsx:44-46 | Updates the press exactly as `Version3.OnRelease` |
| Version3.Button.Click | components/version3_button.tsx:28-34 | Updates the state and reports an escaping exception exactly as `Version3.OnClick` |
| Version4.KeysNeverActivate | components/version4_button.tsx:81-87 | No key handler is attached, so any sequence of key events alone leaves the state unchanged; a click the browser synthesises from a key arrives as a separate `Click` event |
| Version4.RendersItsWording | components/version4_button.tsx:88-124 | `aria-busy` is `loading`; then the text is "Processing...", else the children, "Withdraw" when absent. The label is the non-empty override, else the children + " button" |
| Version4.ScalesOfLook | components/version4_button.tsx:108 | The table meets `Display.Scale`'s requirement; the scale is 0.98 when pressed whatever the hover, 1.02 when only hovered, and 1 at rest |
| Version6.KeyReleaseLeavesFlash | components/version6_button.tsx:105-114 | An Enter/Space release on an enabled button leaves it pressed with one more flash timer whatever the callback does; that timer releases it. A throw adds one error report |
| Version6.RendersItsWording | components/version6_button.tsx:139-148 | `aria-busy` is `loading`; then the text is "Loading...", else the children, "Productivity" when absent. The label is the non-empty override, else the children + " button" |
| Version7.TabIndex | components/version7_button.tsx:90 | The `div` leaves the tab order (negative index) iff disabled, and is at index 0 otherwise |
| Version7.DisabledDivIsInert | components/version7_button.tsx:40-70 | For a disabled `div`, which nothing disables natively, the handler guards alone keep every sequence of events from calling the callback, pressing or hovering |
| Version7.RendersItsWording | components/version7_button.tsx:91-221 | `aria-busy` is `loading`; then the text is "Loading...", else the children, "Productivity" when absent. The label is the non-empty override, else the children + " button" |
| Version7.ScalesOfLook | components/version7_button.tsx:99 | The table meets `Display.Scale`'s requirement; the scale is 0.95 when pressed whatever the hover, 1.05 when only hovered, and 1 at rest |
| Version8.GlowOpacity | components/version8_button.tsx:201 | Animating wins over hovering: the glow is at 0.8 iff animating, at 0.4 iff hovered and not animating, and at 0 otherwise |
| Version8.RippleLastsUntilItsTimer | components/version8_button.tsx:38-53 | An accepted click starts the ripple with its timer armed. The ripple stays up through any events until that timer fires, and the firing takes it down |
| Version8.RendersItsWording | components/version8_button.tsx:123-226 | `aria-busy` is `loading`; then the text is "Loading...", else the children, "Productivity" when absent. The label is the non-empty override, else the children + " button" |
| Version8.ScalesOfLook | components/version8_button.tsx:165-169 | The table meets `Display.Scale`'s requirement; the scale is 0.96 when pressed whatever the hover, 1.08 when only hovered, and 1 at rest |

## Left out

- Styling is not modelled: inline styles, CSS-in-JS blocks, class lists other than Version 3's, and the Tailwind configuration. Only the discrete choices are kept: pressed over hovered for the scale, animating over hovered for Version 8's glow, and the spinner or icon.
- Version 6's ripple (`components/version6_button.tsx:47-66`) is not modelled. It creates, positions and removes DOM nodes.
- Version 6's pressed and hovered scales are not modelled. They come from CSS rules on the state-derived `--pressed`/`--hovered` classes (components/version6_button.tsx:126-127, 245-246, 273-274) and on the `:hover`/`:active` pseudo-classes, which act alongside those classes.
- Durations are not modelled. The 100, 150 and 400 ms timeouts are events that may fire at any point after they are armed.
- React scheduling is not modelled: `memo`, `useCallback` dependencies, batching and stale closures. Each event observes the updates of the one before. In the real component, two clicks delivered within one render could both pass the guard at `components/ProductivityButton/ProductivityButton.tsx:135`, since both read the same `asyncLoading`.
- Native browser behaviour is not modelled. A disabled `<button>` swallows pointer events, and Enter or Space on a focused button synthesises a click. Only the handler bodies are modelled, so a key activation is the explicit key-up handler.
- Focus and lifecycle code is not modelled: `autoFocus`, the `onFocus`/`onBlur` passthrough and the unmount cleanup of the settle timeout (`components/ProductivityButton/ProductivityButton.tsx:113-126, 251-252`).
- Props are fixed for a mounted instance; re-rendering with new props is not modelled.
- `children` is modelled as an optional string. Other React nodes are not modelled.
- Version3.OnClick: the result of the callback is not awaited. A Promise it returns counts as a call that raises nothing. A later rejection of that Promise is not modelled.
- The ProductivityButton test that expects a second key activation to call the callback again (`components/ProductivityButton/ProductivityButton.test.tsx:69-81`) holds only when the settle timer fires in between. `ProductivityButton.SecondKeyActivationIsLocked` states the case without the timer. `ProductivityButton.SettledKeyActivationCallsAgain` states the case with it.
- The following files are not part of this model:
  - `app/page.tsx` (page layout and demo wiring);
  - `components/base-button.tsx`, `components/productivity-button.tsx`, `components/primary-button.tsx`, `components/WalletContainer.tsx` and `components/replit-professional-buttons.tsx` (stateless or a single guard);
  - `tailwind.config.ts`.
- The log messages themselves are not modelled, only how many are written.
