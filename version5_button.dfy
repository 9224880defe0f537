/** Version 5: the compact blue button. Mouse handlers and the click guard,
    no key handlers, no text: an optional icon and a fixed default label. */
module Version5 {
  import opened JsValues
  import opened Interaction
  import opened Display

  /** No key handlers, no busy lock, no press flash, no animation. */
  const Handlers := Behaviour(keys := false, busyLock := false, pressFlash := false, animates := false)

  /** The `transform` scales: pressed, then hovered. */
  const Look := Scales(0.95, 1.05)

  /** `aria-busy` is the `loading` prop and `aria-pressed` the press flag; the
      label is the non-empty override, else the fixed "Blue gradient button",
      so it is never empty; there is no text. */
  function Render(p: Props, s: Snapshot, ariaLabel: Option<string>): (v: View)
    ensures v.ariaBusy == p.loading && v.ariaPressed == s.pressed
    ensures v.ariaLabel != ""
    ensures Truthy(ariaLabel) ==> v.ariaLabel == ariaLabel.value
    ensures !Truthy(ariaLabel) ==> v.ariaLabel == "Blue gradient button"
    ensures v.text == ""
  {
    View(OrElse(ariaLabel, "Blue gradient button"), s.pressed, p.loading, "")
  }

  /** Version 5's `transform`: 0.95 when pressed, whatever the hover, 1.05 when
      only hovered, and 1 at rest. */
  lemma ScalesOfLook(s: Snapshot)
    ensures PressShrinksHoverGrows(Look)
    ensures s.pressed ==> Scale(Look, s.pressed, s.hovered) == 0.95
    ensures !s.pressed && s.hovered ==> Scale(Look, s.pressed, s.hovered) == 1.05
    ensures !s.pressed && !s.hovered ==> Scale(Look, s.pressed, s.hovered) == 1.0
  {
  }
}
