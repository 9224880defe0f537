/** Version 4: the "Withdraw" button. Mouse handlers and the click guard, no
    key handlers. */
module Version4 {
  import opened JsValues
  import opened Interaction
  import opened Display

  /** No key handlers, no busy lock, no press flash, no animation. */
  const Handlers := Behaviour(keys := false, busyLock := false, pressFlash := false, animates := false)

  /** Default children, label suffix and busy text. */
  const Words := Wording("Withdraw", " button", "Processing...")

  /** The `transform` scales: pressed, then hovered. */
  const Look := Scales(0.98, 1.02)

  /** No key handler is attached, so key events alone change nothing. A click
      the browser synthesises from Enter or Space on the focused button arrives
      as a separate `Click` event. */
  lemma KeysNeverActivate(p: Props, s: Snapshot, t: seq<Event>)
    requires forall i :: 0 <= i < |t| ==> t[i].KeyDown? || t[i].KeyUp?
    ensures Run(Handlers, p, s, t) == s
  {
    KeysIgnoredWithoutHandlers(Handlers, p, s, t);
  }

  /** Version 4 renders "Processing..." while loading and otherwise the children, which
      default to "Withdraw"; the default label is the children followed by
      " button". */
  lemma RendersItsWording(p: Props, s: Snapshot, children: Option<string>, ariaLabel: Option<string>)
    ensures var v := Render(Words, p.loading, s.pressed, children, ariaLabel);
      && v.ariaBusy == p.loading && v.ariaPressed == s.pressed
      && (p.loading ==> v.text == "Processing...")
      && (!p.loading ==> v.text == WithDefault(children, "Withdraw"))
      && (Truthy(ariaLabel) ==> v.ariaLabel == ariaLabel.value)
      && (!Truthy(ariaLabel) ==> v.ariaLabel == WithDefault(children, "Withdraw") + " button")
  {
  }

  /** Version 4's `transform`: 0.98 when pressed, whatever the hover, 1.02 when
      only hovered, and 1 at rest. */
  lemma ScalesOfLook(s: Snapshot)
    ensures PressShrinksHoverGrows(Look)
    ensures s.pressed ==> Scale(Look, s.pressed, s.hovered) == 0.98
    ensures !s.pressed && s.hovered ==> Scale(Look, s.pressed, s.hovered) == 1.02
    ensures !s.pressed && !s.hovered ==> Scale(Look, s.pressed, s.hovered) == 1.0
  {
  }
}
