/** Version 7: a `div` with `role="button"`. A `div` is never natively
    disabled, so the guards in its handlers are all that stop a disabled one;
    it has no key handlers and leaves the tab order when disabled. */
module Version7 {
  import opened JsValues
  import opened Interaction
  import opened Display

  /** No key handlers, no busy lock, no press flash, no animation. */
  const Handlers := Behaviour(keys := false, busyLock := false, pressFlash := false, animates := false)

  /** Default children, label suffix and busy text. */
  const Words := Wording("Productivity", " button", "Loading...")

  /** The `transform` scales: pressed, then hovered. */
  const Look := Scales(0.95, 1.05)

  /** `tabIndex={disabled ? -1 : 0}`: out of the tab order exactly when
      disabled, in document order otherwise. */
  function TabIndex(p: Props): (r: int)
    ensures r < 0 <==> p.disabled
    ensures !p.disabled ==> r == 0
  {
    if p.disabled then -1 else 0
  }

  /** A disabled Version 7 is inert under any sequence of events: the
      handler guards alone keep the callback uncalled and the press and hover
      off. */
  lemma DisabledDivIsInert(p: Props, s: Snapshot, t: seq<Event>)
    requires p.disabled && !s.pressed && !s.hovered
    ensures Run(Handlers, p, s, t).calls == s.calls
    ensures !Run(Handlers, p, s, t).pressed && !Run(Handlers, p, s, t).hovered
  {
    InertWhileDisabledOrLoading(Handlers, p, s, t);
  }

  /** Version 7 renders "Loading..." while loading and otherwise the children, which
      default to "Productivity"; the default label is the children followed by
      " button". */
  lemma RendersItsWording(p: Props, s: Snapshot, children: Option<string>, ariaLabel: Option<string>)
    ensures var v := Render(Words, p.loading, s.pressed, children, ariaLabel);
      && v.ariaBusy == p.loading && v.ariaPressed == s.pressed
      && (p.loading ==> v.text == "Loading...")
      && (!p.loading ==> v.text == WithDefault(children, "Productivity"))
      && (Truthy(ariaLabel) ==> v.ariaLabel == ariaLabel.value)
      && (!Truthy(ariaLabel) ==> v.ariaLabel == WithDefault(children, "Productivity") + " button")
  {
  }

  /** Version 7's `transform`: 0.95 when pressed, whatever the hover, 1.05 when
      only hovered, and 1 at rest. */
  lemma ScalesOfLook(s: Snapshot)
    ensures PressShrinksHoverGrows(Look)
    ensures s.pressed ==> Scale(Look, s.pressed, s.hovered) == 0.95
    ensures !s.pressed && s.hovered ==> Scale(Look, s.pressed, s.hovered) == 1.05
    ensures !s.pressed && !s.hovered ==> Scale(Look, s.pressed, s.hovered) == 1.0
  {
  }
}
