/** Version 2: Version 1's handlers with an icon beside the text and a
    press/hover scale. */
module Version2 {
  import opened JsValues
  import opened Interaction
  import opened Display

  /** The same handlers as Version 1. */
  const Handlers := Behaviour(keys := true, busyLock := false, pressFlash := false, animates := false)

  /** Default children, label suffix and busy text. */
  const Words := Wording("Productivity", " button with icon", "Loading...")

  /** The `transform` scales: pressed, then hovered. */
  const Look := Scales(0.92, 1.08)

  /** The rendered button as `Display.Render` gives it with Version 2's
      wording, and the spinner in the icon slot exactly while `aria-busy`
      holds: the spinner, the busy flag and the "Loading..." text all follow
      the one `loading` prop. */
  lemma SpinnerIffBusy(p: Props, s: Snapshot, children: Option<string>, ariaLabel: Option<string>, icon: Option<string>)
    ensures var v := Render(Words, p.loading, s.pressed, children, ariaLabel);
      (IconSlot(p.loading, icon) == Spinner <==> v.ariaBusy) &&
      (v.ariaBusy ==> v.text == "Loading...")
  {
  }

  /** Version 2's `transform`: 0.92 when pressed, whatever the hover, 1.08 when
      only hovered, and 1 at rest. */
  lemma ScalesOfLook(s: Snapshot)
    ensures PressShrinksHoverGrows(Look)
    ensures s.pressed ==> Scale(Look, s.pressed, s.hovered) == 0.92
    ensures !s.pressed && s.hovered ==> Scale(Look, s.pressed, s.hovered) == 1.08
    ensures !s.pressed && !s.hovered ==> Scale(Look, s.pressed, s.hovered) == 1.0
  {
  }

  /** Version 2 renders "Loading..." while loading and otherwise the children,
      which default to "Productivity"; the default label is the children
      followed by " button with icon". */
  lemma RendersItsWording(p: Props, s: Snapshot, children: Option<string>, ariaLabel: Option<string>)
    ensures var v := Render(Words, p.loading, s.pressed, children, ariaLabel);
      && v.ariaBusy == p.loading && v.ariaPressed == s.pressed
      && (p.loading ==> v.text == "Loading...")
      && (!p.loading ==> v.text == WithDefault(children, "Productivity"))
      && (Truthy(ariaLabel) ==> v.ariaLabel == ariaLabel.value)
      && (!Truthy(ariaLabel) ==> v.ariaLabel == WithDefault(children, "Productivity") + " button with icon")
  {
  }
}
