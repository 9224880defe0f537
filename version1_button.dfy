/** Version 1: the plain button. Mouse and Enter/Space handlers, a click
    guard on `disabled || loading`, and no busy lock of its own. */
module Version1 {
  import opened JsValues
  import opened Interaction
  import opened Display

  /** Key handlers; no busy lock, no press flash, no animation. */
  const Handlers := Behaviour(keys := true, busyLock := false, pressFlash := false, animates := false)

  /** Default children, label suffix and busy text. */
  const Words := Wording("Productivity", " button", "Loading...")

  /** The `transform` scales: pressed, then hovered. */
  const Look := Scales(0.95, 1.05)

  /** With no busy lock, `n` clicks whose callbacks all return pending
      Promises call the callback `n` times and leave `n` more handlers
      suspended: a pending Promise does not hold off the next click. */
  lemma {:induction false} PendingClicksPileUp(p: Props, s: Snapshot, n: nat)
    requires Consistent(Handlers, p, s) && !p.disabled && !p.loading && p.hasCallback
    ensures Run(Handlers, p, s, Clicks(n, Defers)).calls == s.calls + n
    ensures Run(Handlers, p, s, Clicks(n, Defers)).awaiting == s.awaiting + n
    decreases n
  {
    if n > 0 {
      assert Clicks(n, Defers) == [Click(Defers)] + Clicks(n - 1, Defers);
      RunCons(Handlers, p, s, Click(Defers), Clicks(n - 1, Defers));
      PendingClicksPileUp(p, Step(Handlers, p, s, Click(Defers)), n - 1);
    }
  }

  /** Version 1 renders "Loading..." while loading and otherwise the children, which
      default to "Productivity"; the default label is the children followed by
      " button". */
  lemma RendersItsWording(p: Props, s: Snapshot, children: Option<string>, ariaLabel: Option<string>)
    ensures var v := Render(Words, p.loading, s.pressed, children, ariaLabel);
      && v.ariaBusy == p.loading && v.ariaPressed == s.pressed
      && (p.loading ==> v.text == "Loading...")
      && (!p.loading ==> v.text == WithDefault(children, "Productivity"))
      && (Truthy(ariaLabel) ==> v.ariaLabel == ariaLabel.value)
      && (!Truthy(ariaLabel) ==> v.ariaLabel == WithDefault(children, "Productivity") + " button")
  {
  }

  /** Version 1's `transform`: 0.95 when pressed, whatever the hover, 1.05 when
      only hovered, and 1 at rest. */
  lemma ScalesOfLook(s: Snapshot)
    ensures PressShrinksHoverGrows(Look)
    ensures s.pressed ==> Scale(Look, s.pressed, s.hovered) == 0.95
    ensures !s.pressed && s.hovered ==> Scale(Look, s.pressed, s.hovered) == 1.05
    ensures !s.pressed && !s.hovered ==> Scale(Look, s.pressed, s.hovered) == 1.0
  {
  }
}
