/** Version 8: the hybrid button. An accepted click sets `isAnimating` and the
    press, arms a 150 ms release of the press, and an effect keyed on
    `isAnimating` arms a 400 ms timeout that clears it. */
module Version8 {
  import opened JsValues
  import opened Interaction
  import opened Display

  /** Key handlers, press flash and animation; no busy lock. */
  const Handlers := Behaviour(keys := true, busyLock := false, pressFlash := true, animates := true)

  /** Default children, label suffix and busy text. */
  const Words := Wording("Productivity", " button", "Loading...")

  /** The `transform` scales: pressed, then hovered. */
  const Look := Scales(0.96, 1.08)

  /** The ripple overlay is rendered exactly while animating. */
  predicate RippleShown(s: Snapshot)
  {
    s.animating
  }

  /** The glow's opacity: 0.8 while animating, else 0.4 while hovered, else
      none; animating wins over hovering. */
  function GlowOpacity(s: Snapshot): (r: real)
    ensures s.animating <==> r == 0.8
    ensures !s.animating && s.hovered <==> r == 0.4
    ensures !s.animating && !s.hovered <==> r == 0.0
  {
    if s.animating then 0.8 else if s.hovered then 0.4 else 0.0
  }

  /** An accepted click starts the ripple with its timer armed; from then on
      the ripple stays up through any events until that timer fires, and its
      firing takes the ripple down. */
  lemma RippleLastsUntilItsTimer(p: Props, s: Snapshot, reaction: Reaction, t: seq<Event>)
    requires Consistent(Handlers, p, s) && !p.disabled && !p.loading
    requires forall i :: 0 <= i < |t| ==> t[i] != AnimationTimer
    ensures var clicked := Step(Handlers, p, s, Click(reaction));
      && RippleShown(clicked) && clicked.animationTimer
      && RippleShown(Run(Handlers, p, clicked, t))
      && !RippleShown(Run(Handlers, p, Run(Handlers, p, clicked, t), [AnimationTimer]))
  {
    var clicked := Step(Handlers, p, s, Click(reaction));
    AnimationClearedOnlyByTimer(Handlers, p, clicked, t);
    var later := Run(Handlers, p, clicked, t);
    assert Consistent(Handlers, p, later);
    RunSingle(Handlers, p, later, AnimationTimer);
  }

  /** Version 8 renders "Loading..." while loading and otherwise the children, which
      default to "Productivity"; the default label is the children followed by
      " button". */
  lemma RendersItsWording(p: Props, s: Snapshot, children: Option<string>, ariaLabel: Option<string>)
    ensures var v := Render(Words, p.loading, s.pressed, children, ariaLabel);
      && v.ariaBusy == p.loading && v.ariaPressed == s.pressed
      && (p.loading ==> v.text == "Loading...")
      && (!p.loading ==> v.text == WithDefault(children, "Productivity"))
      && (Truthy(ariaLabel) ==> v.ariaLabel == ariaLabel.value)
      && (!Truthy(ariaLabel) ==> v.ariaLabel == WithDefault(children, "Productivity") + " button")
  {
  }

  /** Version 8's `transform`: 0.96 when pressed, whatever the hover, 1.08 when
      only hovered, and 1 at rest. */
  lemma ScalesOfLook(s: Snapshot)
    ensures PressShrinksHoverGrows(Look)
    ensures s.pressed ==> Scale(Look, s.pressed, s.hovered) == 0.96
    ensures !s.pressed && s.hovered ==> Scale(Look, s.pressed, s.hovered) == 1.08
    ensures !s.pressed && !s.hovered ==> Scale(Look, s.pressed, s.hovered) == 1.0
  {
  }
}
