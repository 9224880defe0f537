/** Version 6: the blue gradient button with a press flash. An accepted click
    sets the press and arms a 150 ms timeout that releases it, whatever the
    callback then does. */
module Version6 {
  import opened JsValues
  import opened Interaction
  import opened Display

  /** Key handlers and the press flash; no busy lock, no animation. */
  const Handlers := Behaviour(keys := true, busyLock := false, pressFlash := true, animates := false)

  /** Default children, label suffix and busy text. */
  const Words := Wording("Productivity", " button", "Loading...")

  /** A key activation on an enabled button that is not loading leaves it
      pressed once the key is up, whatever the callback does, and the flash
      timer releases it. A throw is reported once and not rethrown. */
  lemma KeyReleaseLeavesFlash(p: Props, s: Snapshot, key: string, reaction: Reaction)
    requires IsActivationKey(key) && !p.disabled && !p.loading
    ensures Run(Handlers, p, s, [KeyUp(key, reaction)]).pressed
    ensures Run(Handlers, p, s, [KeyUp(key, reaction)]).flashTimers == s.flashTimers + 1
    ensures !Run(Handlers, p, s, [KeyUp(key, reaction), FlashTimer]).pressed
    ensures Run(Handlers, p, s, [KeyUp(key, reaction)]).errors ==
              s.errors + (if p.hasCallback && reaction.Throws? then 1 else 0)
  {
    FlashOutlastsKeyUp(Handlers, p, s, key, reaction);
    RunSingle(Handlers, p, s, KeyUp(key, reaction));
  }

  /** Version 6 renders "Loading..." while loading and otherwise the children, which
      default to "Productivity"; the default label is the children followed by
      " button". */
  lemma RendersItsWording(p: Props, s: Snapshot, children: Option<string>, ariaLabel: Option<string>)
    ensures var v := Render(Words, p.loading, s.pressed, children, ariaLabel);
      && v.ariaBusy == p.loading && v.ariaPressed == s.pressed
      && (p.loading ==> v.text == "Loading...")
      && (!p.loading ==> v.text == WithDefault(children, "Productivity"))
      && (Truthy(ariaLabel) ==> v.ariaLabel == ariaLabel.value)
      && (!Truthy(ariaLabel) ==> v.ariaLabel == WithDefault(children, "Productivity") + " button")
  {
  }
}
