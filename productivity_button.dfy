/** ProductivityButton: the only component with a busy lock. `asyncLoading`
    is set before the callback runs and released by a 100 ms settle timer armed
    in `finally`; the displayed busy state is `loading || asyncLoading`. */
module ProductivityButton {
  import opened JsValues
  import opened Interaction
  import opened Display

  /** Key handlers and the busy lock; no press flash, no animation. */
  const Handlers := Behaviour(keys := true, busyLock := true, pressFlash := false, animates := false)

  datatype Size = Sm | Md | Lg

  /** One row of `SIZE_CONFIG`, every length in pixels. */
  datatype SizeSpec = SizeSpec(width: nat, height: nat, padding: nat, fontSize: nat, iconSize: nat)

  function Rank(size: Size): nat
  {
    match size
    case Sm => 0
    case Md => 1
    case Lg => 2
  }

  /** `SIZE_CONFIG[size]`: each step up adds 20 px of width, 10 px of height,
      4 px of padding and 2 px of font, and the icon is always 2 px larger than
      the font, so it is 16, 18 or 20 px. */
  function SizeConfig(size: Size): (c: SizeSpec)
    ensures c.width == 110 + 20 * Rank(size)
    ensures c.height == 50 + 10 * Rank(size)
    ensures c.padding == 16 + 4 * Rank(size)
    ensures c.fontSize == 14 + 2 * Rank(size)
    ensures c.iconSize == c.fontSize + 2
  {
    match size
    case Sm => SizeSpec(110, 50, 16, 14, 16)
    case Md => SizeSpec(130, 60, 20, 16, 18)
    case Lg => SizeSpec(150, 70, 24, 18, 20)
  }

  /** `isLoading = loading || asyncLoading`. */
  predicate IsLoading(p: Props, s: Snapshot)
  {
    p.loading || s.asyncLoading
  }

  /** `buttonContent = children || "Productivity"`: an absent or empty
      `children` falls back to the default label. */
  function Content(children: Option<string>): (r: string)
    ensures r != ""
    ensures Truthy(children) ==> r == children.value
    ensures !Truthy(children) ==> r == "Productivity"
  {
    OrElse(children, "Productivity")
  }

  /** The rendered button. `aria-busy`, the spinner and the "Loading..." text
      all follow the one derived busy flag; otherwise the text is the content
      and the label is the override or the content followed by " button". */
  function Render(p: Props, s: Snapshot, children: Option<string>, ariaLabel: Option<string>): (v: View)
    ensures v.ariaBusy <==> p.loading || s.asyncLoading
    ensures v.ariaBusy ==> v.text == "Loading..."
    ensures !v.ariaBusy ==> v.text == Content(children)
    ensures v.ariaPressed == s.pressed
    ensures Truthy(ariaLabel) ==> v.ariaLabel == ariaLabel.value
    ensures !Truthy(ariaLabel) ==> v.ariaLabel == Content(children) + " button"
  {
    var content := Content(children);
    View(OrElse(ariaLabel, content + " button"), s.pressed, IsLoading(p, s),
         if IsLoading(p, s) then "Loading..." else content)
  }

  /** The spinner, `aria-busy` and the "Loading..." text all follow the one
      derived busy flag, so they appear and disappear together. */
  lemma BusyIndicatorsAgree(p: Props, s: Snapshot, children: Option<string>, ariaLabel: Option<string>, icon: Option<string>)
    ensures var v := Render(p, s, children, ariaLabel);
      (IconSlot(IsLoading(p, s), icon) == Spinner <==> v.ariaBusy) &&
      (v.ariaBusy <==> p.loading || s.asyncLoading) &&
      (v.ariaBusy ==> v.text == "Loading...")
  {
  }

  /** Two key activations in a row on an enabled, idle button call the
      callback once: the second finds the lock still held. */
  lemma SecondKeyActivationIsLocked(p: Props, s: Snapshot, key1: string, key2: string)
    requires Consistent(Handlers, p, s) && !p.disabled && !p.loading && p.hasCallback && !s.asyncLoading
    requires IsActivationKey(key1) && IsActivationKey(key2)
    ensures Run(Handlers, p, s, [KeyDown(key1), KeyUp(key1, Returns), KeyDown(key2), KeyUp(key2, Returns)]).calls
            == s.calls + 1
  {
    var first, second := [KeyDown(key1), KeyUp(key1, Returns)], [KeyDown(key2), KeyUp(key2, Returns)];
    KeyActivation(Handlers, p, s, key1, Returns);
    var locked := Run(Handlers, p, s, first);
    assert locked.asyncLoading && locked.calls == s.calls + 1;
    KeyActivation(Handlers, p, locked, key2, Returns);
    RunAppend(Handlers, p, s, first, second);
    assert first + second == [KeyDown(key1), KeyUp(key1, Returns), KeyDown(key2), KeyUp(key2, Returns)];
  }

  /** A settle timer firing between the two key activations lets the second
      one call the callback again. */
  lemma SettledKeyActivationCallsAgain(p: Props, s: Snapshot, key1: string, key2: string)
    requires Consistent(Handlers, p, s) && !p.disabled && !p.loading && p.hasCallback && !s.asyncLoading
    requires IsActivationKey(key1) && IsActivationKey(key2)
    ensures Run(Handlers, p, s, [KeyDown(key1), KeyUp(key1, Returns), SettleTimer, KeyDown(key2), KeyUp(key2, Returns)]).calls
            == s.calls + 2
  {
    var press, second := [KeyDown(key1), KeyUp(key1, Returns)], [KeyDown(key2), KeyUp(key2, Returns)];
    var locked := Run(Handlers, p, s, press);
    assert locked.settleTimers == 1 && locked.calls == s.calls + 1 by {
      KeyActivation(Handlers, p, s, key1, Returns);
    }
    var released := OnSettleTimer(locked);
    assert Run(Handlers, p, s, press + [SettleTimer]) == released by {
      RunAppend(Handlers, p, s, press, [SettleTimer]);
      RunSingle(Handlers, p, locked, SettleTimer);
    }
    assert Run(Handlers, p, released, second).calls == s.calls + 2 by {
      KeyActivation(Handlers, p, released, key2, Returns);
    }
    RunAppend(Handlers, p, s, press + [SettleTimer], second);
    assert press + [SettleTimer] + second ==
           [KeyDown(key1), KeyUp(key1, Returns), SettleTimer, KeyDown(key2), KeyUp(key2, Returns)];
  }
}
