/** The interaction state machine shared by the button components: the
    `isPressed` / `isHovered` flags, the busy lock of ProductivityButton, the
    press flash of Versions 6 and 8 and the animation flag of Version 8, driven
    by the components' mouse, key, click and timer handlers.

    Everything here is a value: a `Snapshot` of one mounted button and one
    transition function per handler. The class `Component.Button` holds the same
    flags as fields and is proved against these functions; the lemmas at the end
    of this module state what a whole sequence of events can and cannot do. */
module Interaction {

  /** The props a handler reads: `disabled`, `loading` and whether an
      `onClick` callback was supplied. They are fixed for a mounted instance. */
  datatype Props = Props(disabled: bool, loading: bool, hasCallback: bool)

  /** What a component adds to the common mouse handlers:
      `keys`       — Enter / Space key handlers that press and activate;
      `busyLock`   — the `asyncLoading` lock with its settle timer (ProductivityButton);
      `pressFlash` — an accepted click sets pressed and arms a timer that clears it;
      `animates`   — an accepted click sets `isAnimating`, cleared by an effect timer. */
  datatype Behaviour = Behaviour(keys: bool, busyLock: bool, pressFlash: bool, animates: bool)

  /** What the `onClick` callback does when it is called: return normally,
      throw synchronously, or return a Promise that settles later. */
  datatype Reaction = Returns | Throws | Defers

  /** The events a mounted button can receive. `Resolve` and `Reject` settle the
      Promise of one suspended click handler; the three timer events fire one of
      the timeouts the handlers armed. */
  datatype Event =
    | MouseDown | MouseUp | MouseEnter | MouseLeave
    | KeyDown(key: string)
    | KeyUp(key: string, reaction: Reaction)
    | Click(reaction: Reaction)
    | Resolve | Reject
    | SettleTimer | FlashTimer | AnimationTimer

  /** The state of one mounted button. `awaiting` counts click handlers
      suspended at `await result`; `settleTimers` and `flashTimers` count the
      armed timeouts that clear `asyncLoading` and `isPressed`; `animationTimer`
      is the timeout armed by Version 8's effect. `calls` counts invocations of
      the callback and `errors` the reports written to the error console. */
  datatype Snapshot = Snapshot(
    pressed: bool,
    hovered: bool,
    asyncLoading: bool,
    animating: bool,
    awaiting: nat,
    settleTimers: nat,
    flashTimers: nat,
    animationTimer: bool,
    calls: nat,
    errors: nat)

  /** Every flag false, nothing armed, nothing called: the state on mount. */
  const Initial := Snapshot(false, false, false, false, 0, 0, 0, false, 0, 0)

  /** The keys the key handlers react to: `"Enter"` and `" "`. */
  predicate IsActivationKey(key: string)
  {
    key == "Enter" || key == " "
  }

  /** The guard at the top of `handleClick`. */
  predicate Blocked(b: Behaviour, p: Props, s: Snapshot)
  {
    p.disabled || p.loading || (b.busyLock && s.asyncLoading)
  }

  /** An invariant every state a mounted button can reach satisfies; it also
      admits some states no sequence of events reaches. With a callback, the
      busy lock is held exactly while one activation is awaiting its Promise or
      its settle timer; every error report belongs to a call that threw or rejected. */
  predicate Consistent(b: Behaviour, p: Props, s: Snapshot)
  {
    && (!b.busyLock ==> !s.asyncLoading && s.settleTimers == 0)
    && (b.busyLock && p.hasCallback ==>
          s.awaiting + s.settleTimers <= 1 &&
          (s.asyncLoading <==> s.awaiting + s.settleTimers == 1))
    && (!p.hasCallback ==> !s.asyncLoading && s.awaiting == 0 && s.calls == 0)
    && (!b.pressFlash ==> s.flashTimers == 0)
    && (!b.animates ==> !s.animating)
    && s.animationTimer == s.animating
    && s.errors + s.awaiting <= s.calls
  }

  lemma InitialIsConsistent(b: Behaviour, p: Props)
    ensures Consistent(b, p, Initial)
  {
  }

  /** `handleMouseDown`: press only when neither disabled nor loading. */
  function OnMouseDown(p: Props, s: Snapshot): (r: Snapshot)
    ensures r.pressed <==> s.pressed || (!p.disabled && !p.loading)
    ensures r == s.(pressed := r.pressed)
  {
    if !p.disabled && !p.loading then s.(pressed := true) else s
  }

  /** `handleMouseUp`: release, unconditionally. */
  function OnMouseUp(s: Snapshot): (r: Snapshot)
    ensures !r.pressed
    ensures r == s.(pressed := false)
  {
    s.(pressed := false)
  }

  /** `handleMouseEnter`: hover only when not disabled. */
  function OnMouseEnter(p: Props, s: Snapshot): (r: Snapshot)
    ensures r.hovered <==> s.hovered || !p.disabled
    ensures r == s.(hovered := r.hovered)
  {
    if !p.disabled then s.(hovered := true) else s
  }

  /** `handleMouseLeave`: drop both the press and the hover. */
  function OnMouseLeave(s: Snapshot): (r: Snapshot)
    ensures !r.pressed && !r.hovered
    ensures r == s.(pressed := false, hovered := false)
  {
    s.(pressed := false, hovered := false)
  }

  /** `handleKeyDown`: Enter or Space presses, with no disabled check; other
      keys, and components without key handlers, change nothing. */
  function OnKeyDown(b: Behaviour, s: Snapshot, key: string): (r: Snapshot)
    ensures b.keys && IsActivationKey(key) ==> r == s.(pressed := true)
    ensures !(b.keys && IsActivationKey(key)) ==> r == s
  {
    if b.keys && IsActivationKey(key) then s.(pressed := true) else s
  }

  /** The end of `handleClick` once the callback has finished: the `catch`
      writes one error report for a failure and, under the busy lock, the
      `finally` arms the settle timer. */
  function Complete(b: Behaviour, s: Snapshot, failed: bool): (r: Snapshot)
    ensures r.errors == s.errors + (if failed then 1 else 0)
    ensures r.settleTimers == s.settleTimers + (if b.busyLock then 1 else 0)
    ensures r == s.(errors := r.errors, settleTimers := r.settleTimers)
  {
    s.(errors := if failed then s.errors + 1 else s.errors,
       settleTimers := if b.busyLock then s.settleTimers + 1 else s.settleTimers)
  }

  /** `handleClick`. A blocked click changes nothing. An accepted one starts
      the animation and the press flash where the component has them, takes the
      busy lock and calls the callback once if there is one, and then either
      completes (return or throw) or stays suspended until its Promise settles. */
  function OnClick(b: Behaviour, p: Props, s: Snapshot, reaction: Reaction): (r: Snapshot)
    ensures Blocked(b, p, s) ==> r == s
    ensures !Blocked(b, p, s) ==> r.calls == s.calls + (if p.hasCallback then 1 else 0)
    ensures !Blocked(b, p, s) && b.busyLock ==> r.asyncLoading == p.hasCallback
    ensures !Blocked(b, p, s) && p.hasCallback && reaction.Defers? ==>
              r.awaiting == s.awaiting + 1 && r.errors == s.errors && r.settleTimers == s.settleTimers
    ensures !Blocked(b, p, s) && !(p.hasCallback && reaction.Defers?) ==>
              && r.awaiting == s.awaiting
              && r.errors == s.errors + (if p.hasCallback && reaction.Throws? then 1 else 0)
              && r.settleTimers == s.settleTimers + (if b.busyLock then 1 else 0)
    ensures !Blocked(b, p, s) && b.pressFlash ==> r.pressed && r.flashTimers == s.flashTimers + 1
    ensures !Blocked(b, p, s) && b.animates ==> r.animating && r.animationTimer
    ensures !b.pressFlash ==> r.pressed == s.pressed && r.flashTimers == s.flashTimers
    ensures !b.animates ==> r.animating == s.animating && r.animationTimer == s.animationTimer
    ensures !b.busyLock ==> r.asyncLoading == s.asyncLoading
    ensures r.hovered == s.hovered
  {
    if Blocked(b, p, s) then s
    else
      // Version 8 sets `isAnimating`; its effect arms the 400 ms timer when the
      // flag turns on and keeps the armed one while it stays on.
      var animated := if b.animates then s.(animating := true, animationTimer := true) else s;
      // Versions 6 and 8 flash the press and arm the 150 ms release.
      var flashed := if b.pressFlash then animated.(pressed := true, flashTimers := animated.flashTimers + 1)
                     else animated;
      if !p.hasCallback then Complete(b, flashed, false)
      else
        var called := flashed.(asyncLoading := if b.busyLock then true else flashed.asyncLoading,
                               calls := flashed.calls + 1);
        match reaction
        case Returns => Complete(b, called, false)
        case Throws => Complete(b, called, true)
        case Defers => called.(awaiting := called.awaiting + 1)
  }

  /** `handleKeyUp`: Enter or Space releases the press and then runs exactly
      the click handler; other keys, and components without key handlers,
      change nothing. */
  function OnKeyUp(b: Behaviour, p: Props, s: Snapshot, key: string, reaction: Reaction): (r: Snapshot)
    ensures b.keys && IsActivationKey(key) ==> r == OnClick(b, p, OnMouseUp(s), reaction)
    ensures b.keys && IsActivationKey(key) && !b.pressFlash ==> !r.pressed
    ensures !(b.keys && IsActivationKey(key)) ==> r == s
  {
    if b.keys && IsActivationKey(key) then OnClick(b, p, s.(pressed := false), reaction) else s
  }

  /** The Promise of one suspended click handler settles: a rejection reaches
      the `catch` and is reported once; either way the handler completes. With
      no suspended handler nothing happens. */
  function OnSettle(b: Behaviour, s: Snapshot, rejected: bool): (r: Snapshot)
    ensures s.awaiting == 0 ==> r == s
    ensures s.awaiting > 0 ==>
              && r.awaiting == s.awaiting - 1
              && r.errors == s.errors + (if rejected then 1 else 0)
              && r.settleTimers == s.settleTimers + (if b.busyLock then 1 else 0)
    ensures r == s.(awaiting := r.awaiting, errors := r.errors, settleTimers := r.settleTimers)
  {
    if s.awaiting == 0 then s else Complete(b, s.(awaiting := s.awaiting - 1), rejected)
  }

  /** The settle timeout fires: the busy lock is released. */
  function OnSettleTimer(s: Snapshot): (r: Snapshot)
    ensures s.settleTimers == 0 ==> r == s
    ensures s.settleTimers > 0 ==> r == s.(settleTimers := s.settleTimers - 1, asyncLoading := false)
  {
    if s.settleTimers == 0 then s else s.(settleTimers := s.settleTimers - 1, asyncLoading := false)
  }

  /** The 150 ms press-flash timeout fires: the press is released. */
  function OnFlashTimer(s: Snapshot): (r: Snapshot)
    ensures s.flashTimers == 0 ==> r == s
    ensures s.flashTimers > 0 ==> r == s.(flashTimers := s.flashTimers - 1, pressed := false)
  {
    if s.flashTimers == 0 then s else s.(flashTimers := s.flashTimers - 1, pressed := false)
  }

  /** Version 8's animation timeout fires: `isAnimating` is cleared. */
  function OnAnimationTimer(s: Snapshot): (r: Snapshot)
    ensures !s.animationTimer ==> r == s
    ensures s.animationTimer ==> r == s.(animationTimer := false, animating := false)
  {
    if s.animationTimer then s.(animationTimer := false, animating := false) else s
  }

  /** One event, dispatched to its handler. Every event keeps the invariant
      `Consistent`, calls the callback at most once and writes at most one
      error report. */
  function Step(b: Behaviour, p: Props, s: Snapshot, e: Event): (r: Snapshot)
    ensures Consistent(b, p, s) ==> Consistent(b, p, r)
    ensures s.calls <= r.calls <= s.calls + 1
    ensures s.errors <= r.errors <= s.errors + 1
  {
    match e
    case MouseDown => OnMouseDown(p, s)
    case MouseUp => OnMouseUp(s)
    case MouseEnter => OnMouseEnter(p, s)
    case MouseLeave => OnMouseLeave(s)
    case KeyDown(key) => OnKeyDown(b, s, key)
    case KeyUp(key, reaction) => OnKeyUp(b, p, s, key, reaction)
    case Click(reaction) => OnClick(b, p, s, reaction)
    case Resolve => OnSettle(b, s, false)
    case Reject => OnSettle(b, s, true)
    case SettleTimer => OnSettleTimer(s)
    case FlashTimer => OnFlashTimer(s)
    case AnimationTimer => OnAnimationTimer(s)
  }

  /** A sequence of events, each observing the updates of the one before.
      `Consistent` is kept, and the call and error counters only grow, each by
      at most one per event. */
  function Run(b: Behaviour, p: Props, s: Snapshot, t: seq<Event>): (r: Snapshot)
    ensures Consistent(b, p, s) ==> Consistent(b, p, r)
    ensures s.calls <= r.calls <= s.calls + |t|
    ensures s.errors <= r.errors <= s.errors + |t|
    decreases |t|
  {
    if t == [] then s else Run(b, p, Step(b, p, s, t[0]), t[1..])
  }

  lemma RunCons(b: Behaviour, p: Props, s: Snapshot, e: Event, t: seq<Event>)
    ensures Run(b, p, s, [e] + t) == Run(b, p, Step(b, p, s, e), t)
  {
    assert ([e] + t)[1..] == t;
  }

  lemma RunSingle(b: Behaviour, p: Props, s: Snapshot, e: Event)
    ensures Run(b, p, s, [e]) == Step(b, p, s, e)
  {
    assert [e][1..] == [];
  }

  /** Running two sequences one after the other is running their concatenation. */
  lemma {:induction false} RunAppend(b: Behaviour, p: Props, s: Snapshot, t1: seq<Event>, t2: seq<Event>)
    ensures Run(b, p, s, t1 + t2) == Run(b, p, Run(b, p, s, t1), t2)
    decreases |t1|
  {
    if t1 == [] {
      assert t1 + t2 == t2;
    } else {
      assert (t1 + t2)[1..] == t1[1..] + t2;
      RunAppend(b, p, Step(b, p, s, t1[0]), t1[1..], t2);
    }
  }

  /** `n` clicks in a row, each with the same callback behaviour. */
  function Clicks(n: nat, reaction: Reaction): (t: seq<Event>)
    ensures |t| == n && forall i :: 0 <= i < n ==> t[i] == Click(reaction)
  {
    seq(n, _ => Click(reaction))
  }

  // ---------------------------------------------------------------------------
  // What sequences of events can and cannot do

  /** While disabled or loading no sequence of events calls the callback.
      While disabled, nothing sets the hover, and without key handlers nothing
      sets the press either. */
  lemma {:induction false} InertWhileDisabledOrLoading(b: Behaviour, p: Props, s: Snapshot, t: seq<Event>)
    requires p.disabled || p.loading
    ensures Run(b, p, s, t).calls == s.calls
    ensures p.disabled && !s.hovered ==> !Run(b, p, s, t).hovered
    ensures p.disabled && !b.keys && !s.pressed ==> !Run(b, p, s, t).pressed
    decreases |t|
  {
    if t != [] {
      StepInertWhileDisabledOrLoading(b, p, s, t[0]);
      InertWhileDisabledOrLoading(b, p, Step(b, p, s, t[0]), t[1..]);
    }
  }

  lemma StepInertWhileDisabledOrLoading(b: Behaviour, p: Props, s: Snapshot, e: Event)
    requires p.disabled || p.loading
    ensures Step(b, p, s, e).calls == s.calls
    ensures p.disabled && !s.hovered ==> !Step(b, p, s, e).hovered
    ensures p.disabled && !b.keys && !s.pressed ==> !Step(b, p, s, e).pressed
  {
    match e
    case KeyUp(key, reaction) =>
      if b.keys && IsActivationKey(key) {
        assert Blocked(b, p, OnMouseUp(s));
      }
    case _ =>
  }

  /** The key handlers have no disabled check: a disabled button with key
      handlers is pressed by Enter or Space. */
  lemma KeyDownIgnoresDisabled(b: Behaviour, p: Props, s: Snapshot, key: string)
    requires b.keys && IsActivationKey(key) && p.disabled
    ensures Step(b, p, s, KeyDown(key)).pressed
  {
  }

  /** Components without key handlers ignore every key event. */
  lemma {:induction false} KeysIgnoredWithoutHandlers(b: Behaviour, p: Props, s: Snapshot, t: seq<Event>)
    requires !b.keys
    requires forall i :: 0 <= i < |t| ==> t[i].KeyDown? || t[i].KeyUp?
    ensures Run(b, p, s, t) == s
    decreases |t|
  {
    if t != [] {
      KeysIgnoredWithoutHandlers(b, p, Step(b, p, s, t[0]), t[1..]);
    }
  }

  /** Under the busy lock, once `asyncLoading` is set no event but the settle
      timer clears it, so no click or key activation calls the callback
      again, whether the callback is still pending or has already settled. */
  lemma {:induction false} LockHeldUntilSettleTimer(b: Behaviour, p: Props, s: Snapshot, t: seq<Event>)
    requires b.busyLock && s.asyncLoading
    requires forall i :: 0 <= i < |t| ==> t[i] != SettleTimer
    ensures Run(b, p, s, t).asyncLoading
    ensures Run(b, p, s, t).calls == s.calls
    decreases |t|
  {
    if t != [] {
      LockHeldUntilSettleTimer(b, p, Step(b, p, s, t[0]), t[1..]);
    }
  }

  /** `n` clicks on an enabled button with a callback: without the busy lock
      every one calls the callback, even while earlier Promises are pending;
      with it only the first does, and only if the lock was free. */
  lemma {:induction false} RepeatedClicks(b: Behaviour, p: Props, s: Snapshot, n: nat, reaction: Reaction)
    requires Consistent(b, p, s)
    requires !p.disabled && !p.loading && p.hasCallback
    ensures Run(b, p, s, Clicks(n, reaction)).calls ==
              s.calls + (if !b.busyLock then n else if n > 0 && !s.asyncLoading then 1 else 0)
    decreases n
  {
    if n > 0 {
      assert Clicks(n, reaction) == [Click(reaction)] + Clicks(n - 1, reaction);
      RunCons(b, p, s, Click(reaction), Clicks(n - 1, reaction));
      RepeatedClicks(b, p, Step(b, p, s, Click(reaction)), n - 1, reaction);
    }
  }

  /** How the callback of one activation ends up. */
  datatype Fate = Return | Throw | Resolved | Rejected

  /** The events of one activation with the given fate, up to its settlement. */
  function Activation(f: Fate): (t: seq<Event>)
    ensures |t| == (if f.Resolved? || f.Rejected? then 2 else 1)
    ensures t[0].Click?
  {
    match f
    case Return => [Click(Returns)]
    case Throw => [Click(Throws)]
    case Resolved => [Click(Defers), Resolve]
    case Rejected => [Click(Defers), Reject]
  }

  /** Under the busy lock, an activation that finds the lock free calls the
      callback once and holds the lock through its settlement whatever the
      outcome; a throw or a rejection writes exactly one error report. The
      settle timer, armed once the callback has settled and not before,
      releases the lock, after which the button accepts the next click. */
  lemma EveryOutcomeReleasesLock(b: Behaviour, p: Props, s: Snapshot, f: Fate)
    requires b.busyLock && Consistent(b, p, s)
    requires !p.disabled && !p.loading && p.hasCallback && !s.asyncLoading
    ensures var mid := Run(b, p, s, Activation(f));
      && mid.asyncLoading && mid.awaiting == 0 && mid.settleTimers == 1
      && mid.calls == s.calls + 1
      && mid.errors == s.errors + (if f.Throw? || f.Rejected? then 1 else 0)
      && !Run(b, p, mid, [SettleTimer]).asyncLoading
      && Run(b, p, mid, [SettleTimer, Click(Returns)]).calls == s.calls + 2
    ensures f.Resolved? || f.Rejected? ==>
      Run(b, p, s, [Click(Defers), SettleTimer]).asyncLoading
  {
    ActivationSettles(b, p, s, f);
    TimerReleasesLock(b, p, Run(b, p, s, Activation(f)));
    if f.Resolved? || f.Rejected? {
      RunCons(b, p, s, Click(Defers), [SettleTimer]);
      RunSingle(b, p, OnClick(b, p, s, Defers), SettleTimer);
    }
  }

  lemma ActivationSettles(b: Behaviour, p: Props, s: Snapshot, f: Fate)
    requires b.busyLock && Consistent(b, p, s)
    requires !p.disabled && !p.loading && p.hasCallback && !s.asyncLoading
    ensures var mid := Run(b, p, s, Activation(f));
      && mid.asyncLoading && mid.awaiting == 0 && mid.settleTimers == 1
      && mid.calls == s.calls + 1
      && mid.errors == s.errors + (if f.Throw? || f.Rejected? then 1 else 0)
  {
    match f {
      case Return =>
        RunSingle(b, p, s, Click(Returns));
      case Throw =>
        RunSingle(b, p, s, Click(Throws));
      case Resolved =>
        RunCons(b, p, s, Click(Defers), [Resolve]);
        RunSingle(b, p, OnClick(b, p, s, Defers), Resolve);
      case Rejected =>
        RunCons(b, p, s, Click(Defers), [Reject]);
        RunSingle(b, p, OnClick(b, p, s, Defers), Reject);
    }
  }

  lemma TimerReleasesLock(b: Behaviour, p: Props, mid: Snapshot)
    requires b.busyLock && !p.disabled && !p.loading && p.hasCallback
    requires mid.settleTimers == 1
    ensures !Run(b, p, mid, [SettleTimer]).asyncLoading
    ensures Run(b, p, mid, [SettleTimer, Click(Returns)]).calls == mid.calls + 1
  {
    RunSingle(b, p, mid, SettleTimer);
    RunCons(b, p, mid, SettleTimer, [Click(Returns)]);
    RunSingle(b, p, OnSettleTimer(mid), Click(Returns));
  }

  /** Enter or Space, down then up, on an enabled button that is not loading
      has exactly the effect of a pointer press, release and click. */
  lemma KeyActivationIsClick(b: Behaviour, p: Props, s: Snapshot, key: string, reaction: Reaction)
    requires b.keys && IsActivationKey(key)
    requires !p.disabled && !p.loading
    ensures Run(b, p, s, [KeyDown(key), KeyUp(key, reaction)]) ==
            Run(b, p, s, [MouseDown, MouseUp, Click(reaction)])
  {
    RunCons(b, p, s, KeyDown(key), [KeyUp(key, reaction)]);
    RunCons(b, p, s, MouseDown, [MouseUp, Click(reaction)]);
    var d := Step(b, p, s, MouseDown);
    RunCons(b, p, d, MouseUp, [Click(reaction)]);
    assert Step(b, p, s, KeyDown(key)) == d;
    assert Step(b, p, d, KeyUp(key, reaction)) == Step(b, p, Step(b, p, d, MouseUp), Click(reaction));
  }

  /** Enter or Space, down then up, is a click on the released button. */
  lemma KeyActivation(b: Behaviour, p: Props, s: Snapshot, key: string, reaction: Reaction)
    requires b.keys && IsActivationKey(key)
    ensures Run(b, p, s, [KeyDown(key), KeyUp(key, reaction)]) == OnClick(b, p, s.(pressed := false), reaction)
  {
    RunCons(b, p, s, KeyDown(key), [KeyUp(key, reaction)]);
    RunSingle(b, p, OnKeyDown(b, s, key), KeyUp(key, reaction));
  }

  /** A pointer press and release over an enabled, idle button with a
      callback activates it exactly once; leaving instead of releasing clears
      the press and activates nothing. */
  lemma PressReleaseActivatesOnce(b: Behaviour, p: Props, s: Snapshot, reaction: Reaction)
    requires !Blocked(b, p, s) && p.hasCallback
    ensures Run(b, p, s, [MouseDown, MouseUp, Click(reaction)]).calls == s.calls + 1
    ensures Run(b, p, s, [MouseDown, MouseLeave]).calls == s.calls
    ensures !Run(b, p, s, [MouseDown, MouseLeave]).pressed
  {
    var d := Step(b, p, s, MouseDown);
    RunCons(b, p, s, MouseDown, [MouseUp, Click(reaction)]);
    RunCons(b, p, d, MouseUp, [Click(reaction)]);
    RunCons(b, p, s, MouseDown, [MouseLeave]);
    assert Run(b, p, s, [MouseDown, MouseUp, Click(reaction)]) ==
           Step(b, p, Step(b, p, d, MouseUp), Click(reaction));
  }

  /** Entering and leaving an enabled button hovers and then unhovers it,
      without calling the callback. */
  lemma HoverRoundTrip(b: Behaviour, p: Props, s: Snapshot)
    requires !p.disabled
    ensures Run(b, p, s, [MouseEnter]).hovered
    ensures !Run(b, p, s, [MouseEnter, MouseLeave]).hovered
    ensures Run(b, p, s, [MouseEnter, MouseLeave]).calls == s.calls
  {
    RunCons(b, p, s, MouseEnter, [MouseLeave]);
  }

  /** With the press flash, a key activation leaves the button pressed after
      the key is released; the flash timer is what releases it. */
  lemma FlashOutlastsKeyUp(b: Behaviour, p: Props, s: Snapshot, key: string, reaction: Reaction)
    requires b.keys && b.pressFlash && IsActivationKey(key)
    requires !Blocked(b, p, s)
    ensures Run(b, p, s, [KeyUp(key, reaction)]).pressed
    ensures !Run(b, p, s, [KeyUp(key, reaction), FlashTimer]).pressed
  {
    RunCons(b, p, s, KeyUp(key, reaction), [FlashTimer]);
  }

  /** Once `isAnimating` is set, only the animation timer clears it. */
  lemma {:induction false} AnimationClearedOnlyByTimer(b: Behaviour, p: Props, s: Snapshot, t: seq<Event>)
    requires s.animating
    requires forall i :: 0 <= i < |t| ==> t[i] != AnimationTimer
    ensures Run(b, p, s, t).animating
    decreases |t|
  {
    if t != [] {
      AnimationClearedOnlyByTimer(b, p, Step(b, p, s, t[0]), t[1..]);
    }
  }
}
