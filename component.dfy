/** A mounted button: the `useState` flags of a component as fields, updated in
    place by one method per handler. Each method is proved to perform exactly
    the transition `Interaction` defines for its handler, so every lemma about
    `Interaction.Run` holds of any sequence of method calls on a `Button`. */
module Component {
  import opened Interaction

  class Button {
    const behaviour: Behaviour
    const props: Props

    var isPressed: bool
    var isHovered: bool
    var asyncLoading: bool
    var isAnimating: bool
    /** Click handlers suspended at `await result`. */
    var awaiting: nat
    /** Armed settle timeouts (`setAsyncLoading(false)`). */
    var settleTimers: nat
    /** Armed press-flash timeouts (`setIsPressed(false)`). */
    var flashTimers: nat
    /** Whether Version 8's animation timeout is armed. */
    var animationTimer: bool
    /** Invocations of the `onClick` callback. */
    ghost var callCount: nat
    /** Reports written to the error console by the `catch` block. */
    ghost var errorReports: nat

    ghost function State(): Snapshot
      reads this
    {
      Snapshot(isPressed, isHovered, asyncLoading, isAnimating, awaiting,
               settleTimers, flashTimers, animationTimer, callCount, errorReports)
    }

    ghost predicate Valid()
      reads this
    {
      Consistent(behaviour, props, State())
    }

    /** Mounting: every flag false, nothing armed, nothing called. */
    constructor (b: Behaviour, p: Props)
      ensures behaviour == b && props == p
      ensures Valid() && State() == Initial
    {
      behaviour, props := b, p;
      isPressed, isHovered, asyncLoading, isAnimating := false, false, false, false;
      awaiting, settleTimers, flashTimers, animationTimer := 0, 0, 0, false;
      callCount, errorReports := 0, 0;
    }

    method MouseDown()
      requires Valid()
      modifies this
      ensures Valid() && State() == OnMouseDown(props, old(State()))
    {
      if !props.disabled && !props.loading {
        isPressed := true;
      }
    }

    method MouseUp()
      requires Valid()
      modifies this
      ensures Valid() && State() == OnMouseUp(old(State()))
    {
      isPressed := false;
    }

    method MouseEnter()
      requires Valid()
      modifies this
      ensures Valid() && State() == OnMouseEnter(props, old(State()))
    {
      if !props.disabled {
        isHovered := true;
      }
    }

    method MouseLeave()
      requires Valid()
      modifies this
      ensures Valid() && State() == OnMouseLeave(old(State()))
    {
      isPressed := false;
      isHovered := false;
    }

    method KeyDown(key: string)
      requires Valid()
      modifies this
      ensures Valid() && State() == OnKeyDown(behaviour, old(State()), key)
    {
      if behaviour.keys && (key == "Enter" || key == " ") {
        isPressed := true;
      }
    }

    method KeyUp(key: string, reaction: Reaction)
      requires Valid()
      modifies this
      ensures Valid() && State() == OnKeyUp(behaviour, props, old(State()), key, reaction)
    {
      if behaviour.keys && (key == "Enter" || key == " ") {
        isPressed := false;
        Click(reaction);
      }
    }

    /** `handleClick`, up to its first `await` or to its end. */
    method Click(reaction: Reaction)
      requires Valid()
      modifies this
      ensures Valid() && State() == OnClick(behaviour, props, old(State()), reaction)
    {
      if props.disabled || props.loading || (behaviour.busyLock && asyncLoading) {
        return;
      }
      if behaviour.animates {
        isAnimating := true;
        animationTimer := true;
      }
      if behaviour.pressFlash {
        isPressed := true;
        flashTimers := flashTimers + 1;
      }
      if !props.hasCallback {
        Finish(false);
      } else {
        if behaviour.busyLock {
          asyncLoading := true;
        }
        callCount := callCount + 1;
        match reaction
        case Returns => Finish(false);
        case Throws => Finish(true);
        case Defers => awaiting := awaiting + 1;
      }
    }

    /** The `catch` and `finally` of `handleClick`. */
    method Finish(failed: bool)
      modifies this
      ensures State() == Complete(behaviour, old(State()), failed)
    {
      if failed {
        errorReports := errorReports + 1;
      }
      if behaviour.busyLock {
        settleTimers := settleTimers + 1;
      }
    }

    /** The Promise of one suspended click handler resolves. */
    method Resolve()
      requires Valid()
      modifies this
      ensures Valid() && State() == OnSettle(behaviour, old(State()), false)
    {
      if awaiting > 0 {
        awaiting := awaiting - 1;
        Finish(false);
      }
    }

    /** The Promise of one suspended click handler rejects. */
    method Reject()
      requires Valid()
      modifies this
      ensures Valid() && State() == OnSettle(behaviour, old(State()), true)
    {
      if awaiting > 0 {
        awaiting := awaiting - 1;
        Finish(true);
      }
    }

    method SettleTimerFires()
      requires Valid()
      modifies this
      ensures Valid() && State() == OnSettleTimer(old(State()))
    {
      if settleTimers > 0 {
        settleTimers := settleTimers - 1;
        asyncLoading := false;
      }
    }

    method FlashTimerFires()
      requires Valid()
      modifies this
      ensures Valid() && State() == OnFlashTimer(old(State()))
    {
      if flashTimers > 0 {
        flashTimers := flashTimers - 1;
        isPressed := false;
      }
    }

    method AnimationTimerFires()
      requires Valid()
      modifies this
      ensures Valid() && State() == OnAnimationTimer(old(State()))
    {
      if animationTimer {
        animationTimer := false;
        isAnimating := false;
      }
    }

    /** Delivers one event to its handler. */
    method Dispatch(e: Event)
      requires Valid()
      modifies this
      ensures Valid() && State() == Step(behaviour, props, old(State()), e)
    {
      match e
      case MouseDown => MouseDown();
      case MouseUp => MouseUp();
      case MouseEnter => MouseEnter();
      case MouseLeave => MouseLeave();
      case KeyDown(key) => KeyDown(key);
      case KeyUp(key, reaction) => KeyUp(key, reaction);
      case Click(reaction) => Click(reaction);
      case Resolve => Resolve();
      case Reject => Reject();
      case SettleTimer => SettleTimerFires();
      case FlashTimer => FlashTimerFires();
      case AnimationTimer => AnimationTimerFires();
    }

    /** Delivers a sequence of events in order. */
    method DispatchAll(t: seq<Event>)
      requires Valid()
      modifies this
      ensures Valid() && State() == Run(behaviour, props, old(State()), t)
    {
      var i := 0;
      while i < |t|
        invariant 0 <= i <= |t|
        invariant Valid()
        invariant Run(behaviour, props, old(State()), t) == Run(behaviour, props, State(), t[i..])
      {
        assert t[i..] == [t[i]] + t[i + 1..];
        RunCons(behaviour, props, State(), t[i], t[i + 1..]);
        Dispatch(t[i]);
        i := i + 1;
      }
      assert t[i..] == [];
    }
  }
}
