/** Version 3: the glassmorphic button with a single press flag. Its press
    handlers have no guard, its click handler has no `try`, and a click with
    no callback writes a fallback log line instead. */
module Version3 {
  import opened JsValues
  import Interaction

  type Props = Interaction.Props

  /** What a `Version3Button` keeps: the press flag, and the callback calls
      and fallback log lines it has produced. */
  datatype Snapshot = Snapshot(pressed: bool, calls: nat, fallbackLogs: nat)

  const Initial := Snapshot(false, 0, 0)

  /** The state after `handleClick`, and whether an exception escaped it. */
  datatype ClickResult = ClickResult(state: Snapshot, raised: bool)

  /** `handleMouseDown`: presses with no guard, even when disabled. */
  function OnMouseDown(s: Snapshot): (r: Snapshot)
    ensures r.pressed && r == s.(pressed := true)
  {
    s.(pressed := true)
  }

  /** `handleMouseUp` and `handleMouseLeave` both release. */
  function OnRelease(s: Snapshot): (r: Snapshot)
    ensures !r.pressed && r == s.(pressed := false)
  {
    s.(pressed := false)
  }

  /** `handleClick`. Enabled and not loading: the callback is called once, and
      a synchronous throw escapes the handler since nothing catches it; with no
      callback one fallback line is logged instead. Otherwise nothing
      happens. The callback's result is not awaited. */
  function OnClick(p: Props, s: Snapshot, reaction: Interaction.Reaction): (r: ClickResult)
    ensures p.disabled || p.loading ==> r == ClickResult(s, false)
    ensures !p.disabled && !p.loading && p.hasCallback ==>
              r.state == s.(calls := s.calls + 1) && (r.raised <==> reaction.Throws?)
    ensures !p.disabled && !p.loading && !p.hasCallback ==>
              r == ClickResult(s.(fallbackLogs := s.fallbackLogs + 1), false)
  {
    if !p.disabled && !p.loading && p.hasCallback then
      ClickResult(s.(calls := s.calls + 1), reaction.Throws?)
    else if !p.disabled && !p.loading then
      ClickResult(s.(fallbackLogs := s.fallbackLogs + 1), false)
    else
      ClickResult(s, false)
  }

  datatype Event = MouseDown | MouseUp | MouseLeave | Click(reaction: Interaction.Reaction)

  function Step(p: Props, s: Snapshot, e: Event): Snapshot
  {
    match e
    case MouseDown => OnMouseDown(s)
    case MouseUp => OnRelease(s)
    case MouseLeave => OnRelease(s)
    case Click(reaction) => OnClick(p, s, reaction).state
  }

  function Run(p: Props, s: Snapshot, t: seq<Event>): Snapshot
    decreases |t|
  {
    if t == [] then s else Run(p, Step(p, s, t[0]), t[1..])
  }

  /** The number of clicks in a sequence of events. */
  function ClickCount(t: seq<Event>): (n: nat)
    ensures n <= |t|
    decreases |t|
  {
    if t == [] then 0 else (if t[0].Click? then 1 else 0) + ClickCount(t[1..])
  }

  /** Every click on an enabled button that is not loading does exactly one
      thing, call the callback or log the fallback line, and a blocked button
      does neither for any sequence of events. */
  lemma {:induction false} EachClickActsOnce(p: Props, s: Snapshot, t: seq<Event>)
    ensures var r := Run(p, s, t);
      r.calls + r.fallbackLogs ==
        s.calls + s.fallbackLogs + (if p.disabled || p.loading then 0 else ClickCount(t))
    ensures var r := Run(p, s, t);
      p.hasCallback ==> r.fallbackLogs == s.fallbackLogs
    ensures var r := Run(p, s, t);
      !p.hasCallback ==> r.calls == s.calls
    decreases |t|
  {
    if t != [] {
      EachClickActsOnce(p, Step(p, s, t[0]), t[1..]);
    }
  }

  /** The native `disabled` attribute covers both props. */
  predicate NativeDisabled(p: Props)
  {
    p.disabled || p.loading
  }

  /** The guard in `handleClick` refuses exactly the clicks the native
      attribute blocks: a click acts (calls or logs) if and only if the button
      is not natively disabled, and a blocked click raises nothing. */
  lemma GuardMatchesNativeDisabled(p: Props, s: Snapshot, reaction: Interaction.Reaction)
    ensures NativeDisabled(p) <==> OnClick(p, s, reaction) == ClickResult(s, false)
  {
    if !NativeDisabled(p) {
      var r := OnClick(p, s, reaction);
      assert r.state.calls + r.state.fallbackLogs == s.calls + s.fallbackLogs + 1;
    }
  }

  /** The text: "Loading..." while loading, else the fixed "Productivity". */
  function Text(p: Props): (r: string)
    ensures p.loading ==> r == "Loading..."
    ensures !p.loading ==> r == "Productivity"
  {
    if p.loading then "Loading..." else "Productivity"
  }

  const Base := "productivity-button"
  const LoadingClass := "productivity-button--loading"
  const GlowClass := "productivity-button--glow"

  /** `[value]` when the flag is set, else nothing. */
  function When(flag: bool, value: string): seq<string>
  {
    if flag then [value] else []
  }

  /** The class tokens: `[base, loading && …, glow && …, className]` with the
      falsy entries (`false` and the empty string) filtered out. */
  function ClassTokens(loading: bool, glow: bool, className: string): seq<string>
  {
    FilterTruthy([Some(Base), if loading then Some(LoadingClass) else None,
                  if glow then Some(GlowClass) else None, Some(className)])
  }

  /** The filter leaves the base first, then each modifier whose flag is set,
      then `className` unless it is empty. */
  lemma ClassTokensAre(loading: bool, glow: bool, className: string)
    ensures ClassTokens(loading, glow, className) ==
              [Base] + (When(loading, LoadingClass) + (When(glow, GlowClass) + When(className != "", className)))
  {
    var load := if loading then Some(LoadingClass) else None;
    var glowing := if glow then Some(GlowClass) else None;
    FilterTruthyFour(Some(Base), load, glowing, Some(className));
    assert Kept(Some(Base)) == [Base];
    assert Kept(load) == When(loading, LoadingClass);
    assert Kept(glowing) == When(glow, GlowClass);
    assert Kept(Some(className)) == When(className != "", className);
  }

  /** The `className` attribute: the tokens joined by single spaces. */
  function ClassName(loading: bool, glow: bool, className: string): string
  {
    Join(ClassTokens(loading, glow, className), " ")
  }

  /** Joining a token that is present appends a space and the token. */
  lemma JoinWhen(ts: seq<string>, flag: bool, value: string)
    requires |ts| > 0
    ensures Join(ts + When(flag, value), " ") == Join(ts, " ") + (if flag then " " + value else "")
  {
    if flag {
      JoinAppend(ts, value, " ");
    } else {
      assert ts + When(flag, value) == ts;
    }
  }

  /** The class string starts with the base class, carries " " + a modifier
      exactly for each flag that is set, and ends in " " + `className` when
      that is not empty; an empty `className` adds nothing, not even a
      trailing space. */
  lemma ClassNameShape(loading: bool, glow: bool, className: string)
    ensures ClassName(loading, glow, className) ==
              Base + (if loading then " " + LoadingClass else "") + (if glow then " " + GlowClass else "")
                   + (if className != "" then " " + className else "")
    ensures className == "" ==> ClassName(loading, glow, className)[|ClassName(loading, glow, className)| - 1] != ' '
  {
    ClassTokensAre(loading, glow, className);
    var a, b, c := When(loading, LoadingClass), When(glow, GlowClass), When(className != "", className);
    var t1 := [Base] + a;
    var t2 := t1 + b;
    assert ClassTokens(loading, glow, className) == t2 + c;
    JoinWhen([Base], loading, LoadingClass);
    JoinWhen(t1, glow, GlowClass);
    JoinWhen(t2, className != "", className);
  }

  /** A mounted Version 3 button. */
  class Button {
    const props: Props
    var isPressed: bool
    ghost var callCount: nat
    ghost var fallbackLogs: nat

    ghost function State(): Snapshot
      reads this
    {
      Snapshot(isPressed, callCount, fallbackLogs)
    }

    constructor (p: Props)
      ensures props == p && State() == Initial
    {
      props := p;
      isPressed := false;
      callCount, fallbackLogs := 0, 0;
    }

    method MouseDown()
      modifies this
      ensures State() == OnMouseDown(old(State()))
    {
      isPressed := true;
    }

    method MouseUp()
      modifies this
      ensures State() == OnRelease(old(State()))
    {
      isPressed := false;
    }

    method MouseLeave()
      modifies this
      ensures State() == OnRelease(old(State()))
    {
      isPressed := false;
    }

    /** `raised` is whether the callback's exception escapes the handler. */
    method Click(reaction: Interaction.Reaction) returns (raised: bool)
      modifies this
      ensures ClickResult(State(), raised) == OnClick(props, old(State()), reaction)
    {
      raised := false;
      if !props.disabled && !props.loading && props.hasCallback {
        callCount := callCount + 1;
        raised := reaction.Throws?;
      } else if !props.disabled && !props.loading {
        fallbackLogs := fallbackLogs + 1;
      }
    }
  }
}
