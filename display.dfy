/** What the components render from their state that is not styling: the
    accessible attributes, the visible text, the icon slot, and the discrete
    choice of which visual treatment wins when several flags are set. */
module Display {
  import opened JsValues

  /** The accessible surface of a rendered button: `aria-label`,
      `aria-pressed`, `aria-busy` and the text inside it. */
  datatype View = View(ariaLabel: string, ariaPressed: bool, ariaBusy: bool, text: string)

  /** The constants in which Versions 1, 2, 4, 6, 7 and 8 differ when they
      render: the default of the `children` parameter, what follows the
      children in the default `aria-label`, and the text shown while loading. */
  datatype Wording = Wording(defaultChildren: string, labelSuffix: string, busyText: string)

  /** `children = <default>` as a destructuring default: only an absent
      `children` takes the default, an empty one stays empty. */
  function Children(w: Wording, children: Option<string>): (r: string)
    ensures children.Some? ==> r == children.value
    ensures children.None? ==> r == w.defaultChildren
  {
    WithDefault(children, w.defaultChildren)
  }

  /** The rendered button of a component whose busy state is the `loading`
      prop: `aria-busy` is `loading`, and then the text is the busy text, else
      the children; the label is the non-empty override, else the children
      followed by the suffix. */
  function Render(w: Wording, loading: bool, pressed: bool, children: Option<string>,
                  ariaLabel: Option<string>): (v: View)
    ensures v.ariaBusy == loading && v.ariaPressed == pressed
    ensures loading ==> v.text == w.busyText
    ensures !loading ==> v.text == Children(w, children)
    ensures Truthy(ariaLabel) ==> v.ariaLabel == ariaLabel.value
    ensures !Truthy(ariaLabel) ==> v.ariaLabel == Children(w, children) + w.labelSuffix
  {
    var content := Children(w, children);
    View(OrElse(ariaLabel, content + w.labelSuffix), pressed, loading,
         if loading then w.busyText else content)
  }

  /** An icon slot: the loading spinner, the default clock, or a supplied icon. */
  datatype Glyph = Spinner | Clock | Supplied(name: string)

  /** The spinner while busy, else the supplied icon, by default the clock. */
  function IconSlot(busy: bool, icon: Option<string>): (g: Glyph)
    ensures g == Spinner <==> busy
    ensures !busy && icon.None? ==> g == Clock
    ensures !busy && icon.Some? ==> g == Supplied(icon.value)
  {
    if busy then Spinner
    else match icon
      case None => Clock
      case Some(name) => Supplied(name)
  }

  /** `showIcon = true`: the icon is rendered unless `showIcon` is false. */
  function IconShown(showIcon: Option<bool>): (r: bool)
    ensures r <==> showIcon != Some(false)
  {
    WithDefault(showIcon, true)
  }

  /** Which look a `transform: isPressed ? … : isHovered ? … : …` ternary picks. */
  datatype Emphasis = PressedLook | HoveredLook | RestLook

  /** The pressed look wins over the hovered one. */
  function EmphasisOf(pressed: bool, hovered: bool): (e: Emphasis)
    ensures e == PressedLook <==> pressed
    ensures e == HoveredLook <==> !pressed && hovered
    ensures e == RestLook <==> !pressed && !hovered
  {
    if pressed then PressedLook else if hovered then HoveredLook else RestLook
  }

  /** The two scales of a `transform` ternary; the resting look is scale 1. */
  datatype Scales = Scales(pressed: real, hovered: real)

  /** A scale table shrinks the pressed look and grows the hovered one. */
  predicate PressShrinksHoverGrows(t: Scales)
  {
    t.pressed < 1.0 < t.hovered
  }

  /** The scale applied for the current flags: the table's pressed scale when
      pressed, whatever the hover, its hovered scale when only hovered, and 1
      at rest. */
  function Scale(t: Scales, pressed: bool, hovered: bool): (r: real)
    requires PressShrinksHoverGrows(t)
    ensures pressed <==> r < 1.0
    ensures !pressed && hovered <==> r > 1.0
    ensures !pressed && !hovered <==> r == 1.0
    ensures pressed ==> r == t.pressed
    ensures !pressed && hovered ==> r == t.hovered
  {
    match EmphasisOf(pressed, hovered)
    case PressedLook => t.pressed
    case HoveredLook => t.hovered
    case RestLook => 1.0
  }
}
