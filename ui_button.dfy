/**
 * The `ui-button` element: the choice between a link and a native button, its
 * class and ARIA strings, the keys that synthesise a click, and the
 * `ui-button-click` event it dispatches.
 */
module Button {

  /** The reactive properties of the element (`labelText` is the `label` property). */
  datatype ButtonProps = ButtonProps(labelText: string, variant: string, disabled: bool, href: string)

  /** The values the constructor assigns. */
  function Defaults(): (p: ButtonProps)
    ensures p.labelText == "Click me" && p.variant == "primary" && !p.disabled && p.href == ""
  {
    ButtonProps("Click me", "primary", false, "")
  }

  const ClickEventType := "ui-button-click"

  /** The `detail` of the click event. */
  datatype ClickDetail = ClickDetail(labelText: string, href: string)

  /** A `CustomEvent` dispatched on the element. */
  datatype ClickEvent = ClickEvent(eventType: string, bubbles: bool, composed: bool, detail: ClickDetail)

  /** The event `_onClick` dispatches: it crosses shadow roots and carries the current label and href. */
  function ClickEventFor(p: ButtonProps): (e: ClickEvent)
    ensures e.eventType == "ui-button-click" && e.bubbles && e.composed
    ensures e.detail.labelText == p.labelText && e.detail.href == p.href
  {
    ClickEvent(ClickEventType, true, true, ClickDetail(p.labelText, p.href))
  }

  /** The event determines the properties it was built from, apart from the variant and the disabled flag. */
  lemma ClickEventDeterminesLabelAndHref(p: ButtonProps, q: ButtonProps)
    ensures ClickEventFor(p) == ClickEventFor(q) <==> p.labelText == q.labelText && p.href == q.href
  {
  }

  /**
   * The keys the keydown handler treats as activation: exactly `Enter` and a single
   * space, compared as written, so the legacy names and other keys are not.
   */
  predicate IsActivationKey(key: string)
    ensures IsActivationKey(key) ==> 1 <= |key| <= 5
    ensures key in {"Spacebar", "Space", "Return", "Tab", "enter", ""} ==> !IsActivationKey(key)
  {
    key == "Enter" || key == " "
  }

  /**
   * What a keydown does: whether the handler calls `preventDefault()` on the event
   * (which cancels the default action only of a cancelable event), and the events it dispatches.
   */
  datatype KeyDownOutcome = KeyDownOutcome(callsPreventDefault: bool, dispatched: seq<ClickEvent>)

  /** `_onKeyDown`: Enter or Space calls `preventDefault()` and dispatches one click; any other key does nothing. */
  function KeyDown(p: ButtonProps, key: string): (r: KeyDownOutcome)
    ensures r.callsPreventDefault <==> IsActivationKey(key)
    ensures |r.dispatched| == (if IsActivationKey(key) then 1 else 0)
    ensures forall e :: e in r.dispatched ==> e == ClickEventFor(p)
  {
    if IsActivationKey(key) then KeyDownOutcome(true, [ClickEventFor(p)])
    else KeyDownOutcome(false, [])
  }

  /** The keys exercised by the element's keyboard tests. */
  lemma KeyDownExamples(p: ButtonProps)
    ensures KeyDown(p, "Enter").dispatched == [ClickEventFor(p)]
    ensures KeyDown(p, " ").dispatched == [ClickEventFor(p)]
    ensures KeyDown(p, "Tab") == KeyDownOutcome(false, [])
    ensures KeyDown(p, "Space") == KeyDownOutcome(false, [])
  {
  }

  /** What `render` produces, with the DOM events each element listens to. */
  datatype ButtonView =
    | Anchor(href: string, cls: string, ariaLabel: string, target: string, text: string, listeners: set<string>)
    | NativeButton(cls: string, disabled: bool, ariaLabel: string, text: string, listeners: set<string>)

  /** The class shared by both forms; the variant is interpolated unvalidated. */
  function VariantClass(variant: string): (r: string)
    ensures |r| == |"ui-button ui-button--"| + |variant|
    ensures r[..|"ui-button ui-button--"|] == "ui-button ui-button--"
    ensures r[|"ui-button ui-button--"|..] == variant
  {
    "ui-button ui-button--" + variant
  }

  /** Distinct variants give distinct classes: nothing about the variant is lost or defaulted. */
  lemma VariantClassInjective(v: string, w: string)
    ensures VariantClass(v) == VariantClass(w) <==> v == w
  {
    if VariantClass(v) == VariantClass(w) {
      assert v == VariantClass(v)[|"ui-button ui-button--"|..];
    }
  }

  /** `render`: a link opening in a new tab when `href` is set, otherwise a native button. */
  function Render(p: ButtonProps): (r: ButtonView)
    ensures r.Anchor? <==> p.href != ""
    ensures r.Anchor? ==> r.href == p.href && r.target == "_blank"
    ensures r.NativeButton? ==> r.disabled == p.disabled
    ensures r.cls == VariantClass(p.variant)
    ensures r.ariaLabel == p.labelText && r.text == p.labelText
    ensures "click" in r.listeners
    ensures "keydown" in r.listeners <==> r.NativeButton?
  {
    if p.href != "" then
      Anchor(p.href, VariantClass(p.variant), p.labelText, "_blank", p.labelText, {"click"})
    else
      NativeButton(VariantClass(p.variant), p.disabled, p.labelText, p.labelText, {"click", "keydown"})
  }

  /** A freshly constructed element is an enabled primary button labelled `Click me`. */
  lemma DefaultsRendering()
    ensures Render(Defaults()) ==
      NativeButton("ui-button ui-button--primary", false, "Click me", "Click me", {"click", "keydown"})
  {
  }

  /**
   * The keyboard event handed to the keydown handler. A `KeyboardEvent` built
   * without `cancelable: true` is not cancelable.
   */
  class KeyEvent {
    const key: string
    const cancelable: bool
    var defaultPrevented: bool

    constructor (key: string, cancelable: bool)
      ensures this.key == key && this.cancelable == cancelable && !defaultPrevented
    {
      this.key := key;
      this.cancelable := cancelable;
      defaultPrevented := false;
    }

    /** `preventDefault()`: sets `defaultPrevented` only on a cancelable event. */
    method PreventDefault()
      modifies this`defaultPrevented
      ensures defaultPrevented == (old(defaultPrevented) || cancelable)
    {
      if cancelable {
        defaultPrevented := true;
      }
    }
  }

  /** The element itself: its properties, and the events it has dispatched so far, in order. */
  class UiButton {
    var labelText: string
    var variant: string
    var disabled: bool
    var href: string
    var dispatched: seq<ClickEvent>

    function Props(): ButtonProps
      reads this
    {
      ButtonProps(labelText, variant, disabled, href)
    }

    constructor ()
      ensures Props() == Defaults() && dispatched == []
    {
      labelText := "Click me";
      variant := "primary";
      disabled := false;
      href := "";
      dispatched := [];
    }

    /** `_onClick`: dispatches the click event built from the current properties; it does not look at `disabled`. */
    method OnClick()
      modifies this`dispatched
      ensures dispatched == old(dispatched) + [ClickEventFor(Props())]
    {
      dispatched := dispatched + [ClickEventFor(Props())];
    }

    /** `_onKeyDown`: on Enter or Space, calls `preventDefault()` on the event and clicks. */
    method OnKeyDown(e: KeyEvent)
      modifies this`dispatched, e`defaultPrevented
      ensures e.defaultPrevented == (old(e.defaultPrevented) || (KeyDown(Props(), e.key).callsPreventDefault && e.cancelable))
      ensures dispatched == old(dispatched) + KeyDown(Props(), e.key).dispatched
    {
      if e.key == "Enter" || e.key == " " {
        e.PreventDefault();
        OnClick();
      }
    }
  }

  /**
   * A keyboard activation as the tests drive it: a fresh element and a fresh Enter
   * keydown built with only its key, hence not cancelable, so one click is
   * dispatched while the event's `defaultPrevented` stays false.
   */
  method EnterOnFreshButton() returns (events: seq<ClickEvent>, prevented: bool)
    ensures events == [ClickEvent("ui-button-click", true, true, ClickDetail("Click me", ""))]
    ensures !prevented
  {
    var b := new UiButton();
    var e := new KeyEvent("Enter", false);
    b.OnKeyDown(e);
    events, prevented := b.dispatched, e.defaultPrevented;
  }

  /** The same activation with a cancelable Space keydown: the default action is now cancelled. */
  method CancelableSpaceOnFreshButton() returns (events: seq<ClickEvent>, prevented: bool)
    ensures events == [ClickEvent("ui-button-click", true, true, ClickDetail("Click me", ""))]
    ensures prevented
  {
    var b := new UiButton();
    var e := new KeyEvent(" ", true);
    b.OnKeyDown(e);
    events, prevented := b.dispatched, e.defaultPrevented;
  }
}
