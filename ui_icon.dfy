/**
 * The attribute logic of the `ui-icon` element: the size clamp, the empty-name
 * short-circuit, the accessible title, and how the `decorative` flag chooses the
 * ARIA attributes of the rendered `<span>`/`<svg>`/`<use>` tree.
 */
module Icon {
  import opened Optional
  import opened JsString

  /** The sizes the element accepts; anything else is shown at `default`. */
  const AllowedSizes: seq<string> := ["xs", "s", "default", "m", "l", "xl"]

  /** The reactive properties of the element. */
  datatype UiIcon = UiIcon(
    name: Nullable,
    description: Nullable,
    size: Nullable,
    color: string,
    decorative: bool)

  /** The values the constructor assigns. */
  function Defaults(): (i: UiIcon)
    ensures !Truthy(i.name) && !Truthy(i.description) && !i.decorative
    ensures i.size == Str("default") && i.color == "currentColor"
  {
    UiIcon(Str(""), Str(""), Str("default"), "currentColor", false)
  }

  /** `_validateSize`: an allowed size is kept, anything else (including `''` and `null`) becomes `default`. */
  function ValidateSize(size: Nullable): (r: string)
    ensures r in AllowedSizes
    ensures Includes(AllowedSizes, size) <==> size == Str(r)
    ensures size != Str(r) ==> r == "default"
  {
    if Includes(AllowedSizes, size) then size.value else "default"
  }

  lemma ValidateSizeIdempotent(size: Nullable)
    ensures ValidateSize(Str(ValidateSize(size))) == ValidateSize(size)
  {
  }

  /** The `validatedSize` getter: the element's size when it is an allowed one, `default` otherwise. */
  function ValidatedSize(i: UiIcon): (r: string)
    ensures r in AllowedSizes
    ensures Includes(AllowedSizes, i.size) ==> i.size == Str(r)
    ensures !Includes(AllowedSizes, i.size) ==> r == "default"
  {
    ValidateSize(i.size)
  }

  /**
   * `displayTitle`: the description when it is truthy, otherwise the name with its
   * first `-` turned into a space. Only evaluated once the name is known to be truthy.
   */
  function DisplayTitle(i: UiIcon): (r: string)
    requires Truthy(i.name)
    ensures r != ""
    ensures Truthy(i.description) ==> r == i.description.value
    ensures !Truthy(i.description) ==> |r| == |i.name.value|
  {
    if Truthy(i.description) then i.description.value
    else ReplaceFirst(i.name.value, '-', ' ')
  }

  /** The rendered `<svg>` and its `<use>` child. */
  datatype Svg = Svg(
    role: string,
    ariaLabel: Option<string>,
    title: Option<string>,
    useHref: string,
    useFill: string)

  /** What `render` produces: an empty template, or the `<span>` wrapping the `<svg>`. */
  datatype IconView = Nothing | Span(cls: string, ariaHidden: string, svg: Svg)

  /** A boolean interpolated into an attribute value. */
  function BoolText(b: bool): (r: string)
    ensures r == "true" || r == "false"
    ensures (r == "true") == b
  {
    if b then "true" else "false"
  }

  /** `render`. */
  function Render(i: UiIcon): (r: IconView)
    ensures r.Nothing? <==> !Truthy(i.name)
    ensures r.Span? ==> r.cls == "ui-icon ui-icon--" + ValidatedSize(i)
    // decorative: hidden from assistive technology, presentational, unlabelled
    ensures r.Span? && i.decorative ==>
      r.ariaHidden == "true" && r.svg.role == "presentation" && r.svg.ariaLabel == None
    // semantic: exposed as an image whose accessible name is never empty
    ensures r.Span? && !i.decorative ==>
      r.ariaHidden == "false" && r.svg.role == "img" && r.svg.ariaLabel == Some(DisplayTitle(i))
      && r.svg.ariaLabel.value != ""
    // a <title> appears exactly when there is a description, in both modes
    ensures r.Span? ==> (r.svg.title.Some? <==> Truthy(i.description))
    ensures r.Span? && r.svg.title.Some? ==> r.svg.title.value == i.description.value
    ensures r.Span? ==> r.svg.useHref == "#" + i.name.value && r.svg.useFill == i.color
  {
    if !Truthy(i.name) then Nothing
    else
      var title := if Truthy(i.description) then Some(i.description.value) else None;
      var svg :=
        if i.decorative then Svg("presentation", None, title, "#" + i.name.value, i.color)
        else Svg("img", Some(DisplayTitle(i)), title, "#" + i.name.value, i.color);
      Span("ui-icon ui-icon--" + ValidatedSize(i), BoolText(i.decorative), svg)
  }

  /** Without a description, the accessible title differs from the name only at its first `-`. */
  lemma DisplayTitleFromName(i: UiIcon)
    requires Truthy(i.name) && !Truthy(i.description)
    ensures '-' !in i.name.value ==> DisplayTitle(i) == i.name.value
    ensures '-' in i.name.value ==>
      var k := IndexOf(i.name.value, '-');
      DisplayTitle(i)[k] == ' '
      && (forall j :: 0 <= j < |i.name.value| && j != k ==> DisplayTitle(i)[j] == i.name.value[j])
  {
    var n := i.name.value;
    if '-' in n {
      var k := IndexOf(n, '-');
      var r := DisplayTitle(i);
      assert r == n[..k] + [' '] + n[k + 1..];
      forall j | 0 <= j < |n| && j != k ensures r[j] == n[j] {
        if j < k { assert r[j] == n[..k][j]; } else { assert r[j] == n[k + 1..][j - k - 1]; }
      }
    }
  }

  /**
   * A name `head-tail` whose head has no dash is announced as `head tail`, whatever
   * the tail holds: `paper-plane` becomes `paper plane`, `arrow-up-right` becomes
   * `arrow up-right`.
   */
  lemma TitleOfDashedName(i: UiIcon, head: string, tail: string)
    requires i.name == Str(head + "-" + tail) && '-' !in head
    requires !Truthy(i.description)
    ensures DisplayTitle(i) == head + " " + tail
  {
    var n := i.name.value;
    assert n[..|head|] == head && n[|head| + 1..] == tail;
    ReplaceFirstAt(n, |head|, '-', ' ');
  }

  /** A named, described, decorative icon, rendered in full. */
  lemma DecorativeRendering(i: UiIcon)
    requires Truthy(i.name) && Truthy(i.description) && i.decorative
    ensures Render(i) == Span("ui-icon ui-icon--" + ValidatedSize(i), "true",
      Svg("presentation", None, Some(i.description.value), "#" + i.name.value, i.color))
  {
  }

  /** A freshly constructed element renders nothing until it is given a name. */
  lemma DefaultsRenderNothing()
    ensures Render(Defaults()) == Nothing
  {
  }

  /** Giving the default element a name yields a semantic, default-sized, `currentColor` icon. */
  lemma NamedDefaultsRendering(name: string)
    requires name != ""
    ensures Render(Defaults().(name := Str(name))) ==
      Span("ui-icon ui-icon--default", "false",
           Svg("img", Some(ReplaceFirst(name, '-', ' ')), None, "#" + name, "currentColor"))
  {
  }
}
