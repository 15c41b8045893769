/**
 * The decision logic of the `ui-amount` element: clamping of its size, trend and
 * currency-position properties, composition of the currency symbol with the
 * locale-formatted number, the size of the trend icon, and the name, description
 * and colour of that icon.
 *
 * Number formatting is `Intl.NumberFormat(locale, {style: 'decimal',
 * minimumFractionDigits: 2, maximumFractionDigits: 2}).format(value)`, which the
 * model takes as a parameter `format` that yields no text when the constructor
 * throws (a malformed or `null` locale tag); reading a CSS custom property of the host
 * through `getComputedStyle(host).getPropertyValue(name)` is the parameter `style`.
 */
module Amount {
  import opened Optional
  import opened JsString
  import Icon

  const ValidSizes: seq<string> := ["s", "m", "l", "xl"]
  const ValidTrends: seq<string> := ["up", "down", "none"]
  const ValidPositions: seq<string> := ["before", "after"]

  /**
   * The locale-aware number formatter: (value, locale) to text with two fraction
   * digits, or `None` when `new Intl.NumberFormat(locale, ...)` throws.
   */
  type NumberFormat = (real, string) -> Option<string>

  /** `getComputedStyle(host).getPropertyValue(name)`: `''` when the property is not set. */
  type ComputedStyle = string -> string

  const TrendUpColorProperty := "--ui-amount-trend-up-color"
  const TrendDownColorProperty := "--ui-amount-trend-down-color"
  const TrendUpFallback := "#02702a"
  const TrendDownFallback := "#aa0f0f"

  /** The reactive properties of the element. */
  datatype UiAmount = UiAmount(
    value: real,
    currency: string,
    size: string,
    trend: string,
    locale: string,
    currencyPosition: string)

  /** The values the constructor assigns; `navigatorLanguage` is the browser's `navigator.language`. */
  function Defaults(navigatorLanguage: string): (a: UiAmount)
    ensures a.value == 0.0 && a.currency == "€"
    ensures a.size == "m" && a.trend == "none" && a.currencyPosition == "after"
    ensures a.locale == (if navigatorLanguage != "" then navigatorLanguage else "en-US")
  {
    UiAmount(0.0, "€", "m", "none", if navigatorLanguage != "" then navigatorLanguage else "en-US", "after")
  }

  /** `_validateSize`: a valid size is kept, anything else becomes `m`. */
  function ValidateSize(size: string): (r: string)
    ensures r in ValidSizes
    ensures size in ValidSizes <==> r == size
    ensures r != size ==> r == "m"
  {
    if size in ValidSizes then size else "m"
  }

  /** `_validateTrend`: a valid trend is kept, anything else becomes `none`. */
  function ValidateTrend(trend: string): (r: string)
    ensures r in ValidTrends
    ensures trend in ValidTrends <==> r == trend
    ensures r != trend ==> r == "none"
  {
    if trend in ValidTrends then trend else "none"
  }

  /** `_validatePosition`: a valid position is kept, anything else becomes `after`. */
  function ValidatePosition(position: string): (r: string)
    ensures r in ValidPositions
    ensures position in ValidPositions <==> r == position
    ensures r != position ==> r == "after"
  {
    if position in ValidPositions then position else "after"
  }

  /** Clamping is idempotent: a clamped value is left alone by a second clamp. */
  lemma ValidatorsIdempotent(x: string)
    ensures ValidateSize(ValidateSize(x)) == ValidateSize(x)
    ensures ValidateTrend(ValidateTrend(x)) == ValidateTrend(x)
    ensures ValidatePosition(ValidatePosition(x)) == ValidatePosition(x)
  {
  }

  /** The `validatedSize` getter: the element's size when valid, `m` otherwise. */
  function ValidatedSize(a: UiAmount): (r: string)
    ensures r in ValidSizes
    ensures a.size in ValidSizes ==> r == a.size
    ensures a.size !in ValidSizes ==> r == "m"
  {
    ValidateSize(a.size)
  }

  /** The `validatedTrend` getter: the element's trend when valid, `none` otherwise. */
  function ValidatedTrend(a: UiAmount): (r: string)
    ensures r in ValidTrends
    ensures a.trend in ValidTrends ==> r == a.trend
    ensures a.trend !in ValidTrends ==> r == "none"
  {
    ValidateTrend(a.trend)
  }

  /** The `validatedPosition` getter: the element's currency position when valid, `after` otherwise. */
  function ValidatedPosition(a: UiAmount): (r: string)
    ensures r in ValidPositions
    ensures a.currencyPosition in ValidPositions ==> r == a.currencyPosition
    ensures a.currencyPosition !in ValidPositions ==> r == "after"
  {
    ValidatePosition(a.currencyPosition)
  }

  /** The downshift from the element's size to the size of its trend icon. */
  const IconSizes: map<string, string> := map["s" := "xs", "m" := "s", "l" := "m", "xl" := "l"]

  /** `_getIconSize`: the table entry for the validated size, `s` if there were none. */
  function IconSize(a: UiAmount): (r: string)
    ensures r in Icon.AllowedSizes
    ensures Icon.ValidateSize(Str(r)) == r
    ensures r != "default"
  {
    var size := ValidatedSize(a);
    if size in IconSizes then IconSizes[size] else "s"
  }

  /** The `s` fallback of `_getIconSize` is dead: every validated size has a table entry. */
  lemma IconSizeAlwaysFromTable(a: UiAmount)
    ensures ValidatedSize(a) in IconSizes
    ensures IconSize(a) == IconSizes[ValidatedSize(a)]
  {
  }

  /** The default font size, in rem, of each size class of the amount. */
  const FontRem: map<string, real> := map["s" := 0.875, "m" := 1.125, "l" := 1.5, "xl" := 2.0]

  /** The default `--ui-icon-size`, in rem, of each size class of the icon. */
  const IconRem: map<string, real> :=
    map["xs" := 0.8, "s" := 1.2, "default" := 1.5, "m" := 2.0, "l" := 3.0, "xl" := 4.0]

  /** The downshift keeps the order of sizes: a larger amount never gets a smaller trend icon. */
  lemma IconSizeMonotone(a: UiAmount, b: UiAmount)
    ensures ValidatedSize(a) in FontRem && ValidatedSize(b) in FontRem
    ensures IconSize(a) in IconRem && IconSize(b) in IconRem
    ensures FontRem[ValidatedSize(a)] < FontRem[ValidatedSize(b)] ==>
      IconRem[IconSize(a)] < IconRem[IconSize(b)]
  {
  }

  /** The symbol and the formatted number, one space apart, in the order the validated position gives. */
  function Compose(a: UiAmount, currencySymbol: string, formattedNumber: string): (r: string)
    ensures |r| == |currencySymbol| + 1 + |formattedNumber|
    ensures ValidatedPosition(a) == "before" ==> r == currencySymbol + " " + formattedNumber
    ensures ValidatedPosition(a) != "before" ==> r == formattedNumber + " " + currencySymbol
  {
    if ValidatedPosition(a) == "before" then currencySymbol + " " + formattedNumber
    else formattedNumber + " " + currencySymbol
  }

  /**
   * `_formatValue(value, currencySymbol)`: the locale-formatted number composed with
   * the symbol; no text when the formatter cannot be built for the element's locale.
   */
  function FormatValue(a: UiAmount, value: real, currencySymbol: string, format: NumberFormat): (r: Option<string>)
    ensures r.None? <==> format(value, a.locale).None?
    ensures r.Some? ==> |r.value| == |currencySymbol| + 1 + |format(value, a.locale).value|
    ensures r.Some? && ValidatedPosition(a) == "before" ==>
      r.value == currencySymbol + " " + format(value, a.locale).value
    ensures r.Some? && ValidatedPosition(a) != "before" ==>
      r.value == format(value, a.locale).value + " " + currencySymbol
  {
    match format(value, a.locale)
    case None => None
    case Some(formattedNumber) => Some(Compose(a, currencySymbol, formattedNumber))
  }

  /** Where the formatted number starts in the composed text. */
  function NumberOffset(a: UiAmount, currencySymbol: string): nat {
    if ValidatedPosition(a) == "before" then |currencySymbol| + 1 else 0
  }

  /** Where the symbol starts in the composed text. */
  function SymbolOffset(a: UiAmount, currencySymbol: string, formattedNumber: string): nat {
    if ValidatedPosition(a) == "before" then 0 else |formattedNumber| + 1
  }

  /**
   * The composed text splits back into its parts: the formatted number and the
   * unchanged symbol sit at offsets fixed by the position, one space apart.
   */
  lemma ComposeParts(a: UiAmount, currencySymbol: string, n: string)
    ensures
      var r := Compose(a, currencySymbol, n);
      var i := NumberOffset(a, currencySymbol);
      var j := SymbolOffset(a, currencySymbol, n);
      && i + |n| <= |r| && r[i..i + |n|] == n
      && j + |currencySymbol| <= |r| && r[j..j + |currencySymbol|] == currencySymbol
      && r[if ValidatedPosition(a) == "before" then |currencySymbol| else |n|] == ' '
  {
    var r := Compose(a, currencySymbol, n);
    if ValidatedPosition(a) == "before" {
      assert r == currencySymbol + " " + n;
      assert r[|currencySymbol| + 1..] == n;
      assert r[..|currencySymbol|] == currencySymbol;
    } else {
      assert r == n + " " + currencySymbol;
      assert r[..|n|] == n;
      assert r[|n| + 1..] == currencySymbol;
    }
  }

  /**
   * The number does not depend on the symbol or on the position: for one value and
   * locale, either both formattings fail or both hold the same number text.
   */
  lemma NumberIndependentOfSymbolAndPosition(
    a: UiAmount, b: UiAmount, value: real, symA: string, symB: string, format: NumberFormat)
    requires a.locale == b.locale
    ensures
      var ra := FormatValue(a, value, symA, format);
      var rb := FormatValue(b, value, symB, format);
      && (ra.Some? <==> rb.Some?)
      && (ra.Some? ==>
        var n := format(value, a.locale).value;
        && NumberOffset(a, symA) + |n| <= |ra.value| && NumberOffset(b, symB) + |n| <= |rb.value|
        && ra.value[NumberOffset(a, symA)..NumberOffset(a, symA) + |n|]
           == rb.value[NumberOffset(b, symB)..NumberOffset(b, symB) + |n|])
  {
    if format(value, a.locale).Some? {
      var n := format(value, a.locale).value;
      ComposeParts(a, symA, n);
      ComposeParts(b, symB, n);
    }
  }

  /**
   * Changing only the locale leaves the symbol and the separating space where they
   * were, whenever both locales can be formatted.
   */
  lemma LocaleChangeOnlyChangesNumber(a: UiAmount, locale: string, format: NumberFormat)
    ensures
      var b := a.(locale := locale);
      var ra := FormatValue(a, a.value, a.currency, format);
      var rb := FormatValue(b, b.value, b.currency, format);
      ra.Some? && rb.Some? ==>
        (ValidatedPosition(a) == "before" ==>
           ra.value[..|a.currency| + 1] == rb.value[..|a.currency| + 1] == a.currency + " ")
        && (ValidatedPosition(a) != "before" ==>
           ra.value[|ra.value| - |a.currency| - 1..] == rb.value[|rb.value| - |a.currency| - 1..] == " " + a.currency)
  {
    var b := a.(locale := locale);
    var ra := FormatValue(a, a.value, a.currency, format);
    var rb := FormatValue(b, b.value, b.currency, format);
    if ra.Some? && rb.Some? {
      var na, nb := format(a.value, a.locale).value, format(a.value, locale).value;
      if ValidatedPosition(a) == "before" {
        assert ra.value == (a.currency + " ") + na;
        assert rb.value == (a.currency + " ") + nb;
      } else {
        assert ra.value == na + (" " + a.currency);
        assert rb.value == nb + (" " + a.currency);
      }
    }
  }

  /** The class of the container `<div>`. */
  function ContainerClass(a: UiAmount): (r: string)
    ensures |r| > |"ui-amount ui-amount--"| && r[..|"ui-amount ui-amount--"|] == "ui-amount ui-amount--"
    ensures r[|"ui-amount ui-amount--"|..] == ValidatedSize(a)
  {
    var r := "ui-amount ui-amount--" + ValidatedSize(a);
    assert r[|"ui-amount ui-amount--"|..] == ValidatedSize(a);
    r
  }

  /** The container class names the validated size and only it: two elements share a class exactly when they share a validated size. */
  lemma ContainerClassNamesSize(a: UiAmount, b: UiAmount)
    ensures ContainerClass(a) == ContainerClass(b) <==> ValidatedSize(a) == ValidatedSize(b)
    ensures a.size !in ValidSizes ==> ContainerClass(a) == "ui-amount ui-amount--m"
  {
    var p := "ui-amount ui-amount--";
    assert ContainerClass(a)[|p|..] == ValidatedSize(a);
    assert ContainerClass(b)[|p|..] == ValidatedSize(b);
  }

  /**
   * `_getTrendColor`: the trimmed custom property when it holds something other
   * than whitespace, else the fallback colour; `null` when there is no trend.
   */
  function TrendColor(a: UiAmount, style: ComputedStyle): (r: Option<string>)
    ensures r.None? <==> ValidatedTrend(a) == "none"
    ensures r.Some? ==> r.value != "" && Trimmed(r.value)
    ensures ValidatedTrend(a) == "up" && AllWhitespace(style(TrendUpColorProperty)) ==>
      r == Some(TrendUpFallback)
    ensures ValidatedTrend(a) == "up" && !AllWhitespace(style(TrendUpColorProperty)) ==>
      r == Some(Trim(style(TrendUpColorProperty)))
    ensures ValidatedTrend(a) == "down" && AllWhitespace(style(TrendDownColorProperty)) ==>
      r == Some(TrendDownFallback)
    ensures ValidatedTrend(a) == "down" && !AllWhitespace(style(TrendDownColorProperty)) ==>
      r == Some(Trim(style(TrendDownColorProperty)))
  {
    var trend := ValidatedTrend(a);
    if trend == "up" then
      var custom := Trim(style(TrendUpColorProperty));
      Some(if custom != "" then custom else TrendUpFallback)
    else if trend == "down" then
      var custom := Trim(style(TrendDownColorProperty));
      Some(if custom != "" then custom else TrendDownFallback)
    else None
  }

  /** The custom property read for each trend that has a colour. */
  function TrendColorProperty(trend: string): string {
    if trend == "up" then TrendUpColorProperty else TrendDownColorProperty
  }

  /** For either trend, an override surrounded by whitespace is used without that whitespace. */
  lemma TrendColorOverride(a: UiAmount, style: ComputedStyle, lead: string, color: string, trail: string)
    requires ValidatedTrend(a) != "none"
    requires style(TrendColorProperty(ValidatedTrend(a))) == lead + color + trail
    requires AllWhitespace(lead) && AllWhitespace(trail) && color != "" && Trimmed(color)
    ensures TrendColor(a, style) == Some(color)
  {
    TrimPadded(lead, color, trail);
  }

  /** The text of each trend for assistive technology. */
  const TrendDescriptions: map<string, string> :=
    map["up" := "Increasing trend", "down" := "Decreasing trend", "none" := ""]

  /** `_getTrendDescription`. */
  function TrendDescription(a: UiAmount): (r: string)
    ensures ValidatedTrend(a) == "up" ==> r == "Increasing trend"
    ensures ValidatedTrend(a) == "down" ==> r == "Decreasing trend"
    ensures ValidatedTrend(a) == "none" ==> r == ""
  {
    var trend := ValidatedTrend(a);
    if trend in TrendDescriptions then TrendDescriptions[trend] else ""
  }

  /** The icon of each trend; `none` has no entry. */
  const TrendIconNames: map<string, string> := map["up" := "caret-up", "down" := "caret-down"]

  /** `renderTrendIcon`: the decorative `ui-icon` for an up or down trend, nothing otherwise. */
  function TrendIcon(a: UiAmount, style: ComputedStyle): (r: Option<Icon.UiIcon>)
    ensures r.Some? <==> ValidatedTrend(a) in {"up", "down"}
    ensures r.Some? ==> r.value.decorative
    ensures r.Some? ==> r.value.size == Str(IconSize(a))
    ensures r.Some? ==> TrendColor(a, style) == Some(r.value.color)
    ensures ValidatedTrend(a) == "up" ==>
      r.value.name == Str("caret-up") && r.value.description == Str("Increasing trend")
    ensures ValidatedTrend(a) == "down" ==>
      r.value.name == Str("caret-down") && r.value.description == Str("Decreasing trend")
  {
    var trend := ValidatedTrend(a);
    if trend in TrendIconNames then
      var color := TrendColor(a, style);
      Some(Icon.UiIcon(Str(TrendIconNames[trend]), Str(TrendDescription(a)), Str(IconSize(a)), color.value, true))
    else None
  }

  /**
   * The trend icon, as `ui-icon` renders it: shown at the downshifted size (never
   * clamped to `default`), hidden from assistive technology, titled with the trend's
   * description, pointing at the caret symbol and filled with the trend colour.
   */
  lemma TrendIconRendering(a: UiAmount, style: ComputedStyle)
    requires ValidatedTrend(a) != "none"
    ensures
      var view := Icon.Render(TrendIcon(a, style).value);
      && view.Span?
      && view.cls == "ui-icon ui-icon--" + IconSize(a)
      && view.ariaHidden == "true" && view.svg.role == "presentation" && view.svg.ariaLabel == None
      && view.svg.title == Some(TrendDescription(a))
      && view.svg.useHref == "#" + TrendIconNames[ValidatedTrend(a)]
      && Some(view.svg.useFill) == TrendColor(a, style)
  {
    var icon := TrendIcon(a, style).value;
    assert icon.name == Str(TrendIconNames[ValidatedTrend(a)]);
    Icon.DecorativeRendering(icon);
  }

  /** What `render` produces: the container class, the text of the value `<span>`, and the trend icon. */
  datatype AmountView = AmountView(containerClass: string, valueText: string, trendIcon: Option<Icon.UiIcon>)

  /** `render`: nothing when formatting the value throws, which happens before anything is rendered. */
  function Render(a: UiAmount, format: NumberFormat, style: ComputedStyle): (r: Option<AmountView>)
    ensures r.None? <==> format(a.value, a.locale).None?
    ensures r.Some? ==> r.value.containerClass == "ui-amount ui-amount--" + ValidatedSize(a)
    ensures r.Some? ==> Some(r.value.valueText) == FormatValue(a, a.value, a.currency, format)
    ensures r.Some? ==> r.value.trendIcon == TrendIcon(a, style)
  {
    match FormatValue(a, a.value, a.currency, format)
    case None => None
    case Some(formattedAmount) => Some(AmountView(ContainerClass(a), formattedAmount, TrendIcon(a, style)))
  }

  /** A freshly constructed element: medium size, symbol after the number, no trend icon. */
  lemma DefaultsRendering(navigatorLanguage: string, format: NumberFormat, style: ComputedStyle)
    ensures
      var a := Defaults(navigatorLanguage);
      Render(a, format, style) ==
        match format(0.0, a.locale)
        case None => None
        case Some(n) => Some(AmountView("ui-amount ui-amount--m", n + " €", None))
  {
    var a := Defaults(navigatorLanguage);
    assert ValidatedTrend(a) == "none" && ValidatedPosition(a) == "after";
    assert ContainerClass(a) == "ui-amount ui-amount--m";
    match format(0.0, a.locale)
    case None =>
    case Some(n) =>
      assert n + " " + a.currency == n + " €";
      assert FormatValue(a, a.value, a.currency, format) == Some(n + " €");
  }

  /** An element with every property set: large, `$` before the number, rising trend. */
  lemma AllPropertiesBefore(format: NumberFormat, style: ComputedStyle)
    requires format(54321.99, "en-US") == Some("54,321.99")
    requires style(TrendUpColorProperty) == ""
    ensures
      var r := Render(UiAmount(54321.99, "$", "l", "up", "en-US", "before"), format, style);
      && r.Some?
      && r.value.containerClass == "ui-amount ui-amount--l"
      && r.value.valueText == "$ 54,321.99"
      && r.value.trendIcon == Some(Icon.UiIcon(Str("caret-up"), Str("Increasing trend"), Str("m"), "#02702a", true))
  {
    var a := UiAmount(54321.99, "$", "l", "up", "en-US", "before");
    assert AllWhitespace(style(TrendUpColorProperty));
  }
}
