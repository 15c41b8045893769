# Payment-activity UI atoms, modelled in Dafny

This project models the decision logic of three Lit web components from the
payment-activity repository: `ui-amount`, `ui-icon` and `ui-button`. Their
templates and CSS are not modelled. What is modelled is how each component
turns its property fields into what it renders and what it dispatches.

- `Amount` (`ui_amount.dfy`) covers `ui-amount`. A `UiAmount` record holds the
  six properties. Functions model the size, trend and currency-position clamps
  and the `validated*` getters. They also model the downshift table from the
  amount's size to its trend icon's size, and how the currency symbol and the
  formatted number are joined by one space. The rest are the trend colour,
  description and icon, the container class, and the whole `render` result.
  `Intl.NumberFormat` is the parameter `format: (real, string) -> Option<string>`.
  It yields `None` where the constructor throws (a malformed or `null` locale
  tag), and then `FormatValue` and `Render` yield `None` too.
  `getComputedStyle(host).getPropertyValue(name)` is the parameter
  `style: string -> string`. `navigator.language` is a parameter of `Defaults`.
- `Icon` (`ui_icon.dfy`) covers `ui-icon`. A `UiIcon` record holds its five
  properties. `name`, `description` and `size` are `Nullable`, because the
  code tests them for truthiness or clamps them, so a `null` there is handled.
  `color` is a plain string and `decorative` a boolean. Functions model the size clamp, the accessible title
  (`displayTitle`) and `render`. `render` either produces nothing or a
  `<span>`/`<svg>`/`<use>` tree whose ARIA attributes depend on `decorative`.
- `Button` (`ui_button.dfy`) covers `ui-button`. The pure part is a
  `ButtonProps` record with `Render`, `KeyDown` and `ClickEventFor`. The
  effects are a `UiButton` class whose `dispatched` field records every
  `ui-button-click` event in order. A `KeyEvent` class has a `cancelable`
  flag and a `defaultPrevented` flag, and `preventDefault()` sets the second
  only when the first is set. `OnClick` and `OnKeyDown` are proved against the
  pure functions. Dafny reserves the word `label`, so the property is called
  `labelText`.
- `JsString` (`js_string.dfy`) models the JavaScript built-ins the components
  call. These are truthiness, `includes`, `String.prototype.trim` and
  `String.prototype.replace` with a one-character string pattern (first
  occurrence only). `trim` strips the WhiteSpace and LineTerminator code
  points of sections 12.2 and 12.3 of ECMA-262.
- `Optional` (`optional.dfy`) holds the `Option` type, which stands for a
  result that may be `null`.

Two details of the code are worth stating up front:

- `_getIconSize` falls back to `s` when the validated size is not a key of
  its table. The model proves that this fallback can never be reached
  (`Amount.IconSizeAlwaysFromTable`).
- The trend colour override is trimmed before use. An override made only of
  whitespace therefore gives the fallback colour, just like a missing one.

## Model

| member | source | states |
|---|---|---|
| `Amount.Defaults` | src/components/atoms/ui-amount/ui-amount.js:53-61 | the constructor sets value 0, `€`, size `m`, trend `none` and position `after`; the locale is `navigator.language`, or `en-US` when that is empty |
| `Amount.ValidateSize` | src/components/atoms/ui-amount/ui-amount.js:47-65 | the result is always in `s`,`m`,`l`,`xl`; it equals the input exactly when the input is valid, and it is `m` otherwise |
| `Amount.ValidateTrend` | src/components/atoms/ui-amount/ui-amount.js:49-69 | the result is always in `up`,`down`,`none`; it is the identity on valid trends and `none` otherwise |
| `Amount.ValidatePosition` | src/components/atoms/ui-amount/ui-amount.js:51-73 | the result is always `before` or `after`; it is the identity on those two and `after` otherwise |
| `Amount.ValidatorsIdempotent` | src/components/atoms/ui-amount/ui-amount.js:63-85 | applying any of the three clamps twice gives the same result as applying it once |
| `Amount.ValidatedSize` | src/components/atoms/ui-amount/ui-amount.js:75-77 | the getter always yields a valid size: the element's own when valid, `m` otherwise |
| `Amount.ValidatedTrend` | src/components/atoms/ui-amount/ui-amount.js:79-81 | the getter always yields a valid trend: the element's own when valid, `none` otherwise |
| `Amount.ValidatedPosition` | src/components/atoms/ui-amount/ui-amount.js:83-85 | the getter always yields `before` or `after`: the element's own when it is one of them, `after` otherwise |
| `Amount.IconSize` | src/components/atoms/ui-amount/ui-amount.js:87-95 | the trend icon's size is always a size `ui-icon` accepts unchanged (`UiIcon._validateSize` keeps it), and it is never `default` |
| `Amount.IconSizeAlwaysFromTable` | src/components/atoms/ui-amount/ui-amount.js:87-95 | every validated size is a key of the downshift table, so the `'s'` fallback is dead code |
| `Amount.IconSizeMonotone` | src/components/atoms/ui-amount/ui-amount.js:198-209 | under the default CSS scales of both components, a larger amount never gets a smaller trend icon |
| `Amount.Compose` | src/components/atoms/ui-amount/ui-amount.js:104-108 | with position `before` the text is symbol, space, formatted number; otherwise it is number, space, symbol; its length is the sum of the two parts plus one |
| `Amount.FormatValue` | src/components/atoms/ui-amount/ui-amount.js:97-109 | there is no text exactly when the formatter cannot be built for the element's locale; otherwise the text is the symbol and the formatted number joined by one space, in the order the validated position gives |
| `Amount.ComposeParts` | src/components/atoms/ui-amount/ui-amount.js:104-108 | the composed text splits back into the unchanged symbol and the formatted number, at offsets fixed by the position, with one space between |
| `Amount.NumberIndependentOfSymbolAndPosition` | src/components/atoms/ui-amount/ui-amount.js:97-109 | for the same value and locale, formatting fails for both elements or for neither, and the number part is identical whatever the symbol and the position |
| `Amount.LocaleChangeOnlyChangesNumber` | src/components/atoms/ui-amount/ui-amount.js:97-109 | when both locales can be formatted, changing only the locale leaves the symbol and its separating space unchanged at the same end of the text |
| `Amount.ContainerClass` | src/components/atoms/ui-amount/ui-amount.js:170 | the class is `ui-amount ui-amount--` followed by exactly the validated size |
| `Amount.ContainerClassNamesSize` | src/components/atoms/ui-amount/ui-amount.js:170 | two elements have the same class exactly when they have the same validated size; an invalid size yields `ui-amount--m` |
| `Amount.TrendColor` | src/components/atoms/ui-amount/ui-amount.js:111-128 | there is no colour (null) exactly when the trend is `none`; for `up`/`down` the colour is the trimmed custom property unless that property is all whitespace, in which case it is `#02702a`/`#aa0f0f`; a colour is never empty and has no surrounding whitespace |
| `Amount.TrendColorOverride` | src/components/atoms/ui-amount/ui-amount.js:111-128 | for either trend, an override written with surrounding whitespace in that trend's custom property is used without that whitespace |
| `Amount.TrendDescription` | src/components/atoms/ui-amount/ui-amount.js:130-137 | the description is `Increasing trend` for `up`, `Decreasing trend` for `down` and empty for `none` |
| `Amount.TrendIcon` | src/components/atoms/ui-amount/ui-amount.js:139-163 | an icon is emitted exactly for `up`/`down`; it is always decorative, takes its size from `IconSize` and its colour from `TrendColor`, and is named `caret-up`/`caret-down` with the description `Increasing trend`/`Decreasing trend` |
| `Amount.TrendIconRendering` | src/components/atoms/ui-amount/ui-amount.js:152-160 | as `ui-icon` renders it, the trend icon keeps the downshifted size class, is `aria-hidden="true"` with role `presentation` and no label, has the description as its `<title>`, points at `#caret-up`/`#caret-down` and is filled with the trend colour |
| `Amount.Render` | src/components/atoms/ui-amount/ui-amount.js:165-175 | nothing is rendered exactly when formatting the value throws; otherwise the class names the validated size, the value text is `FormatValue`'s and the trend icon is `TrendIcon`'s |
| `Amount.DefaultsRendering` | src/components/atoms/ui-amount/ui-amount.js:53-61 | a fresh element renders `ui-amount--m`, the formatted 0 followed by ` €`, and no trend icon, or nothing when its locale cannot be formatted |
| `Amount.AllPropertiesBefore` | src/components/atoms/ui-amount/ui-amount.test.js:504-522 | given the en-US formatting of 54321.99, size `l`, `$` before and trend `up` render class `ui-amount--l`, text `$ 54,321.99` and a `caret-up` icon of size `m` in `#02702a` |
| `Icon.Defaults` | src/components/atoms/ui-icon/ui-icon.js:35-42 | the constructor leaves name and description falsy, size `default`, colour `currentColor`, not decorative |
| `Icon.ValidateSize` | src/components/atoms/ui-icon/ui-icon.js:44-47 | the result is always one of the six allowed sizes; the input is kept exactly when it is one of them; anything else, `''` and `null` included, gives `default` |
| `Icon.ValidateSizeIdempotent` | src/components/atoms/ui-icon/ui-icon.js:44-51 | clamping an already clamped size changes nothing |
| `Icon.ValidatedSize` | src/components/atoms/ui-icon/ui-icon.js:49-51 | the getter always yields an allowed size: the element's own when allowed, `default` otherwise |
| `Icon.DisplayTitle` | src/components/atoms/ui-icon/ui-icon.js:58 | the title is never empty; it is the description when that is truthy, otherwise a string as long as the name |
| `Icon.DisplayTitleFromName` | src/components/atoms/ui-icon/ui-icon.js:58 | without a description, the title equals the name except at the first `-`, which becomes a space; a name without `-` is used as is |
| `Icon.TitleOfDashedName` | src/components/atoms/ui-icon/ui-icon.js:58 | a name `head-tail` whose head has no dash is announced as `head tail`, even when the tail holds further dashes |
| `Icon.BoolText` | src/components/atoms/ui-icon/ui-icon.js:103 | the boolean interpolated into `aria-hidden` reads `true` exactly when the flag is set |
| `Icon.Render` | src/components/atoms/ui-icon/ui-icon.js:53-124 | it renders nothing exactly when the name is falsy; the class names the validated size; a decorative icon is `aria-hidden="true"`, role `presentation` and unlabelled; a semantic one is `aria-hidden="false"`, role `img` and labelled with a non-empty title; a `<title>` appears exactly when the description is truthy; `use` has `href="#"+name` and `fill=color` |
| `Icon.DecorativeRendering` | src/components/atoms/ui-icon/ui-icon.js:101-112 | a named, described, decorative icon renders exactly the size class, `aria-hidden="true"`, role `presentation`, no label, the description as `<title>`, `href="#"+name` and `fill=color` |
| `Icon.DefaultsRenderNothing` | src/components/atoms/ui-icon/ui-icon.js:35-56 | a freshly constructed icon renders nothing |
| `Icon.NamedDefaultsRendering` | src/components/atoms/ui-icon/ui-icon.js:35-121 | giving a fresh icon a name yields a semantic, `default`-sized, `currentColor` icon labelled with the name's first dash replaced |
| `Button.Defaults` | src/components/atoms/ui-button/ui-button.js:37-43 | the constructor sets label `Click me`, variant `primary`, not disabled, empty href |
| `Button.ClickEventFor` | src/components/atoms/ui-button/ui-button.js:45-53 | the event is `ui-button-click`, bubbles, is composed, and its detail is the current label and href |
| `Button.ClickEventDeterminesLabelAndHref` | src/components/atoms/ui-button/ui-button.js:50 | two click events are equal exactly when the buttons' label and href are equal; variant and disabled do not enter the event |
| `Button.IsActivationKey` | src/components/atoms/ui-button/ui-button.js:56 | only `Enter` and a single space activate, compared exactly: the legacy names `Spacebar`, `Space` and `Return`, `Tab`, lower-case `enter` and the empty key do not |
| `Button.KeyDown` | src/components/atoms/ui-button/ui-button.js:55-60 | `preventDefault()` is called exactly for Enter or Space; those dispatch exactly one event, the click event; every other key dispatches none |
| `Button.KeyDownExamples` | src/components/atoms/ui-button/ui-button.test.js:56-90 | Enter and `' '` dispatch the click; `Tab` and the string `Space` do nothing |
| `Button.VariantClass` | src/components/atoms/ui-button/ui-button.js:67-79 | the class is `ui-button ui-button--` followed by the variant, verbatim |
| `Button.VariantClassInjective` | src/components/atoms/ui-button/ui-button.js:67-79 | distinct variants give distinct classes, because the variant is neither validated nor defaulted |
| `Button.Render` | src/components/atoms/ui-button/ui-button.js:62-88 | it renders an anchor exactly when href is non-empty, with that href and `target="_blank"`; otherwise a native button carrying the disabled flag; both use the variant class, the label as aria-label and text, and a click listener; only the native button listens to keydown |
| `Button.DefaultsRendering` | src/components/atoms/ui-button/ui-button.js:37-87 | a fresh element renders an enabled `ui-button--primary` button labelled `Click me` |
| `Button.UiButton.constructor` | src/components/atoms/ui-button/ui-button.js:37-43 | the element starts with the default properties and has dispatched nothing |
| `Button.UiButton.OnClick` | src/components/atoms/ui-button/ui-button.js:45-53 | appends exactly the click event of the current properties to the dispatched events, whatever `disabled` is |
| `Button.UiButton.OnKeyDown` | src/components/atoms/ui-button/ui-button.js:55-60 | for Enter or Space, marks the event default-prevented when it is cancelable and appends what `KeyDown` dispatches; nothing else changes |
| `Button.EnterOnFreshButton` | src/components/atoms/ui-button/ui-button.test.js:56-66 | Enter on a fresh button, sent as the test builds it (not cancelable), dispatches one `ui-button-click` with label `Click me` and empty href, and leaves `defaultPrevented` false |
| `Button.CancelableSpaceOnFreshButton` | src/components/atoms/ui-button/ui-button.js:55-60 | a cancelable Space keydown on a fresh button dispatches the same single click and cancels the key's default action |
| `Button.KeyEvent.PreventDefault` | src/components/atoms/ui-button/ui-button.js:57 | `preventDefault()` sets `defaultPrevented` only on a cancelable event |
| `JsString.Trim` | src/components/atoms/ui-amount/ui-amount.js:115-124 | the result is empty exactly when the input is all whitespace; otherwise it has no whitespace at either end |
| `JsString.TrimStart` | src/components/atoms/ui-amount/ui-amount.js:115-124 | the result is the suffix left after a run of whitespace and does not start with whitespace |
| `JsString.TrimEnd` | src/components/atoms/ui-amount/ui-amount.js:115-124 | the result is the prefix before a run of whitespace and does not end with whitespace |
| `JsString.TrimPadded` | src/components/atoms/ui-amount/ui-amount.js:115-124 | trimming returns exactly the part between the leading and the trailing whitespace |
| `JsString.TrimIdempotent` | src/components/atoms/ui-amount/ui-amount.js:115-124 | trimming twice is trimming once |
| `JsString.IndexOf` | src/components/atoms/ui-icon/ui-icon.js:58 | the result is -1 exactly when the character is absent; otherwise it is the position of its first occurrence |
| `JsString.ReplaceFirst` | src/components/atoms/ui-icon/ui-icon.js:58 | the result has the same length; it is unchanged when the pattern is absent; otherwise only the first occurrence is replaced |
| `JsString.ReplaceFirstAt` | src/components/atoms/ui-icon/ui-icon.js:58 | when the first occurrence is at position k, only position k is rewritten |

## Left out

- Rendering surface: the DOM, shadow roots, Lit reactivity and `updateComplete`, the `static styles` blocks and the `<ui-icon-set>` sprite element. Only the CSS size scales appear, as constants used by `Amount.IconSizeMonotone`.
- `Intl.NumberFormat` uses locale data and rounds floats to two fraction digits. It is the parameter `format`, and no grouping or rounding rule is assumed. Which locale tags make the constructor throw is also left to `format`: the model only carries its `None` through `FormatValue` and `Render`.
- `value` is a `real`. JavaScript's `NaN`, infinities and signed zero are not represented.
- `getComputedStyle` is the parameter `style`. `navigator.language` is the parameter of `Amount.Defaults`.
- `Amount` string properties (`currency`, `size`, `trend`, `locale`, `currencyPosition`) are plain strings. A `null` in `size`, `trend` or `currencyPosition` would clamp like any other invalid value. A `null` currency, interpolated as the text `null`, is not modelled.
- `Icon.UiIcon`: `color` is a plain string. A `null` colour, which the template would interpolate into `fill`, is not represented.
- `Button.ButtonProps`: `labelText`, `variant` and `href` are plain strings. A `null` set by the host is not represented; for `href` it would take the same branch as the empty string, since `render` tests it for truthiness, while a `null` label or variant would reach the template's bindings as `null`.
- Event propagation (bubbling, composition across shadow roots) is recorded as the event's flags, not simulated. Listeners are the events each rendered element listens to.
- A disabled native button swallows clicks in the browser. The handler itself never checks `disabled`, so `Button.UiButton.OnClick` does not.
- The payment widget composition (`ui-payment-widget.js`) and the legacy `PaymentWidget.js` only pass fields through to children, so they are not modelled. Stories and test harnesses are not modelled either; tests are cited only as evidence.
