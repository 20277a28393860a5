# Widget library core, modelled in Dafny

This project models the decision logic of six React components of a small
Tailwind widget library. The rest of the library maps props to CSS class
strings, and the project leaves that out. The six components are:

- **Pagination**: the window of page numbers around the current page, the
  ellipses, and the page each button reports through `onPageChange`.
- **PhoneInput**: filling a country's `#` template with the typed digits,
  digit cleaning, the first-match dial-code lookup for an external value, the
  default-country fallback, and the `+` plus 7–15 digits validation.
- **Dropdown**: the viewport-aware placement of the menu (flip to the
  opposite side, re-align at the viewport edges), the open/closed state
  machine (toggle, click outside, Escape, item click), and wrap-around arrow
  focus over the enabled items.
- **Slider**: the keyboard mapping, the pointer-to-value mapping (clamp,
  snap, clamp), and the controlled/uncontrolled value.
- **Tabs** (TabSwitcher): the controlled or internal selection, the two-way
  sync with a search-parameter map (in the source a per-component stand-in
  for a router's `useSearchParams`, see Left out), orientation-aware keyboard navigation
  with Home/End, trigger click guards, the roving tab index and panel
  visibility.
- **Avatar**: the initials (explicit, placeholder, or first letters of the
  first two words), the status badge with `verified` precedence, and the
  size fallback.

Each component is one module. `Common` holds the shared pieces: an `Option`
type for `undefined`, JavaScript truthiness of optional strings, `a || b`,
first-match search (`find`/`findIndex`), and wrap-around index arithmetic.

State that the source updates in place is modelled as a class:
`PhoneInputState`, `DropdownMenu`, `DropdownState`, `SliderState` and `Tabs`.
Each handler is a method proved against a pure function of the old state.
Loops and switch statements that reassign variables are methods with the
same shape, each proved equal to a function:

- `VisiblePages` (`getVisiblePages`)
- `FormatPhoneNumber` (`formatPhoneNumber`)
- `CalculatePosition` (`calculatePosition`)
- `HandleKeyDown` (the slider's key handler)
- `TabsListKeyDown` (the tab list's key handler)

The properties are lemmas about those functions. The page's DOM is not
modelled. Bounding rectangles, the window size, the pointer position, the
list of enabled items and the focused index all arrive as parameters.
Numbers that the source treats as floating point (the geometry and the slider
values) are Dafny `real`s. `Math.round(x)` is `Floor(x + 1/2)`.

Two details of the source are worth knowing when reading the model:

- The slider's keys step by `step` from the current value, and Home gives
  `min`. The pointer, however, snaps to multiples of `step` counted from
  zero, so when `min` lies at least half a step above the multiple of `step`
  just below it (min 7, step 10), a press at the track's start gives the
  next multiple, not `min`. The model's handlers follow the source; the second row under
  Findings gives the counterexample and a corrected mapping.
- The fallback for an unknown `defaultCountry` is the entry at index 2 of the
  country list, the United Kingdom. Kenya, the prop's default, is at index 3.

## Model

| member | source | states |
|---|---|---|
| Common.FirstIndex | src/components/PhoneInput.jsx:73 | `find` returns the first element satisfying the predicate. No element before it satisfies it. None means no element satisfies it. |
| Common.OrElseTruthy | src/components/TabSwitcher.jsx:28-30 | JavaScript's logical or on optional strings is truthy iff one operand is, always returns one of its operands, never lets a falsy left operand hide a truthy right one, and repeating the left operand changes nothing. |
| Common.WrapInverse | src/components/Dropdown.jsx:338-347 | On a non-empty list, both wrap-around moves stay in range. Next then previous, or previous then next, returns to the start. |
| Common.WrapNextCycles | src/components/TabSwitcher.jsx:119-125 | Pressing "next" k ≤ count times from index i lands on i + k, wrapped once. After `count` presses the focus is back where it started, so every item is visited. |
| Pagination.Range | src/components/Pagination.jsx:24-26 | The pushed pages are lo, lo+1, …, hi. The length is hi − lo + 1, or 0 when lo > hi. |
| Pagination.VisiblePages | src/components/Pagination.jsx:13-29 | The loop that adjusts `start` and pushes pages returns exactly `Range(WindowStart, WindowEnd)`. |
| Pagination.WindowShape | src/components/Pagination.jsx:17-22 | With at least one page and a non-empty window: 1 ≤ start ≤ end ≤ totalPages, and the window holds min(maxVisiblePages, totalPages) pages. |
| Pagination.WindowHoldsCurrent | src/components/Pagination.jsx:15-22 | When 1 ≤ currentPage ≤ totalPages, the current page is inside the window. |
| Pagination.WindowCentred | src/components/Pagination.jsx:15-18 | Away from both ends, exactly floor(maxVisiblePages/2) pages precede the current one and the window has full width. |
| Pagination.EllipsisFlags | src/components/Pagination.jsx:32-33 | The start ellipsis shows iff the window starts after page 2. The end ellipsis shows iff the window ends before totalPages − 1. |
| Pagination.PageChange | src/components/Pagination.jsx:37-40 | Clicking an ellipsis never calls `onPageChange`. A page button reports its own page. |
| Pagination.StripAsWrittenDropsFirstPage | src/components/Pagination.jsx:99-115 | Counterexample: 10 pages, window 5, page 4 current. The strip is 2 3 4 5 6 … 10, with no button for page 1 and no ellipsis standing for it, so the strip is not honest. |
| Pagination.StripAsWrittenDropsLastPage | src/components/Pagination.jsx:109-125 | Counterexample: page 7 current. The strip is 1 … 5 6 7 8 9, with no button for page 10. |
| Pagination.StripAsWrittenFirstPage | src/components/Pagination.jsx:99-106 | As written, page 1 has a button iff the window does not start at page 2. This holds for all valid props. |
| Pagination.StripAsWrittenLastPage | src/components/Pagination.jsx:118-125 | As written, the last page has a button iff the window does not end at totalPages − 1. |
| Pagination.StripIsHonest | src/components/Pagination.jsx:98-125 | The corrected strip, for all valid props, starts at page 1 and ends at the last page. Adjacent page buttons are consecutive pages. An ellipsis sits only between two page buttons that skip at least one page. |
| Pagination.ClicksStayInRange | src/components/Pagination.jsx:79-145 | Every click on any rendered control, in the as-written and the corrected rendering, reports a page in 1..totalPages or nothing. |
| Pagination.ExactlyOneActivePage | src/components/Pagination.jsx:98-125 | In the as-written strip and in the corrected one, the current page's button is present and active, any other page button is inactive, and page numbers increase from left to right. |
| Pagination.PrevNextTargets | src/components/Pagination.jsx:89-134 | Prev targets max(1, p−1) and next targets min(total, p+1). Prev is disabled exactly at page 1 and next exactly at the last page. An enabled button reports p−1 or p+1. |
| Pagination.JumpButtons | src/components/Pagination.jsx:78-145 | The first-page jump exists iff showFirstLast and currentPage > 1, and it reports 1. The last-page jump exists iff showFirstLast and currentPage < totalPages, and it reports totalPages. |
| PhoneInput.Digits | src/components/PhoneInput.jsx:84 | `replace(/\D/g, "")` yields only ASCII digits and never lengthens the input. |
| PhoneInput.DigitsOfNonDigits | src/components/PhoneInput.jsx:84 | A string without digits cleans to "". Together with DigitsOfDigits and DigitsAppend: every digit is kept, every other character dropped, and the order preserved. |
| PhoneInput.DigitsOfDigits | src/components/PhoneInput.jsx:102 | Cleaning a digit string leaves it unchanged, so cleaning is idempotent. |
| PhoneInput.DigitsAppend | src/components/PhoneInput.jsx:84 | Cleaning distributes over concatenation. |
| PhoneInput.FormatPhoneNumber | src/components/PhoneInput.jsx:83-98 | The two-cursor template loop returns exactly `Format(Digits(number), format)`. |
| PhoneInput.FormatFollowsTemplate | src/components/PhoneInput.jsx:88-95 | The output is never longer than the template. At each position with `#` it holds the next unused digit. At any other position it holds the template's own character. |
| PhoneInput.FormatKeepsLeadingDigits | src/components/PhoneInput.jsx:84-95 | For a template without digits, the output's digits are the first min(#placeholders, #digits) input digits. Extra digits are dropped. |
| PhoneInput.FormatStopsAfterLastDigit | src/components/PhoneInput.jsx:88 | No digits give "". While the template has room, the output ends on the last digit, placed at a `#`, and no trailing literals follow. Surplus digits fill the whole template. |
| PhoneInput.TemplatesHaveNoDigits | src/components/PhoneInput.jsx:5-26 | No country template contains a digit of its own. |
| PhoneInput.DisplayRoundTrip | src/components/PhoneInput.jsx:143 | Cleaning the displayed text gives back the stored digits, when the template has room for them. |
| PhoneInput.CountryForValue | src/components/PhoneInput.jsx:73 | The chosen country's dial code prefixes the value, and no earlier country's does. None means no dial code prefixes it. |
| PhoneInput.PlusOneIsUnitedStates | src/components/PhoneInput.jsx:6-7 | Any value starting "+1" resolves to index 0, which is US. |
| PhoneInput.ShadowedEntryNeverChosen | src/components/PhoneInput.jsx:73 | A country whose dial code extends an earlier country's dial code is never chosen. |
| PhoneInput.CanadaIsShadowed | src/components/PhoneInput.jsx:7 | No value ever resolves to Canada. |
| PhoneInput.SplitValue | src/components/PhoneInput.jsx:72-79 | A split exists iff some dial code matches. The country is the first match. Its dial code followed by the rest is the value again. |
| PhoneInput.StripLeadingPlus | src/components/PhoneInput.jsx:78 | `replace(/^\+/, "")` removes exactly one leading `+`, or leaves the value unchanged. |
| PhoneInput.InitialCountry | src/components/PhoneInput.jsx:66-68 | A listed code selects the country with that code. |
| PhoneInput.UnknownCountryFallsBack | src/components/PhoneInput.jsx:66-68 | An unlisted code falls back to the country at index 2, which is GB. |
| PhoneInput.ValidatePhoneNumber | src/components/PhoneInput.jsx:133-140 | Valid means an empty error. Invalid means the schema's fixed message. |
| PhoneInput.DialCodesAreDigits | src/components/PhoneInput.jsx:5-26 | Every dial code is `+` followed by one to three digits. |
| PhoneInput.ValidIffDigitCount | src/components/PhoneInput.jsx:47-53 | For every listed country, the number is valid iff the dial code's digits plus the number's digits number 7 to 15. Non-digits never matter. |
| PhoneInput.ShownErrors | src/components/PhoneInput.jsx:188-193 | At most one message shows. The `error` prop wins. Without it, a message shows iff a number is stored and invalid, and that message is the validation error (`validationError`). |
| PhoneInput.PhoneInputState.constructor | src/components/PhoneInput.jsx:66-69 | The component starts with the default country (or its fallback) and no digits. |
| PhoneInput.PhoneInputState.HandlePhoneChange | src/components/PhoneInput.jsx:100-115 | Only the typed digits are stored, and the country is unchanged. The reported value is the dial code followed by those digits. |
| PhoneInput.PhoneInputState.HandleCountryChange | src/components/PhoneInput.jsx:117-130 | The new country is stored and the digits are kept. The reported value is the new dial code followed by the same digits. |
| PhoneInput.PhoneInputState.SyncValue | src/components/PhoneInput.jsx:71-81 | An empty value, or a value equal to dial code + number, changes nothing. Otherwise the value is split at the first matching dial code, and dial code + number then equals the value. Without a match, only a leading `+` is dropped and the country stays. |
| Dropdown.Opposite | src/components/Dropdown.jsx:186-196 | The opposite side differs from the side and lies on the same axis. |
| Dropdown.SideIsRequestedOrOpposite | src/components/Dropdown.jsx:182-229 | The final side is the requested side or its opposite. A vertical side stays vertical. |
| Dropdown.FlipOnlyWhenBetter | src/components/Dropdown.jsx:185-196 | The side flips iff it overflows and the opposite side fits. A flip always lands where the menu fits. A side that fits is never abandoned. |
| Dropdown.TallMenuStaysBelow | src/components/Dropdown.jsx:186-190 | A menu taller than the viewport fits neither below nor above, so it stays below. |
| Dropdown.AlignRules | src/components/Dropdown.jsx:199-214 | Start becomes end iff left + width > vw. End becomes start iff right − width < 0. Center becomes start iff centerLeft < 0, and becomes end iff centerLeft ≥ 0 and centerLeft + width > vw. Start and end never become center. |
| Dropdown.AlignOnlyForVertical | src/components/Dropdown.jsx:198-214 | A menu on the left or right keeps the requested alignment. Above or below, the alignment changes only when it would cross a viewport edge. |
| Dropdown.DropdownMenu.constructor | src/components/Dropdown.jsx:166 | The first render uses the requested side and alignment. |
| Dropdown.DropdownMenu.CalculatePosition | src/components/Dropdown.jsx:169-230 | Unmounted, nothing changes. Mounted, the step-by-step reassignment of side and alignment stores exactly `Placement(align, side, geometry, offset)`. |
| Dropdown.DropdownMenu.OnOpen | src/components/Dropdown.jsx:232-253 | Opening recomputes the placement and focuses the first enabled item. Otherwise nothing changes. |
| Dropdown.FirstEnabled | src/components/Dropdown.jsx:238-239 | The focused item is enabled and all earlier items are disabled. None iff every item is disabled. |
| Dropdown.ItemFocusTarget | src/components/Dropdown.jsx:338-347 | Only the arrows move the focus, and always to an existing item. |
| Dropdown.ArrowsWrap | src/components/Dropdown.jsx:338-347 | Down goes to index+1, wrapping from the last item to 0. Up goes to index−1, wrapping from 0 to the last item. From outside the list, down goes to the first item and up to the last. |
| Dropdown.ArrowsOnEmptyList | src/components/Dropdown.jsx:341-346 | With no enabled items, no key focuses anything. |
| Dropdown.ArrowsUndo | src/components/Dropdown.jsx:338-347 | Down then up, or up then down, returns the focus to the same item. |
| Dropdown.DropdownState.constructor | src/components/Dropdown.jsx:15 | The open state starts at `defaultOpen`. |
| Dropdown.DropdownState.ToggleOpen | src/components/Dropdown.jsx:48-52 | The state is negated and the new value is reported. |
| Dropdown.DropdownState.SetOpen | src/components/Dropdown.jsx:57-60 | The given value is stored and reported. |
| Dropdown.DropdownState.MouseDown | src/components/Dropdown.jsx:19-31 | A press outside an open, mounted dropdown closes it and reports false. Anything else changes and reports nothing. |
| Dropdown.DropdownState.DocumentKeyDown | src/components/Dropdown.jsx:34-46 | Escape while open closes the dropdown and reports false. Anything else changes and reports nothing. |
| Dropdown.DropdownState.ButtonClick | src/components/Dropdown.jsx:88-93 | A disabled trigger does nothing. An enabled trigger toggles and reports the new value. |
| Dropdown.DropdownState.ButtonKeyDown | src/components/Dropdown.jsx:95-100 | Enter or Space on an enabled trigger toggles. Other keys, or a disabled trigger, do nothing. |
| Dropdown.DropdownState.ItemClick | src/components/Dropdown.jsx:319-324 | An enabled item runs its onClick (if any), then closes and reports false. A disabled item does nothing. |
| Dropdown.DropdownState.ItemKeyDown | src/components/Dropdown.jsx:326-349 | Enter and Space act as a click. The arrows move the focus as `ItemFocusTarget` says. |
| Dropdown.ToggleTwice | src/components/Dropdown.jsx:48-52 | Toggling twice restores the state and reports both changes in order. |
| Slider.Round | src/components/Slider.jsx:109 | `Math.round` gives an integer within half a unit, with halves rounding up. |
| Slider.Clamp | src/components/Slider.jsx:110 | When min ≤ max: a value inside [min, max] is kept, a value above max gives max, and a value below min gives min. |
| Slider.PointerFraction | src/components/Slider.jsx:104-107 | The fraction is in [0, 1]. It is 0 at or left of the track and 1 at or right of its end. |
| Slider.RawValue | src/components/Slider.jsx:108 | The raw value is in [min, max]. It equals min at the track start and max at the track end. |
| Slider.SnapAsWritten | src/components/Slider.jsx:109-110 | As written, the snapped value is in [min, max] and equals min, max, or a multiple of step counted from zero. |
| Slider.ValueFromPointerAsWritten | src/components/Slider.jsx:103-112 | As written, the pointer value is in [min, max]. |
| Slider.SnapAsWrittenKeepsMultiples | src/components/Slider.jsx:109-110 | A multiple of step inside [min, max] is kept. |
| Slider.PointerStartAsWritten | src/components/Slider.jsx:103-112 | As written, when min is a multiple of step, a pointer at or left of the track's start gives min. |
| Slider.PointerEndAsWritten | src/components/Slider.jsx:103-112 | As written, when max is a multiple of step, a pointer at or right of the track's end gives max, wherever min lies. |
| Slider.PointerAtStartMissesMin | src/components/Slider.jsx:108-110 | Counterexample: min 7, max 100, step 10. A pointer at the track start gives 10, not min. |
| Slider.PointerQuarterWay | src/components/Slider.jsx:103-112 | On a 200-wide track over 0..100 with step 10, a press at 50 gives 25, which rounds to 30, under both mappings. |
| Slider.Snap | src/components/Slider.jsx:109-110 | Corrected snapping stays in [min, max]. |
| Slider.ValueFromPointer | src/components/Slider.jsx:103-112 | The corrected pointer value stays in [min, max]. |
| Slider.SnapOnGrid | src/components/Slider.jsx:109-110 | Corrected snapping lands on min + k·step (k ≥ 0) or on max. It moves the value by at most half a step unless cut off at max. It keeps min. |
| Slider.SnapKeepsGridPoints | src/components/Slider.jsx:109-110 | A grid point min + k·step inside [min, max] is kept. |
| Slider.SnapMonotone | src/components/Slider.jsx:109-110 | Snapping preserves order. |
| Slider.PointerOnGrid | src/components/Slider.jsx:103-112 | The corrected pointer value lies on the keyboard's grid or at max, and within half a step of the raw value unless clamped. A pointer at or left of the track gives min. |
| Slider.PointerAtEnd | src/components/Slider.jsx:103-112 | At or past the track end, the corrected value is max whenever max is on the grid. |
| Slider.PointerMonotone | src/components/Slider.jsx:103-112 | Moving the pointer right never lowers the value. |
| Slider.RawMonotone | src/components/Slider.jsx:104-108 | The raw value never decreases as the pointer moves right. |
| Slider.KeyValue | src/components/Slider.jsx:137-158 | Home gives min and End gives max. Only unhandled keys give no value. |
| Slider.KeysStayInRange | src/components/Slider.jsx:137-155 | From a value in [min, max], every handled key stays in [min, max]. ArrowRight and ArrowUp give min(max, v+step). ArrowLeft and ArrowDown give max(min, v−step). |
| Slider.StepUpThenDown | src/components/Slider.jsx:138-147 | A step up that is not cut off at max, followed by a step down, returns the value. |
| Slider.KeysKeepGrid | src/components/Slider.jsx:137-155 | From a grid point min + k·step, every key lands on the grid or on a bound. |
| Slider.SliderState.constructor | src/components/Slider.jsx:69 | The internal value starts at the default and no drag is in progress. |
| Slider.SliderState.HandleValueChange | src/components/Slider.jsx:78-86 | The internal value is written only when uncontrolled. The one-element array is always reported. |
| Slider.SliderState.HandleKeyDown | src/components/Slider.jsx:131-163 | Disabled, or an unhandled key: nothing changes and nothing is reported. Otherwise `KeyValue` of the current value is reported, and stored only when uncontrolled. |
| Slider.SliderState.MouseDown | src/components/Slider.jsx:92-125 | Disabled: nothing changes. Otherwise the as-written pointer value `ValueFromPointerAsWritten` is reported (and stored only when uncontrolled), and a drag over the rectangle read at the press begins. |
| Slider.SliderState.MouseMove | src/components/Slider.jsx:103-114 | During a drag, the value follows the pointer over the saved rectangle, by the as-written mapping. Otherwise nothing happens. |
| Slider.SliderState.MouseUp | src/components/Slider.jsx:115-118 | The drag ends and the value stays. |
| TabSwitcher.FirstSyncAfterMount | src/components/TabSwitcher.jsx:25-52 | Uncontrolled and syncing, the URL-sync effect that runs right after mounting reports nothing. A truthy URL value is already the current value and nothing changes. Without one, a truthy default becomes both the current value and the URL value. |
| TabSwitcher.MountWithEmptyParams | src/components/TabSwitcher.jsx:3-52 | From the empty map the source's own `useSearchParams` starts with: when syncing the initial value is the default, otherwise the controlled value or the default; uncontrolled, the first effect writes a truthy default into the map and reports nothing. |
| TabSwitcher.Select | src/components/TabSwitcher.jsx:63-77 | The value is always reported once. The internal value is written only when uncontrolled, and the URL only when syncing. Other URL parameters are untouched. |
| TabSwitcher.Sync | src/components/TabSwitcher.jsx:37-52 | Without syncing, nothing happens. At most the truthy URL value is reported. Uncontrolled, a truthy URL value that differs from the current value becomes the current value and is reported. With no truthy URL value, a truthy current value is written to the URL, controlled or not, and nothing is reported. Other URL parameters are untouched. |
| TabSwitcher.SyncMakesUrlAndValueAgree | src/components/TabSwitcher.jsx:37-52 | Uncontrolled and syncing, after one run of the effect the URL value and the current value agree whenever either is set. |
| TabSwitcher.SyncIsIdempotent | src/components/TabSwitcher.jsx:37-52 | Uncontrolled, a second run of the effect changes and reports nothing. |
| TabSwitcher.SelectThenSyncIsQuiet | src/components/TabSwitcher.jsx:37-77 | Uncontrolled and syncing, the effect after a selection does nothing, so the value is reported exactly once. |
| TabSwitcher.ControlledSyncRepeats | src/components/TabSwitcher.jsx:41-45 | Controlled, a URL value the parent has not adopted is reported again on every run, and the state stays unchanged. |
| TabSwitcher.Tabs.constructor | src/components/TabSwitcher.jsx:24-31 | The internal value starts at `InitialValue` of the props and the starting parameter map, and the map is kept as given. |
| TabSwitcher.Tabs.HandleValueChange | src/components/TabSwitcher.jsx:63-77 | The new state and the reported values are exactly `Select` of the old state. |
| TabSwitcher.Tabs.SyncWithUrl | src/components/TabSwitcher.jsx:37-61 | The new state and the reported values are exactly `Sync` of the old state. |
| TabSwitcher.Activation | src/components/TabSwitcher.jsx:150-153 | A trigger is activated only if it exists and differs from the current one. |
| TabSwitcher.TabsListKeyDown | src/components/TabSwitcher.jsx:103-154 | The switch that reassigns `nextIndex` activates exactly `Activation(orientation, key, current, count)`. |
| TabSwitcher.ArrowsFollowOrientation | src/components/TabSwitcher.jsx:111-139 | An arrow outside the list's orientation activates nothing. |
| TabSwitcher.ArrowsWrap | src/components/TabSwitcher.jsx:111-139 | In the list's orientation, forward goes to i+1 (last to first) and back goes to i−1 (first to last), also from outside the list. |
| TabSwitcher.HomeAndEnd | src/components/TabSwitcher.jsx:140-147 | Home activates index 0 and End the last index, in either orientation, unless that trigger is already current. |
| TabSwitcher.ExactlyOneActive | src/components/TabSwitcher.jsx:371-382 | Among distinct trigger values that contain the current one, exactly that trigger is active, in the tab order, and showing its panel. |
| TabSwitcher.ClickSelects | src/components/TabSwitcher.jsx:195-206 | Uncontrolled, clicking an enabled inactive trigger, or pressing Enter or Space on it, makes it active. Clicking the active trigger reports nothing. Other keys on a trigger do nothing. |
| Avatar.UpperChar | src/components/Avatar.jsx:117 | A lower-case ASCII letter becomes the matching upper-case letter, 32 code points lower. Other characters are kept. |
| Avatar.Upper | src/components/Avatar.jsx:108 | `toUpperCase` keeps the length and maps each character. |
| Avatar.Split | src/components/Avatar.jsx:112 | `split(" ")` always yields at least one piece. |
| Avatar.SplitJoin | src/components/Avatar.jsx:112 | The pieces contain no space, and joining them with single spaces gives the name back. |
| Avatar.SplitAtSpace | src/components/Avatar.jsx:112 | Splitting a + " " + b gives the pieces of a followed by the pieces of b. |
| Avatar.NonEmpty | src/components/Avatar.jsx:113 | The filter's result holds only non-empty pieces and is never longer than its input. |
| Avatar.NonEmptyMembers | src/components/Avatar.jsx:113 | A string is in the filtered pieces iff it is a non-empty input piece: the filter adds nothing and drops no non-empty piece. |
| Avatar.NonEmptyAppend | src/components/Avatar.jsx:113 | The filter distributes over concatenation. |
| Avatar.WordsAtSpace | src/components/Avatar.jsx:111-113 | The words of a + " " + b are the words of a followed by the words of b. |
| Avatar.ExtraSpacesIgnored | src/components/Avatar.jsx:112-113 | Leading, trailing and doubled spaces do not change the words. |
| Avatar.BlankHasNoWords | src/components/Avatar.jsx:112-113 | A name made only of spaces has no words. |
| Avatar.SingleWord | src/components/Avatar.jsx:112-113 | A string without spaces is one piece, and one word when non-empty. |
| Avatar.FirstLetters | src/components/Avatar.jsx:114-116 | The result takes one first character per word, for at most two words: its length is min(2, #words). |
| Avatar.InitialsPrecedence | src/components/Avatar.jsx:108-109 | Truthy explicit initials win, upper-cased. With neither initials nor a name, the placeholder is returned. |
| Avatar.DerivedInitials | src/components/Avatar.jsx:111-117 | From a name: the length is min(2, #words), and the characters are the upper-cased first letters of the first words. |
| Avatar.TwoWordNames | src/components/Avatar.jsx:111-117 | "first second" gives the two upper-cased first letters. |
| Avatar.BlankNameGivesNoInitials | src/components/Avatar.jsx:109-117 | A name of only spaces is truthy, so the placeholder is skipped, and the initials are "". |
| Avatar.StatusConfig | src/components/Avatar.jsx:45-71 | There are exactly five known statuses, and only "verified" has an icon. |
| Avatar.BadgeContent | src/components/Avatar.jsx:192-217 | There is no badge iff there is neither a custom badge nor status information. A custom badge always wins. |
| Avatar.VerifiedOverridesStatus | src/components/Avatar.jsx:128-129 | With `verified`, the active status is "verified", and without a custom badge the badge shows the verified icon. |
| Avatar.OnlyVerifiedHasIcon | src/components/Avatar.jsx:204-217 | The badge shows an icon iff the status is "verified". Online shows a green dot. An unknown status shows no badge. |
| Avatar.SizeFor | src/components/Avatar.jsx:104 | "2xl" maps to the 2xl entry, and any name other than the six sizes falls back to the md entry. |

## Left out

- DOM plumbing is not modelled: bounding rectangles, `addEventListener`/`removeEventListener`, `focus()`, `querySelector(All)`, `contains`, `preventDefault` and `classList`. Their results are parameters: geometry, the enabled-item list, the focused index, whether a press landed inside, and whether the menu element is mounted.
- Listener lifetimes and the staleness of closures captured by effects are not modelled. Each handler reads the component's current state. A drag's rectangle is read once at the press, as in the source.
- Floating point is modelled as exact reals. NaN and infinities are left out, so the slider requires a track of positive width and a positive step, and rounding error is ignored.
- Integers are unbounded. Props are assumed to be numbers of the right kind: no fractional page numbers, and no strings where numbers are expected.
- `toUpperCase` is modelled for ASCII letters only. Unicode case mapping, and first characters that are half of a surrogate pair, are left out.
- Avatar: `name` and `initials` are assumed to be strings.
- Avatar: status names that are Object prototype properties (such as "toString") are treated as unknown.
- Avatar: the loading skeleton and the image/initials fallback on image error are rendering only.
- Slider: the `value` prop is modelled by its first element. An empty array given as `value` is left out.
- Slider: the `orientation` prop is not read by the source's logic. The CSS percentage at line 166 is left out.
- Tabs: the source's `useSearchParams` (TabSwitcher.jsx:3-8) is a local stand-in: each component holds its own parameter state, which starts as an empty `URLSearchParams` and is never connected to the page's URL. The model takes the initial map as a parameter, as a router's `useSearchParams` would supply it, so a non-empty starting map (the truthy-URL case of `FirstSyncAfterMount`, and `InitialValue` reading the URL) only arises with a real router hook.
- Tabs: a controlled value of `null` is not modelled. `URLSearchParams` is a map from name to value; repeated keys are left out.
- Dropdown: `side` and `align` strings outside the four sides and three alignments are left out.
- Dropdown: `onOpenChange` is always considered present.
- PhoneInput: the zod library is replaced by a direct predicate for `/^\+\d{7,15}$/`.
- PhoneInput: the country selector's search filter, flags and option labels are presentation only. `SelectField` is not part of this model.
- Class-name strings of every component are presentation only: Dropdown's alignment, side and margin classes, Avatar's shape classes, and the size and variant tables.
- Pagination's `hoveredPage` only affects styling.
- Optional callbacks are always considered present: PhoneInput's `onChange`, Slider's and Tabs' `onValueChange`. A value "reported" by the model is one the source passes to that callback when it is given.
- Avatar: size names that are Object prototype properties (such as "toString") are treated as unknown and fall back to md.

## Findings

| source | as written | input that shows it | evidently intended | confidence | as-written member | corrected member |
|---|---|---|---|---|---|---|
| src/components/Pagination.jsx:99-125 | Page 1 gets a button only together with the start ellipsis (window start > 2), and the last page only together with the end ellipsis. A window starting at 2, or ending at totalPages − 1, leaves that page with no button. | totalPages 10, maxVisiblePages 5, currentPage 4: strip 2 3 4 5 6 … 10. With currentPage 7: strip 1 … 5 6 7 8 9. | Show page 1 whenever the window starts after it, and the ellipsis only when pages are skipped; the same at the end. | medium, not executed | Pagination.StripAsWrittenDropsFirstPage | Pagination.StripIsHonest |
| src/components/Slider.jsx:108-110 | `Math.round(rawValue / step) * step` snaps to multiples of step counted from zero, not from min. When min lies at least half a step above the multiple of step just below it, a press at the track's start rounds up to the next multiple instead of giving min, and the pointer and the keys (which step from the current value) reach different values. | min 7, max 100, step 10, pointer at the track start: the value is 10, not 7. | Snap to min + k·step: `min + Math.round((rawValue - min) / step) * step`. | medium, not executed | Slider.PointerAtStartMissesMin | Slider.PointerOnGrid |
