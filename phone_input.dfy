/**
 * The PhoneInput component: a country picker plus a digits-only phone number,
 * shown through a per-country template of `#` placeholders, reported upward
 * as dial code + digits, and validated as `+` followed by 7 to 15 digits.
 */
module PhoneInput {
  import opened Common

  /** One entry of the country list (the flag image URL is left out). */
  datatype Country = Country(code: string, name: string, dialCode: string, format: string)

  /** The country list, in the order `find` searches it. */
  const Countries: seq<Country> := [
    Country("US", "United States", "+1", "(###) ###-####"),
    Country("CA", "Canada", "+1", "(###) ###-####"),
    Country("GB", "United Kingdom", "+44", "#### ### ####"),
    Country("KE", "Kenya", "+254", "### ### ###"),
    Country("NG", "Nigeria", "+234", "### ### ####"),
    Country("ZA", "South Africa", "+27", "## ### ####"),
    Country("IN", "India", "+91", "##### #####"),
    Country("AU", "Australia", "+61", "### ### ###"),
    Country("DE", "Germany", "+49", "### ########"),
    Country("FR", "France", "+33", "# ## ## ## ##"),
    Country("BR", "Brazil", "+55", "(##) #####-####"),
    Country("MX", "Mexico", "+52", "### ### ####"),
    Country("JP", "Japan", "+81", "###-####-####"),
    Country("CN", "China", "+86", "### #### ####"),
    Country("EG", "Egypt", "+20", "### ### ####"),
    Country("UG", "Uganda", "+256", "### ### ###"),
    Country("TZ", "Tanzania", "+255", "### ### ###"),
    Country("RW", "Rwanda", "+250", "### ### ###"),
    Country("GH", "Ghana", "+233", "### ### ####"),
    Country("ET", "Ethiopia", "+251", "### ### ####")
  ]

  /** The message the validation schema reports on failure. */
  const SchemaMessage: string := "Phone number must start with '+' and contain 7 to 15 digits."

  // ---------------------------------------------------------------------------
  // Digits
  // ---------------------------------------------------------------------------

  /** `\d` in a JavaScript regular expression without the `u` flag: an ASCII digit. */
  predicate IsDigit(c: char) {
    '0' <= c <= '9'
  }

  predicate AllDigits(s: string) {
    forall i :: 0 <= i < |s| ==> IsDigit(s[i])
  }

  /** `s.replace(/\D/g, "")`: the digits of `s`, in order. */
  function Digits(s: string): (r: string)
    ensures AllDigits(r)
    ensures |r| <= |s|
  {
    if |s| == 0 then ""
    else if IsDigit(s[0]) then [s[0]] + Digits(s[1..])
    else Digits(s[1..])
  }

  /**
   * A string without digits cleans to "". With DigitsOfDigits and
   * DigitsAppend this pins cleaning down: a digit is kept, any other
   * character is dropped, and the order is preserved.
   */
  lemma {:induction false} DigitsOfNonDigits(s: string)
    requires forall i :: 0 <= i < |s| ==> !IsDigit(s[i])
    ensures Digits(s) == ""
  {
    if |s| > 0 {
      DigitsOfNonDigits(s[1..]);
    }
  }

  /** Stripping keeps a digit string as it is, so cleaning twice is cleaning once. */
  lemma {:induction false} DigitsOfDigits(s: string)
    requires AllDigits(s)
    ensures Digits(s) == s
  {
    if |s| > 0 {
      DigitsOfDigits(s[1..]);
    }
  }

  /** Stripping distributes over concatenation. */
  lemma {:induction false} DigitsAppend(s: string, t: string)
    ensures Digits(s + t) == Digits(s) + Digits(t)
  {
    if |s| == 0 {
      assert s + t == t;
    } else {
      assert (s + t)[1..] == s[1..] + t;
      DigitsAppend(s[1..], t);
    }
  }

  // ---------------------------------------------------------------------------
  // Template formatting (formatPhoneNumber)
  // ---------------------------------------------------------------------------

  /** Number of `#` placeholders in a template. */
  function HashCount(template: string): nat {
    if |template| == 0 then 0 else (if template[0] == '#' then 1 else 0) + HashCount(template[1..])
  }

  /**
   * The template filled left to right: each `#` takes the next digit, any
   * other character is copied, and the output stops as soon as the digits
   * or the template run out.
   */
  function Format(digits: string, template: string): string
    decreases |template|
  {
    if |template| == 0 || |digits| == 0 then ""
    else if template[0] == '#' then [digits[0]] + Format(digits[1..], template[1..])
    else [template[0]] + Format(digits, template[1..])
  }

  /** formatPhoneNumber: clean the input, then walk the template with two cursors. */
  method FormatPhoneNumber(number: string, format: string) returns (formatted: string)
    ensures formatted == Format(Digits(number), format)
  {
    var cleaned := Digits(number);
    formatted := "";
    var numberIndex := 0;
    var i := 0;
    while i < |format| && numberIndex < |cleaned|
      invariant 0 <= i <= |format| && 0 <= numberIndex <= |cleaned|
      invariant formatted + Format(cleaned[numberIndex..], format[i..]) == Format(cleaned, format)
    {
      assert format[i..][1..] == format[i + 1..];
      if format[i] == '#' {
        assert cleaned[numberIndex..][1..] == cleaned[numberIndex + 1..];
        formatted := formatted + [cleaned[numberIndex]];
        numberIndex := numberIndex + 1;
      } else {
        formatted := formatted + [format[i]];
      }
      i := i + 1;
    }
  }

  /**
   * The output follows the template position by position: it is never
   * longer than the template, a `#` position holds the next unused digit, and
   * every other position holds the template's own character.
   */
  lemma {:induction false} FormatFollowsTemplate(digits: string, template: string)
    ensures |Format(digits, template)| <= |template|
    ensures forall i :: 0 <= i < |Format(digits, template)| ==>
              if template[i] == '#' then
                HashCount(template[..i]) < |digits| && Format(digits, template)[i] == digits[HashCount(template[..i])]
              else Format(digits, template)[i] == template[i]
    decreases |template|
  {
    if |template| > 0 && |digits| > 0 {
      var r := Format(digits, template);
      if template[0] == '#' {
        FormatFollowsTemplate(digits[1..], template[1..]);
        forall i | 0 < i < |r|
          ensures if template[i] == '#' then
                    HashCount(template[..i]) < |digits| && r[i] == digits[HashCount(template[..i])]
                  else r[i] == template[i]
        {
          assert template[1..][..i - 1] == template[..i][1..];
          assert template[..i][0] == '#';
        }
      } else {
        FormatFollowsTemplate(digits, template[1..]);
        forall i | 0 < i < |r|
          ensures if template[i] == '#' then
                    HashCount(template[..i]) < |digits| && r[i] == digits[HashCount(template[..i])]
                  else r[i] == template[i]
        {
          assert template[1..][..i - 1] == template[..i][1..];
          assert template[..i][0] != '#';
        }
      }
    }
  }

  /**
   * When the template has no digit characters of its own, the digits of the
   * output are exactly the first min(#placeholders, #digits) input digits:
   * digits beyond the template's capacity are dropped.
   */
  lemma {:induction false} FormatKeepsLeadingDigits(digits: string, template: string)
    requires AllDigits(digits)
    requires forall i :: 0 <= i < |template| ==> !IsDigit(template[i])
    ensures Digits(Format(digits, template)) == digits[..MinInt(HashCount(template), |digits|)]
    decreases |template|
  {
    if |template| == 0 || |digits| == 0 {
    } else if template[0] == '#' {
      FormatKeepsLeadingDigits(digits[1..], template[1..]);
      DigitsAppend([digits[0]], Format(digits[1..], template[1..]));
      assert digits[..MinInt(HashCount(template), |digits|)]
          == [digits[0]] + digits[1..][..MinInt(HashCount(template[1..]), |digits| - 1)];
    } else {
      FormatKeepsLeadingDigits(digits, template[1..]);
      DigitsAppend([template[0]], Format(digits, template[1..]));
    }
  }

  /**
   * No digits give an empty display. While the template has room for every
   * digit, the output ends on the last digit, placed at a `#`; literals after
   * it are not emitted. When the digits outnumber the placeholders, the whole
   * template is filled.
   */
  lemma {:induction false} FormatStopsAfterLastDigit(digits: string, template: string)
    ensures |digits| == 0 ==> Format(digits, template) == ""
    ensures 0 < |digits| <= HashCount(template) ==>
              var r := Format(digits, template);
              0 < |r| <= |template| && r[|r| - 1] == digits[|digits| - 1] && template[|r| - 1] == '#'
    ensures |digits| > HashCount(template) ==> |Format(digits, template)| == |template|
    decreases |template|
  {
    FormatFollowsTemplate(digits, template);
    if |template| > 0 && |digits| > 0 {
      if template[0] == '#' {
        FormatStopsAfterLastDigit(digits[1..], template[1..]);
        FormatFollowsTemplate(digits[1..], template[1..]);
        var r' := Format(digits[1..], template[1..]);
        if |digits| > 1 && |digits| <= HashCount(template) {
          assert Format(digits, template) == [digits[0]] + r';
          assert template[1..][|r'| - 1] == template[|r'|];
        }
      } else {
        FormatStopsAfterLastDigit(digits, template[1..]);
      }
    }
  }

  /** No country template contains a digit of its own. */
  lemma TemplatesHaveNoDigits()
    ensures forall k, i :: 0 <= k < |Countries| && 0 <= i < |Countries[k].format| ==> !IsDigit(Countries[k].format[i])
  {
  }

  /**
   * For a template without digits of its own, typing the shown text back
   * into the field stores the same digits again, as long as the template has
   * room for all of them.
   */
  lemma DisplayRoundTrip(number: string, template: string)
    requires AllDigits(number)
    requires forall i :: 0 <= i < |template| ==> !IsDigit(template[i])
    requires |number| <= HashCount(template)
    ensures Digits(Format(number, template)) == number
  {
    FormatKeepsLeadingDigits(number, template);
    assert number[..|number|] == number;
  }

  // ---------------------------------------------------------------------------
  // Country lookup
  // ---------------------------------------------------------------------------

  /**
   * `countries.find(c => value.startsWith(c.dialCode))`: the index of the
   * first country in list order whose dial code is a prefix of `value`.
   */
  function CountryForValue(countries: seq<Country>, value: string): (r: Option<nat>)
    ensures r.Some? ==> r.value < |countries| && countries[r.value].dialCode <= value
    ensures r.Some? ==> forall j :: 0 <= j < r.value ==> !(countries[j].dialCode <= value)
    ensures r.None? ==> forall j :: 0 <= j < |countries| ==> !(countries[j].dialCode <= value)
  {
    FirstIndex(countries, (c: Country) => c.dialCode <= value)
  }

  /** Any value starting with "+1" resolves to the United States, never to Canada. */
  lemma PlusOneIsUnitedStates(value: string)
    requires "+1" <= value
    ensures CountryForValue(Countries, value) == Some(0)
    ensures Countries[0].code == "US"
  {
  }

  /**
   * An entry whose dial code starts with an earlier entry's dial code is
   * never chosen: the earlier one matches every value the later one does.
   */
  lemma ShadowedEntryNeverChosen(countries: seq<Country>, i: nat, j: nat, value: string)
    requires i < j < |countries|
    requires countries[i].dialCode <= countries[j].dialCode
    ensures CountryForValue(countries, value) != Some(j)
  {
  }

  /** Canada shares the US dial code and comes after it, so no value ever resolves to Canada. */
  lemma CanadaIsShadowed(value: string)
    ensures Countries[1].code == "CA"
    ensures CountryForValue(Countries, value) != Some(1)
  {
    ShadowedEntryNeverChosen(Countries, 0, 1, value);
  }

  /**
   * The effect's split of an external value: the first country whose dial
   * code prefixes it, and the rest after that dial code. Putting the two back
   * together gives the value again.
   */
  function SplitValue(countries: seq<Country>, value: string): (r: Option<(Country, string)>)
    ensures r.Some? <==> CountryForValue(countries, value).Some?
    ensures r.Some? ==> r.value.0 == countries[CountryForValue(countries, value).value]
    ensures r.Some? ==> r.value.0.dialCode + r.value.1 == value
  {
    match CountryForValue(countries, value)
    case None => None
    case Some(k) =>
      var dial := countries[k].dialCode;
      assert dial + value[|dial|..] == value;
      Some((countries[k], value[|dial|..]))
  }

  /** `value.replace(/^\+/, "")`: drop one leading '+', if any. */
  function StripLeadingPlus(value: string): (r: string)
    ensures |value| > 0 && value[0] == '+' ==> value == "+" + r
    ensures !(|value| > 0 && value[0] == '+') ==> r == value
  {
    if |value| > 0 && value[0] == '+' then value[1..] else value
  }

  /**
   * `countries.find(c => c.code === defaultCountry) || countries[2]`: the
   * country with that code, or the list's third entry when none has it.
   */
  function InitialCountry(defaultCountry: string): (r: Country)
    ensures (exists k :: 0 <= k < |Countries| && Countries[k].code == defaultCountry) ==> r.code == defaultCountry
  {
    match FirstIndex(Countries, (c: Country) => c.code == defaultCountry)
    case Some(k) => Countries[k]
    case None => Countries[2]
  }

  /**
   * An unknown code falls back to the entry at index 2, which is the United
   * Kingdom (not Kenya, the prop's default, which sits at index 3).
   */
  lemma UnknownCountryFallsBack(defaultCountry: string)
    requires forall k :: 0 <= k < |Countries| ==> Countries[k].code != defaultCountry
    ensures InitialCountry(defaultCountry) == Countries[2]
    ensures InitialCountry(defaultCountry).code == "GB"
  {
  }

  // ---------------------------------------------------------------------------
  // Validation (the regex /^\+\d{7,15}$/ of the schema)
  // ---------------------------------------------------------------------------

  /** `/^\+\d{7,15}$/`: a '+' followed by 7 to 15 ASCII digits and nothing else. */
  predicate MatchesSchema(s: string) {
    |s| > 0 && s[0] == '+' && 7 <= |s| - 1 <= 15 && AllDigits(s[1..])
  }

  datatype Validation = Validation(isValid: bool, error: string)

  /** validatePhoneNumber for the selected dial code. */
  function ValidatePhoneNumber(dialCode: string, number: string): (r: Validation)
    ensures r.isValid ==> r.error == ""
    ensures !r.isValid ==> r.error == SchemaMessage
  {
    var fullNumber := dialCode + Digits(number);
    if MatchesSchema(fullNumber) then Validation(true, "") else Validation(false, SchemaMessage)
  }

  /** A dial code from the list is '+' and one to three digits. */
  lemma DialCodesAreDigits()
    ensures forall k :: 0 <= k < |Countries| ==>
              2 <= |Countries[k].dialCode| <= 4 && Countries[k].dialCode[0] == '+' && AllDigits(Countries[k].dialCode[1..])
  {
  }

  /**
   * For every listed country the number is valid exactly when the dial
   * code's digits plus the number's digits count 7 to 15; non-digits in the
   * number never matter.
   */
  lemma ValidIffDigitCount(k: nat, number: string)
    requires k < |Countries|
    ensures ValidatePhoneNumber(Countries[k].dialCode, number).isValid
        <==> 7 <= |Countries[k].dialCode| - 1 + |Digits(number)| <= 15
  {
    DialCodesAreDigits();
    var dial := Countries[k].dialCode;
    assert |dial| >= 2 && dial[0] == '+' && AllDigits(dial[1..]);
    var full := dial + Digits(number);
    assert full[1..] == dial[1..] + Digits(number);
  }

  /** The messages shown under the field: the `error` prop wins, the schema message shows only without it. */
  function ShownErrors(phoneNumber: string, v: Validation, errorProp: string): (r: seq<string>)
    ensures |r| <= 1
    ensures errorProp != "" ==> r == [errorProp]
    ensures errorProp == "" ==> (r != [] <==> phoneNumber != "" && !v.isValid)
    ensures errorProp == "" && phoneNumber != "" && !v.isValid ==> r == [v.error]
  {
    (if phoneNumber != "" && !v.isValid && errorProp == "" then [v.error] else [])
    + (if errorProp != "" then [errorProp] else [])
  }

  // ---------------------------------------------------------------------------
  // The component's state
  // ---------------------------------------------------------------------------

  /** The `selectedCountry` and `phoneNumber` state of one PhoneInput. */
  class PhoneInputState {
    var selectedCountry: Country
    var phoneNumber: string

    /** useState initialisers: the default country (or its fallback) and no digits. */
    constructor (defaultCountry: string)
      ensures selectedCountry == InitialCountry(defaultCountry)
      ensures phoneNumber == ""
    {
      selectedCountry := InitialCountry(defaultCountry);
      phoneNumber := "";
    }

    /** The value the component reports through onChange: dial code followed by the stored number. */
    function FullNumber(): string
      reads this
    {
      selectedCountry.dialCode + phoneNumber
    }

    /** What the text field shows: the stored number through the country's template. */
    function DisplayNumber(): string
      reads this
    {
      if phoneNumber != "" then Format(Digits(phoneNumber), selectedCountry.format) else ""
    }

    /** handlePhoneChange: keep only the typed digits and report dial code + digits. */
    method HandlePhoneChange(input: string) returns (reported: string)
      modifies this
      ensures phoneNumber == Digits(input) && AllDigits(phoneNumber)
      ensures selectedCountry == old(selectedCountry)
      ensures reported == selectedCountry.dialCode + Digits(input)
    {
      var cleaned := Digits(input);
      phoneNumber := cleaned;
      reported := selectedCountry.dialCode + cleaned;
    }

    /** handleCountryChange: switch country, keep the digits, report the new dial code + the same digits. */
    method HandleCountryChange(country: Country) returns (reported: string)
      modifies this
      ensures selectedCountry == country
      ensures phoneNumber == old(phoneNumber)
      ensures reported == country.dialCode + old(phoneNumber)
    {
      selectedCountry := country;
      reported := country.dialCode + phoneNumber;
    }

    /**
     * The effect on a new `value` prop: a non-empty value that differs from
     * dial code + number is split at the first matching dial code; without a
     * match only a leading '+' is dropped and the country stays.
     */
    method SyncValue(value: string)
      modifies this
      ensures value == "" || value == old(FullNumber()) ==>
                selectedCountry == old(selectedCountry) && phoneNumber == old(phoneNumber)
      ensures value != "" && value != old(FullNumber()) && SplitValue(Countries, value).Some? ==>
                selectedCountry == SplitValue(Countries, value).value.0
                && phoneNumber == SplitValue(Countries, value).value.1
                && FullNumber() == value
      ensures value != "" && value != old(FullNumber()) && SplitValue(Countries, value).None? ==>
                selectedCountry == old(selectedCountry) && phoneNumber == StripLeadingPlus(value)
    {
      if value != "" && value != selectedCountry.dialCode + phoneNumber {
        match SplitValue(Countries, value)
        case Some(split) =>
          selectedCountry := split.0;
          phoneNumber := split.1;
        case None =>
          phoneNumber := StripLeadingPlus(value);
      }
    }

    /** validatePhoneNumber, applied to the stored number with the selected dial code. */
    function Validate(): Validation
      reads this
    {
      ValidatePhoneNumber(selectedCountry.dialCode, phoneNumber)
    }
  }
}
