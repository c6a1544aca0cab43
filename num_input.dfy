/**
 * The numeric text field of the edit form: it holds what the user typed,
 * refuses keystrokes that would put anything but digits there, and reports
 * the number it holds to its parent when it loses focus.
 */
module NumInputField {
  import opened Wrappers
  import opened Decimal

  /** `format(num)`: the empty text for a falsy number (0, or undefined/null as None), else its decimal text. */
  function Format(num: Option<int>): (s: string)
    ensures s == "" <==> num.None? || num.value == 0
  {
    if num.None? || num.value == 0 then "" else IntToString(num.value)
  }

  /** `parse(str)`: `parseInt(str, 10)`, with null (None) for NaN. */
  function Parse(str: string): Option<int> {
    match ParseInt(str)
    case Int(n) => Some(n)
    case NaN => None
  }

  /** The value `onChange` leaves: the new text when it matches `/^\d*$/`, else the current value. */
  function Accept(current: string, text: string): string {
    if IsDigits(text) then text else current
  }

  /** The value after a sequence of `onChange` events, in order. */
  function AcceptAll(current: string, texts: seq<string>): string
    decreases |texts|
  {
    if texts == [] then current else AcceptAll(Accept(current, texts[0]), texts[1..])
  }

  class NumInput {
    /** `state.value`: the text shown in the field. */
    var value: string

    /** Only digit strings are held. */
    ghost predicate Valid()
      reads this
    {
      IsDigits(value)
    }

    /** The constructor shows the formatted initial prop. */
    constructor (propsValue: Option<int>)
      ensures value == Format(propsValue)
      ensures Valid() <==> propsValue.None? || propsValue.value >= 0
    {
      value := Format(propsValue);
      FormatDigitsOnly(propsValue);
    }

    /** `componentWillReceiveProps`: the field is reset to the formatted new prop. */
    method ReceiveProps(newValue: Option<int>)
      modifies this
      ensures value == Format(newValue)
      ensures Valid() <==> newValue.None? || newValue.value >= 0
    {
      value := Format(newValue);
      FormatDigitsOnly(newValue);
    }

    /** `onChange`: take the typed text only when it is all digits; otherwise keep the state. */
    method OnChange(text: string)
      modifies this
      ensures IsDigits(text) ==> value == text
      ensures !IsDigits(text) ==> value == old(value)
      ensures value == Accept(old(value), text)
      ensures old(Valid()) ==> Valid()
    {
      if IsDigits(text) {
        value := text;
      }
    }

    /** `onBlur`: report `parse(state.value)` to the parent, leaving the state as it is. */
    method OnBlur() returns (reported: Option<int>)
      ensures reported == Parse(value)
      ensures Valid() && value != "" ==> reported == Some(DigitsValue(value))
      ensures value == "" ==> reported == None
    {
      reported := Parse(value);
      if IsDigits(value) && value != "" {
        ParseDigitsValue(value);
      }
      ParseEmpty();
    }
  }

  /** `format` gives the empty text for 0 and for no number. */
  lemma FormatFalsy()
    ensures Format(None) == "" && Format(Some(0)) == ""
  {
  }

  /** `format` of a truthy integer is its decimal text, with a minus sign when negative. */
  lemma FormatNonZero(n: int)
    requires n != 0
    ensures Format(Some(n)) != ""
    ensures n > 0 ==> IsDigits(Format(Some(n))) && Format(Some(n))[0] != '0'
                      && DigitsValue(Format(Some(n))) == n
    ensures n < 0 ==> Format(Some(n)) == "-" + Format(Some(-n))
  {
    if n > 0 {
      DigitsValueOfNatToString(n);
    }
  }

  /** `format` yields digits only exactly when the number is absent or not negative. */
  lemma FormatDigitsOnly(num: Option<int>)
    ensures IsDigits(Format(num)) <==> num.None? || num.value >= 0
  {
  }

  /** `parse("")` is null. */
  lemma ParseEmpty()
    ensures Parse("") == None
  {
    ParseIntEmpty();
  }

  /** `parse` of a non-empty digit string is its decimal value. */
  lemma ParseDigitsValue(str: string)
    requires str != "" && IsDigits(str)
    ensures Parse(str) == Some(DigitsValue(str))
  {
    ParseIntDigits(str);
  }

  /** `parse(format(n))` gives `n` back for every non-zero integer, and null for 0 and for no number. */
  lemma ParseFormatRoundTrip(num: Option<int>)
    ensures num.Some? && num.value != 0 ==> Parse(Format(num)) == num
    ensures num.None? || num.value == 0 ==> Parse(Format(num)) == None
  {
    if num.Some? && num.value != 0 {
      ParseIntOfIntToString(num.value);
    } else {
      ParseIntEmpty();
    }
  }

  /** Starting from digits, any sequence of `onChange` events leaves digits. */
  lemma {:induction false} AcceptAllKeepsDigits(current: string, texts: seq<string>)
    requires IsDigits(current)
    ensures IsDigits(AcceptAll(current, texts))
    decreases |texts|
  {
    if texts != [] {
      AcceptAllKeepsDigits(Accept(current, texts[0]), texts[1..]);
    }
  }

  /**
   * After a sequence of events the value is the start value or one of the
   * all-digit texts typed, and it is the last text when that one is all digits.
   */
  lemma {:induction false} AcceptAllIsLastDigitText(current: string, texts: seq<string>)
    ensures AcceptAll(current, texts) == current
         || exists i :: 0 <= i < |texts| && IsDigits(texts[i]) && AcceptAll(current, texts) == texts[i]
    ensures texts != [] && IsDigits(texts[|texts| - 1]) ==> AcceptAll(current, texts) == texts[|texts| - 1]
    decreases |texts|
  {
    if texts != [] {
      var rest := texts[1..];
      AcceptAllIsLastDigitText(Accept(current, texts[0]), rest);
      var r := AcceptAll(current, texts);
      if r != Accept(current, texts[0]) {
        var i :| 0 <= i < |rest| && IsDigits(rest[i]) && r == rest[i];
        assert texts[i + 1] == rest[i];
      }
      if rest != [] {
        assert rest[|rest| - 1] == texts[|texts| - 1];
      }
    }
  }
}
