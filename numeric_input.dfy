/**
 * `NumericInput::update` of `src/gui/args/numeric_input.rs`: the event
 * handler of the GUI's number field. The field holds an optional `u32`; the
 * plus and minus buttons and the text box turn into an optional message built
 * by the field's `on_change` callback, which comes in as the parameter
 * `onChange`.
 */
module NumericInput {
  import opened Wrappers
  import opened Strings

  const U32Max := 0xffff_ffff

  type U32 = x: int | 0 <= x <= U32Max

  datatype Event = InputChanged(text: string) | IncrementPressed | DecrementPressed

  /** `unwrap_or_default`: a missing value counts as 0. */
  function OrZero(value: Option<U32>): U32
  {
    if value.Some? then value.value else 0
  }

  /** `u32::saturating_add(1)`: one more, or no change exactly at the top of the range. */
  function SaturatingInc(x: U32): (r: U32)
    ensures x <= r <= x + 1
    ensures r == x <==> x == U32Max
  {
    if x == U32Max then x else x + 1
  }

  /** `u32::saturating_sub(1)`: one less, or no change exactly at 0. */
  function SaturatingDec(x: U32): (r: U32)
    ensures x - 1 <= r <= x
    ensures r == x <==> x == 0
  {
    if x == 0 then 0 else x - 1
  }

  /**
   * `str::parse::<u32>`: an optional leading '+' (not on its own), then one
   * or more decimal digits whose value fits in 32 bits.
   */
  function ParseU32(s: string): (r: Option<U32>)
    ensures r.Some? ==> |s| >= 1
  {
    var digits := if |s| >= 2 && s[0] == '+' then s[1..] else s;
    if |digits| >= 1 && AllDigits(digits) && Value(digits) <= U32Max then Some(Value(digits)) else None
  }

  /** The handler: the buttons step the value, saturating; empty text clears it; other text must parse. */
  function Update<M>(value: Option<U32>, onChange: Option<U32> -> M, event: Event): (r: Option<M>)
  {
    match event
    case IncrementPressed => Some(onChange(Some(SaturatingInc(OrZero(value)))))
    case DecrementPressed => Some(onChange(Some(SaturatingDec(OrZero(value)))))
    case InputChanged(text) =>
      if text == [] then Some(onChange(None))
      else match ParseU32(text)
        case None => None
        case Some(n) => Some(onChange(Some(n)))
  }

  /** The buttons always emit a value, one step from the current one (a missing value counting as 0) unless at the end of the range. */
  lemma ButtonsStep<M>(value: Option<U32>, onChange: Option<U32> -> M)
    ensures OrZero(value) < U32Max ==> Update(value, onChange, IncrementPressed) == Some(onChange(Some(OrZero(value) + 1)))
    ensures OrZero(value) == U32Max ==> Update(value, onChange, IncrementPressed) == Some(onChange(Some(U32Max)))
    ensures OrZero(value) > 0 ==> Update(value, onChange, DecrementPressed) == Some(onChange(Some(OrZero(value) - 1)))
    ensures OrZero(value) == 0 ==> Update(value, onChange, DecrementPressed) == Some(onChange(Some(0)))
  {
  }

  /** Minus undoes plus below the top of the range, and plus undoes minus above 0. */
  lemma StepsUndo(x: U32)
    ensures x < U32Max ==> SaturatingDec(SaturatingInc(x)) == x
    ensures x > 0 ==> SaturatingInc(SaturatingDec(x)) == x
  {
  }

  /** Clearing the text box clears the value. */
  lemma EmptyTextClears<M>(value: Option<U32>, onChange: Option<U32> -> M)
    ensures Update(value, onChange, InputChanged("")) == Some(onChange(None))
  {
  }

  /** Non-empty text emits a message exactly when it parses, and then with the parsed value. */
  lemma TextParses<M>(value: Option<U32>, onChange: Option<U32> -> M, text: string)
    requires text != []
    ensures Update(value, onChange, InputChanged(text)).Some? <==> ParseU32(text).Some?
    ensures ParseU32(text).Some? ==> Update(value, onChange, InputChanged(text)) == Some(onChange(ParseU32(text)))
  {
  }

  /** Typing the decimal rendering of any `u32` sets exactly that value. */
  lemma TypedDecimal<M>(value: Option<U32>, onChange: Option<U32> -> M, n: U32)
    ensures Update(value, onChange, InputChanged(Decimal(n))) == Some(onChange(Some(n)))
  {
    DecimalValue(n);
    assert Decimal(n)[0] != '+';
  }

  /** Text holding a character other than a digit (past an optional leading '+') emits nothing. */
  lemma NonDigitIgnored<M>(value: Option<U32>, onChange: Option<U32> -> M, text: string, k: nat)
    requires k < |text| && !IsDigit(text[k]) && !(k == 0 && text[0] == '+' && |text| >= 2)
    ensures Update(value, onChange, InputChanged(text)).None?
  {
    if |text| >= 2 && text[0] == '+' {
      assert text[1..][k - 1] == text[k];
    }
  }

  /** Digits denoting a value past the 32-bit range emit nothing. */
  lemma OverflowIgnored<M>(value: Option<U32>, onChange: Option<U32> -> M, n: nat)
    requires n > U32Max
    ensures Update(value, onChange, InputChanged(Decimal(n))).None?
  {
    DecimalValue(n);
    assert Decimal(n)[0] != '+';
  }
}
