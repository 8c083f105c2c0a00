/**
 * The integer input component of the Origami sample
 * (Samples/Origami/Components/Numbers/IntInput.cs): a stored value, an
 * optional range and a value-changed callback that receives the clamped
 * value. Drawing and the element builder are not part of this model.
 *
 * C# ints are 32-bit and `++`/`--`/`+` wrap around (unchecked context);
 * the wrap is written out. The callback is external code: a method reports
 * the value it passes to the callback (None when no callback is set).
 */
module IntInputs {
  import opened Wrappers

  const MinValue: int := -0x8000_0000
  const MaxValue: int := 0x7FFF_FFFF

  newtype int32 = x: int | -0x8000_0000 <= x < 0x8000_0000

  /** Two's-complement wrap-around of a mathematical integer to 32 bits. */
  function Wrap(x: int): (r: int32)
    ensures MinValue <= x <= MaxValue ==> r as int == x
    ensures (r as int - x) % 0x1_0000_0000 == 0
  {
    ((x + 0x8000_0000) % 0x1_0000_0000 - 0x8000_0000) as int32
  }

  /**
   * CheckValueRange: the value raised to min when below it, then lowered to
   * max when above it.
   */
  function CheckValueRange(currValue: int32, min: int32, max: int32): (r: int32)
    ensures min <= currValue <= max ==> r == currValue
    ensures min <= max ==> min <= r <= max
    ensures min > max ==> r == max
    ensures r == currValue || r == min || r == max
  {
    var v := if currValue < min then min else currValue;
    if v > max then max else v
  }

  /** Clamping is idempotent. */
  lemma CheckValueRangeIdempotent(v: int32, min: int32, max: int32)
    ensures CheckValueRange(CheckValueRange(v, min, max), min, max) == CheckValueRange(v, min, max)
  {
  }

  /** With the default bounds clamping changes nothing. */
  lemma DefaultRangeIsIdentity(v: int32)
    ensures CheckValueRange(v, MinValue as int32, MaxValue as int32) == v
  {
  }

  /** `++` at int.MaxValue wraps to int.MinValue, which the default range lets through. */
  lemma IncrementWrapsAtMax()
    ensures Wrap(MaxValue + 1) == MinValue as int32
    ensures CheckValueRange(Wrap(MaxValue + 1), MinValue as int32, MaxValue as int32) == MinValue as int32
  {
  }

  class IntInput {
    var min: int32
    var max: int32
    var useRange: bool
    /** Whether _onValueChanged is set (non-null). */
    var hasCallback: bool
    var currValue: int32

    /** The field initialisers: the full int range, no range set, no callback, value 0. */
    constructor()
      ensures min as int == MinValue && max as int == MaxValue && !useRange && !hasCallback && currValue == 0
      ensures forall v :: CheckValueRange(v, min, max) == v
    {
      min := MinValue as int32;
      max := MaxValue as int32;
      useRange := false;
      hasCallback := false;
      currValue := 0;
    }

    /** IncrementValue: `++_currValue` (wrapping, never clamped), the callback gets the clamped value. */
    method IncrementValue() returns (notified: Option<int32>)
      modifies this`currValue
      ensures currValue == Wrap(old(currValue) as int + 1)
      ensures notified == if hasCallback then Some(CheckValueRange(currValue, min, max)) else None
      ensures notified.Some? && min <= max ==> min <= notified.value <= max
    {
      currValue := Wrap(currValue as int + 1);
      notified := if hasCallback then Some(CheckValueRange(currValue, min, max)) else None;
    }

    /** Decrementvalue: `--_currValue`, likewise. */
    method Decrementvalue() returns (notified: Option<int32>)
      modifies this`currValue
      ensures currValue == Wrap(old(currValue) as int - 1)
      ensures notified == if hasCallback then Some(CheckValueRange(currValue, min, max)) else None
      ensures notified.Some? && min <= max ==> min <= notified.value <= max
    {
      currValue := Wrap(currValue as int - 1);
      notified := if hasCallback then Some(CheckValueRange(currValue, min, max)) else None;
    }

    /**
     * OnInputFieldDragged with the drag delta already rounded: the callback
     * gets the clamped (wrapped) sum; the stored value does not change.
     */
    method OnInputFieldDragged(deltaX: int32) returns (notified: Option<int32>)
      ensures notified == if hasCallback then Some(CheckValueRange(Wrap(currValue as int + deltaX as int), min, max)) else None
      ensures notified.Some? && min <= max ==> min <= notified.value <= max
    {
      notified := if hasCallback then Some(CheckValueRange(Wrap(currValue as int + deltaX as int), min, max)) else None;
    }

    /** SetData: the value (stored unclamped) and the callback. */
    method SetData(value: int32, callback: bool) returns (self: IntInput)
      modifies this`currValue, this`hasCallback
      ensures self == this && currValue == value && hasCallback == callback
    {
      currValue := value;
      hasCallback := callback;
      self := this;
    }

    /** SetRange: the bounds, without checking min <= max; the stored value is not clamped. */
    method SetRange(newMin: int32, newMax: int32) returns (self: IntInput)
      modifies this`min, this`max, this`useRange
      ensures self == this && min == newMin && max == newMax && useRange
    {
      min := newMin;
      max := newMax;
      useRange := true;
      self := this;
    }
  }
}
