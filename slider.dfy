/**
 * The Slider component: a single thumb on a horizontal track, moved by
 * pressing and dragging the pointer or by the arrow, Home and End keys. The
 * value is controlled when the `value` prop is given and kept in internal
 * state otherwise; every change is reported through onValueChange as a
 * one-element array.
 *
 * Numbers are modelled as reals; the track's bounding rectangle and the
 * pointer position arrive as parameters.
 */
module Slider {
  import opened Common

  /** The k-th point of the grid that starts at `base` and advances by `step`. */
  function GridPoint(base: real, step: real, k: int): real {
    base + k as real * step
  }

  /** `Math.round` on the reals: the nearest integer, halves rounding up. */
  function Round(x: real): (r: int)
    ensures x - 0.5 < r as real <= x + 0.5
  {
    (x + 0.5).Floor
  }

  /** `Math.max(min, Math.min(max, v))`. */
  function Clamp(v: real, min: real, max: real): (r: real)
    ensures min <= max ==> min <= r <= max
    ensures min <= v <= max ==> r == v
    ensures min <= max && v > max ==> r == max
    ensures min <= max && v < min ==> r == min
  {
    var capped := if v <= max then v else max;
    if capped >= min then capped else min
  }

  /** How far along the track the pointer is, `(clientX - left) / width` clamped to [0, 1]. */
  function PointerFraction(clientX: real, left: real, width: real): (r: real)
    requires width > 0.0
    ensures 0.0 <= r <= 1.0
    ensures clientX <= left ==> r == 0.0
    ensures clientX >= left + width ==> r == 1.0
  {
    var q := (clientX - left) / width;
    DivBounds(clientX - left, width);
    if q <= 0.0 then 0.0 else if q >= 1.0 then 1.0 else q
  }

  /** The unsnapped value under the pointer: `min + percentage * (max - min)`, between min and max. */
  function RawValue(clientX: real, left: real, width: real, min: real, max: real): (r: real)
    requires width > 0.0
    ensures min <= max ==> min <= r <= max
    ensures clientX <= left ==> r == min
    ensures clientX >= left + width ==> r == max
  {
    var p := PointerFraction(clientX, left, width);
    FractionOfRange(p, max - min);
    min + p * (max - min)
  }

  // ---------------------------------------------------------------------------
  // Pointer mapping as written: snapping to multiples of `step`
  // ---------------------------------------------------------------------------

  /**
   * The snapping step of updateValue as written: the raw value is rounded
   * to the nearest multiple of `step` (counted from zero) and clamped to
   * [min, max].
   */
  function SnapAsWritten(raw: real, min: real, max: real, step: real): (r: real)
    requires step > 0.0
    ensures min <= max ==> min <= r <= max
    ensures r == min || r == max || exists k: int :: r == GridPoint(0.0, step, k)
  {
    var k := Round(raw / step);
    assert k as real * step == GridPoint(0.0, step, k);
    Clamp(k as real * step, min, max)
  }

  /** updateValue as written, from the pointer position to the reported value. */
  function ValueFromPointerAsWritten(clientX: real, left: real, width: real, min: real, max: real, step: real): (r: real)
    requires width > 0.0 && step > 0.0
    ensures min <= max ==> min <= r <= max
  {
    SnapAsWritten(RawValue(clientX, left, width, min, max), min, max, step)
  }

  /** A multiple of step inside [min, max] is kept as it is. */
  lemma SnapAsWrittenKeepsMultiples(i: int, min: real, max: real, step: real)
    requires step > 0.0
    requires min <= GridPoint(0.0, step, i) <= max
    ensures SnapAsWritten(GridPoint(0.0, step, i), min, max, step) == GridPoint(0.0, step, i)
  {
    var v := GridPoint(0.0, step, i);
    assert v == i as real * step;
    MulDivCancel(i as real, step);
    assert v / step == i as real;
    assert Round(i as real) == i;
  }

  /** When min is a multiple of step, a pointer at or left of the track's start gives min. */
  lemma PointerStartAsWritten(clientX: real, left: real, width: real, min: real, max: real, step: real, i: int)
    requires width > 0.0 && step > 0.0 && min <= max
    requires min == GridPoint(0.0, step, i)
    ensures clientX <= left ==> ValueFromPointerAsWritten(clientX, left, width, min, max, step) == min
  {
    SnapAsWrittenKeepsMultiples(i, min, max, step);
  }

  /**
   * When max is a multiple of step, a pointer at or right of the track's end
   * gives max, wherever min lies.
   */
  lemma PointerEndAsWritten(clientX: real, left: real, width: real, min: real, max: real, step: real, j: int)
    requires width > 0.0 && step > 0.0 && min <= max
    requires max == GridPoint(0.0, step, j)
    ensures clientX >= left + width ==> ValueFromPointerAsWritten(clientX, left, width, min, max, step) == max
  {
    SnapAsWrittenKeepsMultiples(j, min, max, step);
  }

  /**
   * With min = 7 and step = 10, a pointer at the very start of the track
   * gives 10, not min: the value snaps to the multiples of 10, which the
   * keyboard (stepping 7, 17, 27, ...) never reaches.
   */
  lemma PointerAtStartMissesMin()
    ensures ValueFromPointerAsWritten(0.0, 0.0, 100.0, 7.0, 100.0, 10.0) == 10.0
  {
    assert RawValue(0.0, 0.0, 100.0, 7.0, 100.0) == 7.0;
    assert 7.0 / 10.0 == 0.7;
    assert Round(0.7) == 1;
  }

  // ---------------------------------------------------------------------------
  // Pointer mapping snapping to the grid min, min + step, min + 2 * step, ...
  // ---------------------------------------------------------------------------

  /** The raw value snapped to the nearest point of the grid that starts at min, then clamped. */
  function Snap(raw: real, min: real, max: real, step: real): (r: real)
    requires step > 0.0
    ensures min <= max ==> min <= r <= max
  {
    Clamp(min + Round((raw - min) / step) as real * step, min, max)
  }

  /** updateValue with the snapping grid starting at min. */
  function ValueFromPointer(clientX: real, left: real, width: real, min: real, max: real, step: real): (r: real)
    requires width > 0.0 && step > 0.0
    ensures min <= max ==> min <= r <= max
  {
    Snap(RawValue(clientX, left, width, min, max), min, max, step)
  }

  /**
   * For a raw value in [min, max], snapping lands on the grid that starts
   * at min (or on max), moves the value by at most half a step unless it
   * was cut off at max, and keeps min itself.
   */
  lemma SnapOnGrid(raw: real, min: real, max: real, step: real)
    requires step > 0.0 && min <= raw <= max
    ensures var r := Snap(raw, min, max, step);
            r == max || exists k: nat :: r == GridPoint(min, step, k)
    ensures var r := Snap(raw, min, max, step);
            r == max || (raw - step / 2.0 < r <= raw + step / 2.0)
    ensures Snap(min, min, max, step) == min
  {
    var y := (raw - min) / step;
    DivMonotone(0.0, raw - min, step);
    var k := Round(y);
    assert k >= 0;
    var snapped := min + k as real * step;
    assert snapped == GridPoint(min, step, k);
    HalfStep(raw - min, step, k as real);
    MulMonotone(0.0, k as real, step);
    assert Snap(min, min, max, step) == min by {
      assert (min - min) / step == 0.0;
      assert Round(0.0) == 0;
    }
  }

  /** A grid point inside [min, max] is kept as it is. */
  lemma SnapKeepsGridPoints(k: nat, min: real, max: real, step: real)
    requires step > 0.0
    requires GridPoint(min, step, k) <= max
    ensures Snap(GridPoint(min, step, k), min, max, step) == GridPoint(min, step, k)
  {
    var v := GridPoint(min, step, k);
    assert v - min == k as real * step;
    MulDivCancel(k as real, step);
    assert (v - min) / step == k as real;
    assert Round(k as real) == k;
    MulMonotone(0.0, k as real, step);
  }

  /** Snapping never reverses the order of two raw values. */
  lemma SnapMonotone(raw1: real, raw2: real, min: real, max: real, step: real)
    requires step > 0.0 && min <= max && raw1 <= raw2
    ensures Snap(raw1, min, max, step) <= Snap(raw2, min, max, step)
  {
    DivMonotone(raw1 - min, raw2 - min, step);
    RoundMonotone((raw1 - min) / step, (raw2 - min) / step);
    MulMonotone(Round((raw1 - min) / step) as real, Round((raw2 - min) / step) as real, step);
    ClampMonotone(min + Round((raw1 - min) / step) as real * step, min + Round((raw2 - min) / step) as real * step, min, max);
  }

  lemma RoundMonotone(y1: real, y2: real)
    requires y1 <= y2
    ensures Round(y1) <= Round(y2)
  {
  }

  lemma ClampMonotone(v1: real, v2: real, min: real, max: real)
    requires v1 <= v2
    ensures Clamp(v1, min, max) <= Clamp(v2, min, max)
  {
  }

  /**
   * The corrected mapping lands on the keyboard's grid (or on max), moves the
   * raw value by at most half a step unless it was clamped at max, and gives
   * min for a pointer at or left of the track's start.
   */
  lemma PointerOnGrid(clientX: real, left: real, width: real, min: real, max: real, step: real)
    requires width > 0.0 && step > 0.0 && min <= max
    ensures var r := ValueFromPointer(clientX, left, width, min, max, step);
            r == max || exists k: nat :: r == GridPoint(min, step, k)
    ensures var r := ValueFromPointer(clientX, left, width, min, max, step);
            var raw := RawValue(clientX, left, width, min, max);
            r == max || (raw - step / 2.0 < r <= raw + step / 2.0)
    ensures clientX <= left ==> ValueFromPointer(clientX, left, width, min, max, step) == min
  {
    SnapOnGrid(RawValue(clientX, left, width, min, max), min, max, step);
  }

  /**
   * A 200-wide track from 0 to 100 in steps of 10, pressed 50 from its left
   * edge: a quarter of the way gives 25, which rounds half up to 30. With
   * min = 0 both grids coincide, so both mappings agree.
   */
  lemma PointerQuarterWay()
    ensures ValueFromPointerAsWritten(50.0, 0.0, 200.0, 0.0, 100.0, 10.0) == 30.0
    ensures ValueFromPointer(50.0, 0.0, 200.0, 0.0, 100.0, 10.0) == 30.0
  {
    assert PointerFraction(50.0, 0.0, 200.0) == 0.25;
    assert RawValue(50.0, 0.0, 200.0, 0.0, 100.0) == 25.0;
    assert 25.0 / 10.0 == 2.5;
    assert Round(2.5) == 3;
  }

  /** The corrected mapping gives max at the end of the track whenever max is on the grid. */
  lemma PointerAtEnd(clientX: real, left: real, width: real, min: real, max: real, step: real, k: nat)
    requires width > 0.0 && step > 0.0
    requires max == GridPoint(min, step, k)
    requires clientX >= left + width
    ensures ValueFromPointer(clientX, left, width, min, max, step) == max
  {
    SnapKeepsGridPoints(k, min, max, step);
  }

  /** Moving the pointer right never lowers the value. */
  lemma PointerMonotone(x1: real, x2: real, left: real, width: real, min: real, max: real, step: real)
    requires width > 0.0 && step > 0.0 && min <= max
    requires x1 <= x2
    ensures ValueFromPointer(x1, left, width, min, max, step) <= ValueFromPointer(x2, left, width, min, max, step)
  {
    RawMonotone(x1, x2, left, width, min, max);
    SnapMonotone(RawValue(x1, left, width, min, max), RawValue(x2, left, width, min, max), min, max, step);
  }

  lemma RawMonotone(x1: real, x2: real, left: real, width: real, min: real, max: real)
    requires width > 0.0 && min <= max
    requires x1 <= x2
    ensures RawValue(x1, left, width, min, max) <= RawValue(x2, left, width, min, max)
  {
    DivMonotone(x1 - left, x2 - left, width);
    var p1, p2 := PointerFraction(x1, left, width), PointerFraction(x2, left, width);
    assert p1 <= p2;
    MulMonotone(p1, p2, max - min);
  }

  // ---------------------------------------------------------------------------
  // Real arithmetic facts
  // ---------------------------------------------------------------------------

  /** A whole number of steps k within half a unit of `d / step` is within half a step of d. */
  lemma HalfStep(d: real, step: real, k: real)
    requires step > 0.0
    requires d / step - 0.5 < k <= d / step + 0.5
    ensures d - step / 2.0 < k * step <= d + step / 2.0
  {
    var below := k - (d / step - 0.5);
    assert below * step > 0.0;
    assert k * step == below * step + d - step / 2.0;
    var above := d / step + 0.5 - k;
    assert above * step >= 0.0;
    assert k * step == d + step / 2.0 - above * step;
  }

  lemma DivBounds(a: real, w: real)
    requires w > 0.0
    ensures a <= 0.0 ==> a / w <= 0.0
    ensures a >= w ==> a / w >= 1.0
  {
    if a <= 0.0 {
      DivMonotone(a, 0.0, w);
    }
    if a >= w {
      DivMonotone(w, a, w);
    }
  }

  lemma FractionOfRange(p: real, d: real)
    requires 0.0 <= p <= 1.0
    ensures d >= 0.0 ==> 0.0 <= p * d <= d
    ensures p == 0.0 ==> p * d == 0.0
    ensures p == 1.0 ==> p * d == d
  {
    if d >= 0.0 {
      MulMonotone(0.0, p, d);
      MulMonotone(p, 1.0, d);
    }
  }

  lemma MulDivCancel(k: real, step: real)
    requires step != 0.0
    ensures (k * step) / step == k
  {
  }

  lemma DivMulCancel(a: real, step: real)
    requires step != 0.0
    ensures (a / step) * step == a
  {
  }

  lemma DivMonotone(a: real, b: real, c: real)
    requires a <= b && c > 0.0
    ensures a / c <= b / c
  {
    assert b / c - a / c == (b - a) / c;
  }

  lemma MulMonotone(a: real, b: real, c: real)
    requires a <= b && c >= 0.0
    ensures a * c <= b * c
  {
    assert b * c - a * c == (b - a) * c;
  }

  lemma MulStrictMonotone(a: real, b: real, c: real)
    requires a < b && c > 0.0
    ensures a * c < b * c
  {
    assert b * c - a * c == (b - a) * c;
  }

  // ---------------------------------------------------------------------------
  // Keyboard
  // ---------------------------------------------------------------------------

  datatype Key = ArrowRight | ArrowUp | ArrowLeft | ArrowDown | Home | End | Other

  /** The value a key moves the thumb to from `v`; None for keys the slider ignores. */
  function KeyValue(v: real, key: Key, min: real, max: real, step: real): (r: Option<real>)
    ensures r.None? <==> key == Other
    ensures key == Home ==> r == Some(min)
    ensures key == End ==> r == Some(max)
  {
    match key
    case ArrowRight => Some(MinReal(max, v + step))
    case ArrowUp => Some(MinReal(max, v + step))
    case ArrowLeft => Some(MaxReal(min, v - step))
    case ArrowDown => Some(MaxReal(min, v - step))
    case Home => Some(min)
    case End => Some(max)
    case Other => None
  }

  /**
   * From a value in [min, max], every handled key stays in [min, max]; the
   * arrows move one step towards the bound and stop there.
   */
  lemma KeysStayInRange(v: real, key: Key, min: real, max: real, step: real)
    requires min <= v <= max && step >= 0.0
    ensures KeyValue(v, key, min, max, step).Some? ==> min <= KeyValue(v, key, min, max, step).value <= max
    ensures key in {ArrowRight, ArrowUp} ==>
              KeyValue(v, key, min, max, step).value == (if v + step <= max then v + step else max)
    ensures key in {ArrowLeft, ArrowDown} ==>
              KeyValue(v, key, min, max, step).value == (if v - step >= min then v - step else min)
  {
  }

  /** One step up and one step down come back to the value, when the step up was not cut off at max. */
  lemma StepUpThenDown(v: real, min: real, max: real, step: real)
    requires min <= v && v + step <= max && step >= 0.0
    ensures KeyValue(KeyValue(v, ArrowRight, min, max, step).value, ArrowLeft, min, max, step) == Some(v)
  {
  }

  /** The arrows keep a value on the grid that starts at min, or put it on a bound. */
  lemma KeysKeepGrid(v: real, key: Key, min: real, max: real, step: real, k: int)
    requires v == GridPoint(min, step, k)
    requires key != Other
    ensures var r := KeyValue(v, key, min, max, step).value;
            r == min || r == max || exists j: int :: r == GridPoint(min, step, j)
  {
    match key
    case ArrowRight =>
      assert v + step == GridPoint(min, step, k + 1);
    case ArrowUp =>
      assert v + step == GridPoint(min, step, k + 1);
    case ArrowLeft =>
      assert v - step == GridPoint(min, step, k - 1);
    case ArrowDown =>
      assert v - step == GridPoint(min, step, k - 1);
    case Home =>
    case End =>
  }

  // ---------------------------------------------------------------------------
  // The component
  // ---------------------------------------------------------------------------

  /**
   * One Slider: its props, the internal value used when uncontrolled, and
   * the drag in progress (the track rectangle read when the press began).
   * `controlled` is the first element of the `value` prop, when it is given.
   */
  class SliderState {
    const min: real
    const max: real
    const step: real
    const disabled: bool
    const controlled: Option<real>
    var internalValue: real
    var dragging: bool
    var dragLeft: real
    var dragWidth: real

    predicate Valid()
      reads this
    {
      step > 0.0 && (dragging ==> dragWidth > 0.0)
    }

    constructor (min: real, max: real, step: real, disabled: bool, controlled: Option<real>, defaultValue: real)
      requires step > 0.0
      ensures Valid()
      ensures this.min == min && this.max == max && this.step == step
      ensures this.disabled == disabled && this.controlled == controlled
      ensures internalValue == defaultValue && !dragging
    {
      this.min := min;
      this.max := max;
      this.step := step;
      this.disabled := disabled;
      this.controlled := controlled;
      internalValue := defaultValue;
      dragging := false;
      dragLeft := 0.0;
      dragWidth := 1.0;
    }

    /** `value || internalValue`: the controlled value whenever one is given. */
    function CurrentValue(): real
      reads this
    {
      if controlled.Some? then controlled.value else internalValue
    }

    /** handleValueChange: store the value only when uncontrolled; always report it. */
    method HandleValueChange(newValue: real) returns (reported: seq<real>)
      modifies this
      ensures controlled.Some? ==> internalValue == old(internalValue)
      ensures controlled.None? ==> internalValue == newValue
      ensures dragging == old(dragging) && dragLeft == old(dragLeft) && dragWidth == old(dragWidth)
      ensures reported == [newValue]
    {
      if controlled.None? {
        internalValue := newValue;
      }
      reported := [newValue];
    }

    /** handleKeyDown: ignored while disabled and for keys outside the switch. */
    method HandleKeyDown(key: Key) returns (reported: Option<seq<real>>)
      modifies this
      ensures disabled || key == Other ==> internalValue == old(internalValue) && reported.None?
      ensures !disabled && key != Other ==>
                var v := KeyValue(old(CurrentValue()), key, min, max, step).value;
                reported == Some([v])
                && internalValue == (if controlled.None? then v else old(internalValue))
      ensures dragging == old(dragging) && dragLeft == old(dragLeft) && dragWidth == old(dragWidth)
    {
      reported := None;
      if disabled {
        return;
      }
      var newValue := CurrentValue();
      match key {
        case ArrowRight =>
          newValue := MinReal(max, CurrentValue() + step);
        case ArrowUp =>
          newValue := MinReal(max, CurrentValue() + step);
        case ArrowLeft =>
          newValue := MaxReal(min, CurrentValue() - step);
        case ArrowDown =>
          newValue := MaxReal(min, CurrentValue() - step);
        case Home =>
          newValue := min;
        case End =>
          newValue := max;
        case Other =>
          return;
      }
      var values := HandleValueChange(newValue);
      reported := Some(values);
    }

    /**
     * handleMouseDown: ignored while disabled; otherwise the track rectangle
     * is read once, the value under the pointer is reported, and the drag
     * begins.
     */
    method MouseDown(clientX: real, left: real, width: real) returns (reported: Option<seq<real>>)
      requires Valid() && width > 0.0
      modifies this
      ensures Valid()
      ensures disabled ==> internalValue == old(internalValue) && dragging == old(dragging) && reported.None?
                           && dragLeft == old(dragLeft) && dragWidth == old(dragWidth)
      ensures !disabled ==>
                var v := ValueFromPointerAsWritten(clientX, left, width, min, max, step);
                reported == Some([v]) && dragging && dragLeft == left && dragWidth == width
                && internalValue == (if controlled.None? then v else old(internalValue))
    {
      reported := None;
      if disabled {
        return;
      }
      dragLeft := left;
      dragWidth := width;
      dragging := true;
      var values := HandleValueChange(ValueFromPointerAsWritten(clientX, left, width, min, max, step));
      reported := Some(values);
    }

    /** A mousemove on the page: while a drag is on, the value follows the pointer over the saved track. */
    method MouseMove(clientX: real) returns (reported: Option<seq<real>>)
      requires Valid()
      modifies this
      ensures Valid()
      ensures dragging == old(dragging) && dragLeft == old(dragLeft) && dragWidth == old(dragWidth)
      ensures !dragging ==> internalValue == old(internalValue) && reported.None?
      ensures dragging ==>
                var v := ValueFromPointerAsWritten(clientX, dragLeft, dragWidth, min, max, step);
                reported == Some([v])
                && internalValue == (if controlled.None? then v else old(internalValue))
    {
      reported := None;
      if dragging {
        var values := HandleValueChange(ValueFromPointerAsWritten(clientX, dragLeft, dragWidth, min, max, step));
        reported := Some(values);
      }
    }

    /** A mouseup on the page ends the drag; the value stays. */
    method MouseUp()
      requires Valid()
      modifies this
      ensures Valid()
      ensures !dragging && internalValue == old(internalValue)
      ensures dragLeft == old(dragLeft) && dragWidth == old(dragWidth)
    {
      dragging := false;
    }
  }
}
