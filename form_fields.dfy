/**
 * The numeric text fields the front-end forms share: a field holds either the empty string the
 * user left in it or a number, and an edit clamps the number into the field's range.
 */
module FormFields {
  /** A field's state: `''` while the user has cleared it, a number otherwise. */
  datatype FieldValue = Blank | Amount(value: real)

  /**
   * `Math.max(lo, Math.min(hi, x))`: never below `lo`; when the range is not empty, never above
   * `hi`, `x` itself inside the range, and the nearer bound outside it.
   */
  function Clamp(lo: real, hi: real, x: real): (r: real)
    ensures lo <= r
    ensures lo <= hi ==> r <= hi
    ensures lo <= x <= hi ==> r == x
    ensures x < lo ==> r == lo
    ensures lo <= hi < x ==> r == hi
  {
    var capped := if x < hi then x else hi;
    if capped < lo then lo else capped
  }

  /** A clamped value is a fixed point of the clamp. */
  lemma ClampIdempotent(lo: real, hi: real, x: real)
    requires lo <= hi
    ensures Clamp(lo, hi, Clamp(lo, hi, x)) == Clamp(lo, hi, x)
  {
  }

  /**
   * The change handler of a clamped field: the empty string stays empty, a number (the result of
   * `Number(value)`) is clamped into `[lo, hi]`.
   */
  function EditField(lo: real, hi: real, input: FieldValue): (v: FieldValue)
    ensures input.Blank? <==> v.Blank?
    ensures lo <= hi && v.Amount? ==> lo <= v.value <= hi
    ensures input.Amount? && lo <= input.value <= hi ==> v == input
  {
    match input
    case Blank => Blank
    case Amount(x) => Amount(Clamp(lo, hi, x))
  }

  /** The blur handler of a field: an empty field takes `fallback`, a number stays. */
  function LeaveField(fallback: real, v: FieldValue): (w: FieldValue)
    ensures w.Amount?
    ensures v.Amount? ==> w == v
    ensures v.Blank? ==> w.value == fallback
  {
    if v.Blank? then Amount(fallback) else v
  }

  /** Editing and then leaving a field always ends with a number in its range. */
  lemma EditThenLeaveInRange(lo: real, hi: real, fallback: real, input: FieldValue)
    requires lo <= fallback <= hi
    ensures var w := LeaveField(fallback, EditField(lo, hi, input));
            w.Amount? && lo <= w.value <= hi
  {
  }
}
