/**
 * The trade form's local state (src/components/TradeForm.js): the order-size slider, a percentage
 * that an edit clamps into [0, 100], and the reduce-only and post-only checkboxes, which are never
 * both ticked once either has been clicked.
 */
module TradeForm {
  import opened FormFields

  const ReduceOnlyOption := "reduce-only"
  const PostOnlyOption := "post-only"

  datatype Checkboxes = Checkboxes(reduceOnly: bool, postOnly: bool)

  /** Reduce-only ticked, post-only not. */
  const InitialCheckboxes := Checkboxes(true, false)

  /** At most one of the two options is ticked. */
  predicate Exclusive(c: Checkboxes) {
    !(c.reduceOnly && c.postOnly)
  }

  /**
   * `handleCheckboxChange(option)`: the clicked option flips; ticking one unticks the other, and
   * unticking one leaves the other as it was. Any other option name changes nothing.
   */
  function HandleCheckboxChange(prev: Checkboxes, option: string): (next: Checkboxes)
    ensures option == ReduceOnlyOption ==>
              && next.reduceOnly == !prev.reduceOnly
              && next.postOnly == (prev.postOnly && prev.reduceOnly)
    ensures option == PostOnlyOption ==>
              && next.postOnly == !prev.postOnly
              && next.reduceOnly == (prev.reduceOnly && prev.postOnly)
    ensures option != ReduceOnlyOption && option != PostOnlyOption ==> next == prev
    ensures option == ReduceOnlyOption || option == PostOnlyOption ==> Exclusive(next)
  {
    if option == ReduceOnlyOption then
      var ticked := !prev.reduceOnly;
      Checkboxes(ticked, if ticked then false else prev.postOnly)
    else if option == PostOnlyOption then
      var ticked := !prev.postOnly;
      Checkboxes(if ticked then false else prev.reduceOnly, ticked)
    else prev
  }

  /** The checkboxes after the clicks in `options`, in order. */
  function AfterClicks(c: Checkboxes, options: seq<string>): Checkboxes
    decreases |options|
  {
    if options == [] then c else AfterClicks(HandleCheckboxChange(c, options[0]), options[1..])
  }

  /** From the initial state, no sequence of clicks ever ticks both options. */
  lemma {:induction false} ClicksKeepExclusive(c: Checkboxes, options: seq<string>)
    requires Exclusive(c)
    ensures Exclusive(AfterClicks(c, options))
    decreases |options|
  {
    if options != [] {
      ClicksKeepExclusive(HandleCheckboxChange(c, options[0]), options[1..]);
    }
  }

  /** The case the form starts from. */
  lemma InitialClicksExclusive(options: seq<string>)
    ensures Exclusive(AfterClicks(InitialCheckboxes, options))
  {
    ClicksKeepExclusive(InitialCheckboxes, options);
  }

  /** Clicking an option twice from an exclusive state restores that state. */
  lemma DoubleClickRestores(c: Checkboxes, option: string)
    requires Exclusive(c)
    requires c.reduceOnly ==> option == ReduceOnlyOption
    requires c.postOnly ==> option == PostOnlyOption
    ensures HandleCheckboxChange(HandleCheckboxChange(c, option), option) == c
  {
  }

  /** The slider starts at 0. */
  const InitialSlider := Amount(0.0)

  /** `handleSliderChange`: an emptied slider field stays empty, a number is clamped into [0, 100]. */
  function HandleSliderChange(input: FieldValue): (v: FieldValue)
    ensures input.Blank? <==> v.Blank?
    ensures v.Amount? ==> 0.0 <= v.value <= 100.0
    ensures input.Amount? && 0.0 <= input.value <= 100.0 ==> v == input
    ensures input.Amount? && input.value < 0.0 ==> v == Amount(0.0)
    ensures input.Amount? && input.value > 100.0 ==> v == Amount(100.0)
  {
    EditField(0.0, 100.0, input)
  }

  /** `handleSliderBlur`: an empty slider field becomes 0, a number stays. */
  function HandleSliderBlur(v: FieldValue): (w: FieldValue)
    ensures w.Amount?
    ensures v.Amount? ==> w == v
    ensures v.Blank? ==> w == Amount(0.0)
  {
    LeaveField(0.0, v)
  }

  /** Once the slider field is left, it holds a percentage in [0, 100], whatever was typed. */
  lemma SliderSettlesInRange(input: FieldValue)
    ensures var w := HandleSliderBlur(HandleSliderChange(input));
            w.Amount? && 0.0 <= w.value <= 100.0
  {
  }
}
