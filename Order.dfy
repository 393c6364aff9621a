/**
 * The order panel: the quantity stepper, which never lets the quantity drop
 * below one, and the total, a flat unit price times the quantity.
 */
module Order {
  import opened Wrappers

  /** The base price of one patch, in hryvnias. */
  const UnitPrice: int := 150

  /** The quantity the editor starts with. */
  const InitialQuantity: int := 1

  /** The minus button: `Math.max(1, q - 1)`. */
  function Decremented(q: int): (r: int)
    ensures r >= 1
    ensures q >= 2 ==> r == q - 1
    ensures q <= 1 ==> r == 1
  {
    if q - 1 > 1 then q - 1 else 1
  }

  /**
   * Typing into the quantity field: `Math.max(1, parseInt(text) || 1)`.
   * `parsed` is what `parseInt` returned, `None` standing for `NaN`; both
   * `NaN` and `0` are falsy, so `|| 1` replaces them with one.
   */
  function Entered(parsed: Option<int>): (r: int)
    ensures r >= 1
    ensures parsed.Some? && parsed.value >= 1 ==> r == parsed.value
    ensures parsed.None? || parsed.value < 1 ==> r == 1
  {
    var n := if parsed.None? || parsed.value == 0 then 1 else parsed.value;
    if n > 1 then n else 1
  }

  /** The three ways the user changes the quantity. */
  datatype QuantityInput = Decrease | Increase | Enter(parsed: Option<int>)

  /** The quantity after one input; the plus button is `q + 1`. */
  function Next(q: int, input: QuantityInput): int {
    match input
    case Decrease => Decremented(q)
    case Increase => q + 1
    case Enter(parsed) => Entered(parsed)
  }

  /** The quantity after a sequence of inputs, applied in order. */
  function AfterInputs(q: int, inputs: seq<QuantityInput>): int
    decreases |inputs|
  {
    if inputs == [] then q else AfterInputs(Next(q, inputs[0]), inputs[1..])
  }

  /** Starting from a positive quantity, no sequence of inputs makes it less than one. */
  lemma {:induction false} QuantityStaysPositive(q: int, inputs: seq<QuantityInput>)
    requires q >= 1
    ensures AfterInputs(q, inputs) >= 1
    decreases |inputs|
  {
    if inputs != [] {
      QuantityStaysPositive(Next(q, inputs[0]), inputs[1..]);
    }
  }

  /**
   * The displayed total, `150 * quantity`: a whole number of unit prices,
   * at least one. The add-on options on the panel do not enter it.
   */
  function Total(quantity: int): (total: int)
    requires quantity >= 1
    ensures total >= UnitPrice
    ensures total == UnitPrice * quantity
  {
    UnitPrice * quantity
  }
}
