/** The validation rules applied when a value is assigned to a pixel's trim
    or to a DAC's value, and the outcomes they produce. */
module Values {

  /** What a caller may assign. Python booleans are a subclass of int, so they
      are kept apart from other integers; `NonNumeric` stands for a value
      on which `int(...)` raises ValueError. */
  datatype Value = Bool(b: bool) | Int(i: int) | NonNumeric

  datatype Error =
    | InvalidValue   // the generic exception raised for `True` as a trim and for values on which int() raises ValueError
    | OutOfRange     // the failed `assert` on the upper bound
    | UnknownKey     // a DAC name or number that the chip does not have

  datatype Result<T> = Ok(value: T) | Err(error: Error)

  /** Trims are accepted strictly below this bound. */
  const TrimLimit: int := 16
  /** The trim a new pixel gets, and the one that assigning `False` restores. */
  const DefaultTrim: int := 15
  /** The bit width a DAC gets when none is given. */
  const DefaultBits: nat := 8

  function Pow2(bits: nat): (p: nat)
    ensures p >= 1 && p > bits
  {
    if bits == 0 then 1 else 2 * Pow2(bits - 1)
  }

  /** Python's `int(v)` on the inputs the model distinguishes. */
  function IntOf(v: Value): (r: Result<int>)
    ensures r.Ok? <==> !v.NonNumeric?
    ensures v.Int? ==> r == Ok(v.i)
    ensures v.Bool? ==> r == Ok(if v.b then 1 else 0)
    ensures r.Err? ==> r.error == InvalidValue
  {
    match v
    case Bool(b) => Ok(if b then 1 else 0)
    case Int(i) => Ok(i)
    case NonNumeric => Err(InvalidValue)
  }

  /** The trim stored by the trim setter, or why the assignment fails. */
  function AssignedTrim(v: Value): (r: Result<int>)
    // every accepted trim is below the bound
    ensures r.Ok? ==> r.value < TrimLimit
    // `False` is an alias for the default trim, `True` is refused
    ensures v.Bool? ==> r == (if v.b then Err(InvalidValue) else Ok(DefaultTrim))
    // an integer is accepted exactly when it is below the bound, and then stored unchanged;
    // there is no lower bound
    ensures v.Int? ==> (r.Ok? <==> v.i < TrimLimit)
    ensures v.Int? && v.i < TrimLimit ==> r.value == v.i
    ensures v.Int? && v.i >= TrimLimit ==> r.error == OutOfRange
    ensures v.NonNumeric? ==> r == Err(InvalidValue)
  {
    if v.Bool? then
      if v.b == false then Ok(DefaultTrim) else Err(InvalidValue)
    else
      match IntOf(v)
      case Err(e) => Err(e)
      case Ok(t) => if t < TrimLimit then Ok(t) else Err(OutOfRange)
  }

  /** The value stored by the DAC value setter of a DAC `bits` wide. */
  function AssignedDacValue(bits: nat, v: Value): (r: Result<int>)
    // every accepted value is below 2^bits
    ensures r.Ok? ==> r.value < Pow2(bits)
    // an integer is accepted exactly when it is below 2^bits, and then stored unchanged;
    // there is no lower bound
    ensures v.Int? ==> (r.Ok? <==> v.i < Pow2(bits))
    ensures v.Int? && v.i < Pow2(bits) ==> r.value == v.i
    ensures v.Int? && v.i >= Pow2(bits) ==> r.error == OutOfRange
    // a boolean is assigned as the integer 0 or 1
    ensures v == Bool(false) ==> r == Ok(0)
    ensures v == Bool(true) ==> r == (if bits > 0 then Ok(1) else Err(OutOfRange))
    ensures v.NonNumeric? ==> r == Err(InvalidValue)
  {
    match IntOf(v)
    case Err(e) => Err(e)
    case Ok(x) => if x < Pow2(bits) then Ok(x) else Err(OutOfRange)
  }

  /** Negative values pass both setters' checks. */
  lemma NegativeValuesAccepted(bits: nat, x: int)
    requires x < 0
    ensures AssignedTrim(Int(x)) == Ok(x)
    ensures AssignedDacValue(bits, Int(x)) == Ok(x)
  {
  }
}
