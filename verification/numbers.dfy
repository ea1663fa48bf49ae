/** The dynamic type of a constructor argument.

    Python decides acceptance by runtime introspection against
    `numbers.Number`. The model replaces that with a tag per kind of value the
    check tells apart.
 */
module Numbers {

  datatype Num =
    | Int(i: int)                  // int (and its subclasses other than bool)
    | Real(x: real)                // float, Fraction, Decimal: real scalars
    | Bool(b: bool)                // bool: an int subclass in Python, rejected explicitly
    | Complex(re: real, im: real)  // complex: a Number, rejected explicitly
    | NotANumber                   // anything that is not a numbers.Number
  {
    /** The real value of an accepted scalar. */
    function ToReal(): real
      requires Int? || Real?
    {
      if Int? then i as real else x
    }
  }

  /** Whether `x` is accepted as a numeric argument: every Number except
      bool and complex. */
  function CheckNumberType(x: Num): (ok: bool)
    ensures ok <==> x.Int? || x.Real?
  {
    match x
    case Bool(_) => false
    case Complex(_, _) => false
    case NotANumber => false
    case _ => true
  }

  /** Python's `x < 3` on an accepted scalar. */
  predicate BelowThree(x: Num)
    requires x.Int? || x.Real?
  {
    if x.Int? then x.i < 3 else x.x < 3.0
  }
}
