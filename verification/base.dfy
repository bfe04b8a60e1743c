/** Failure-carrying results shared by every module of the measure engine. */
module Base {

  datatype Option<+T> = None | Some(value: T)

  /**
   * The exceptions the engine raises, one constructor per distinguishable cause,
   * plus `Unsupported` for the `NotImplemented` sentinel a binary operator returns
   * (Python turns it into a TypeError at the call site once the reflected operator
   * also declines).
   */
  datatype Error =
    | KeyError(key: string)        // a unit name that is not in a table
    | NumberKeyError(number: real) // a number looked up as a unit name
    | MeasurementKeyError          // a measurement looked up where only names are keys
    | Unassigned(measure: string)  // KeyError('unit <measure> unassigned')
    | ParseError(text: string)     // ValueError('could not parse string ...')
    | NumberError(text: string)    // ValueError raised by float() on a numeral
    | ForeignMeasurement           // ValueError('cannot accept measurement of unit ...')
    | RootError                    // ValueError('cannot get root ...')
    | AmountRequired               // ValueError('amount must be specified')
    | NotInvertible                // NotImplementedError from `x / measure` with x != 1
    | TypeError(what: string)
    | ZeroDivision
    | RecursionLimit               // the alias chase ran out of depth
    | StopIteration                // native_unit of an empty table
    | CalibrationFailed            // the AssertionError of Ladder.from_points
    | Unsupported                  // an operator returned NotImplemented
    | FractionalPower              // measure ** p leaving a fractional exponent (not an error in Python)
    | MissingAttribute(name: string) // AttributeError
    | UnpackError(got: nat)        // ValueError from unpacking a value that is not a pair

  datatype Result<T> = Ok(value: T) | Err(error: Error)

  /**
   * How deep an alias chase may recurse before the interpreter gives up with a
   * RecursionError (CPython's default recursion limit).
   */
  const MaxDepth: nat := 1000

  /** `a * b`, kept as a named term so that products of looked-up values match up in proofs. */
  function Mul(a: real, b: real): real {
    a * b
  }
}
