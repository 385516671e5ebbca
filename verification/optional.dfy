/** The absent-or-present values of a JavaScript object field, and the
    truthiness tests the route handlers and the in-memory store apply to them. */
module Optional {

  /** A field that is either missing (`undefined`) or holds a value. */
  datatype Option<+T> = None | Some(value: T) {

    /** The value, or `default` when the field is missing. */
    function GetOr(default: T): T {
      match this
      case Some(v) => v
      case None => default
    }

    /** This option when present, otherwise `fallback`: the field a later
        spread source leaves in place when it does not mention it. */
    function Or(fallback: Option<T>): Option<T> {
      match this
      case Some(_) => this
      case None => fallback
    }
  }

  /** A string-valued field is truthy when it is present and not empty. */
  predicate TruthyText(o: Option<string>) {
    o.Some? && o.value != ""
  }

  /** A number-valued field is truthy when it is present and not zero. */
  predicate TruthyNumber(o: Option<int>) {
    o.Some? && o.value != 0
  }

  /** `x >= b` on possibly-missing numbers: any comparison with `undefined`
      is false. */
  predicate AtLeast(x: Option<int>, b: Option<int>) {
    x.Some? && b.Some? && x.value >= b.value
  }

  /** `x <= b` on possibly-missing numbers. */
  predicate AtMost(x: Option<int>, b: Option<int>) {
    x.Some? && b.Some? && x.value <= b.value
  }
}
