/** The `pass`/`fail` results of expectations and their `negate` closures. */
module ExpectationResult {

  /** `{ expected, received }` */
  datatype ExpectedReceived = ExpectedReceived(expected: string, received: string)

  /**
   * `PassOptions.negate`: a function producing the failure, or the failure
   * itself (a plain `{ expected, received }` or an `ExpectationFailed`, which
   * `fail` reads only for those two fields).
   */
  datatype NegateOption = Thunk(produces: ExpectedReceived) | Constant(value: ExpectedReceived)

  /** An expectation result: passed with its way of negating, or failed with its details. */
  datatype Expectation =
    | Passed(negateWith: NegateOption)
    | Failed(expected: string, received: string)
  {
    predicate IsPassed() { Passed? }
  }

  /** The details the negation of a passed result fails with. */
  function Resolve(o: NegateOption): (r: ExpectedReceived)
    ensures o.Thunk? ==> r == o.produces
    ensures o.Constant? ==> r == o.value
  {
    match o
    case Thunk(d) => d
    case Constant(d) => d
  }

  /** `pass(details)` */
  function Pass(o: NegateOption): (r: Expectation)
    ensures r.IsPassed()
  {
    Passed(o)
  }

  /** `fail(details)`: a failed result carrying the details, negating to a pass that negates back. */
  function Fail(d: ExpectedReceived): (r: Expectation)
    ensures !r.IsPassed() && r.expected == d.expected && r.received == d.received
  {
    Failed(d.expected, d.received)
  }

  /** `result.negate()` */
  function Negate(e: Expectation): (r: Expectation)
    ensures r.IsPassed() <==> !e.IsPassed()
  {
    match e
    case Passed(o) => Fail(Resolve(o))
    case Failed(exp, rec) => Pass(Thunk(ExpectedReceived(exp, rec)))
  }

  /** Negating a pass fails with what `negate` gives, calling it when it is a function. */
  lemma NegatePass(o: NegateOption)
    ensures o.Thunk? ==> Negate(Pass(o)) == Fail(o.produces)
    ensures o.Constant? ==> Negate(Pass(o)) == Fail(o.value)
  {
  }

  /** Negating a failure passes. */
  lemma NegateFail(d: ExpectedReceived)
    ensures Negate(Fail(d)).IsPassed()
  {
  }

  /** Negating a failure twice gives a failure with the same fields back. */
  lemma DoubleNegationOfFail(d: ExpectedReceived)
    ensures Negate(Negate(Fail(d))) == Fail(d)
  {
  }

  /** On every result, negation is an involution up to the way a pass negates. */
  lemma DoubleNegation(e: Expectation)
    ensures Negate(Negate(e)).IsPassed() == e.IsPassed()
    ensures !e.IsPassed() ==> Negate(Negate(e)) == e
    ensures e.IsPassed() ==> Negate(Negate(e)) == Pass(Thunk(Resolve(e.negateWith)))
  {
  }
}
