/** The messages `actionFit` prints.  Instead of writing to stdout or stderr
    the model returns them, tagged with the severity the wording implies:
    the two "Warning:" lines, the informational range and
    degrees-of-freedom lines printed to stdout, and the three refusals
    written to stderr. */
module Diagnostics {

  datatype Severity = Warning | Info | Error

  datatype Message =
    | SymmetrisingErrors          // "Warning: Symmeterising positive and negative errors"
    | AssumingFivePercentErrors   // "Warning: No errors on y values. Assuming 5% errors."
    | FittingRange(variable: string, lo: real, hi: real)  // "Fitting %s from %g to %g"
    | NoDataValues                // "No data values. Not fitting."
    | UnequalLengths              // "Fit data not equal in length. Not fitting."
    | TooFewPoints                // "No degrees of freedom for fit. Not fitting"
    | NoDegreesOfFreedomInFit     // "No degrees of freedom in fit."

  datatype Diagnostic = Diagnostic(severity: Severity, message: Message)

  /** The severity each message is reported with. */
  function Tagged(m: Message): (d: Diagnostic)
    ensures d.message == m
    ensures d.severity == Error <==> (m.NoDataValues? || m.UnequalLengths? || m.TooFewPoints?)
    ensures d.severity == Warning <==> (m.SymmetrisingErrors? || m.AssumingFivePercentErrors?)
  {
    match m
    case SymmetrisingErrors => Diagnostic(Warning, m)
    case AssumingFivePercentErrors => Diagnostic(Warning, m)
    case FittingRange(_, _, _) => Diagnostic(Info, m)
    case NoDataValues => Diagnostic(Error, m)
    case UnequalLengths => Diagnostic(Error, m)
    case TooFewPoints => Diagnostic(Error, m)
    case NoDegreesOfFreedomInFit => Diagnostic(Info, m)
  }
}
