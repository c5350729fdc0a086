/**
 * The HTTP request logger's two callbacks
 * (backend/src/middleware/logger.middleware.ts): the level a finished
 * request is logged at, and the message of a successful one. Writing the
 * log line is the logging library's business and is not modelled.
 */
module LoggerMiddleware {
  import opened Common

  /** `customLogLevel(res, err)`; `failed` is whether `err` is set. */
  function LogLevel(status: int, failed: bool): string
  {
    if status >= 500 || failed then "error"
    else if status >= 400 then "warn"
    else "info"
  }

  /** How severe a level is: info < warn < error. */
  function Severity(level: string): nat
  {
    if level == "error" then 2 else if level == "warn" then 1 else 0
  }

  /** Each level is chosen exactly in its own band: any error, 400 to 499, below 400. */
  lemma LogLevelBands(status: int, failed: bool)
    ensures LogLevel(status, failed) == "error" <==> status >= 500 || failed
    ensures LogLevel(status, failed) == "warn" <==> !failed && 400 <= status < 500
    ensures LogLevel(status, failed) == "info" <==> !failed && status < 400
  {
  }

  /** A higher status is never logged at a lower level, and an error always at the highest. */
  lemma LogLevelMonotone(s1: int, s2: int, failed: bool)
    requires s1 <= s2
    ensures Severity(LogLevel(s1, failed)) <= Severity(LogLevel(s2, failed))
    ensures Severity(LogLevel(s1, false)) <= Severity(LogLevel(s1, true)) == 2
  {
  }

  const COMPLETED := "Request completed: "

  /** `customSuccessMessage(res)`: the status in decimal after a fixed prefix. */
  function SuccessMessage(status: nat): (m: string)
    ensures COMPLETED <= m && |m| > |COMPLETED|
  {
    COMPLETED + NatToDecimal(status)
  }

  /** The message names the status: what follows the prefix is its decimal digits. */
  lemma SuccessMessageNamesStatus(status: nat)
    ensures var digits := SuccessMessage(status)[|COMPLETED|..];
      && (forall i :: 0 <= i < |digits| ==> '0' <= digits[i] <= '9')
      && DecimalValue(digits) == status
  {
    assert SuccessMessage(status)[|COMPLETED|..] == NatToDecimal(status);
    DecimalValueOfNatToDecimal(status);
  }

  /** A three-digit status gives a message of 22 characters. */
  lemma SuccessMessageLength(status: nat)
    requires 100 <= status <= 999
    ensures |SuccessMessage(status)| == 22
  {
    assert Pow10(2) == 100 && Pow10(3) == 1000;
    NatToDecimalLength(status, 3);
  }
}
