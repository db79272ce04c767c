/** The clock's two-field time stamps and the arithmetic macros the alarms use on them. */
module Timevals {

  const USEC_PER_SEC := 1_000_000

  /** `struct timeval`. */
  datatype Timeval = Timeval(sec: int, usec: int) {
    predicate Normal() {
      0 <= usec < USEC_PER_SEC
    }

    /** The instant in microseconds. */
    function Micros(): int {
      sec * USEC_PER_SEC + usec
    }
  }

  /** `timercmp(a, b, <)`: seconds first, then microseconds. */
  predicate Before(a: Timeval, b: Timeval) {
    if a.sec == b.sec then a.usec < b.usec else a.sec < b.sec
  }

  /** `timeradd`: one carry. */
  function Add(a: Timeval, b: Timeval): (r: Timeval)
    requires a.Normal() && b.Normal()
    ensures r.Normal() && r.Micros() == a.Micros() + b.Micros()
  {
    if a.usec + b.usec >= USEC_PER_SEC
    then Timeval(a.sec + b.sec + 1, a.usec + b.usec - USEC_PER_SEC)
    else Timeval(a.sec + b.sec, a.usec + b.usec)
  }

  /** `timersub`: one borrow. */
  function Sub(a: Timeval, b: Timeval): (r: Timeval)
    requires a.Normal() && b.Normal()
    ensures r.Normal() && r.Micros() == a.Micros() - b.Micros()
  {
    if a.usec - b.usec < 0
    then Timeval(a.sec - b.sec - 1, a.usec - b.usec + USEC_PER_SEC)
    else Timeval(a.sec - b.sec, a.usec - b.usec)
  }

  /** Comparing field by field is comparing instants. */
  lemma BeforeIsEarlier(a: Timeval, b: Timeval)
    requires a.Normal() && b.Normal()
    ensures Before(a, b) <==> a.Micros() < b.Micros()
  {
  }
}
