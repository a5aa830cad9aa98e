/** _calculateTimeDifference() of commands and containers. */
module ActionClock {

  const MAX_NS := 1_000_000_000
  const NS_PER_MS := 1_000_000

  datatype TimeSpec = TimeSpec(sec: int, nsec: int)

  predicate Normal(t: TimeSpec) {
    0 <= t.nsec < MAX_NS
  }

  /** Integer division of the source language, which truncates towards zero. */
  function Truncated(a: int, b: int): int
    requires b > 0
  {
    if a >= 0 then a / b else -((-a) / b)
  }

  /** The time between two readings of the clock, in nanoseconds. */
  function Between(start: TimeSpec, end: TimeSpec): int {
    (end.sec - start.sec) * MAX_NS + (end.nsec - start.nsec)
  }

  function Measured(start: TimeSpec, end: TimeSpec): int {
    (end.sec - start.sec) * 1000 + Truncated(end.nsec - start.nsec, NS_PER_MS)
  }

  /** As written: the condition compares the start time with itself, so that nothing is
      ever borrowed from the seconds. */
  method CalculateTimeDifference(start: TimeSpec, end: TimeSpec) returns (ms: int)
    ensures ms == Measured(start, end)
  {
    var sec := end.sec - start.sec;
    var nsec;
    if start.nsec < start.nsec {
      nsec := end.nsec + MAX_NS - start.nsec;
      sec := sec - 1;
    } else {
      nsec := end.nsec - start.nsec;
    }
    ms := sec * 1000 + (if nsec >= 0 then nsec / NS_PER_MS else -((-nsec) / NS_PER_MS));
  }

  /** With a clock that does not run backwards, the result is not negative and less than a
      millisecond off, although nothing is borrowed. It is the time in whole milliseconds,
      rounded down, exactly when the nanoseconds have not run over or nothing is cut off;
      otherwise it is one more. */
  lemma MeasuredIsClose(start: TimeSpec, end: TimeSpec)
    requires Normal(start) && Normal(end) && Between(start, end) >= 0
    ensures var ns, ms := Between(start, end), Measured(start, end);
            && ms >= 0 && -NS_PER_MS < ms * NS_PER_MS - ns < NS_PER_MS
            && (ms == ns / NS_PER_MS <==> end.nsec >= start.nsec || ns % NS_PER_MS == 0)
            && (ms != ns / NS_PER_MS ==> ms == ns / NS_PER_MS + 1)
  {
  }
}
