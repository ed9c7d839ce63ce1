/** Times in seconds and microseconds (src/src/execute.c:623-645). */
module Timers {
  datatype Time = Time(sec: int, usec: int)

  const MILLION := 1000000

  function Value(t: Time): int { t.sec * MILLION + t.usec }

  predicate Normal(t: Time) { 0 <= t.usec < MILLION }

  /** What timer_addmsec leaves: a whole million microseconds are not carried. */
  predicate Nearly(t: Time) { 0 <= t.usec <= MILLION }

  /** timercmp with <. */
  predicate Before(a: Time, b: Time) { a.sec < b.sec || (a.sec == b.sec && a.usec < b.usec) }

  /** timer_sub. */
  function Sub(a: Time, b: Time): Time {
    var t := Time(a.sec - b.sec, a.usec - b.usec);
    if t.usec < 0 then Time(t.sec - 1, t.usec + MILLION) else t
  }

  /** timer_addmsec. */
  function AddMsec(t: Time, msec: nat): Time {
    var u := Time(t.sec + msec / 1000, t.usec + msec % 1000 * 1000);
    if u.usec > MILLION then Time(u.sec + 1, u.usec - MILLION) else u
  }

  /** The difference is exact. */
  lemma SubIs(a: Time, b: Time)
    requires Nearly(a) && Normal(b)
    ensures Value(Sub(a, b)) == Value(a) - Value(b) && Nearly(Sub(a, b)) && (Normal(a) ==> Normal(Sub(a, b)))
  {
  }

  /** So is the sum, and it is in normal form unless the microseconds come to exactly a million. */
  lemma AddMsecIs(t: Time, msec: nat)
    requires Normal(t)
    ensures var u := AddMsec(t, msec);
            && Value(u) == Value(t) + 1000 * msec && Nearly(u)
            && (Normal(u) <==> t.usec + msec % 1000 * 1000 != MILLION)
  {
    assert msec == msec / 1000 * 1000 + msec % 1000;
  }

  /** Comparing is right for normal times, and never the wrong way round for the others. */
  lemma BeforeIs(a: Time, b: Time)
    requires Nearly(a) && Nearly(b)
    ensures (Before(a, b) ==> Value(a) <= Value(b)) && (Value(a) < Value(b) ==> Before(a, b))
    ensures Normal(a) && Normal(b) ==> (Before(a, b) <==> Value(a) < Value(b))
  {
  }

  function Min(a: Time, b: Time): Time { if Before(a, b) then a else b }

  lemma MinIs(a: Time, b: Time)
    requires Nearly(a) && Nearly(b)
    ensures Nearly(Min(a, b)) && Value(Min(a, b)) <= Value(a) && Value(Min(a, b)) <= Value(b)
  {
    BeforeIs(a, b);
    BeforeIs(b, a);
  }
}
