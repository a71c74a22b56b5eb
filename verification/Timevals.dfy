/** Arithmetic on struct timeval, and the running minimum of times to sleep. */
module Timevals {

  const MILLION: int := 1000000

  class Timeval {
    var sec: int
    var usec: int

    constructor (sec: int, usec: int)
      ensures this.sec == sec && this.usec == usec
    {
      this.sec, this.usec := sec, usec;
    }

    /** The microseconds are a proper fraction of a second. */
    predicate Normal()
      reads this
    {
      0 <= usec < MILLION
    }

    function Micros(): int
      reads this
    {
      sec * MILLION + usec
    }

    /** timevaladd. */
    method Add(ms: nat)
      requires Normal()
      modifies this
      ensures Normal() && Micros() == old(Micros()) + ms * 1000
    {
      usec := usec + ms % 1000 * 1000;
      sec := sec + ms / 1000;
      if usec >= MILLION {
        sec := sec + 1;
        usec := usec - MILLION;
      }
    }

    /** timerclear. */
    method Clear()
      modifies this
      ensures sec == usec == 0
    {
      sec, usec := 0, 0;
    }
  }

  /** timercmp(a, b, >). */
  method After(a: Timeval, b: Timeval) returns (later: bool)
    requires a.Normal() && b.Normal()
    ensures later <==> a.Micros() > b.Micros()
  {
    later := if a.sec == b.sec then a.usec > b.usec else a.sec > b.sec;
  }

  /** C division: towards zero. */
  function Quotient(a: int, b: int): int
    requires b > 0
  {
    if a >= 0 then a / b else -(-a / b)
  }

  /** inter_maxto: the least time to sleep so far, kept in a buffer of the caller's once there is
      one. */
  method Least(current: Timeval?, buf: Timeval, time: Timeval) returns (r: Timeval)
    requires time.Normal() && (current != null ==> current.Normal() && current != time) && buf != time
    modifies current, buf
    ensures r.Normal() && r == (if current == null then buf else current)
    ensures r.Micros() == if current == null || old(time.Micros()) < old(current.Micros()) then old(time.Micros()) else old(current.Micros())
    ensures time.sec == old(time.sec) && time.usec == old(time.usec)
  {
    if current == null {
      buf.sec, buf.usec := time.sec, time.usec;
      r := buf;
    } else {
      var later := After(current, time);
      if later {
        current.sec, current.usec := time.sec, time.usec;
      }
      r := current;
    }
  }

  /** inter_maxtoabs: the time left until a deadline, never negative, counts towards the least. The
      detour over two seconds keeps the microseconds positive while they are divided. */
  method LeastUntil(current: Timeval?, buf: Timeval, now: Timeval, deadline: Timeval) returns (r: Timeval)
    requires now.Normal() && deadline.Normal() && (current != null ==> current.Normal())
    modifies current, buf
    ensures r.Normal() && r == (if current == null then buf else current)
    ensures var left := old(deadline.Micros() - now.Micros());
      var due := if left > 0 then left else 0;
      r.Micros() == if current == null || due < old(current.Micros()) then due else old(current.Micros())
  {
    var time := new Timeval(deadline.sec - (now.sec + 2), deadline.usec - (now.usec - 2 * MILLION));
    var quotient := Quotient(time.usec, MILLION);
    time.sec := time.sec + quotient;
    time.usec := time.usec - quotient * MILLION;
    if time.sec < 0 {
      time.Clear();
    }
    r := Least(current, buf, time);
  }
}
