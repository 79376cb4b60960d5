/** The clock whose readings never repeat, although several may fall into the same microsecond. */
module SequentialClock {
  import opened Schedule
  import opened Words

  datatype UsecClock = UsecClock(lastTimeUsec: nat, usecSinceLast: nat)

  /** time_usec_sequential; `now` is what time_usec returns. */
  function ReadClock(c: UsecClock, now: nat): (UsecClock, nat) {
    var since :=
      if now == c.lastTimeUsec then c.usecSinceLast
      else
        var diff := U64(now - c.lastTimeUsec);
        if diff >= c.usecSinceLast then 0 else c.usecSinceLast - diff;
    var since' := U64(since + 1);
    (UsecClock(now, since'), U64(now + since'))
  }

  /** The last reading given out. */
  function LastReading(c: UsecClock): nat {
    c.lastTimeUsec + c.usecSinceLast
  }

  /** Each reading is the later of the real time and the last reading, plus one: readings strictly increase. */
  lemma ReadingIsNextFree(c: UsecClock, now: nat)
    requires c.lastTimeUsec <= now && now < MAX_BIT64U && LastReading(c) < MAX_BIT64U
    ensures var (c', r) := ReadClock(c, now);
            && r == 1 + (if now > LastReading(c) then now else LastReading(c))
            && LastReading(c') == r && c'.lastTimeUsec == now
  {
  }

  predicate Ascending(s: seq<nat>) {
    forall i, j :: 0 <= i < j < |s| ==> s[i] <= s[j]
  }

  function Readings(c: UsecClock, nows: seq<nat>): (r: seq<nat>)
    ensures |r| == |nows|
    decreases |nows|
  {
    if nows == [] then []
    else
      var (c', r) := ReadClock(c, nows[0]);
      [r] + Readings(c', nows[1..])
  }

  /** Over any run with a clock that never goes back, no two readings are equal and all are past the real time. */
  lemma {:induction false} ReadingsStrictlyIncrease(c: UsecClock, nows: seq<nat>)
    requires Ascending(nows) && (forall i :: 0 <= i < |nows| ==> c.lastTimeUsec <= nows[i])
    requires forall i :: 0 <= i < |nows| ==> nows[i] + |nows| < MAX_BIT64U
    requires LastReading(c) + |nows| < MAX_BIT64U
    ensures var r := Readings(c, nows);
            && (forall i :: 0 <= i < |r| ==> LastReading(c) < r[i] && nows[i] < r[i])
            && (forall i, j :: 0 <= i < j < |r| ==> r[i] < r[j])
    decreases |nows|
  {
    if nows != [] {
      var (c', x) := ReadClock(c, nows[0]);
      ReadingIsNextFree(c, nows[0]);
      ReadingsStrictlyIncrease(c', nows[1..]);
      var r := Readings(c', nows[1..]);
      assert forall i :: 0 <= i < |r| ==> x < r[i] && nows[1..][i] == nows[i + 1];
    }
  }
}
