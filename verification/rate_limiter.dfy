/**
  The telemetry rate limiter of main.py: a single timestamp `last_send_time`,
  initially 0, and a write whenever at least `send_interval` has passed since
  it. Time is a real number of seconds.
 */
module RateLimiter {

  const SendInterval: real := 1.0

  datatype Limiter = Limiter(lastSend: real)

  const Initial: Limiter := Limiter(0.0)

  datatype Decision = Decision(write: bool, next: Limiter)

  /** One loop iteration's check at time `now`. */
  function Step(s: Limiter, now: real): (d: Decision)
    ensures d.write <==> now - s.lastSend >= SendInterval
    ensures d.next.lastSend == if d.write then now else s.lastSend
  {
    if now - s.lastSend >= SendInterval then Decision(true, Limiter(now)) else Decision(false, s)
  }

  datatype Trace = Trace(writes: seq<real>, final: Limiter)

  /** The limiter driven by the times of successive iterations; `writes`
      holds the times at which a line went out. */
  function Run(s: Limiter, times: seq<real>): (t: Trace)
    ensures forall w :: w in t.writes ==> w in times
    ensures |t.writes| <= |times|
    ensures |t.writes| > 0 ==> t.writes[0] - s.lastSend >= SendInterval
    ensures forall i :: 0 <= i < |t.writes| - 1 ==> t.writes[i + 1] - t.writes[i] >= SendInterval
    ensures t.final.lastSend == if t.writes == [] then s.lastSend else t.writes[|t.writes| - 1]
    decreases |times|
  {
    if times == [] then Trace([], s)
    else
      var d := Step(s, times[0]);
      var rest := Run(d.next, times[1..]);
      if d.write then Trace([times[0]] + rest.writes, rest.final) else rest
  }

  /** One more iteration at time `t` writes exactly when `t` is at least one
      interval after the last write so far (or the initial state), and then
      becomes the last write: a due iteration always writes. */
  lemma {:induction false} RunSnoc(s: Limiter, times: seq<real>, t: real)
    ensures Run(s, times + [t])
         == if t - Run(s, times).final.lastSend >= SendInterval
            then Trace(Run(s, times).writes + [t], Limiter(t))
            else Run(s, times)
    decreases |times|
  {
    var ts := times + [t];
    if times == [] {
      assert ts[1..] == [];
    } else {
      assert ts[0] == times[0];
      assert ts[1..] == times[1..] + [t];
      RunSnoc(Step(s, times[0]).next, times[1..], t);
      assert forall w: seq<real> :: [times[0]] + (w + [t]) == ([times[0]] + w) + [t];
    }
  }

  /** Any two writes are at least one interval apart per write in between. */
  lemma {:induction false} WritesSpaced(s: Limiter, times: seq<real>, i: nat, j: nat)
    requires i < j < |Run(s, times).writes|
    ensures Run(s, times).writes[j] - Run(s, times).writes[i] >= (j - i) as real * SendInterval
    decreases j - i
  {
    var w := Run(s, times).writes;
    if j > i + 1 {
      WritesSpaced(s, times, i, j - 1);
    }
  }

  /** Calls that all fall within less than one interval of each other produce
      at most one write. */
  lemma BurstWritesAtMostOnce(s: Limiter, times: seq<real>, start: real)
    requires forall k :: 0 <= k < |times| ==> start <= times[k] < start + SendInterval
    ensures |Run(s, times).writes| <= 1
  {
    var w := Run(s, times).writes;
    if |w| >= 2 {
      WritesSpaced(s, times, 0, |w| - 1);
    }
    assert |w| >= 1 ==> w[0] in times && w[|w| - 1] in times;
  }

  /** Clock readings are positive seconds since the epoch, so the first
      iteration at or after time 1 sends. */
  lemma FirstCallWrites(now: real)
    requires now >= SendInterval
    ensures Step(Initial, now).write
  {
  }
}
