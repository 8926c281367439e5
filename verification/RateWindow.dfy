/** One key of the sliding-window rate limiter: the lazily evicted deque, the whole log of
    admissions it stands for, and the bound every window keeps. Times are exact seconds. */
module RateWindow {

  const WINDOW: real := 60.0
  const MIN_WAIT: real := 0.001

  predicate Sorted(s: seq<real>) {
    forall i, j | 0 <= i < j < |s| :: s[i] <= s[j]
  }

  /** Drop expired entries from the front. */
  function Evict(window: seq<real>, now: real): seq<real> {
    if window != [] && window[0] <= now - WINDOW then Evict(window[1..], now) else window
  }

  function WaitFor(head: real, now: real): real {
    if head + WINDOW - now >= MIN_WAIT then head + WINDOW - now else MIN_WAIT
  }

  datatype Verdict = Admitted | Rejected(wait: real)

  function Decide(window: seq<real>, rpm: nat, now: real): Verdict
    requires rpm >= 1
  {
    var kept := Evict(window, now);
    if |kept| >= rpm then Rejected(WaitFor(kept[0], now)) else Admitted
  }

  function After(window: seq<real>, rpm: nat, now: real): seq<real>
    requires rpm >= 1
  {
    var kept := Evict(window, now);
    if |kept| >= rpm then kept else kept + [now]
  }

  // ---- The log the deque stands for ----

  /** Entries in the half-open interval (lo, hi]. */
  function CountIn(log: seq<real>, lo: real, hi: real): nat {
    if log == [] then 0
    else CountIn(log[..|log| - 1], lo, hi) + if lo < log[|log| - 1] <= hi then 1 else 0
  }

  /** At time `now` the deque is a suffix of the log, and what it lacks has expired. */
  predicate Tracks(window: seq<real>, log: seq<real>, now: real) {
    && |window| <= |log| && window == log[|log| - |window|..]
    && Sorted(log)
    && (forall i | 0 <= i < |log| - |window| :: log[i] <= now - WINDOW)
    && (forall i | 0 <= i < |log| :: log[i] <= now)
  }

  lemma {:induction false} EvictTracks(window: seq<real>, log: seq<real>, before: real, now: real)
    requires Tracks(window, log, before) && before <= now
    ensures Tracks(Evict(window, now), log, now)
    ensures Evict(window, now) != [] ==> Evict(window, now)[0] > now - WINDOW
    decreases |window|
  {
    if window != [] && window[0] <= now - WINDOW {
      assert window[1..] == log[|log| - |window| + 1..];
      assert log[|log| - |window|] == window[0];
      EvictTracks(window[1..], log, now, now);
    }
  }

  lemma {:induction false} CountFresh(log: seq<real>, stale: nat, lo: real, hi: real)
    requires stale <= |log| && forall i | 0 <= i < stale :: log[i] <= lo
    ensures CountIn(log, lo, hi) <= |log| - stale
    ensures (forall i | stale <= i < |log| :: lo < log[i] <= hi) ==> CountIn(log, lo, hi) == |log| - stale
    decreases |log|
  {
    if log != [] {
      var front := log[..|log| - 1];
      CountFresh(front, if stale <= |front| then stale else |front|, lo, hi);
    }
  }

  lemma TracksLater(window: seq<real>, log: seq<real>, before: real, now: real)
    requires Tracks(window, log, before) && before <= now
    ensures Tracks(window, log, now)
  {
  }

  lemma TracksAppend(window: seq<real>, log: seq<real>, now: real)
    requires Tracks(window, log, now)
    ensures Tracks(window + [now], log + [now], now)
  {
    assert window + [now] == (log + [now])[|log| - |window|..];
  }

  lemma CountKept(window: seq<real>, log: seq<real>, now: real)
    requires Tracks(window, log, now) && (window != [] ==> window[0] > now - WINDOW)
    ensures |window| == CountIn(log, now - WINDOW, now)
  {
    var stale := |log| - |window|;
    forall i | stale <= i < |log| ensures now - WINDOW < log[i] {
      assert log[stale] == window[0];
    }
    CountFresh(log, stale, now - WINDOW, now);
  }

  /** The deque decides as a limiter would that keeps the whole history and counts the last 60
      seconds; and it goes on standing for the history, whether it admits or rejects. */
  lemma DecidesLikeLog(window: seq<real>, log: seq<real>, rpm: nat, before: real, now: real)
    requires rpm >= 1 && Tracks(window, log, before) && before <= now
    ensures |Evict(window, now)| == CountIn(log, now - WINDOW, now)
    ensures Decide(window, rpm, now).Admitted? <==> CountIn(log, now - WINDOW, now) < rpm
    ensures Tracks(After(window, rpm, now),
                   if Decide(window, rpm, now).Admitted? then log + [now] else log, now)
  {
    var kept := Evict(window, now);
    EvictTracks(window, log, before, now);
    CountKept(kept, log, now);
    TracksAppend(kept, log, now);
  }

  // ---- Whole runs on one key ----

  /** The deque after the requests made at `times`, and which of them were admitted. */
  datatype KeyRun = KeyRun(window: seq<real>, mask: seq<bool>)

  function RunKey(times: seq<real>, rpm: nat): (r: KeyRun)
    requires rpm >= 1
    ensures |r.mask| == |times|
  {
    if times == [] then KeyRun([], [])
    else
      var r, now := RunKey(times[..|times| - 1], rpm), times[|times| - 1];
      KeyRun(After(r.window, rpm, now), r.mask + [Decide(r.window, rpm, now).Admitted?])
  }

  /** The times a policy admits. */
  function Chosen(times: seq<real>, mask: seq<bool>): seq<real>
    requires |times| == |mask|
  {
    if times == [] then []
    else
      var n := |times| - 1;
      Chosen(times[..n], mask[..n]) + if mask[n] then [times[n]] else []
  }

  function Log(times: seq<real>, rpm: nat): seq<real>
    requires rpm >= 1
  {
    Chosen(times, RunKey(times, rpm).mask)
  }

  /** `rpm` admissions later at least a window has passed. */
  predicate Spaced(log: seq<real>, rpm: nat) {
    forall j | 0 <= j && j + rpm < |log| :: log[j] + WINDOW <= log[j + rpm]
  }

  lemma SpacedAppend(log: seq<real>, rpm: nat, now: real)
    requires rpm >= 1 && Spaced(log, rpm) && (|log| >= rpm ==> log[|log| - rpm] + WINDOW <= now)
    ensures Spaced(log + [now], rpm)
  {
  }

  predicate RunOk(r: KeyRun, log: seq<real>, rpm: nat, now: real) {
    |r.window| <= rpm && Spaced(log, rpm) && Tracks(r.window, log, now)
  }

  lemma StepOk(r: KeyRun, log: seq<real>, rpm: nat, before: real, now: real, mask: seq<bool>)
    requires rpm >= 1 && RunOk(r, log, rpm, before) && before <= now
    ensures RunOk(KeyRun(After(r.window, rpm, now), mask),
                  if Decide(r.window, rpm, now).Admitted? then log + [now] else log, rpm, now)
  {
    var kept := Evict(r.window, now);
    EvictTracks(r.window, log, before, now);
    EvictShorter(r.window, now);
    DecidesLikeLog(r.window, log, rpm, before, now);
    if |kept| < rpm {
      SpacedAppend(log, rpm, now);
    }
  }

  lemma {:induction false} RunTracks(times: seq<real>, rpm: nat, now: real)
    requires rpm >= 1 && Sorted(times) && (times == [] || times[|times| - 1] <= now)
    ensures RunOk(RunKey(times, rpm), Log(times, rpm), rpm, now)
    decreases |times|
  {
    if times != [] {
      var n := |times| - 1;
      var r := RunKey(times[..n], rpm);
      RunTracks(times[..n], rpm, times[n]);
      assert RunKey(times, rpm).mask[..n] == r.mask;
      StepOk(r, Log(times[..n], rpm), rpm, times[n], times[n], RunKey(times, rpm).mask);
      assert Log(times[..n], rpm) + [] == Log(times[..n], rpm);
      TracksLater(RunKey(times, rpm).window, Log(times, rpm), times[n], now);
    }
  }

  lemma EvictShorter(window: seq<real>, now: real)
    ensures |Evict(window, now)| <= |window|
  {
  }

  /** Every window of 60 seconds, at any time, holds at most `rpm` entries of a spaced log. */
  lemma SpacedWindow(log: seq<real>, rpm: nat, t: real)
    requires rpm >= 1 && Sorted(log) && Spaced(log, rpm)
    ensures CountIn(log, t - WINDOW, t) <= rpm
    decreases |log|
  {
    if log != [] {
      var last := |log| - 1;
      if log[last] > t {
        assert Spaced(log[..last], rpm);
        SpacedWindow(log[..last], rpm, t);
      } else {
        var stale := if |log| >= rpm then |log| - rpm else 0;
        forall i | 0 <= i < stale ensures log[i] <= t - WINDOW {
          assert log[i] + WINDOW <= log[i + rpm] <= log[last];
        }
        CountFresh(log, stale, t - WINDOW, t);
      }
    }
  }

  /** The limiter's promise: over any run with a monotone clock no interval (t - 60, t] holds more
      than `rpm` admissions, and the deque never grows beyond `rpm`. */
  lemma WindowBound(times: seq<real>, rpm: nat, t: real)
    requires rpm >= 1 && Sorted(times)
    ensures CountIn(Log(times, rpm), t - WINDOW, t) <= rpm
    ensures |RunKey(times, rpm).window| <= rpm
  {
    RunTracks(times, rpm, if times == [] then t else times[|times| - 1]);
    SpacedWindow(Log(times, rpm), rpm, t);
  }

  /** The verdict on one more request is the count over the whole history of admissions. */
  lemma NextVerdict(times: seq<real>, rpm: nat, now: real)
    requires rpm >= 1 && Sorted(times) && (times == [] || times[|times| - 1] <= now)
    ensures Decide(RunKey(times, rpm).window, rpm, now).Admitted?
            <==> CountIn(Log(times, rpm), now - WINDOW, now) < rpm
  {
    RunTracks(times, rpm, now);
    DecidesLikeLog(RunKey(times, rpm).window, Log(times, rpm), rpm, now, now);
  }
}
