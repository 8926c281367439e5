/** The limiter admits as much as any policy can, as early as any policy can; and its retry hint
    is sound and tight. */
module RateOptimal {
  import opened RateWindow

  /** An admission policy on the arrivals `times`: any choice that keeps every window legal. */
  predicate Legal(times: seq<real>, mask: seq<bool>, rpm: nat)
    requires |times| == |mask|
  {
    forall i | 0 <= i < |times| :: CountIn(Chosen(times, mask), times[i] - WINDOW, times[i]) <= rpm
  }

  lemma {:induction false} RunPrefix(times: seq<real>, rpm: nat, m: nat)
    requires rpm >= 1 && m <= |times|
    ensures RunKey(times[..m], rpm).mask == RunKey(times, rpm).mask[..m]
    decreases |times|
  {
    if m < |times| {
      var n := |times| - 1;
      RunPrefix(times[..n], rpm, m);
      assert times[..n][..m] == times[..m];
    } else {
      assert times[..m] == times;
    }
  }

  lemma {:induction false} ChosenPrefix(times: seq<real>, mask: seq<bool>, m: nat)
    requires |times| == |mask| && m <= |times|
    ensures Chosen(times[..m], mask[..m]) <= Chosen(times, mask)
    ensures |Chosen(times, mask)| <= |Chosen(times[..m], mask[..m])| + |times| - m
    decreases |times|
  {
    var n := |times| - 1;
    if m <= n {
      ChosenPrefix(times[..n], mask[..n], m);
      assert times[..n][..m] == times[..m] && mask[..n][..m] == mask[..m];
    } else {
      assert times[..m] == times && mask[..m] == mask;
    }
  }

  lemma {:induction false} ChosenFrom(times: seq<real>, mask: seq<bool>, i: nat)
    requires |times| == |mask| && i < |Chosen(times, mask)|
    ensures exists j :: 0 <= j < |times| && times[j] == Chosen(times, mask)[i]
    decreases |times|
  {
    var n := |times| - 1;
    if i < |Chosen(times[..n], mask[..n])| {
      ChosenFrom(times[..n], mask[..n], i);
      var j :| 0 <= j < n && times[..n][j] == Chosen(times[..n], mask[..n])[i];
      assert times[j] == Chosen(times, mask)[i];
    } else {
      assert times[n] == Chosen(times, mask)[i];
    }
  }

  /** Of the arrivals up to `t`, those of the last window are the ones after position `p`. */
  lemma {:induction false} ChosenSplit(times: seq<real>, mask: seq<bool>, p: nat, t: real)
    requires |times| == |mask| && p <= |times|
    requires forall i | 0 <= i < p :: times[i] <= t - WINDOW
    requires forall i | p <= i < |times| :: t - WINDOW < times[i] <= t
    ensures CountIn(Chosen(times, mask), t - WINDOW, t)
            == |Chosen(times, mask)| - |Chosen(times[..p], mask[..p])|
    decreases |times|
  {
    var n := |times| - 1;
    var log := Chosen(times, mask);
    if p == |times| {
      assert times[..p] == times && mask[..p] == mask;
      forall i | 0 <= i < |log| ensures log[i] <= t - WINDOW {
        ChosenFrom(times, mask, i);
      }
      CountFresh(log, |log|, t - WINDOW, t);
    } else {
      ChosenSplit(times[..n], mask[..n], p, t);
      assert times[..n][..p] == times[..p] && mask[..n][..p] == mask[..p];
      var front := Chosen(times[..n], mask[..n]);
      if mask[n] {
        assert log[..|log| - 1] == front;
      } else {
        assert log == front;
      }
    }
  }

  /** How many of the arrivals have expired at `t`. */
  function Expired(times: seq<real>, t: real): (p: nat)
    ensures p <= |times|
    decreases |times|
  {
    if times == [] then 0
    else if times[|times| - 1] <= t - WINDOW then |times|
    else Expired(times[..|times| - 1], t)
  }

  lemma {:induction false} ExpiredSplits(times: seq<real>, t: real)
    requires Sorted(times)
    ensures forall i | 0 <= i < Expired(times, t) :: times[i] <= t - WINDOW
    ensures forall i | Expired(times, t) <= i < |times| :: t - WINDOW < times[i]
    decreases |times|
  {
    if times != [] && times[|times| - 1] > t - WINDOW {
      var front := times[..|times| - 1];
      ExpiredSplits(front, t);
      assert Expired(times, t) == Expired(front, t);
      assert forall i | 0 <= i < |front| :: front[i] == times[i];
    }
  }

  lemma LegalPrefix(times: seq<real>, mask: seq<bool>, rpm: nat, m: nat)
    requires |times| == |mask| && m <= |times| && Legal(times, mask, rpm)
    ensures Legal(times[..m], mask[..m], rpm)
  {
    ChosenPrefix(times, mask, m);
    var part := Chosen(times[..m], mask[..m]);
    assert Chosen(times, mask)[..|part|] == part;
    forall i | 0 <= i < m
      ensures CountIn(Chosen(times[..m], mask[..m]), times[i] - WINDOW, times[i]) <= rpm
    {
      CountPrefix(Chosen(times, mask), |part|, times[i] - WINDOW, times[i]);
    }
  }

  lemma CountPrefix(log: seq<real>, m: nat, lo: real, hi: real)
    requires m <= |log|
    ensures CountIn(log[..m], lo, hi) <= CountIn(log, lo, hi)
    decreases |log|
  {
    if m < |log| {
      CountPrefix(log[..|log| - 1], m, lo, hi);
      assert log[..|log| - 1][..m] == log[..m];
    } else {
      assert log[..m] == log;
    }
  }

  lemma RejectionIsFull(times: seq<real>, rpm: nat)
    requires rpm >= 1 && Sorted(times) && times != [] && !RunKey(times, rpm).mask[|times| - 1]
    ensures var t := times[|times| - 1]; CountIn(Log(times, rpm), t - WINDOW, t) >= rpm
  {
    var n := |times| - 1;
    assert RunKey(times, rpm).mask[..n] == RunKey(times[..n], rpm).mask;
    assert Log(times, rpm) == Log(times[..n], rpm);
    NextVerdict(times[..n], rpm, times[n]);
  }

  lemma LogSplit(times: seq<real>, rpm: nat, p: nat, t: real)
    requires rpm >= 1 && p <= |times|
    requires forall i | 0 <= i < p :: times[i] <= t - WINDOW
    requires forall i | p <= i < |times| :: t - WINDOW < times[i] <= t
    ensures CountIn(Log(times, rpm), t - WINDOW, t) == |Log(times, rpm)| - |Log(times[..p], rpm)|
  {
    ChosenSplit(times, RunKey(times, rpm).mask, p, t);
    RunPrefix(times, rpm, p);
  }

  /** When the limiter rejects, its last window is full: since the moment `p` it has admitted
      `rpm` requests, and no legal policy can have admitted more. */
  lemma FullWindow(times: seq<real>, mask: seq<bool>, rpm: nat)
    requires rpm >= 1 && Sorted(times) && |times| == |mask| && Legal(times, mask, rpm) && times != []
    requires !RunKey(times, rpm).mask[|times| - 1]
    ensures var p := Expired(times, times[|times| - 1]);
            && p < |times|
            && |Chosen(times, mask)| - |Chosen(times[..p], mask[..p])| <= rpm
            && rpm <= |Log(times, rpm)| - |Log(times[..p], rpm)|
  {
    var t := times[|times| - 1];
    var p := Expired(times, t);
    ExpiredSplits(times, t);
    assert p <= |times| - 1;
    LimiterSince(times, rpm, p, t);
    PolicySince(times, mask, rpm, p, t);
  }

  lemma LimiterSince(times: seq<real>, rpm: nat, p: nat, t: real)
    requires rpm >= 1 && Sorted(times) && times != [] && t == times[|times| - 1]
    requires !RunKey(times, rpm).mask[|times| - 1] && p <= |times|
    requires forall i | 0 <= i < p :: times[i] <= t - WINDOW
    requires forall i | p <= i < |times| :: t - WINDOW < times[i] <= t
    ensures rpm <= |Log(times, rpm)| - |Log(times[..p], rpm)|
  {
    RejectionIsFull(times, rpm);
    LogSplit(times, rpm, p, t);
  }

  lemma PolicySince(times: seq<real>, mask: seq<bool>, rpm: nat, p: nat, t: real)
    requires |times| == |mask| && times != [] && t == times[|times| - 1] && Legal(times, mask, rpm) && p <= |times|
    requires forall i | 0 <= i < p :: times[i] <= t - WINDOW
    requires forall i | p <= i < |times| :: t - WINDOW < times[i] <= t
    ensures |Chosen(times, mask)| - |Chosen(times[..p], mask[..p])| <= rpm
  {
    ChosenSplit(times, mask, p, t);
  }

  /** Greedy is optimal: no policy that keeps every 60 second window at or below `rpm` has
      admitted more of the arrivals than the limiter, at any moment. */
  lemma {:induction false} NoPolicyAdmitsMore(times: seq<real>, mask: seq<bool>, rpm: nat)
    requires rpm >= 1 && Sorted(times) && |times| == |mask| && Legal(times, mask, rpm)
    ensures |Chosen(times, mask)| <= |Log(times, rpm)|
    decreases |times|
  {
    if times != [] {
      var n := |times| - 1;
      if RunKey(times, rpm).mask[n] {
        assert RunKey(times, rpm).mask[..n] == RunKey(times[..n], rpm).mask;
        LegalPrefix(times, mask, rpm, n);
        NoPolicyAdmitsMore(times[..n], mask[..n], rpm);
      } else {
        var p := Expired(times, times[n]);
        FullWindow(times, mask, rpm);
        LegalPrefix(times, mask, rpm, p);
        NoPolicyAdmitsMore(times[..p], mask[..p], rpm);
      }
    }
  }

  /** And the k-th admission of the limiter is never later than the k-th of the other policy. */
  lemma {:induction false} NoPolicyIsEarlier(times: seq<real>, mask: seq<bool>, rpm: nat, k: nat)
    requires rpm >= 1 && Sorted(times) && |times| == |mask| && Legal(times, mask, rpm)
    requires k < |Chosen(times, mask)|
    ensures k < |Log(times, rpm)| && Log(times, rpm)[k] <= Chosen(times, mask)[k]
    decreases |times|
  {
    var n := |times| - 1;
    NoPolicyAdmitsMore(times, mask, rpm);
    if k < |Chosen(times[..n], mask[..n])| {
      LegalPrefix(times, mask, rpm, n);
      NoPolicyIsEarlier(times[..n], mask[..n], rpm, k);
      RunPrefix(times, rpm, n);
      ChosenPrefix(times, RunKey(times, rpm).mask, n);
    } else {
      RunTracks(times, rpm, times[n]);
    }
  }

  /** The limiter's own choices are legal, so the comparison is with its peers. */
  lemma LimiterIsLegal(times: seq<real>, rpm: nat)
    requires rpm >= 1 && Sorted(times)
    ensures Legal(times, RunKey(times, rpm).mask, rpm)
  {
    forall i | 0 <= i < |times|
      ensures CountIn(Log(times, rpm), times[i] - WINDOW, times[i]) <= rpm
    {
      WindowBound(times, rpm, times[i]);
    }
  }

  // ---- The retry hint ----

  lemma {:induction false} EvictTwice(window: seq<real>, before: real, now: real)
    requires before <= now
    ensures Evict(Evict(window, before), now) == Evict(window, now)
    decreases |window|
  {
    if window != [] && window[0] <= before - WINDOW {
      EvictTwice(window[1..], before, now);
    }
  }

  /** After a rejection: with no competitor a retry is admitted once the hinted wait is over, and
      every earlier retry is rejected exactly when the head had at least 1 ms left, that is,
      unless the 1 ms floor stretched the wait. The rejected request itself leaves no trace: any
      later decision is as if it had not been made. */
  lemma RetryHint(window: seq<real>, log: seq<real>, rpm: nat, now: real)
    requires rpm >= 1 && Tracks(window, log, now) && |window| <= rpm && Decide(window, rpm, now).Rejected?
    ensures var wait, kept := Decide(window, rpm, now).wait, After(window, rpm, now);
            && wait > 0.0
            && (forall later | later >= now + wait :: Decide(kept, rpm, later).Admitted?)
            && ((forall early | now <= early < now + wait :: Decide(kept, rpm, early).Rejected?)
                <==> kept[0] + WINDOW - now >= MIN_WAIT)
            && (forall later | later >= now :: Decide(kept, rpm, later) == Decide(window, rpm, later)
                                              && After(kept, rpm, later) == After(window, rpm, later))
  {
    var kept, wait := Evict(window, now), Decide(window, rpm, now).wait;
    EvictTracks(window, log, now, now);
    EvictShorter(window, now);
    forall later | later >= now
      ensures Evict(kept, later) == Evict(window, later)
      ensures later >= kept[0] + WINDOW ==> |Evict(kept, later)| < rpm
    {
      EvictTwice(window, now, later);
      EvictShorter(kept[1..], later);
    }
    if kept[0] + WINDOW - now < MIN_WAIT {
      var early := kept[0] + WINDOW;
      assert now <= early < now + wait && Decide(kept, rpm, early).Admitted?;
    }
  }

  /** `min(60, max(1, ceil(wait)))` */
  function RetryAfter(wait: real): int {
    var ceil := -((-wait).Floor);
    var atLeast := if ceil > 1 then ceil else 1;
    if atLeast < 60 then atLeast else 60
  }

  /** The advertised Retry-After lies in 1..60 and covers the wait: in exact arithmetic the
      minimum with 60 never cuts anything off. */
  lemma RetryAfterCovers(window: seq<real>, log: seq<real>, rpm: nat, now: real)
    requires rpm >= 1 && Tracks(window, log, now) && Decide(window, rpm, now).Rejected?
    ensures var wait := Decide(window, rpm, now).wait;
            && 1 <= RetryAfter(wait) <= 60
            && wait <= RetryAfter(wait) as real < (if wait < 1.0 then 1.0 else wait) + 1.0
  {
    var kept, wait := Evict(window, now), Decide(window, rpm, now).wait;
    EvictTracks(window, log, now, now);
    assert kept[0] == log[|log| - |kept|];
    assert wait <= 60.0;
    var f := (-wait).Floor;
    assert f as real <= -wait < f as real + 1.0;
    assert -60 <= f by {
      assert f as real + 1.0 > -60.0;
    }
  }
}
