/** Tasks that loop in `acquire` on one key: each sleeps for the wait it was told and tries
    again. All of them get in, and by when. */
module RateWaiters {
  import opened RateWindow

  /** `log` is the whole history behind `window`; `sleepers` holds the wake-up time of every task
      still waiting (its arrival, before its first try). */
  datatype Crowd = Crowd(window: seq<real>, log: seq<real>, sleepers: seq<real>, clock: real)

  predicate WakesNext(c: Crowd, j: nat) {
    j < |c.sleepers| && forall i | 0 <= i < |c.sleepers| :: c.sleepers[j] <= c.sleepers[i]
  }

  /** Task `j` wakes on time and tries: it leaves, or sleeps for the wait it is told. */
  function Wake(c: Crowd, rpm: nat, j: nat): Crowd
    requires rpm >= 1 && j < |c.sleepers|
  {
    var now := c.sleepers[j];
    match Decide(c.window, rpm, now)
    case Admitted =>
      Crowd(After(c.window, rpm, now), c.log + [now], c.sleepers[..j] + c.sleepers[j + 1..], now)
    case Rejected(wait) =>
      Crowd(After(c.window, rpm, now), c.log, c.sleepers[j := now + wait], now)
  }

  /** `order` names the task that wakes at each step; ties may be broken any way. */
  predicate Possible(c: Crowd, rpm: nat, order: seq<nat>)
    requires rpm >= 1
    decreases |order|
  {
    order == [] || (WakesNext(c, order[0]) && Possible(Wake(c, rpm, order[0]), rpm, order[1..]))
  }

  function Run(c: Crowd, rpm: nat, order: seq<nat>): Crowd
    requires rpm >= 1 && Possible(c, rpm, order)
    decreases |order|
  {
    if order == [] then c else Run(Wake(c, rpm, order[0]), rpm, order[1..])
  }

  /** `log[|log| - rpm]` has to expire before the next admission. */
  function Expiry(log: seq<real>, rpm: nat): real
    requires 1 <= rpm <= |log|
  {
    log[|log| - rpm] + WINDOW
  }

  predicate OnGrid(x: real) {
    (x * 1000.0).Floor as real == x * 1000.0
  }

  predicate AllOnGrid(s: seq<real>) {
    forall i | 0 <= i < |s| :: OnGrid(s[i])
  }

  /** The wait was not stretched: if task `j` is rejected, at least 1 ms is left until its slot frees up. */
  predicate Unfloored(c: Crowd, rpm: nat, j: nat)
    requires rpm >= 1 && j < |c.sleepers|
  {
    var now := c.sleepers[j];
    Decide(c.window, rpm, now).Rejected? ==> Evict(c.window, now)[0] + WINDOW - now >= MIN_WAIT
  }

  /** The 1 ms floor never took effect in the run. */
  predicate NeverFloored(c: Crowd, rpm: nat, order: seq<nat>)
    requires rpm >= 1 && Possible(c, rpm, order)
    decreases |order|
  {
    order == [] || (Unfloored(c, rpm, order[0]) && NeverFloored(Wake(c, rpm, order[0]), rpm, order[1..]))
  }

  /** How late a task may wake after a slot frees up. */
  function Slack(c: Crowd, rpm: nat, order: seq<nat>): real
    requires rpm >= 1 && Possible(c, rpm, order)
  {
    if NeverFloored(c, rpm, order) then 0.0 else MIN_WAIT
  }

  predicate WindowOk(c: Crowd, rpm: nat) {
    && Tracks(c.window, c.log, c.clock) && |c.window| <= rpm
    && forall i | 0 <= i < |c.sleepers| :: c.clock <= c.sleepers[i]
  }

  /** No task sleeps on past the moment a slot is free for it. */
  predicate SleepOk(log: seq<real>, sleepers: seq<real>, rpm: nat, last: real, slack: real)
    requires rpm >= 1
  {
    forall i | 0 <= i < |sleepers| ::
      sleepers[i] <= last || (rpm <= |log| && sleepers[i] <= Expiry(log, rpm) + slack)
  }

  /** Admission `n` took a slot when it was free, and if after `last`, at once. */
  predicate InTime(log: seq<real>, rpm: nat, n: nat, last: real, slack: real)
    requires n < |log|
  {
    && (log[n] <= last || (rpm <= n && log[n] <= log[n - rpm] + WINDOW + slack))
    && (rpm <= n ==> log[n - rpm] + WINDOW <= log[n])
  }

  predicate PastOk(log: seq<real>, rpm: nat, base: nat, last: real, slack: real) {
    && base <= |log| && (forall i | 0 <= i < base :: log[i] <= last)
    && (forall n: nat | base <= n < |log| :: InTime(log, rpm, n, last, slack))
  }

  /** The first `base` admissions and the last arrival are fixed by the start. */
  predicate Inv(c: Crowd, rpm: nat, base: nat, last: real, slack: real) {
    && 1 <= rpm && WindowOk(c, rpm)
    && SleepOk(c.log, c.sleepers, rpm, last, slack)
    && PastOk(c.log, rpm, base, last, slack)
  }

  lemma GridWait(head: real, now: real)
    requires OnGrid(head) && OnGrid(now) && head + WINDOW > now
    ensures WaitFor(head, now) == head + WINDOW - now && OnGrid(now + WaitFor(head, now))
  {
    var h, n := (head * 1000.0).Floor, (now * 1000.0).Floor;
    assert (h + 60000) as real == (head + WINDOW) * 1000.0;
    assert ((head + WINDOW) * 1000.0).Floor == h + 60000;
    assert h + 60000 >= n + 1;
  }

  /** The deque, when it rejects, is exactly the last `rpm` admissions. */
  lemma RejectingHead(c: Crowd, rpm: nat, now: real)
    requires rpm >= 1 && Tracks(c.window, c.log, c.clock) && |c.window| <= rpm && c.clock <= now
    requires Decide(c.window, rpm, now).Rejected?
    ensures rpm <= |c.log| && Decide(c.window, rpm, now).wait == WaitFor(c.log[|c.log| - rpm], now)
    ensures now < Expiry(c.log, rpm)
  {
    EvictTracks(c.window, c.log, c.clock, now);
    EvictShorter(c.window, now);
    assert Evict(c.window, now)[0] == c.log[|c.log| - rpm];
  }

  lemma WakeKeepsSleepers(c: Crowd, rpm: nat, j: nat)
    requires rpm >= 1 && WakesNext(c, j)
    ensures var d := Wake(c, rpm, j); forall i | 0 <= i < |d.sleepers| :: c.sleepers[j] == d.clock <= d.sleepers[i]
  {
  }

  lemma WakeKeepsWindow(c: Crowd, rpm: nat, j: nat)
    requires rpm >= 1 && WindowOk(c, rpm) && WakesNext(c, j)
    ensures WindowOk(Wake(c, rpm, j), rpm)
  {
    var now := c.sleepers[j];
    DecidesLikeLog(c.window, c.log, rpm, c.clock, now);
    EvictShorter(c.window, now);
    WakeKeepsSleepers(c, rpm, j);
    assert Wake(c, rpm, j).window == After(c.window, rpm, now);
  }

  /** A rejected task wakes at the head's expiry, and not later, if and only if at least 1 ms was left
      until then; otherwise it wakes 1 ms after it tried, up to 1 ms late. */
  lemma WakesByExpiryIff(c: Crowd, rpm: nat, j: nat)
    requires rpm >= 1 && WindowOk(c, rpm) && WakesNext(c, j) && Decide(c.window, rpm, c.sleepers[j]).Rejected?
    ensures rpm <= |c.log| && c.sleepers[j] < Expiry(c.log, rpm)
    ensures var wake := Wake(c, rpm, j).sleepers[j];
            && (wake <= Expiry(c.log, rpm) <==> Expiry(c.log, rpm) - c.sleepers[j] >= MIN_WAIT)
            && (wake <= Expiry(c.log, rpm) <==> Unfloored(c, rpm, j))
            && Expiry(c.log, rpm) <= wake < Expiry(c.log, rpm) + MIN_WAIT
  {
    RejectingHead(c, rpm, c.sleepers[j]);
  }

  lemma Rejecting(c: Crowd, rpm: nat, base: nat, last: real, slack: real, j: nat)
    requires Inv(c, rpm, base, last, slack) && WakesNext(c, j)
    requires Decide(c.window, rpm, c.sleepers[j]).Rejected?
    requires slack == MIN_WAIT || (slack == 0.0 && Unfloored(c, rpm, j))
    ensures Inv(Wake(c, rpm, j), rpm, base, last, slack)
  {
    WakesByExpiryIff(c, rpm, j);
    WakeKeepsWindow(c, rpm, j);
  }

  lemma SleepAppend(log: seq<real>, sleepers: seq<real>, rpm: nat, last: real, slack: real, now: real)
    requires rpm >= 1 && SleepOk(log, sleepers, rpm, last, slack) && Sorted(log + [now])
    ensures SleepOk(log + [now], sleepers, rpm, last, slack)
  {
    if rpm <= |log| {
      assert Expiry(log, rpm) <= Expiry(log + [now], rpm) by {
        var l := log + [now];
        assert l[|log| - rpm] <= l[|log| + 1 - rpm];
      }
    }
  }

  lemma PastAppend(log: seq<real>, rpm: nat, base: nat, last: real, slack: real, now: real)
    requires rpm >= 1 && PastOk(log, rpm, base, last, slack)
    requires now <= last || (1 <= rpm <= |log| && now <= Expiry(log, rpm) + slack)
    requires 1 <= rpm <= |log| ==> Expiry(log, rpm) <= now
    ensures PastOk(log + [now], rpm, base, last, slack)
  {
    forall n: nat | base <= n < |log + [now]| ensures InTime(log + [now], rpm, n, last, slack) {
      if n < |log| {
        assert InTime(log, rpm, n, last, slack);
      }
    }
  }

  /** A slot is taken only after the admission `rpm` places back has expired. */
  lemma AdmittedAfterExpiry(c: Crowd, rpm: nat, now: real)
    requires 1 <= rpm <= |c.log| && Tracks(c.window, c.log, c.clock) && c.clock <= now
    requires Decide(c.window, rpm, now).Admitted?
    ensures Expiry(c.log, rpm) <= now
  {
    EvictTracks(c.window, c.log, c.clock, now);
  }

  lemma Admitting(c: Crowd, rpm: nat, base: nat, last: real, slack: real, j: nat)
    requires Inv(c, rpm, base, last, slack) && WakesNext(c, j)
    requires Decide(c.window, rpm, c.sleepers[j]).Admitted?
    ensures Inv(Wake(c, rpm, j), rpm, base, last, slack)
  {
    var now := c.sleepers[j];
    WakeKeepsWindow(c, rpm, j);
    SleepAppend(c.log, c.sleepers, rpm, last, slack, now);
    if rpm <= |c.log| {
      AdmittedAfterExpiry(c, rpm, now);
    }
    PastAppend(c.log, rpm, base, last, slack, now);
  }

  /** A task that sleeps until the expiry is admitted when it wakes. */
  predicate Ready(c: Crowd, rpm: nat, i: nat)
    requires i < |c.sleepers|
  {
    1 <= rpm <= |c.log| && Expiry(c.log, rpm) <= c.sleepers[i]
  }

  lemma ExpiredUpTo(log: seq<real>, k: nat, now: real)
    requires Sorted(log) && k < |log| && log[k] + WINDOW <= now
    ensures forall i | 0 <= i < k + 1 :: log[i] <= now - WINDOW
  {
  }

  lemma ReadyIsAdmitted(window: seq<real>, log: seq<real>, rpm: nat, clock: real, now: real)
    requires Tracks(window, log, clock) && clock <= now
    requires 1 <= rpm <= |log| && Expiry(log, rpm) <= now
    ensures Decide(window, rpm, now).Admitted?
  {
    assert CountIn(log, now - WINDOW, now) < rpm by {
      ExpiredUpTo(log, |log| - rpm, now);
      CountFresh(log, |log| - rpm + 1, now - WINDOW, now);
    }
    DecidesLikeLog(window, log, rpm, clock, now);
  }

  function Unready(c: Crowd, rpm: nat): set<nat> {
    set i: nat | i < |c.sleepers| && !Ready(c, rpm, i)
  }

  /** Steps that can still happen. */
  function Budget(c: Crowd, rpm: nat): nat {
    |c.sleepers| * (|c.sleepers| + 1) + |Unready(c, rpm)|
  }

  lemma IndexSetSize(s: set<nat>, n: nat)
    requires forall i | i in s :: i < n
    ensures |s| <= n
    decreases n
  {
    if n > 0 {
      IndexSetSize(s - {n - 1}, n - 1);
    } else {
      assert s == {};
    }
  }

  lemma BudgetBound(c: Crowd, rpm: nat)
    ensures Budget(c, rpm) <= |c.sleepers| * (|c.sleepers| + 2)
  {
    var n := |c.sleepers|;
    IndexSetSize(Unready(c, rpm), n);
    assert n * (n + 1) + n == n * (n + 2);
  }

  lemma AdmittingShrinks(c: Crowd, rpm: nat, j: nat)
    requires rpm >= 1 && j < |c.sleepers| && Decide(c.window, rpm, c.sleepers[j]).Admitted?
    ensures Budget(Wake(c, rpm, j), rpm) < Budget(c, rpm)
  {
    var d, n := Wake(c, rpm, j), |c.sleepers|;
    IndexSetSize(Unready(d, rpm), n - 1);
    assert (n - 1) * n + (n - 1) < n * (n + 1);
  }

  /** A rejected task sleeps until it is ready, and no other changes. */
  lemma RejectingShrinks(c: Crowd, rpm: nat, j: nat)
    requires rpm >= 1 && j < |c.sleepers| && Decide(c.window, rpm, c.sleepers[j]).Rejected?
    requires !Ready(c, rpm, j) && rpm <= |c.log| && Wake(c, rpm, j).sleepers[j] >= Expiry(c.log, rpm)
    ensures Budget(Wake(c, rpm, j), rpm) < Budget(c, rpm)
  {
    var d := Wake(c, rpm, j);
    assert Unready(d, rpm) == Unready(c, rpm) - {j};
  }

  lemma BudgetShrinks(c: Crowd, rpm: nat, j: nat)
    requires rpm >= 1 && WindowOk(c, rpm) && WakesNext(c, j)
    ensures Budget(Wake(c, rpm, j), rpm) < Budget(c, rpm)
  {
    if Decide(c.window, rpm, c.sleepers[j]).Admitted? {
      AdmittingShrinks(c, rpm, j);
    } else {
      if Ready(c, rpm, j) {
        ReadyIsAdmitted(c.window, c.log, rpm, c.clock, c.sleepers[j]);
      }
      WakesByExpiryIff(c, rpm, j);
      RejectingShrinks(c, rpm, j);
    }
  }

  lemma {:induction false} RunKeeps(c: Crowd, rpm: nat, base: nat, last: real, slack: real, order: seq<nat>)
    requires Inv(c, rpm, base, last, slack) && Possible(c, rpm, order)
    requires slack == MIN_WAIT || (slack == 0.0 && NeverFloored(c, rpm, order))
    ensures var d := Run(c, rpm, order);
            && Inv(d, rpm, base, last, slack)
            && |order| + Budget(d, rpm) <= Budget(c, rpm)
            && |d.log| + |d.sleepers| == |c.log| + |c.sleepers| && c.log <= d.log
    decreases |order|
  {
    if order != [] {
      var j := order[0];
      if Decide(c.window, rpm, c.sleepers[j]).Admitted? {
        Admitting(c, rpm, base, last, slack, j);
      } else {
        Rejecting(c, rpm, base, last, slack, j);
      }
      BudgetShrinks(c, rpm, j);
      RunKeeps(Wake(c, rpm, j), rpm, base, last, slack, order[1..]);
    }
  }

  /** `r` windows after `last`. */
  function Deadline(last: real, r: nat, slack: real): real {
    if r == 0 then last else Deadline(last, r - 1, slack) + WINDOW + slack
  }

  lemma DeadlineIsProduct(last: real, r: nat, slack: real)
    ensures Deadline(last, r, slack) == last + r as real * (WINDOW + slack)
  {
    if r > 0 {
      DeadlineIsProduct(last, r - 1, slack);
      Distribute((r - 1) as real, WINDOW + slack);
      assert r as real == (r - 1) as real + 1.0;
    }
  }

  lemma Distribute(x: real, y: real)
    ensures (x + 1.0) * y == x * y + y
  {
  }

  lemma DeadlineGrows(last: real, r: nat, slack: real)
    requires slack >= 0.0
    ensures Deadline(last, r, slack) >= last
  {
  }

  lemma {:induction false} AdmittedBy(log: seq<real>, rpm: nat, base: nat, last: real, slack: real, r: nat, k: nat)
    requires rpm >= 1 && slack >= 0.0 && PastOk(log, rpm, base, last, slack)
    requires base + k < |log| && k < r * rpm
    ensures log[base + k] <= Deadline(last, r, slack)
    decreases r
  {
    DeadlineGrows(last, r, slack);
    DeadlineGrows(last, r - 1, slack);
    assert InTime(log, rpm, base + k, last, slack);
    if log[base + k] <= last {
    } else if k < rpm {
      assert log[base + k - rpm] <= last;
    } else {
      assert (r - 1) * rpm == r * rpm - rpm;
      AdmittedBy(log, rpm, base, last, slack, r - 1, k - rpm);
      assert base + k - rpm == base + (k - rpm);
    }
  }

  /** Tasks that arrive between the clock of a tracked window and `last`. */
  predicate Arrived(c: Crowd, rpm: nat, last: real) {
    && rpm >= 1 && WindowOk(c, rpm) && c.clock <= last
    && forall i | 0 <= i < |c.sleepers| :: c.sleepers[i] <= last
  }

  lemma ArrivedInv(c: Crowd, rpm: nat, last: real, slack: real)
    requires Arrived(c, rpm, last)
    ensures Inv(c, rpm, |c.log|, last, slack)
  {
  }

  /** Progress: with N tasks and no other arrivals there are at most N * (N + 2) tries in any wake
      order, somebody can move as long as a task waits, and nobody is lost. */
  lemma WaitersMakeProgress(c: Crowd, rpm: nat, last: real, order: seq<nat>)
    requires Arrived(c, rpm, last) && Possible(c, rpm, order)
    ensures var d, n := Run(c, rpm, order), |c.sleepers|;
            && |order| <= n * (n + 2)
            && (d.sleepers != [] ==> exists j: nat :: WakesNext(d, j))
            && |d.log| == |c.log| + n - |d.sleepers| && c.log <= d.log
  {
    var d, n := Run(c, rpm, order), |c.sleepers|;
    ArrivedInv(c, rpm, last, MIN_WAIT);
    RunKeeps(c, rpm, |c.log|, last, MIN_WAIT, order);
    BudgetBound(c, rpm);
    if d.sleepers != [] {
      SomeoneWakes(d);
    }
  }

  /** At every moment of a run no task that was already rejected sleeps past the expiry of the
      current head by more than the slack; and every slot that frees up after the last arrival is
      taken within the slack, never before it is free. With no floored wait the slack is nothing. */
  lemma NoSlotIdles(c: Crowd, rpm: nat, last: real, order: seq<nat>)
    requires Arrived(c, rpm, last) && Possible(c, rpm, order)
    ensures var d, slack := Run(c, rpm, order), Slack(c, rpm, order);
            forall i | 0 <= i < |d.sleepers| && d.sleepers[i] > last ::
              rpm <= |d.log| && d.sleepers[i] <= Expiry(d.log, rpm) + slack
    ensures var d, slack := Run(c, rpm, order), Slack(c, rpm, order);
            forall n: nat | |c.log| <= n < |d.log| && d.log[n] > last ::
              rpm <= n && d.log[n - rpm] + WINDOW <= d.log[n] <= d.log[n - rpm] + WINDOW + slack
  {
    var slack := Slack(c, rpm, order);
    ArrivedInv(c, rpm, last, slack);
    RunKeeps(c, rpm, |c.log|, last, slack, order);
    var log := Run(c, rpm, order).log;
    assert PastOk(log, rpm, |c.log|, last, slack);
    forall n: nat | |c.log| <= n < |log| && log[n] > last
      ensures rpm <= n && log[n - rpm] + WINDOW <= log[n] <= log[n - rpm] + WINDOW + slack
    {
      assert InTime(log, rpm, n, last, slack);
    }
  }

  /** Of the admissions from `base` on, the first r * rpm lie within r windows of `last`. */
  predicate Within(log: seq<real>, rpm: nat, base: nat, last: real, slack: real, r: nat) {
    forall i | base <= i < |log| && i - base < r * rpm :: log[i] <= last + r as real * (WINDOW + slack)
  }

  /** The first r * rpm tasks let in enter within r windows of the last arrival: 60 seconds each if
      every rejected try had at least 1 ms left, and 60.001 seconds in any case. So N tasks are
      through within ceil(N / rpm) windows. */
  lemma WaitersGetIn(c: Crowd, rpm: nat, last: real, order: seq<nat>, r: nat)
    requires Arrived(c, rpm, last) && Possible(c, rpm, order)
    ensures Within(Run(c, rpm, order).log, rpm, |c.log|, last, Slack(c, rpm, order), r)
  {
    var slack := Slack(c, rpm, order);
    ArrivedInv(c, rpm, last, slack);
    RunKeeps(c, rpm, |c.log|, last, slack, order);
    LogInTime(Run(c, rpm, order).log, rpm, |c.log|, last, slack, r);
  }

  /** The same in seconds, task by task. */
  lemma EntersBy(c: Crowd, rpm: nat, last: real, order: seq<nat>, r: nat, i: nat)
    requires Arrived(c, rpm, last) && Possible(c, rpm, order)
    requires |c.log| <= i < |Run(c, rpm, order).log| && i - |c.log| < r * rpm
    ensures Run(c, rpm, order).log[i] <= last + r as real * 60.001
    ensures NeverFloored(c, rpm, order) ==> Run(c, rpm, order).log[i] <= last + r as real * 60.0
  {
    WaitersGetIn(c, rpm, last, order, r);
  }

  lemma GridStep(c: Crowd, rpm: nat, j: nat)
    requires rpm >= 1 && WindowOk(c, rpm) && WakesNext(c, j) && AllOnGrid(c.log) && AllOnGrid(c.sleepers)
    ensures var d := Wake(c, rpm, j); AllOnGrid(d.log) && AllOnGrid(d.sleepers)
    ensures Unfloored(c, rpm, j)
  {
    var now := c.sleepers[j];
    if Decide(c.window, rpm, now).Rejected? {
      WakesByExpiryIff(c, rpm, j);
      RejectingHead(c, rpm, now);
      GridWait(c.log[|c.log| - rpm], now);
    }
  }

  /** When all times are whole milliseconds no wait is ever floored, so the slack is nothing. */
  lemma {:induction false} GridNeverFloors(c: Crowd, rpm: nat, order: seq<nat>)
    requires rpm >= 1 && WindowOk(c, rpm) && AllOnGrid(c.log) && AllOnGrid(c.sleepers) && Possible(c, rpm, order)
    ensures NeverFloored(c, rpm, order) && Slack(c, rpm, order) == 0.0
    decreases |order|
  {
    if order != [] {
      GridStep(c, rpm, order[0]);
      WakeKeepsWindow(c, rpm, order[0]);
      GridNeverFloors(Wake(c, rpm, order[0]), rpm, order[1..]);
    }
  }

  lemma LogInTime(log: seq<real>, rpm: nat, base: nat, last: real, slack: real, r: nat)
    requires rpm >= 1 && slack >= 0.0 && PastOk(log, rpm, base, last, slack)
    ensures Within(log, rpm, base, last, slack, r)
  {
    DeadlineIsProduct(last, r, slack);
    forall i | base <= i < |log| && i - base < r * rpm ensures log[i] <= Deadline(last, r, slack) {
      AdmittedBy(log, rpm, base, last, slack, r, i - base);
    }
  }

  lemma SomeoneWakes(c: Crowd)
    requires c.sleepers != []
    ensures exists j: nat :: WakesNext(c, j)
    decreases |c.sleepers|
  {
    var n := |c.sleepers| - 1;
    if n == 0 {
      assert WakesNext(c, 0);
    } else {
      var front := c.(sleepers := c.sleepers[..n]);
      SomeoneWakes(front);
      var j: nat :| WakesNext(front, j);
      assert WakesNext(c, if c.sleepers[n] < c.sleepers[j] then n else j);
    }
  }

  lemma EvictPair(a: real, b: real, now: real)
    ensures a > now - WINDOW ==> Evict([a, b], now) == [a, b]
    ensures a <= now - WINDOW < b ==> Evict([a, b], now) == [b]
  {
    assert [a, b][1..] == [b];
  }

  lemma WakeRejected(c: Crowd, j: nat, wait: real)
    requires |c.window| == 2 && j < |c.sleepers| && c.window[0] > c.sleepers[j] - WINDOW
    requires wait == WaitFor(c.window[0], c.sleepers[j])
    ensures Wake(c, 2, j) == Crowd(c.window, c.log, c.sleepers[j := c.sleepers[j] + wait], c.sleepers[j])
  {
    EvictPair(c.window[0], c.window[1], c.sleepers[j]);
  }

  lemma WakeAdmitted(c: Crowd, j: nat)
    requires |c.window| == 2 && j < |c.sleepers| && c.window[0] <= c.sleepers[j] - WINDOW < c.window[1]
    ensures Wake(c, 2, j) == Crowd([c.window[1], c.sleepers[j]], c.log + [c.sleepers[j]],
                                   c.sleepers[..j] + c.sleepers[j + 1..], c.sleepers[j])
  {
    EvictPair(c.window[0], c.window[1], c.sleepers[j]);
    assert c.window == [c.window[0], c.window[1]];
  }

  const EARLY: Crowd := Crowd([-0.0005, 0.0], [-0.0005, 0.0], [0.0, 0.0], 0.0)

  /** In continuous time 60 seconds per round is not enough: with two slots and two tasks the
      1 ms floor makes the second one oversleep past the minute. */
  lemma SixtySecondsIsTooTight()
    ensures exists c, order ::
              && Arrived(c, 2, 0.0) && |c.sleepers| == 2 && Possible(c, 2, order)
              && var d := Run(c, 2, order);
                 d.sleepers == [] && |d.log| == |c.log| + 2 && d.log[|c.log| + 1] > 0.0 + WINDOW
  {
    var order := [0, 1, 0, 0, 0];
    OverTheMinute(order);
  }

  lemma OverTheMinute(o: seq<nat>)
    requires o == [0, 1, 0, 0, 0]
    ensures Arrived(EARLY, 2, 0.0) && Possible(EARLY, 2, o)
    ensures Run(EARLY, 2, o).sleepers == [] && Run(EARLY, 2, o).log == [-0.0005, 0.0, 59.9995, 60.0005]
  {
    var c2 := EarlyStart(o[2..]);
    var c5 := LateFinish(c2, o[2..]);
    assert o == [0, 1] + o[2..];
  }

  lemma RunStep(c: Crowd, rpm: nat, j: nat, rest: seq<nat>)
    requires rpm >= 1 && WakesNext(c, j)
    ensures Possible(c, rpm, [j] + rest) <==> Possible(Wake(c, rpm, j), rpm, rest)
    ensures Possible(c, rpm, [j] + rest) ==> Run(c, rpm, [j] + rest) == Run(Wake(c, rpm, j), rpm, rest)
  {
    assert ([j] + rest)[0] == j && ([j] + rest)[1..] == rest;
  }

  lemma EarlyStart(rest: seq<nat>) returns (c2: Crowd)
    ensures Arrived(EARLY, 2, 0.0)
    ensures c2 == Crowd([-0.0005, 0.0], [-0.0005, 0.0], [59.9995, 59.9995], 0.0)
    ensures Possible(EARLY, 2, [0, 1] + rest) <==> Possible(c2, 2, rest)
    ensures Possible(c2, 2, rest) ==> Run(EARLY, 2, [0, 1] + rest) == Run(c2, 2, rest)
  {
    var c1 := Wake(EARLY, 2, 0);
    WakeRejected(EARLY, 0, 59.9995);
    assert c1 == Crowd([-0.0005, 0.0], [-0.0005, 0.0], [59.9995, 0.0], 0.0);
    c2 := Wake(c1, 2, 1);
    WakeRejected(c1, 1, 59.9995);
    assert [0, 1] + rest == [0] + ([1] + rest);
    RunStep(EARLY, 2, 0, [1] + rest);
    RunStep(c1, 2, 1, rest);
  }

  lemma MiddleStep(c2: Crowd) returns (c3: Crowd)
    requires c2 == Crowd([-0.0005, 0.0], [-0.0005, 0.0], [59.9995, 59.9995], 0.0)
    ensures WakesNext(c2, 0) && c3 == Wake(c2, 2, 0)
    ensures c3 == Crowd([0.0, 59.9995], [-0.0005, 0.0, 59.9995], [59.9995], 59.9995)
  {
    c3 := Wake(c2, 2, 0);
    WakeAdmitted(c2, 0);
  }

  lemma OverSleep(c3: Crowd) returns (c4: Crowd)
    requires c3 == Crowd([0.0, 59.9995], [-0.0005, 0.0, 59.9995], [59.9995], 59.9995)
    ensures WakesNext(c3, 0) && c4 == Wake(c3, 2, 0)
    ensures c4 == Crowd([0.0, 59.9995], [-0.0005, 0.0, 59.9995], [60.0005], 59.9995)
  {
    c4 := Wake(c3, 2, 0);
    WakeRejected(c3, 0, MIN_WAIT);
  }

  lemma LastIn(c4: Crowd) returns (c5: Crowd)
    requires c4 == Crowd([0.0, 59.9995], [-0.0005, 0.0, 59.9995], [60.0005], 59.9995)
    ensures WakesNext(c4, 0) && c5 == Wake(c4, 2, 0)
    ensures c5.sleepers == [] && c5.log == [-0.0005, 0.0, 59.9995, 60.0005]
  {
    c5 := Wake(c4, 2, 0);
    WakeAdmitted(c4, 0);
  }

  lemma LateFinish(c2: Crowd, o: seq<nat>) returns (c5: Crowd)
    requires c2 == Crowd([-0.0005, 0.0], [-0.0005, 0.0], [59.9995, 59.9995], 0.0) && o == [0, 0, 0]
    ensures c5.sleepers == [] && c5.log == [-0.0005, 0.0, 59.9995, 60.0005]
    ensures Possible(c2, 2, o) && Run(c2, 2, o) == c5
  {
    var c3 := MiddleStep(c2);
    var c4 := OverSleep(c3);
    c5 := LastIn(c4);
    RunThree(c2, c3, c4, c5, 2, o);
  }

  lemma RunThree(c2: Crowd, c3: Crowd, c4: Crowd, c5: Crowd, rpm: nat, o: seq<nat>)
    requires rpm >= 1 && o == [0, 0, 0]
    requires WakesNext(c2, 0) && c3 == Wake(c2, rpm, 0) && WakesNext(c3, 0) && c4 == Wake(c3, rpm, 0)
    requires WakesNext(c4, 0) && c5 == Wake(c4, rpm, 0)
    ensures Possible(c2, rpm, o) && Run(c2, rpm, o) == c5
  {
    RunStep(c4, rpm, 0, []);
    RunStep(c3, rpm, 0, [0]);
    RunStep(c2, rpm, 0, [0, 0]);
    assert [0] + [] == [0] && [0] + [0] == [0, 0] && [0] + [0, 0] == [0, 0, 0];
  }
}
