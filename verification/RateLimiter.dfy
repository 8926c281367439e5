/** The limiter object: one deque per key, changed in place. */
module RateLimiter {
  import opened Wrappers
  import opened RateWindow
  import RateOptimal

  type Windows = map<string, seq<real>>

  /** A key never seen has an empty deque. */
  function WindowOf(windows: Windows, key: string): seq<real> {
    if key in windows then windows[key] else []
  }

  datatype Limits = Limits(defaultRpm: nat, sessionRpm: nat)

  function RpmFor(limits: Limits, key: string): nat {
    if "user:" <= key then limits.sessionRpm else limits.defaultRpm
  }

  predicate LimitsOk(limits: Limits) {
    limits.defaultRpm >= 1 && limits.sessionRpm >= 1
  }

  const DEFAULT_SESSION_RPM: nat := 600

  // ---- Calls of other tasks ----

  datatype Call = Call(key: string, rpm: nat, now: real)

  predicate Positive(calls: seq<Call>) {
    forall k | 0 <= k < |calls| :: calls[k].rpm >= 1
  }

  predicate AllPositive(others: seq<seq<Call>>) {
    forall k | 0 <= k < |others| :: Positive(others[k])
  }

  /** All deques after the calls, whatever they are answered. */
  function Called(windows: Windows, calls: seq<Call>): Windows
    requires Positive(calls)
    decreases |calls|
  {
    if calls == [] then windows
    else
      var c := calls[0];
      Called(windows[c.key := After(WindowOf(windows, c.key), c.rpm, c.now)], calls[1..])
  }

  /** A task waits on `key` from `now` on; `others[k]` are the calls of other tasks during its k-th
      sleep, on this key or any other, and after that it is alone. It is let in at `at`, at the first
      of its tries that finds a slot, and leaves the deques as `end`. */
  predicate Waited(windows: Windows, key: string, rpm: nat, now: real, others: seq<seq<Call>>, at: real, end: Windows)
    requires rpm >= 1 && AllPositive(others)
    decreases |others|
  {
    var window := WindowOf(windows, key);
    match Decide(window, rpm, now)
    case Admitted => at == now && end == windows[key := After(window, rpm, now)]
    case Rejected(wait) =>
      if others == [] then
        at > now && Decide(window, rpm, at).Admitted? && end == windows[key := After(window, rpm, at)]
      else
        Waited(Called(windows[key := After(window, rpm, now)], others[0]), key, rpm, now + wait, others[1..], at, end)
  }

  lemma {:induction false} CalledAppend(windows: Windows, a: seq<Call>, b: seq<Call>)
    requires Positive(a) && Positive(b)
    ensures Positive(a + b) && Called(windows, a + b) == Called(Called(windows, a), b)
    decreases |a|
  {
    if a == [] {
      assert a + b == b;
    } else {
      assert (a + b)[1..] == a[1..] + b;
      CalledAppend(windows[a[0].key := After(WindowOf(windows, a[0].key), a[0].rpm, a[0].now)], a[1..], b);
    }
  }

  lemma OneCall(windows: Windows, c: Call)
    requires c.rpm >= 1
    ensures Called(windows, [c]) == windows[c.key := After(WindowOf(windows, c.key), c.rpm, c.now)]
  {
    assert [c][1..] == [];
  }

  /** Waiting is nothing but a sequence of calls, the task's own tries among those of the others; the
      last is the one that lets it in. So what holds of all sequences of calls holds of waiting tasks. */
  lemma {:induction false} WaitedIsTraffic(windows: Windows, key: string, rpm: nat, now: real, others: seq<seq<Call>>,
                                           at: real, end: Windows) returns (calls: seq<Call>)
    requires rpm >= 1 && AllPositive(others) && Waited(windows, key, rpm, now, others, at, end)
    ensures Positive(calls) && calls != [] && calls[|calls| - 1] == Call(key, rpm, at)
    ensures end == Called(windows, calls)
    ensures var before := Called(windows, calls[..|calls| - 1]); Decide(WindowOf(before, key), rpm, at).Admitted?
    decreases |others|
  {
    if Decide(WindowOf(windows, key), rpm, now).Admitted? || others == [] {
      calls := [Call(key, rpm, at)];
      OneCall(windows, calls[0]);
      assert calls[..0] == [];
    } else {
      var own, wait := [Call(key, rpm, now)], Decide(WindowOf(windows, key), rpm, now).wait;
      var next := Called(windows, own + others[0]);
      OneCall(windows, own[0]);
      CalledAppend(windows, own, others[0]);
      var rest := WaitedIsTraffic(next, key, rpm, now + wait, others[1..], at, end);
      calls := own + others[0] + rest;
      CalledAppend(windows, own + others[0], rest);
      CalledAppend(windows, own + others[0], rest[..|rest| - 1]);
      assert calls[..|calls| - 1] == own + others[0] + rest[..|rest| - 1];
    }
  }

  datatype Reply = Pass(at: real) | TooMany(limit: nat, retryAfter: int)

  class RateLimiter {
    const limits: Limits
    var windows: Windows

    constructor (requestsPerMinute: int, sessionRpmPerUser: Option<int>, configuredSessionRpm: int)
      ensures LimitsOk(limits) && windows == map[]
      ensures limits.defaultRpm == if requestsPerMinute >= 1 then requestsPerMinute else 1
      ensures var asked := if sessionRpmPerUser.Some? then sessionRpmPerUser.value else configuredSessionRpm;
              limits.sessionRpm == if asked > 0 then asked else 600
    {
      var asked := if sessionRpmPerUser.Some? then sessionRpmPerUser.value else configuredSessionRpm;
      limits := Limits(if requestsPerMinute >= 1 then requestsPerMinute else 1,
                       if asked > 0 then asked else DEFAULT_SESSION_RPM);
      windows := map[];
    }

    /** `None` admits and records; otherwise nothing is recorded and the wait is returned. */
    method TryAcquire(key: string, rpm: nat, now: real) returns (wait: Option<real>)
      requires rpm >= 1
      modifies this
      ensures windows == old(windows)[key := After(WindowOf(old(windows), key), rpm, now)]
      ensures match Decide(WindowOf(old(windows), key), rpm, now)
              case Admitted => wait == None
              case Rejected(w) => wait == Some(w)
    {
      var window := WindowOf(windows, key);
      while window != [] && window[0] <= now - WINDOW
        invariant Evict(window, now) == Evict(WindowOf(old(windows), key), now)
        decreases |window|
      {
        window := window[1..];
      }
      if |window| >= rpm {
        wait := Some(WaitFor(window[0], now));
      } else {
        window := window + [now];
        wait := None;
      }
      windows := windows[key := window];
    }

    /** The tries of a task that is alone: it returns, and has recorded exactly one request, at a
        moment when the original deque admits it. */
    method AcquireAlone(key: string, rpm: nat, start: real) returns (at: real)
      requires rpm >= 1
      modifies this
      ensures at >= start && Decide(WindowOf(old(windows), key), rpm, at).Admitted?
      ensures windows == old(windows)[key := After(WindowOf(old(windows), key), rpm, at)]
      ensures Decide(WindowOf(old(windows), key), rpm, start).Admitted? ==> at == start
    {
      at := start;
      ghost var window := WindowOf(windows, key);
      var wait := TryAcquire(key, rpm, at);
      while wait.Some?
        invariant at >= start && windows == old(windows)[key := After(window, rpm, at)]
        invariant Decide(window, rpm, at) == if wait.None? then Admitted else Rejected(wait.value)
        invariant wait.Some? ==> at + wait.value >= WindowOf(windows, key)[0] + WINDOW && wait.value > 0.0
        invariant Decide(window, rpm, start).Admitted? ==> at == start
        decreases wait.Some?, |WindowOf(windows, key)|
      {
        ghost var before := at;
        RateOptimal.EvictTwice(window, before, before + wait.value);
        EvictShorter(WindowOf(windows, key)[1..], before + wait.value);
        at := at + wait.value;
        wait := TryAcquire(key, rpm, at);
      }
    }

    /** The calls of other tasks, one after the other. */
    method CallEach(calls: seq<Call>)
      requires Positive(calls)
      modifies this
      ensures windows == Called(old(windows), calls)
    {
      for k := 0 to |calls|
        invariant Called(old(windows), calls) == Called(windows, calls[k..])
      {
        var wait := TryAcquire(calls[k].key, calls[k].rpm, calls[k].now);
        assert calls[k..][1..] == calls[k + 1..];
      }
    }

    /** The waiting form: try, and sleep for the wait that is returned, while other tasks go on. */
    method Acquire(key: string, rpm: nat, start: real, others: seq<seq<Call>>) returns (at: real)
      requires rpm >= 1 && AllPositive(others)
      modifies this
      ensures Waited(old(windows), key, rpm, start, others, at, windows)
    {
      at := start;
      var k := 0;
      while k < |others|
        invariant k <= |others|
        invariant forall a, e | Waited(windows, key, rpm, at, others[k..], a, e) ::
                    Waited(old(windows), key, rpm, start, others, a, e)
      {
        assert others[k..][1..] == others[k + 1..];
        var wait := TryAcquire(key, rpm, at);
        if wait.None? {
          return;
        }
        CallEach(others[k]);
        at, k := at + wait.value, k + 1;
      }
      ghost var before, from := windows, at;
      at := AcquireAlone(key, rpm, at);
      assert Waited(before, key, rpm, from, [], at, windows);
    }

    /** A session key is answered at once, with the hint when it is over its limit; any other key
        waits among the `others`. */
    method Dispatch(key: string, now: real, others: seq<seq<Call>>) returns (reply: Reply)
      requires LimitsOk(limits) && AllPositive(others)
      modifies this
      ensures "user:" <= key ==>
                && windows == old(windows)[key := After(WindowOf(old(windows), key), limits.sessionRpm, now)]
                && match Decide(WindowOf(old(windows), key), limits.sessionRpm, now)
                   case Admitted => reply == Pass(now)
                   case Rejected(wait) => reply == TooMany(limits.sessionRpm, RateOptimal.RetryAfter(wait))
      ensures !("user:" <= key) ==>
                reply.Pass? && Waited(old(windows), key, limits.defaultRpm, now, others, reply.at, windows)
    {
      var rpm := RpmFor(limits, key);
      if "user:" <= key {
        var wait := TryAcquire(key, rpm, now);
        if wait.Some? {
          return TooMany(rpm, RateOptimal.RetryAfter(wait.value));
        }
        return Pass(now);
      }
      var at := Acquire(key, rpm, now, others);
      return Pass(at);
    }
  }

  // ---- Many keys ----

  datatype Request = Request(key: string, now: real)

  /** All deques after a sequence of `TryAcquire` calls, and what each call answered. */
  datatype AllRun = AllRun(windows: Windows, admitted: seq<bool>)

  function RunAll(requests: seq<Request>, limits: Limits): (r: AllRun)
    requires LimitsOk(limits)
    ensures |r.admitted| == |requests|
  {
    if requests == [] then AllRun(map[], [])
    else
      var r, q := RunAll(requests[..|requests| - 1], limits), requests[|requests| - 1];
      var window, rpm := WindowOf(r.windows, q.key), RpmFor(limits, q.key);
      AllRun(r.windows[q.key := After(window, rpm, q.now)], r.admitted + [Decide(window, rpm, q.now).Admitted?])
  }

  function TimesOf(requests: seq<Request>, key: string): seq<real> {
    if requests == [] then []
    else
      var n := |requests| - 1;
      TimesOf(requests[..n], key) + if requests[n].key == key then [requests[n].now] else []
  }

  /** The answers to the requests on one key. */
  function AnswersOf(requests: seq<Request>, admitted: seq<bool>, key: string): seq<bool>
    requires |admitted| == |requests|
  {
    if requests == [] then []
    else
      var n := |requests| - 1;
      AnswersOf(requests[..n], admitted[..n], key) + if requests[n].key == key then [admitted[n]] else []
  }

  /** Keys do not interfere: in any run over any keys, one key's deque and answers are those of
      the limiter that only ever saw that key's requests. */
  lemma {:induction false} KeysAreIndependent(requests: seq<Request>, limits: Limits, key: string)
    requires LimitsOk(limits)
    ensures var r := RunAll(requests, limits);
            var alone := RunKey(TimesOf(requests, key), RpmFor(limits, key));
            WindowOf(r.windows, key) == alone.window && AnswersOf(requests, r.admitted, key) == alone.mask
    decreases |requests|
  {
    if requests != [] {
      var n := |requests| - 1;
      var r := RunAll(requests, limits);
      assert r.admitted[..n] == RunAll(requests[..n], limits).admitted;
      KeysAreIndependent(requests[..n], limits, key);
      if requests[n].key == key {
        var times := TimesOf(requests, key);
        assert times[..|times| - 1] == TimesOf(requests[..n], key);
      } else {
        assert AnswersOf(requests, r.admitted, key) == AnswersOf(requests[..n], r.admitted[..n], key);
        assert TimesOf(requests, key) == TimesOf(requests[..n], key);
      }
    }
  }

  function CallsOf(requests: seq<Request>, limits: Limits): seq<Call> {
    seq(|requests|, k requires 0 <= k < |requests| =>
      Call(requests[k].key, RpmFor(limits, requests[k].key), requests[k].now))
  }

  /** Calls with the limit that belongs to their key, as the middleware makes them. */
  lemma {:induction false} CallsAreRuns(requests: seq<Request>, limits: Limits)
    requires LimitsOk(limits)
    ensures Positive(CallsOf(requests, limits))
    ensures Called(map[], CallsOf(requests, limits)) == RunAll(requests, limits).windows
    decreases |requests|
  {
    if requests != [] {
      var n := |requests| - 1;
      var last := Call(requests[n].key, RpmFor(limits, requests[n].key), requests[n].now);
      CallsAreRuns(requests[..n], limits);
      assert CallsOf(requests, limits) == CallsOf(requests[..n], limits) + [last];
      CalledAppend(map[], CallsOf(requests[..n], limits), [last]);
      OneCall(Called(map[], CallsOf(requests[..n], limits)), last);
    }
  }

  predicate MonotoneClock(requests: seq<Request>) {
    forall i, j | 0 <= i < j < |requests| :: requests[i].now <= requests[j].now
  }

  lemma {:induction false} TimesSorted(requests: seq<Request>, key: string)
    requires MonotoneClock(requests)
    ensures var times := TimesOf(requests, key);
            && Sorted(times) && |times| <= |requests|
            && forall i | 0 <= i < |times| :: times[i] <= requests[|requests| - 1].now
    decreases |requests|
  {
    if requests != [] {
      TimesSorted(requests[..|requests| - 1], key);
    }
  }

  /** Under a monotone clock no key, in any traffic, gets more than its rpm in any 60 seconds. */
  lemma EveryKeyKeepsItsLimit(requests: seq<Request>, limits: Limits, key: string, t: real)
    requires LimitsOk(limits) && MonotoneClock(requests)
    ensures var times, r := TimesOf(requests, key), RunAll(requests, limits);
            && |AnswersOf(requests, r.admitted, key)| == |times|
            && CountIn(Chosen(times, AnswersOf(requests, r.admitted, key)), t - WINDOW, t) <= RpmFor(limits, key)
  {
    TimesSorted(requests, key);
    KeysAreIndependent(requests, limits, key);
    WindowBound(TimesOf(requests, key), RpmFor(limits, key), t);
  }
}
