/** Classification of vendor health readings against per-bucket thresholds. */
module HealthThresholds {
  import opened Wrappers

  // ---- Payload ----

  /** A percentage field: `None` when missing or not a number. Indexes, process ids and pool names
      are the text the device supplied. */
  datatype Cpu = Cpu(index: string, oneMin: Option<real>, fiveMin: Option<real>)
  datatype Process = Process(
    index: string, pid: string, fiveSec: Option<real>, oneMin: Option<real>, fiveMin: Option<real>)
  datatype Processor = Processor(index: string, load: Option<real>)
  datatype Pool = Pool(name: string, index: string, used: Option<real>)

  datatype Payload = Payload(
    cpus: seq<Cpu>,
    processes: seq<Process>,
    processors: seq<Processor>,
    memoryUsed: Option<real>,
    pools: seq<Pool>)

  datatype Reading = Reading(metric: string, value: real)

  function Read(metric: string, value: Option<real>): seq<Reading> {
    if value.Some? then [Reading(metric, value.value)] else []
  }

  function OfCpu(c: Cpu): seq<Reading> {
    var stem := "cpu." + c.index;
    Read(stem + ".cpu_1min_pct", c.oneMin) + Read(stem + ".cpu_5min_pct", c.fiveMin)
  }

  function OfProcess(p: Process): seq<Reading> {
    var stem := "process." + p.index + if p.pid != "" then ".pid" + p.pid else "";
    Read(stem + ".cpu_5sec_pct", p.fiveSec) + Read(stem + ".cpu_1min_pct", p.oneMin)
    + Read(stem + ".cpu_5min_pct", p.fiveMin)
  }

  function OfProcessor(p: Processor): seq<Reading> {
    Read("processor." + p.index + ".load_pct", p.load)
  }

  function OfPool(p: Pool): seq<Reading> {
    Read("memory_pool." + (if p.name != "" then p.name else "pool" + p.index) + ".used_pct", p.used)
  }

  /** Map and concatenate, in order. */
  function Each<A>(items: seq<A>, f: A -> seq<Reading>): seq<Reading> {
    if items == [] then [] else Each(items[..|items| - 1], f) + f(items[|items| - 1])
  }

  function ProcessorReadings(p: Payload): seq<Reading> {
    Each(p.cpus, OfCpu) + Each(p.processes, OfProcess) + Each(p.processors, OfProcessor)
  }

  function MemoryReadings(p: Payload): seq<Reading> {
    Read("memory.used_pct", p.memoryUsed) + Each(p.pools, OfPool)
  }

  function Readings(p: Payload): seq<Reading> {
    ProcessorReadings(p) + MemoryReadings(p)
  }

  /** One loop over one table of the payload. */
  method Collect<A>(items: seq<A>, f: A -> seq<Reading>) returns (readings: seq<Reading>)
    ensures readings == Each(items, f)
  {
    readings := [];
    for i := 0 to |items|
      invariant readings == Each(items[..i], f)
    {
      assert items[..i + 1][..i] == items[..i];
      readings := readings + f(items[i]);
    }
    assert items[..|items|] == items;
  }

  method ExtractReadings(p: Payload) returns (readings: seq<Reading>)
    ensures readings == Readings(p)
  {
    readings := Collect(p.cpus, OfCpu);
    var more := Collect(p.processes, OfProcess);
    readings := readings + more;
    more := Collect(p.processors, OfProcessor);
    readings := readings + more;
    more := Collect(p.pools, OfPool);
    readings := readings + (Read("memory.used_pct", p.memoryUsed) + more);
  }

  // ---- Buckets ----

  datatype Bucket = CpuBucket | MemoryBucket

  function Lower(s: string): string {
    seq(|s|, i requires 0 <= i < |s| => if 'A' <= s[i] <= 'Z' then s[i] - 'A' + 'a' else s[i])
  }

  function BucketFor(metric: string): Bucket {
    var lowered := Lower(metric);
    if "cpu" <= lowered || "processor" <= lowered || "process." <= lowered then CpuBucket else MemoryBucket
  }

  lemma {:induction false} EachAll<A>(items: seq<A>, f: A -> seq<Reading>, bucket: Bucket)
    requires forall a | a in items :: forall r | r in f(a) :: BucketFor(r.metric) == bucket
    ensures forall r | r in Each(items, f) :: BucketFor(r.metric) == bucket
    decreases |items|
  {
    if items != [] {
      EachAll(items[..|items| - 1], f, bucket);
    }
  }

  lemma StartsWith(prefix: string, rest: string, bucket: Bucket)
    requires if bucket == CpuBucket then prefix in ["cpu.", "process.", "processor."]
             else prefix in ["memory.", "memory_pool."]
    ensures BucketFor(prefix + rest) == bucket
  {
    var l := Lower(prefix + rest);
    assert forall i | 0 <= i < |prefix| :: l[i] == prefix[i];
    if prefix == "cpu." {
      assert "cpu" <= l;
    } else if prefix == "process." {
      assert "process." <= l;
    } else if prefix == "processor." {
      assert "processor" <= l;
    } else {
      assert l[0] == 'm';
    }
  }

  /** Whatever index, process id or pool name a device sends, the label lands in the bucket of the
      table it came from. */
  lemma LabelsLandInTheirBucket(p: Payload)
    ensures forall r | r in ProcessorReadings(p) :: BucketFor(r.metric) == CpuBucket
    ensures forall r | r in MemoryReadings(p) :: BucketFor(r.metric) == MemoryBucket
  {
    forall c | c in p.cpus ensures forall r | r in OfCpu(c) :: BucketFor(r.metric) == CpuBucket {
      CpuLabels(c);
    }
    forall q | q in p.processes ensures forall r | r in OfProcess(q) :: BucketFor(r.metric) == CpuBucket {
      ProcessLabels(q);
    }
    forall q | q in p.processors ensures forall r | r in OfProcessor(q) :: BucketFor(r.metric) == CpuBucket {
      Prefixed("processor.", q.index + ".load_pct", "processor." + q.index + ".load_pct", CpuBucket);
    }
    forall q | q in p.pools ensures forall r | r in OfPool(q) :: BucketFor(r.metric) == MemoryBucket {
      PoolLabels(q);
    }
    EachAll(p.cpus, OfCpu, CpuBucket);
    EachAll(p.processes, OfProcess, CpuBucket);
    EachAll(p.processors, OfProcessor, CpuBucket);
    EachAll(p.pools, OfPool, MemoryBucket);
    Prefixed("memory.", "used_pct", "memory.used_pct", MemoryBucket);
  }

  lemma Prefixed(prefix: string, rest: string, metric: string, bucket: Bucket)
    requires if bucket == CpuBucket then prefix in ["cpu.", "process.", "processor."]
             else prefix in ["memory.", "memory_pool."]
    requires metric == prefix + rest
    ensures BucketFor(metric) == bucket
  {
    StartsWith(prefix, rest, bucket);
  }

  lemma CpuLabels(c: Cpu)
    ensures forall r | r in OfCpu(c) :: BucketFor(r.metric) == CpuBucket
  {
    var stem := "cpu." + c.index;
    Prefixed("cpu.", c.index + ".cpu_1min_pct", stem + ".cpu_1min_pct", CpuBucket);
    Prefixed("cpu.", c.index + ".cpu_5min_pct", stem + ".cpu_5min_pct", CpuBucket);
  }

  lemma ProcessLabels(p: Process)
    ensures forall r | r in OfProcess(p) :: BucketFor(r.metric) == CpuBucket
  {
    var tail := p.index + if p.pid != "" then ".pid" + p.pid else "";
    var stem := "process." + p.index + if p.pid != "" then ".pid" + p.pid else "";
    assert stem == "process." + tail;
    Prefixed("process.", tail + ".cpu_5sec_pct", stem + ".cpu_5sec_pct", CpuBucket);
    Prefixed("process.", tail + ".cpu_1min_pct", stem + ".cpu_1min_pct", CpuBucket);
    Prefixed("process.", tail + ".cpu_5min_pct", stem + ".cpu_5min_pct", CpuBucket);
  }

  lemma PoolLabels(p: Pool)
    ensures forall r | r in OfPool(p) :: BucketFor(r.metric) == MemoryBucket
  {
    var name := if p.name != "" then p.name else "pool" + p.index;
    Prefixed("memory_pool.", name + ".used_pct", "memory_pool." + name + ".used_pct", MemoryBucket);
  }

  // ---- Thresholds ----

  /** One key of an override: not there, null, a number, or something for which `float()` raises a
      type or value error. */
  datatype Given = Absent | Null | Number(value: real) | Malformed

  datatype Override = Override(warning: Given, critical: Given)

  datatype Limits = Limits(warning: Option<real>, critical: Option<real>)

  function Defaults(b: Bucket): Limits {
    if b.CpuBucket? then Limits(Some(80.0), Some(95.0)) else Limits(Some(85.0), Some(95.0))
  }

  function Resolve(g: Given, default: Option<real>): Option<real> {
    match g
    case Absent => default
    case Null => None
    case Number(v) => Some(v)
    case Malformed => default
  }

  /** A bucket without a usable override keeps its defaults. */
  function ResolveThresholds(b: Bucket, overrides: map<Bucket, Override>): Limits {
    if b in overrides then
      Limits(Resolve(overrides[b].warning, Defaults(b).warning), Resolve(overrides[b].critical, Defaults(b).critical))
    else Defaults(b)
  }

  datatype Status = Ok | Unknown | Warning | Critical

  function Rank(s: Status): nat {
    match s case Ok => 0 case Unknown => 1 case Warning => 2 case Critical => 3
  }

  predicate Breaches(value: real, threshold: Option<real>) {
    threshold.Some? && value >= threshold.value
  }

  function EvaluateThreshold(value: real, limits: Limits): Status {
    if Breaches(value, limits.critical) then Critical
    else if Breaches(value, limits.warning) then Warning
    else Status.Ok
  }

  datatype Verdict = Verdict(metric: string, bucket: Bucket, value: real, limits: Limits, status: Status)

  function Judge(r: Reading, overrides: map<Bucket, Override>): Verdict {
    var b := BucketFor(r.metric);
    var limits := ResolveThresholds(b, overrides);
    Verdict(r.metric, b, r.value, limits, EvaluateThreshold(r.value, limits))
  }

  predicate HasStatus(readings: seq<Reading>, overrides: map<Bucket, Override>, s: Status) {
    exists r | r in readings :: Judge(r, overrides).status == s
  }

  /** The health of a payload, said without a fold: what some reading breaches. */
  predicate IsHealth(readings: seq<Reading>, overrides: map<Bucket, Override>, s: Status) {
    match s
    case Unknown => readings == []
    case Critical => HasStatus(readings, overrides, Critical)
    case Warning => HasStatus(readings, overrides, Warning) && !HasStatus(readings, overrides, Critical)
    case Ok => readings != [] && !HasStatus(readings, overrides, Warning) && !HasStatus(readings, overrides, Critical)
  }

  /** The first verdict of the worst rank. */
  method Worst(verdicts: seq<Verdict>) returns (status: Status)
    requires verdicts != []
    ensures exists j :: 0 <= j < |verdicts| && verdicts[j].status == status
    ensures forall j | 0 <= j < |verdicts| :: Rank(verdicts[j].status) <= Rank(status)
  {
    status := verdicts[0].status;
    for i := 1 to |verdicts|
      invariant exists j :: 0 <= j < i && verdicts[j].status == status
      invariant forall j | 0 <= j < i :: Rank(verdicts[j].status) <= Rank(status)
    {
      if Rank(verdicts[i].status) > Rank(status) {
        status := verdicts[i].status;
      }
    }
  }

  lemma WorstIsHealth(readings: seq<Reading>, overrides: map<Bucket, Override>, worst: Status)
    requires HasStatus(readings, overrides, worst)
    requires forall r | r in readings :: Rank(Judge(r, overrides).status) <= Rank(worst)
    ensures IsHealth(readings, overrides, worst)
  {
  }

  /** Every reading is judged, in order, and the health is the worst verdict. */
  method EvaluateHealth(p: Payload, overrides: map<Bucket, Override>) returns (verdicts: seq<Verdict>, health: Status)
    ensures |verdicts| == |Readings(p)|
    ensures forall i | 0 <= i < |verdicts| :: verdicts[i] == Judge(Readings(p)[i], overrides)
    ensures IsHealth(Readings(p), overrides, health)
  {
    var readings := ExtractReadings(p);
    verdicts := [];
    for i := 0 to |readings|
      invariant |verdicts| == i
      invariant forall j | 0 <= j < i :: verdicts[j] == Judge(readings[j], overrides)
    {
      verdicts := verdicts + [Judge(readings[i], overrides)];
    }
    if verdicts == [] {
      return verdicts, Unknown;
    }
    health := Worst(verdicts);
    assert HasStatus(readings, overrides, health) by {
      var j :| 0 <= j < |verdicts| && verdicts[j].status == health;
      assert readings[j] in readings;
    }
    forall r | r in readings ensures Rank(Judge(r, overrides).status) <= Rank(health) {
      var j :| 0 <= j < |readings| && readings[j] == r;
      assert verdicts[j] == Judge(r, overrides);
    }
    WorstIsHealth(readings, overrides, health);
  }

  predicate ReachesCritical(r: Reading, overrides: map<Bucket, Override>) {
    Breaches(r.value, ResolveThresholds(BucketFor(r.metric), overrides).critical)
  }

  predicate ReachesWarning(r: Reading, overrides: map<Bucket, Override>) {
    Breaches(r.value, ResolveThresholds(BucketFor(r.metric), overrides).warning)
  }

  /** Health in terms of the thresholds: critical as soon as one reading reaches the critical
      threshold of its bucket, ok exactly when there are readings and none reaches any threshold. */
  lemma HealthMeaning(readings: seq<Reading>, overrides: map<Bucket, Override>, s: Status)
    ensures IsHealth(readings, overrides, s) <==>
              var critical := exists r | r in readings :: ReachesCritical(r, overrides);
              var warning := exists r | r in readings :: ReachesWarning(r, overrides);
              s == (if readings == [] then Unknown
                    else if critical then Critical
                    else if warning then Warning
                    else Status.Ok)
  {
    if readings != [] {
      assert readings[0] in readings;
    }
    forall r | r in readings
      ensures Judge(r, overrides).status == Critical <==> ReachesCritical(r, overrides)
      ensures Judge(r, overrides).status == Warning <==> ReachesWarning(r, overrides) && !ReachesCritical(r, overrides)
    {
    }
  }

  /** Exactly one status is the health, and it depends on the set of readings only: not on their
      order, not on repetitions. */
  lemma HealthIgnoresOrder(readings: seq<Reading>, others: seq<Reading>, overrides: map<Bucket, Override>,
                           s: Status, t: Status)
    requires (set r | r in readings) == (set r | r in others)
    requires IsHealth(readings, overrides, s) && IsHealth(others, overrides, t)
    ensures s == t
  {
    var same := set r | r in readings;
    assert forall r :: r in readings <==> r in same;
    assert forall r :: r in others <==> r in same;
    forall x: Status ensures HasStatus(readings, overrides, x) <==> HasStatus(others, overrides, x) {
      if HasStatus(readings, overrides, x) {
        var r :| r in readings && Judge(r, overrides).status == x;
        assert r in others;
      }
      if HasStatus(others, overrides, x) {
        var r :| r in others && Judge(r, overrides).status == x;
        assert r in readings;
      }
    }
    assert readings == [] <==> others == [] by {
      if readings != [] { assert readings[0] in others; }
      if others != [] { assert others[0] in readings; }
    }
  }

  /** `tighter` alarms wherever `looser` does. */
  predicate AtMost(tighter: Option<real>, looser: Option<real>) {
    looser.Some? ==> tighter.Some? && tighter.value <= looser.value
  }

  lemma AtMostIff(tighter: Option<real>, looser: Option<real>)
    ensures AtMost(tighter, looser) <==> forall value: real | Breaches(value, looser) :: Breaches(value, tighter)
  {
    if looser.Some? && (forall value: real | Breaches(value, looser) :: Breaches(value, tighter)) {
      assert Breaches(looser.value, looser);
    }
  }

  predicate Tighter(a: map<Bucket, Override>, b: map<Bucket, Override>) {
    forall x: Bucket ::
      && AtMost(ResolveThresholds(x, a).warning, ResolveThresholds(x, b).warning)
      && AtMost(ResolveThresholds(x, a).critical, ResolveThresholds(x, b).critical)
  }

  /** Health never improves when readings rise and thresholds fall, even where the warning
      threshold lies above the critical one. */
  lemma WorseInputsNeverImprove(low: seq<Reading>, high: seq<Reading>, loose: map<Bucket, Override>,
                                tight: map<Bucket, Override>, s: Status, t: Status)
    requires |low| == |high|
    requires forall i | 0 <= i < |low| :: low[i].metric == high[i].metric && low[i].value <= high[i].value
    requires Tighter(tight, loose)
    requires IsHealth(low, loose, s) && IsHealth(high, tight, t)
    ensures Rank(s) <= Rank(t)
  {
    forall i | 0 <= i < |low|
      ensures Rank(Judge(low[i], loose).status) <= Rank(Judge(high[i], tight).status)
    {
      var b := BucketFor(low[i].metric);
      assert AtMost(ResolveThresholds(b, tight).warning, ResolveThresholds(b, loose).warning);
    }
    if s.Critical? || s.Warning? {
      var r :| r in low && Judge(r, loose).status == s;
      var i :| 0 <= i < |low| && low[i] == r;
      var j := Judge(high[i], tight);
      assert high[i] in high;
      assert HasStatus(high, tight, j.status);
    }
  }
}
