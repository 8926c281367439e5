/** Health said of the payload itself: its numeric fields, their labels and the default percentages. */
module HealthPayload {
  import opened Wrappers
  import opened HealthThresholds

  // ---- Which readings a payload gives ----

  predicate IsReading(r: Reading, metric: string, field: Option<real>) {
    field == Some(r.value) && r.metric == metric
  }

  predicate FromCpu(c: Cpu, r: Reading) {
    || IsReading(r, "cpu." + c.index + ".cpu_1min_pct", c.oneMin)
    || IsReading(r, "cpu." + c.index + ".cpu_5min_pct", c.fiveMin)
  }

  predicate FromProcess(q: Process, r: Reading) {
    exists name | name == (if q.pid == "" then q.index else q.index + ".pid" + q.pid) ::
      || IsReading(r, "process." + name + ".cpu_5sec_pct", q.fiveSec)
      || IsReading(r, "process." + name + ".cpu_1min_pct", q.oneMin)
      || IsReading(r, "process." + name + ".cpu_5min_pct", q.fiveMin)
  }

  predicate FromProcessor(q: Processor, r: Reading) {
    IsReading(r, "processor." + q.index + ".load_pct", q.load)
  }

  predicate FromPool(q: Pool, r: Reading) {
    if q.name == "" then IsReading(r, "memory_pool.pool" + q.index + ".used_pct", q.used)
    else IsReading(r, "memory_pool." + q.name + ".used_pct", q.used)
  }

  predicate FromCpuTables(p: Payload, r: Reading) {
    || (exists c :: c in p.cpus && FromCpu(c, r))
    || (exists q :: q in p.processes && FromProcess(q, r))
    || (exists q :: q in p.processors && FromProcessor(q, r))
  }

  predicate FromMemory(p: Payload, r: Reading) {
    || IsReading(r, "memory.used_pct", p.memoryUsed)
    || (exists q :: q in p.pools && FromPool(q, r))
  }

  lemma {:induction false} InEach<A>(items: seq<A>, f: A -> seq<Reading>, r: Reading)
    ensures r in Each(items, f) <==> exists a :: a in items && r in f(a)
    decreases |items|
  {
    if items != [] {
      var n := |items| - 1;
      InEach(items[..n], f, r);
      assert items == items[..n] + [items[n]];
    }
  }

  lemma CpuReadings(c: Cpu, r: Reading)
    ensures r in OfCpu(c) <==> FromCpu(c, r)
  {
  }

  lemma ProcessLabel(q: Process, field: string)
    ensures "process." + q.index + (if q.pid != "" then ".pid" + q.pid else "") + field
            == "process." + (if q.pid == "" then q.index else q.index + ".pid" + q.pid) + field
  {
    var stem := "process." + q.index + (if q.pid != "" then ".pid" + q.pid else "");
    assert stem == "process." + (if q.pid == "" then q.index else q.index + ".pid" + q.pid);
  }

  lemma ProcessReadings(q: Process, r: Reading)
    ensures r in OfProcess(q) <==> FromProcess(q, r)
  {
    ProcessLabel(q, ".cpu_5sec_pct");
    ProcessLabel(q, ".cpu_1min_pct");
    ProcessLabel(q, ".cpu_5min_pct");
  }

  lemma PoolReadings(q: Pool, r: Reading)
    ensures r in OfPool(q) <==> FromPool(q, r)
  {
    var pool: string := "memory_pool.";
    assert pool + ("pool" + q.index) == "memory_pool.pool" + q.index;
  }

  /** The readings of a payload are its numeric fields, each under its label. */
  lemma ReadingIff(p: Payload, r: Reading)
    ensures r in ProcessorReadings(p) <==> FromCpuTables(p, r)
    ensures r in MemoryReadings(p) <==> FromMemory(p, r)
    ensures r in Readings(p) <==> FromCpuTables(p, r) || FromMemory(p, r)
    ensures FromCpuTables(p, r) ==> BucketFor(r.metric) == CpuBucket
    ensures FromMemory(p, r) ==> BucketFor(r.metric) == MemoryBucket
  {
    LabelsLandInTheirBucket(p);
    InEach(p.cpus, OfCpu, r);
    InEach(p.processes, OfProcess, r);
    InEach(p.processors, OfProcessor, r);
    InEach(p.pools, OfPool, r);
    forall c: Cpu ensures r in OfCpu(c) <==> FromCpu(c, r) { CpuReadings(c, r); }
    forall q: Process ensures r in OfProcess(q) <==> FromProcess(q, r) { ProcessReadings(q, r); }
    forall q: Pool ensures r in OfPool(q) <==> FromPool(q, r) { PoolReadings(q, r); }
  }

  // ---- How many ----

  function One(field: Option<real>): nat {
    if field.Some? then 1 else 0
  }

  function CpuNumbers(c: Cpu): nat {
    One(c.oneMin) + One(c.fiveMin)
  }

  function ProcessNumbers(q: Process): nat {
    One(q.fiveSec) + One(q.oneMin) + One(q.fiveMin)
  }

  function ProcessorNumbers(q: Processor): nat {
    One(q.load)
  }

  function PoolNumbers(q: Pool): nat {
    One(q.used)
  }

  function Sum<A>(items: seq<A>, f: A -> nat): nat {
    if items == [] then 0 else Sum(items[..|items| - 1], f) + f(items[|items| - 1])
  }

  lemma {:induction false} EachLength<A>(items: seq<A>, f: A -> seq<Reading>, g: A -> nat)
    requires forall a | a in items :: |f(a)| == g(a)
    ensures |Each(items, f)| == Sum(items, g)
    decreases |items|
  {
    if items != [] {
      EachLength(items[..|items| - 1], f, g);
    }
  }

  /** One reading for each numeric field: none is dropped, none is counted twice. */
  lemma ReadingCount(p: Payload)
    ensures |Readings(p)| ==
              Sum(p.cpus, CpuNumbers) + Sum(p.processes, ProcessNumbers) + Sum(p.processors, ProcessorNumbers)
              + One(p.memoryUsed) + Sum(p.pools, PoolNumbers)
  {
    EachLength(p.cpus, OfCpu, CpuNumbers);
    EachLength(p.processes, OfProcess, ProcessNumbers);
    EachLength(p.processors, OfProcessor, ProcessorNumbers);
    EachLength(p.pools, OfPool, PoolNumbers);
  }

  // ---- In which order ----

  /** `part` lies in `whole` from position `at` on. */
  predicate Lies(part: seq<Reading>, whole: seq<Reading>, at: nat) {
    at + |part| <= |whole| && whole[at..at + |part|] == part
  }

  lemma LiesWithin(a: seq<Reading>, b: seq<Reading>, c: seq<Reading>, part: seq<Reading>, at: nat)
    requires Lies(part, b, at)
    ensures Lies(part, a + b + c, |a| + at)
  {
    var whole, n := a + b + c, |a| + at;
    assert whole[|a|..|a| + |b|] == b;
    assert whole[n..n + |part|] == b[at..at + |part|];
  }

  lemma {:induction false} EachAt<A>(items: seq<A>, f: A -> seq<Reading>, g: A -> nat, k: nat)
    requires k < |items| && forall a | a in items :: |f(a)| == g(a)
    ensures Lies(f(items[k]), Each(items, f), Sum(items[..k], g))
    decreases |items|
  {
    var n := |items| - 1;
    EachLength(items[..k], f, g);
    if k < n {
      EachAt(items[..n], f, g, k);
      assert items[..n][..k] == items[..k];
      LiesWithin([], Each(items[..n], f), f(items[n]), f(items[k]), Sum(items[..k], g));
      assert [] + Each(items[..n], f) + f(items[n]) == Each(items, f);
    }
  }

  /** The reading of a numeric field stands at position `at`. */
  predicate At(readings: seq<Reading>, at: nat, metric: string, field: Option<real>) {
    field.Some? ==> at < |readings| && readings[at] == Reading(metric, field.value)
  }

  lemma LiesAt(part: seq<Reading>, whole: seq<Reading>, at: nat, i: nat, metric: string, field: Option<real>)
    requires Lies(part, whole, at) && At(part, i, metric, field)
    ensures At(whole, at + i, metric, field)
  {
    if field.Some? {
      assert whole[at..at + |part|][i] == whole[at + i];
    }
  }

  predicate Sides(p: Payload, before: seq<Reading>, table: seq<Reading>, after: seq<Reading>) {
    Readings(p) == before + table + after
  }

  lemma TableLies(p: Payload, before: seq<Reading>, table: seq<Reading>, after: seq<Reading>, part: seq<Reading>,
                  at: nat)
    requires Sides(p, before, table, after) && Lies(part, table, at)
    ensures Lies(part, Readings(p), |before| + at)
  {
    LiesWithin(before, table, after, part, at);
  }

  lemma Regroup(a: seq<Reading>, b: seq<Reading>, c: seq<Reading>, m: seq<Reading>)
    ensures a + b + c + m == [] + a + (b + c + m)
    ensures a + b + c + m == a + b + (c + m)
  {
  }

  lemma CpuSides(p: Payload)
    ensures Sides(p, [], Each(p.cpus, OfCpu),
                  Each(p.processes, OfProcess) + Each(p.processors, OfProcessor) + MemoryReadings(p))
  {
    Regroup(Each(p.cpus, OfCpu), Each(p.processes, OfProcess), Each(p.processors, OfProcessor), MemoryReadings(p));
  }

  lemma ProcessSides(p: Payload)
    ensures Sides(p, Each(p.cpus, OfCpu), Each(p.processes, OfProcess),
                  Each(p.processors, OfProcessor) + MemoryReadings(p))
  {
    Regroup(Each(p.cpus, OfCpu), Each(p.processes, OfProcess), Each(p.processors, OfProcessor), MemoryReadings(p));
  }

  lemma ProcessorSides(p: Payload)
    ensures Sides(p, Each(p.cpus, OfCpu) + Each(p.processes, OfProcess), Each(p.processors, OfProcessor),
                  MemoryReadings(p))
  {
  }

  lemma PoolSides(p: Payload)
    ensures Sides(p, ProcessorReadings(p) + Read("memory.used_pct", p.memoryUsed), Each(p.pools, OfPool), [])
  {
  }

  lemma TableLengths(p: Payload)
    ensures |Each(p.cpus, OfCpu)| == Sum(p.cpus, CpuNumbers)
    ensures |Each(p.processes, OfProcess)| == Sum(p.processes, ProcessNumbers)
    ensures |Each(p.processors, OfProcessor)| == Sum(p.processors, ProcessorNumbers)
  {
    EachLength(p.cpus, OfCpu, CpuNumbers);
    EachLength(p.processes, OfProcess, ProcessNumbers);
    EachLength(p.processors, OfProcessor, ProcessorNumbers);
  }

  lemma CpuLies(p: Payload, k: nat)
    requires k < |p.cpus|
    ensures Lies(OfCpu(p.cpus[k]), Readings(p), Sum(p.cpus[..k], CpuNumbers))
  {
    CpuSides(p);
    EachAt(p.cpus, OfCpu, CpuNumbers, k);
    TableLies(p, [], Each(p.cpus, OfCpu),
              Each(p.processes, OfProcess) + Each(p.processors, OfProcessor) + MemoryReadings(p),
              OfCpu(p.cpus[k]), Sum(p.cpus[..k], CpuNumbers));
  }

  lemma ProcessCount(q: Process)
    ensures |OfProcess(q)| == ProcessNumbers(q)
  {
  }

  lemma ProcessInTable(items: seq<Process>, k: nat)
    requires k < |items|
    ensures Lies(OfProcess(items[k]), Each(items, OfProcess), Sum(items[..k], ProcessNumbers))
  {
    forall q: Process ensures |OfProcess(q)| == ProcessNumbers(q) { ProcessCount(q); }
    EachAt(items, OfProcess, ProcessNumbers, k);
  }

  lemma InProcessTable(p: Payload, part: seq<Reading>, at: nat)
    requires Lies(part, Each(p.processes, OfProcess), at)
    ensures Lies(part, Readings(p), Sum(p.cpus, CpuNumbers) + at)
  {
    ProcessSides(p);
    EachLength(p.cpus, OfCpu, CpuNumbers);
    TableLies(p, Each(p.cpus, OfCpu), Each(p.processes, OfProcess),
              Each(p.processors, OfProcessor) + MemoryReadings(p), part, at);
  }

  lemma ProcessLies(p: Payload, k: nat)
    requires k < |p.processes|
    ensures Lies(OfProcess(p.processes[k]), Readings(p),
                 Sum(p.cpus, CpuNumbers) + Sum(p.processes[..k], ProcessNumbers))
  {
    ProcessInTable(p.processes, k);
    InProcessTable(p, OfProcess(p.processes[k]), Sum(p.processes[..k], ProcessNumbers));
  }

  lemma ProcessorLies(p: Payload, k: nat)
    requires k < |p.processors|
    ensures Lies(OfProcessor(p.processors[k]), Readings(p),
                 Sum(p.cpus, CpuNumbers) + Sum(p.processes, ProcessNumbers) + Sum(p.processors[..k], ProcessorNumbers))
  {
    ProcessorSides(p);
    TableLengths(p);
    EachAt(p.processors, OfProcessor, ProcessorNumbers, k);
    TableLies(p, Each(p.cpus, OfCpu) + Each(p.processes, OfProcess), Each(p.processors, OfProcessor),
              MemoryReadings(p), OfProcessor(p.processors[k]), Sum(p.processors[..k], ProcessorNumbers));
  }

  lemma PoolLies(p: Payload, k: nat)
    requires k < |p.pools|
    ensures Lies(OfPool(p.pools[k]), Readings(p),
                 Sum(p.cpus, CpuNumbers) + Sum(p.processes, ProcessNumbers) + Sum(p.processors, ProcessorNumbers)
                 + One(p.memoryUsed) + Sum(p.pools[..k], PoolNumbers))
  {
    PoolSides(p);
    TableLengths(p);
    EachAt(p.pools, OfPool, PoolNumbers, k);
    TableLies(p, ProcessorReadings(p) + Read("memory.used_pct", p.memoryUsed), Each(p.pools, OfPool), [],
              OfPool(p.pools[k]), Sum(p.pools[..k], PoolNumbers));
  }

  predicate CpuAt(c: Cpu, whole: seq<Reading>, at: nat) {
    && At(whole, at, "cpu." + c.index + ".cpu_1min_pct", c.oneMin)
    && At(whole, at + One(c.oneMin), "cpu." + c.index + ".cpu_5min_pct", c.fiveMin)
  }

  predicate ProcessAt(q: Process, whole: seq<Reading>, at: nat) {
    var stem := "process." + q.index + if q.pid == "" then "" else ".pid" + q.pid;
    && At(whole, at, stem + ".cpu_5sec_pct", q.fiveSec)
    && At(whole, at + One(q.fiveSec), stem + ".cpu_1min_pct", q.oneMin)
    && At(whole, at + One(q.fiveSec) + One(q.oneMin), stem + ".cpu_5min_pct", q.fiveMin)
  }

  lemma CpuPlaced(c: Cpu, whole: seq<Reading>, at: nat)
    requires Lies(OfCpu(c), whole, at)
    ensures CpuAt(c, whole, at)
  {
    LiesAt(OfCpu(c), whole, at, 0, "cpu." + c.index + ".cpu_1min_pct", c.oneMin);
    LiesAt(OfCpu(c), whole, at, One(c.oneMin), "cpu." + c.index + ".cpu_5min_pct", c.fiveMin);
  }

  lemma ProcessPlaced(q: Process, whole: seq<Reading>, at: nat)
    requires Lies(OfProcess(q), whole, at)
    ensures ProcessAt(q, whole, at)
  {
    var stem := "process." + q.index + if q.pid == "" then "" else ".pid" + q.pid;
    LiesAt(OfProcess(q), whole, at, 0, stem + ".cpu_5sec_pct", q.fiveSec);
    LiesAt(OfProcess(q), whole, at, One(q.fiveSec), stem + ".cpu_1min_pct", q.oneMin);
    LiesAt(OfProcess(q), whole, at, One(q.fiveSec) + One(q.oneMin), stem + ".cpu_5min_pct", q.fiveMin);
  }

  /** The readings of a table come in its order, after those of the tables before it. */
  lemma CpuOrder(p: Payload, k: nat)
    requires k < |p.cpus|
    ensures CpuAt(p.cpus[k], Readings(p), Sum(p.cpus[..k], CpuNumbers))
  {
    CpuLies(p, k);
    CpuPlaced(p.cpus[k], Readings(p), Sum(p.cpus[..k], CpuNumbers));
  }

  lemma ProcessOrder(p: Payload, k: nat)
    requires k < |p.processes|
    ensures ProcessAt(p.processes[k], Readings(p),
                      Sum(p.cpus, CpuNumbers) + Sum(p.processes[..k], ProcessNumbers))
  {
    ProcessLies(p, k);
    ProcessPlaced(p.processes[k], Readings(p), Sum(p.cpus, CpuNumbers) + Sum(p.processes[..k], ProcessNumbers));
  }

  lemma ProcessorOrder(p: Payload, k: nat)
    requires k < |p.processors|
    ensures At(Readings(p), Sum(p.cpus, CpuNumbers) + Sum(p.processes, ProcessNumbers)
                            + Sum(p.processors[..k], ProcessorNumbers),
               "processor." + p.processors[k].index + ".load_pct", p.processors[k].load)
  {
    var q := p.processors[k];
    var at := Sum(p.cpus, CpuNumbers) + Sum(p.processes, ProcessNumbers) + Sum(p.processors[..k], ProcessorNumbers);
    ProcessorLies(p, k);
    LiesAt(OfProcessor(q), Readings(p), at, 0, "processor." + q.index + ".load_pct", q.load);
  }

  lemma MemoryOrder(p: Payload)
    ensures At(Readings(p), Sum(p.cpus, CpuNumbers) + Sum(p.processes, ProcessNumbers)
                            + Sum(p.processors, ProcessorNumbers), "memory.used_pct", p.memoryUsed)
  {
    TableLengths(p);
    assert |ProcessorReadings(p)| + One(p.memoryUsed) + |Each(p.pools, OfPool)| == |Readings(p)|;
  }

  lemma PoolOrder(p: Payload, k: nat)
    requires k < |p.pools|
    ensures var name := if p.pools[k].name == "" then "pool" + p.pools[k].index else p.pools[k].name;
            At(Readings(p), Sum(p.cpus, CpuNumbers) + Sum(p.processes, ProcessNumbers)
                            + Sum(p.processors, ProcessorNumbers) + One(p.memoryUsed)
                            + Sum(p.pools[..k], PoolNumbers),
               "memory_pool." + name + ".used_pct", p.pools[k].used)
  {
    var q := p.pools[k];
    var at := Sum(p.cpus, CpuNumbers) + Sum(p.processes, ProcessNumbers) + Sum(p.processors, ProcessorNumbers)
              + One(p.memoryUsed) + Sum(p.pools[..k], PoolNumbers);
    PoolLies(p, k);
    LiesAt(OfPool(q), Readings(p), at, 0,
           "memory_pool." + (if q.name == "" then "pool" + q.index else q.name) + ".used_pct", q.used);
  }

  // ---- Buckets and thresholds ----

  /** A letter of a lower-case prefix, in either case. */
  predicate IsLetter(c: char, lower: char) {
    c == lower || ('a' <= lower <= 'z' && c == lower - 'a' + 'A')
  }

  predicate StartsLike(metric: string, prefix: string) {
    |prefix| <= |metric| && forall i | 0 <= i < |prefix| :: IsLetter(metric[i], prefix[i])
  }

  predicate LowerCase(s: string) {
    forall i | 0 <= i < |s| :: !('A' <= s[i] <= 'Z')
  }

  lemma LowerPrefix(metric: string, prefix: string)
    requires LowerCase(prefix)
    ensures prefix <= Lower(metric) <==> StartsLike(metric, prefix)
  {
    var l := Lower(metric);
    if prefix <= l {
      forall i | 0 <= i < |prefix| ensures IsLetter(metric[i], prefix[i]) {
        assert l[i] == prefix[i];
      }
    }
    if StartsLike(metric, prefix) {
      forall i | 0 <= i < |prefix| ensures l[i] == prefix[i] {
        assert IsLetter(metric[i], prefix[i]);
      }
    }
  }

  /** The case of the label does not matter. */
  lemma BucketIff(metric: string)
    ensures BucketFor(metric) == CpuBucket <==>
              StartsLike(metric, "cpu") || StartsLike(metric, "processor") || StartsLike(metric, "process.")
  {
    LowerPrefix(metric, "cpu");
    LowerPrefix(metric, "processor");
    LowerPrefix(metric, "process.");
  }

  /** Without an override the default holds; with one, a null switches the threshold off, a number
      replaces it, and anything else leaves the default. */
  lemma ThresholdsOf(b: Bucket, overrides: map<Bucket, Override>)
    ensures var l := ResolveThresholds(b, overrides);
            var default := if b == CpuBucket then 80.0 else 85.0;
            if b !in overrides then l.warning == Some(default) && l.critical == Some(95.0)
            else
              var o := overrides[b];
              && (o.warning == Null <==> l.warning == None)
              && (forall v | o.warning == Number(v) :: l.warning == Some(v))
              && (o.warning == Absent || o.warning == Malformed ==> l.warning == Some(default))
              && (o.critical == Null <==> l.critical == None)
              && (forall v | o.critical == Number(v) :: l.critical == Some(v))
              && (o.critical == Absent || o.critical == Malformed ==> l.critical == Some(95.0))
  {
  }

  /** What a verdict reports of its reading; a value at a threshold reaches it. */
  lemma VerdictOf(r: Reading, overrides: map<Bucket, Override>)
    ensures var v := Judge(r, overrides);
            && v.metric == r.metric && v.value == r.value && v.bucket == BucketFor(r.metric)
            && v.limits == ResolveThresholds(v.bucket, overrides)
            && (v.status == Critical <==> v.limits.critical.Some? && r.value >= v.limits.critical.value)
            && (v.status == Warning <==>
                  && (v.limits.critical.Some? ==> r.value < v.limits.critical.value)
                  && v.limits.warning.Some? && r.value >= v.limits.warning.value)
            && v.status != Unknown
  {
  }

  // ---- Health ----

  /** Some numeric field of a processor table, or of a memory table, is at least `least`. */
  predicate CpuAtLeast(p: Payload, least: real) {
    || (exists c :: c in p.cpus && (AtLeast(c.oneMin, least) || AtLeast(c.fiveMin, least)))
    || (exists q :: q in p.processes
                    && (AtLeast(q.fiveSec, least) || AtLeast(q.oneMin, least) || AtLeast(q.fiveMin, least)))
    || (exists q :: q in p.processors && AtLeast(q.load, least))
  }

  predicate MemoryAtLeast(p: Payload, least: real) {
    AtLeast(p.memoryUsed, least) || (exists q :: q in p.pools && AtLeast(q.used, least))
  }

  predicate AtLeast(field: Option<real>, least: real) {
    field.Some? && field.value >= least
  }

  predicate NoNumber(p: Payload) {
    && (forall c | c in p.cpus :: c.oneMin == None && c.fiveMin == None)
    && (forall q | q in p.processes :: q.fiveSec == None && q.oneMin == None && q.fiveMin == None)
    && (forall q | q in p.processors :: q.load == None)
    && p.memoryUsed == None
    && (forall q | q in p.pools :: q.used == None)
  }

  /** Some reading is at least `least`. */
  predicate Reaches(readings: seq<Reading>, least: real) {
    exists r :: r in readings && r.value >= least
  }

  lemma ReachesSum(a: seq<Reading>, b: seq<Reading>, least: real)
    ensures Reaches(a + b, least) <==> Reaches(a, least) || Reaches(b, least)
  {
    forall r | r in a ensures r in a + b {
    }
    forall r | r in b ensures r in a + b {
    }
  }

  lemma ReachesRead(metric: string, field: Option<real>, least: real)
    ensures Reaches(Read(metric, field), least) <==> AtLeast(field, least)
  {
    if field.Some? {
      assert Reading(metric, field.value) in Read(metric, field);
    }
  }

  lemma ReachesEach<A>(items: seq<A>, f: A -> seq<Reading>, least: real)
    ensures Reaches(Each(items, f), least) <==> exists a :: a in items && Reaches(f(a), least)
  {
    forall r ensures r in Each(items, f) <==> exists a :: a in items && r in f(a) {
      InEach(items, f, r);
    }
    forall a | a in items && Reaches(f(a), least) ensures Reaches(Each(items, f), least) {
      var r :| r in f(a) && r.value >= least;
      assert r in Each(items, f);
    }
  }

  lemma ReachesProcess(q: Process, least: real)
    ensures Reaches(OfProcess(q), least) <==>
              AtLeast(q.fiveSec, least) || AtLeast(q.oneMin, least) || AtLeast(q.fiveMin, least)
  {
    var stem := "process." + q.index + if q.pid != "" then ".pid" + q.pid else "";
    var a, b := Read(stem + ".cpu_5sec_pct", q.fiveSec), Read(stem + ".cpu_1min_pct", q.oneMin);
    var c := Read(stem + ".cpu_5min_pct", q.fiveMin);
    ReachesRead(stem + ".cpu_5sec_pct", q.fiveSec, least);
    ReachesRead(stem + ".cpu_1min_pct", q.oneMin, least);
    ReachesRead(stem + ".cpu_5min_pct", q.fiveMin, least);
    ReachesSum(a, b, least);
    ReachesSum(a + b, c, least);
  }

  lemma ReachesCpu(c: Cpu, least: real)
    ensures Reaches(OfCpu(c), least) <==> AtLeast(c.oneMin, least) || AtLeast(c.fiveMin, least)
  {
    var stem := "cpu." + c.index;
    ReachesRead(stem + ".cpu_1min_pct", c.oneMin, least);
    ReachesRead(stem + ".cpu_5min_pct", c.fiveMin, least);
    ReachesSum(Read(stem + ".cpu_1min_pct", c.oneMin), Read(stem + ".cpu_5min_pct", c.fiveMin), least);
  }

  lemma CpuReaches(p: Payload, least: real)
    ensures Reaches(ProcessorReadings(p), least) <==> CpuAtLeast(p, least)
  {
    ReachesEach(p.cpus, OfCpu, least);
    ReachesEach(p.processes, OfProcess, least);
    ReachesEach(p.processors, OfProcessor, least);
    ReachesSum(Each(p.cpus, OfCpu), Each(p.processes, OfProcess), least);
    ReachesSum(Each(p.cpus, OfCpu) + Each(p.processes, OfProcess), Each(p.processors, OfProcessor), least);
    forall c: Cpu ensures Reaches(OfCpu(c), least) <==> AtLeast(c.oneMin, least) || AtLeast(c.fiveMin, least) {
      ReachesCpu(c, least);
    }
    forall q: Process
      ensures Reaches(OfProcess(q), least) <==>
                AtLeast(q.fiveSec, least) || AtLeast(q.oneMin, least) || AtLeast(q.fiveMin, least)
    {
      ReachesProcess(q, least);
    }
    forall q: Processor ensures Reaches(OfProcessor(q), least) <==> AtLeast(q.load, least) {
      ReachesRead("processor." + q.index + ".load_pct", q.load, least);
    }
  }

  lemma MemoryReaches(p: Payload, least: real)
    ensures Reaches(MemoryReadings(p), least) <==> MemoryAtLeast(p, least)
  {
    ReachesEach(p.pools, OfPool, least);
    ReachesRead("memory.used_pct", p.memoryUsed, least);
    ReachesSum(Read("memory.used_pct", p.memoryUsed), Each(p.pools, OfPool), least);
    forall q: Pool ensures Reaches(OfPool(q), least) <==> AtLeast(q.used, least) {
      ReachesRead("memory_pool." + (if q.name != "" then q.name else "pool" + q.index) + ".used_pct", q.used, least);
    }
  }

  lemma {:induction false} EachEmpty<A>(items: seq<A>, f: A -> seq<Reading>)
    ensures Each(items, f) == [] <==> forall a | a in items :: f(a) == []
    decreases |items|
  {
    if items != [] {
      var n := |items| - 1;
      EachEmpty(items[..n], f);
      assert items == items[..n] + [items[n]];
    }
  }

  lemma NoReadings(p: Payload)
    ensures Readings(p) == [] <==> NoNumber(p)
  {
    EachEmpty(p.cpus, OfCpu);
    EachEmpty(p.processes, OfProcess);
    EachEmpty(p.processors, OfProcessor);
    EachEmpty(p.pools, OfPool);
    forall q: Process ensures OfProcess(q) == [] <==> q.fiveSec == None && q.oneMin == None && q.fiveMin == None {
    }
  }

  /** A threshold of the processor tables, or one of the memory tables, is reached; `None` never is. */
  predicate SomeReaches(p: Payload, cpu: Option<real>, memory: Option<real>) {
    (cpu.Some? && CpuAtLeast(p, cpu.value)) || (memory.Some? && MemoryAtLeast(p, memory.value))
  }

  lemma BreachIff(p: Payload, cpu: Option<real>, memory: Option<real>, limit: Bucket -> Option<real>)
    requires limit(CpuBucket) == cpu && limit(MemoryBucket) == memory
    ensures (exists r :: r in Readings(p) && Breaches(r.value, limit(BucketFor(r.metric))))
            <==> SomeReaches(p, cpu, memory)
  {
    LabelsLandInTheirBucket(p);
    forall r ensures r in Readings(p) <==> r in ProcessorReadings(p) || r in MemoryReadings(p) {
    }
    if cpu.Some? {
      CpuReaches(p, cpu.value);
    }
    if memory.Some? {
      MemoryReaches(p, memory.value);
    }
    forall r | r in Readings(p) && Breaches(r.value, limit(BucketFor(r.metric))) ensures SomeReaches(p, cpu, memory) {
      if r in ProcessorReadings(p) {
        assert Reaches(ProcessorReadings(p), cpu.value);
      } else {
        assert Reaches(MemoryReadings(p), memory.value);
      }
    }
    if cpu.Some? && CpuAtLeast(p, cpu.value) {
      var r :| r in ProcessorReadings(p) && r.value >= cpu.value;
      assert r in Readings(p);
    } else if memory.Some? && MemoryAtLeast(p, memory.value) {
      var r :| r in MemoryReadings(p) && r.value >= memory.value;
      assert r in Readings(p);
    }
  }

  /** The health of a payload under any overrides, from its numeric fields. */
  lemma HealthOfFields(p: Payload, overrides: map<Bucket, Override>, s: Status)
    ensures IsHealth(Readings(p), overrides, s) <==>
              var cpu, memory := ResolveThresholds(CpuBucket, overrides), ResolveThresholds(MemoryBucket, overrides);
              s == (if NoNumber(p) then Unknown
                    else if SomeReaches(p, cpu.critical, memory.critical) then Critical
                    else if SomeReaches(p, cpu.warning, memory.warning) then Warning
                    else Status.Ok)
  {
    var cpu, memory := ResolveThresholds(CpuBucket, overrides), ResolveThresholds(MemoryBucket, overrides);
    HealthMeaning(Readings(p), overrides, s);
    NoReadings(p);
    BreachIff(p, cpu.critical, memory.critical, b => ResolveThresholds(b, overrides).critical);
    BreachIff(p, cpu.warning, memory.warning, b => ResolveThresholds(b, overrides).warning);
  }

  /** Without overrides: critical from 95 percent on, a warning from 80 percent of a processor or 85
      percent of memory on. */
  lemma DefaultHealth(p: Payload, s: Status)
    requires IsHealth(Readings(p), map[], s)
    ensures s == Critical <==> CpuAtLeast(p, 95.0) || MemoryAtLeast(p, 95.0)
    ensures s == Warning <==>
              (CpuAtLeast(p, 80.0) || MemoryAtLeast(p, 85.0)) && !(CpuAtLeast(p, 95.0) || MemoryAtLeast(p, 95.0))
    ensures s == Unknown <==> NoNumber(p)
    ensures s == Status.Ok <==> !NoNumber(p) && !CpuAtLeast(p, 80.0) && !MemoryAtLeast(p, 85.0)
  {
    HealthOfFields(p, map[], s);
    ThresholdsOf(CpuBucket, map[]);
    ThresholdsOf(MemoryBucket, map[]);
  }
}
