/** Crashes, reruns and batch sizes do not matter: every schedule of a tenant's cleanup ends
    where archiving all duplicates in one step would. */
module CleanupSchedule {
  import opened Wrappers
  import opened Incidents
  import opened Cleanup
  import opened CleanupUndo
  import opened CleanupRuns

  // ---- Batches ----

  /** One archive transaction: the rows `LIMIT` happened to pick, and its clock reading. */
  datatype Batch = Batch(pick: set<Id>, now: int)

  function Stamp(pick: set<Id>, now: int): map<Id, int> {
    map i | i in pick :: now
  }

  predicate ValidPick(db: Db, run: Id, limit: nat, pick: set<Id>) {
    && pick <= PendingOf(db, run)
    && |pick| == if limit <= |PendingOf(db, run)| then limit else |PendingOf(db, run)|
  }

  predicate AnyBlocked(db: Db, pick: set<Id>) {
    exists i | i in pick :: Blocked(db, i)
  }

  function TryBatch(db: Db, b: Batch): Result<Db, Failure>
    requires b.pick <= db.pending.Keys
  {
    if AnyBlocked(db, b.pick) then Err(UniqueViolation)
    else Ok(Archiving(db, b.pick, Stamp(b.pick, b.now)))
  }

  /** The committed batches of one process, from `db` to `end`; it may stop anywhere. */
  predicate Drains(db: Db, run: Id, limit: nat, batches: seq<Batch>, end: Db)
    decreases |batches|
  {
    if batches == [] then end == db
    else
      && ValidPick(db, run, limit, batches[0].pick)
      && TryBatch(db, batches[0]).Ok?
      && Drains(TryBatch(db, batches[0]).value, run, limit, batches[1..], end)
  }

  function Picked(batches: seq<Batch>): set<Id> {
    if batches == [] then {} else batches[0].pick + Picked(batches[1..])
  }

  function Stamps(batches: seq<Batch>): (w: map<Id, int>)
    ensures w.Keys == Picked(batches)
  {
    if batches == [] then map[] else Stamps(batches[1..]) + Stamp(batches[0].pick, batches[0].now)
  }

  lemma ArchivingLocal(db: Db, chosen: set<Id>, w1: map<Id, int>, w2: map<Id, int>)
    requires chosen <= w1.Keys && chosen <= w2.Keys
    requires forall i | i in chosen :: w1[i] == w2[i]
    ensures Archiving(db, chosen, w1) == Archiving(db, chosen, w2)
  {
    assert ArchivedTable(db, chosen, w1) == ArchivedTable(db, chosen, w2);
    assert UndoRows(db, chosen, w1) == UndoRows(db, chosen, w2);
  }

  lemma ArchivableLater(db: Db, c1: set<Id>, when: map<Id, int>, i: Id)
    requires c1 <= when.Keys && i !in c1
    ensures Archivable(Archiving(db, c1, when), i) <==> Archivable(db, i)
    ensures Blocked(Archiving(db, c1, when), i) <==> Blocked(db, i)
    ensures i in db.pending ==> Archiving(db, c1, when).pending[i] == db.pending[i]
    ensures i in db.incidents ==> Archiving(db, c1, when).incidents[i] == db.incidents[i]
  {
  }

  lemma ArchivedTableCompose(db: Db, c1: set<Id>, c2: set<Id>, when: map<Id, int>)
    requires c1 !! c2 && c1 + c2 <= when.Keys
    ensures ArchivedTable(Archiving(db, c1, when), c2, when) == ArchivedTable(db, c1 + c2, when)
  {
    forall i | i !in c1 ensures Archivable(Archiving(db, c1, when), i) <==> Archivable(db, i) {
      ArchivableLater(db, c1, when, i);
    }
  }

  lemma UndoRowsCompose(db: Db, c1: set<Id>, c2: set<Id>, when: map<Id, int>)
    requires c1 !! c2 && c1 + c2 <= when.Keys
    ensures UndoRows(db, c1, when) + UndoRows(Archiving(db, c1, when), c2, when) == UndoRows(db, c1 + c2, when)
  {
    var d := Archiving(db, c1, when);
    forall i | i !in c1
      ensures Archivable(d, i) <==> Archivable(db, i)
      ensures i in db.pending ==> d.pending[i] == db.pending[i]
    {
      ArchivableLater(db, c1, when, i);
    }
  }

  /** Two batches are one bigger batch, in any state. */
  lemma ArchivingCompose(db: Db, c1: set<Id>, c2: set<Id>, when: map<Id, int>)
    requires c1 !! c2 && c1 + c2 <= when.Keys
    ensures Archiving(Archiving(db, c1, when), c2, when) == Archiving(db, c1 + c2, when)
  {
    var d := Archiving(db, c1, when);
    ArchivedTableCompose(db, c1, c2, when);
    UndoRowsCompose(db, c1, c2, when);
    MapSumAssociates(db.undo, UndoRows(db, c1, when), UndoRows(d, c2, when));
    assert db.pending - c1 - c2 == db.pending - (c1 + c2);
  }

  lemma PendingAfter(db: Db, run: Id, chosen: set<Id>, when: map<Id, int>)
    requires chosen <= PendingOf(db, run) && chosen <= when.Keys
    ensures PendingOf(Archiving(db, chosen, when), run) == PendingOf(db, run) - chosen
  {
  }

  lemma ArchivingNothing(db: Db)
    ensures Archiving(db, {}, map[]) == db
  {
    assert ArchivedTable(db, {}, map[]) == db.incidents;
    assert db.undo + UndoRows(db, {}, map[]) == db.undo;
    assert db.pending - {} == db.pending;
  }

  /** Whatever the batch size and the picks, and whatever others did to the incidents before,
      the committed batches of a process amount to one archiving step over all they picked. */
  lemma {:induction false} DrainIsOneStep(db: Db, run: Id, limit: nat, batches: seq<Batch>, end: Db)
    requires Drains(db, run, limit, batches, end)
    ensures Picked(batches) <= PendingOf(db, run) && !AnyBlocked(db, Picked(batches))
    ensures end == Archiving(db, Picked(batches), Stamps(batches))
    decreases |batches|
  {
    if batches == [] {
      ArchivingNothing(db);
    } else {
      var b, rest := batches[0], batches[1..];
      var w0, when := Stamp(b.pick, b.now), Stamps(batches);
      var d := Archiving(db, b.pick, w0);
      DrainIsOneStep(d, run, limit, rest, end);
      PendingAfter(db, run, b.pick, w0);
      ArchivingLocal(db, b.pick, w0, when);
      ArchivingLocal(d, Picked(rest), Stamps(rest), when);
      ArchivingCompose(db, b.pick, Picked(rest), when);
      forall i | i in Picked(batches) && i !in b.pick ensures !Blocked(db, i) {
        ArchivableLater(db, b.pick, w0, i);
      }
    }
  }

  /** What `k` batches of `limit` leave of `p` rows. */
  function Left(p: nat, limit: nat, k: nat): nat {
    if limit * k <= p then p - limit * k else 0
  }

  lemma OneBatchFewer(p: nat, limit: nat, k: nat)
    ensures Left(Left(p, limit, 1), limit, k) == Left(p, limit, k + 1)
  {
    assert limit * (k + 1) == limit * k + limit;
    assert limit * 1 == limit && limit * k >= 0;
  }

  lemma BatchLeaves(db: Db, run: Id, limit: nat, b: Batch)
    requires ValidPick(db, run, limit, b.pick)
    ensures |PendingOf(Archiving(db, b.pick, Stamp(b.pick, b.now)), run)| == Left(|PendingOf(db, run)|, limit, 1)
  {
    PendingAfter(db, run, b.pick, Stamp(b.pick, b.now));
    assert |PendingOf(db, run) - b.pick| == |PendingOf(db, run)| - |b.pick|;
  }

  /** Each batch of `limit` rows leaves `limit` fewer, down to none: with `limit >= 1` the loop
      ends after |pending| / limit batches (rounded up), with 0 it never gets anywhere. */
  lemma {:induction false} DrainRemaining(db: Db, run: Id, limit: nat, batches: seq<Batch>, end: Db)
    requires Drains(db, run, limit, batches, end)
    ensures |PendingOf(end, run)| == Left(|PendingOf(db, run)|, limit, |batches|)
    decreases |batches|
  {
    if batches != [] {
      var b := batches[0];
      BatchLeaves(db, run, limit, b);
      DrainRemaining(Archiving(db, b.pick, Stamp(b.pick, b.now)), run, limit, batches[1..], end);
      OneBatchFewer(|PendingOf(db, run)|, limit, |batches| - 1);
    }
  }

  ghost predicate DrainsAll(db: Db, run: Id, limit: nat, batches: seq<Batch>, end: Db) {
    Drains(db, run, limit, batches, end) && PendingOf(end, run) == {}
  }

  ghost predicate CanFinish(db: Db, run: Id) {
    exists limit: nat, batches, end :: DrainsAll(db, run, limit, batches, end)
  }

  /** The UNIQUE on undo.incident_id stops a run exactly when one of its rows would be archived
      although the incident still has an undo row: then no schedule of batches empties the run,
      and otherwise no batch ever fails. */
  lemma StuckIff(db: Db, run: Id)
    ensures CanFinish(db, run) <==> !AnyBlocked(db, PendingOf(db, run))
    ensures !AnyBlocked(db, PendingOf(db, run)) ==>
              forall b: Batch | b.pick <= PendingOf(db, run) :: TryBatch(db, b).Ok?
  {
    forall limit: nat, batches, end | DrainsAll(db, run, limit, batches, end)
      ensures !AnyBlocked(db, PendingOf(db, run))
    {
      DrainIsOneStep(db, run, limit, batches, end);
      PendingAfter(db, run, Picked(batches), Stamps(batches));
      assert Picked(batches) == PendingOf(db, run);
    }
    if !AnyBlocked(db, PendingOf(db, run)) {
      var all := PendingOf(db, run);
      var b := Batch(all, 0);
      var end := Archiving(db, all, Stamp(all, 0));
      PendingAfter(db, run, all, Stamp(all, 0));
      assert Drains(end, run, |all|, [], end);
      assert [b][1..] == [];
      assert DrainsAll(db, run, |all|, [b], end);
    }
  }

  // ---- Processes that crash and are started again ----

  /** One process: the run id it would use, its batch size, whether its first transaction got to
      commit, and the batches it committed before it ended or died. */
  datatype Session = Session(run: Id, batchSize: nat, committed: bool, batches: seq<Batch>)

  predicate PendingRun(db: Db, t: Id, run: Id) {
    exists i | i in db.pending :: db.pending[i].tenant == t && db.pending[i].run == run
  }

  /** `apply_cleanup`: resume a run found pending for the tenant, else start a new one. */
  predicate Runs(db: Db, t: Id, s: Session, end: Db) {
    s.batchSize >= 1 &&
    if TenantPending(db, t) then
      PendingRun(db, t, s.run) && Drains(db, s.run, s.batchSize, s.batches, end)
    else
      && FreshRun(db, s.run)
      && var first := TryStart(db, t, s.run);
         if first.Ok? && first.value.Some? && s.committed then
           Drains(first.value.value, s.run, s.batchSize, s.batches, end)
         else end == db
  }

  ghost predicate Schedule(db: Db, t: Id, sessions: seq<Session>, end: Db)
    decreases |sessions|
  {
    if sessions == [] then end == db
    else exists mid :: Runs(db, t, sessions[0], mid) && Schedule(mid, t, sessions[1..], end)
  }

  /** `db` is `start` with the run's snapshot taken and `done` of it archived. */
  predicate At(start: Db, t: Id, run: Id, done: set<Id>, when: map<Id, int>, db: Db) {
    && Startable(start, t, run)
    && RunPoint(start, run, Rows(start, t, run), done, when)
    && db == RunTo(start, run, Rows(start, t, run), done, when)
  }

  lemma PendingRows(start: Db, run: Id, rows: map<Id, PendingRow>, done: set<Id>, when: map<Id, int>)
    requires RunPoint(start, run, rows, done, when)
    ensures RunTo(start, run, rows, done, when).pending == start.pending + rows - done
    ensures PendingOf(RunTo(start, run, rows, done, when), run) == rows.Keys - done
  {
    var db := RunTo(start, run, rows, done, when);
    assert db.pending == start.pending + rows - done;
    assert forall i | i in start.pending :: i !in PendingOf(start, run);
  }

  lemma PendingOfTenant(start: Db, t: Id, run: Id, rows: map<Id, PendingRow>, done: set<Id>,
                        pending: map<Id, PendingRow>)
    requires !TenantPending(start, t) && done <= rows.Keys
    requires forall i | i in rows :: rows[i].tenant == t && rows[i].run == run
    requires pending == start.pending + rows - done
    ensures forall i | i in pending && pending[i].tenant == t :: pending[i].run == run
    ensures (exists i | i in pending :: pending[i].tenant == t) <==> done != rows.Keys
  {
    if done != rows.Keys {
      assert !(rows.Keys <= done);
      var i :| i in rows.Keys && i !in done;
      assert i in pending && pending[i].tenant == t;
    }
  }

  lemma PendingAt(start: Db, t: Id, run: Id, done: set<Id>, when: map<Id, int>, db: Db)
    requires At(start, t, run, done, when, db)
    ensures PendingOf(db, run) == Duplicates(start.incidents, t) - done
    ensures forall i | i in db.pending && db.pending[i].tenant == t :: db.pending[i].run == run
    ensures TenantPending(db, t) <==> done != Duplicates(start.incidents, t)
  {
    var rows := Rows(start, t, run);
    SnapshotOk(start, t, run);
    PendingRows(start, run, rows, done, when);
    PendingOfTenant(start, t, run, rows, done, db.pending);
  }

  lemma StartedArchivable(start: Db, run: Id, rows: map<Id, PendingRow>, done: set<Id>, when: map<Id, int>)
    requires RunPoint(start, run, rows, done, when)
    ensures var m := RunTo(start, run, rows, done, when).incidents;
            && m.Keys == start.incidents.Keys
            && forall i | i in m ::
                 if i in done then m[i] == Archive(start.incidents[i], when[i]) else m[i] == start.incidents[i]
  {
    assert forall i | i in done :: Archivable(Started(start, run, rows), i);
  }

  lemma RankingAfter(m: Table, m': Table, t: Id, done: set<Id>)
    requires m'.Keys == m.Keys && done <= Duplicates(m, t)
    requires forall i | i in m :: if i in done then !m'[i].status.IsOpen() else m'[i] == m[i]
    ensures Duplicates(m', t) == Duplicates(m, t) - done
  {
    forall i
      ensures i in Duplicates(m', t) <==> i in Duplicates(m, t) && i !in done
    {
      if i in m && i !in done && IsCandidate(m, t, i) {
        KeeperSurvives(m, m', t, i);
        OneKeeperPerGroup(m, t, i, i);
        OneKeeperPerGroup(m', t, i, i);
      }
    }
  }

  lemma DuplicatesLeft(start: Db, t: Id, run: Id, rows: map<Id, PendingRow>, done: set<Id>, when: map<Id, int>)
    requires RunPoint(start, run, rows, done, when) && rows.Keys == Duplicates(start.incidents, t)
    ensures Duplicates(RunTo(start, run, rows, done, when).incidents, t) == Duplicates(start.incidents, t) - done
  {
    StartedArchivable(start, run, rows, done, when);
    RankingAfter(start.incidents, RunTo(start, run, rows, done, when).incidents, t, done);
  }

  /** Archiving part of the duplicates leaves exactly the others as duplicates: no group gets a
      new keeper. In particular a dry run taken between two batches still finds work. */
  lemma DuplicatesAt(start: Db, t: Id, run: Id, done: set<Id>, when: map<Id, int>, db: Db)
    requires At(start, t, run, done, when, db)
    ensures Duplicates(db.incidents, t) == Duplicates(start.incidents, t) - done
  {
    var rows := Rows(start, t, run);
    assert RunPoint(start, run, rows, done, when) && rows.Keys == Duplicates(start.incidents, t) by {
      SnapshotOk(start, t, run);
    }
    DuplicatesLeft(start, t, run, rows, done, when);
  }

  lemma NothingToStart(db: Db, t: Id, run: Id)
    requires Duplicates(db.incidents, t) == {}
    ensures TryStart(db, t, run) == Ok(None)
  {
    assert SnapshotRows(db.incidents, t, run) == map[];
  }

  /** A tenant whose duplicates are all archived: another apply commits nothing. */
  lemma ApplyIsFixpoint(start: Db, t: Id, run: Id, when: map<Id, int>, db: Db, s: Session, end: Db)
    requires At(start, t, run, Duplicates(start.incidents, t), when, db) && Runs(db, t, s, end)
    ensures Duplicates(db.incidents, t) == {} && TryStart(db, t, s.run) == Ok(None) && end == db
  {
    var all := Duplicates(start.incidents, t);
    assert !TenantPending(db, t) by {
      PendingAt(start, t, run, all, when, db);
    }
    assert Duplicates(db.incidents, t) == {} by {
      DuplicatesAt(start, t, run, all, when, db);
    }
    NothingToStart(db, t, s.run);
  }

  /** Continuing a half-archived state is archiving more at once. */
  lemma DrainOn(s0: Db, run: Id, done: set<Id>, when: map<Id, int>, limit: nat, batches: seq<Batch>, end: Db)
    requires done <= when.Keys && Drains(Archiving(s0, done, when), run, limit, batches, end)
    ensures end == Archiving(s0, done + Picked(batches), when + Stamps(batches))
    ensures Picked(batches) <= PendingOf(Archiving(s0, done, when), run)
    ensures !AnyBlocked(Archiving(s0, done, when), Picked(batches))
  {
    var db := Archiving(s0, done, when);
    var more := Picked(batches);
    var when' := when + Stamps(batches);
    DrainIsOneStep(db, run, limit, batches, end);
    assert done !! more;
    ArchivingLocal(s0, done, when, when');
    ArchivingLocal(db, more, Stamps(batches), when');
    ArchivingCompose(s0, done, more, when');
  }

  /** Rows not yet archived are archivable; those that a batch did archive had no undo row. */
  lemma UnblockedAtStart(start: Db, run: Id, rows: map<Id, PendingRow>, done: set<Id>, when: map<Id, int>,
                         more: set<Id>)
    requires RunPoint(start, run, rows, done, when)
    requires more <= rows.Keys - done && !AnyBlocked(RunTo(start, run, rows, done, when), more)
    ensures more * start.undo.Keys == {}
  {
    var db := RunTo(start, run, rows, done, when);
    forall i | i in more ensures i !in start.undo {
      assert Archivable(db, i);
      assert !Blocked(db, i);
    }
  }

  lemma DrainRun(start: Db, run: Id, rows: map<Id, PendingRow>, done: set<Id>, when: map<Id, int>,
                 limit: nat, batches: seq<Batch>, end: Db)
    requires RunPoint(start, run, rows, done, when)
    requires Drains(RunTo(start, run, rows, done, when), run, limit, batches, end)
    ensures RunPoint(start, run, rows, done + Picked(batches), when + Stamps(batches))
    ensures end == RunTo(start, run, rows, done + Picked(batches), when + Stamps(batches))
  {
    DrainOn(Started(start, run, rows), run, done, when, limit, batches, end);
    PendingRows(start, run, rows, done, when);
    UnblockedAtStart(start, run, rows, done, when, Picked(batches));
  }

  lemma PendingStarted(start: Db, run: Id, rows: map<Id, PendingRow>)
    requires RowsOk(start, run, rows)
    ensures PendingOf(Started(start, run, rows), run) == rows.Keys
  {
    assert forall i | i in start.pending :: i !in PendingOf(start, run);
  }

  lemma UnblockedWhenStarted(start: Db, run: Id, rows: map<Id, PendingRow>, more: set<Id>)
    requires RowsOk(start, run, rows) && more <= rows.Keys && !AnyBlocked(Started(start, run, rows), more)
    ensures more * start.undo.Keys == {}
  {
    var db := Started(start, run, rows);
    forall i | i in more ensures i !in start.undo {
      assert Archivable(db, i);
      assert !Blocked(db, i);
    }
  }

  lemma DrainNewRun(start: Db, run: Id, rows: map<Id, PendingRow>, limit: nat, batches: seq<Batch>, end: Db)
    requires RowsOk(start, run, rows)
    requires Drains(Started(start, run, rows), run, limit, batches, end)
    ensures RunPoint(start, run, rows, Picked(batches), Stamps(batches))
    ensures end == RunTo(start, run, rows, Picked(batches), Stamps(batches))
  {
    PendingStarted(start, run, rows);
    DrainIsOneStep(Started(start, run, rows), run, limit, batches, end);
    UnblockedWhenStarted(start, run, rows, Picked(batches));
  }

  lemma TryStartCommits(db: Db, t: Id, run: Id)
    requires FreshRun(db, run) && !TenantPending(db, t)
    ensures var first := TryStart(db, t, run);
            first.Ok? && first.value.Some? ==>
              && Startable(db, t, run) && first.value.value == Started(db, run, Rows(db, t, run))
              && UniqueOk(first.value.value.cells, db.exclusive)
  {
    assert SnapshotRows(db.incidents, t, run).Keys == Duplicates(db.incidents, t);
  }

  lemma SessionFromStart(start: Db, t: Id, s: Session, end: Db)
    requires Runs(start, t, s, end) && !TenantPending(start, t)
    ensures end == start || At(start, t, s.run, Picked(s.batches), Stamps(s.batches), end)
  {
    TryStartCommits(start, t, s.run);
    var first := TryStart(start, t, s.run);
    if first.Ok? && first.value.Some? && s.committed {
      var rows := Rows(start, t, s.run);
      assert RowsOk(start, s.run, rows) by {
        SnapshotOk(start, t, s.run);
      }
      DrainNewRun(start, s.run, rows, s.batchSize, s.batches, end);
    }
  }

  lemma SessionFromMiddle(start: Db, t: Id, run: Id, done: set<Id>, when: map<Id, int>, db: Db, s: Session, end: Db)
    requires At(start, t, run, done, when, db) && Runs(db, t, s, end) && TenantPending(db, t)
    ensures s.run == run && At(start, t, run, done + Picked(s.batches), when + Stamps(s.batches), end)
  {
    assert s.run == run by {
      PendingAt(start, t, run, done, when, db);
    }
    DrainRun(start, run, Rows(start, t, run), done, when, s.batchSize, s.batches, end);
  }

  lemma SessionFromEnd(start: Db, t: Id, run: Id, done: set<Id>, when: map<Id, int>, db: Db, s: Session, end: Db)
    requires At(start, t, run, done, when, db) && Runs(db, t, s, end) && !TenantPending(db, t)
    ensures end == db
  {
    assert done == Duplicates(start.incidents, t) by {
      PendingAt(start, t, run, done, when, db);
    }
    ApplyIsFixpoint(start, t, run, when, db, s, end);
  }

  /** Untouched, or in the middle or at the end of the run of one of the processes. */
  ghost predicate Reached(start: Db, t: Id, all: seq<Session>, db: Db) {
    db == start || exists s, done, when :: s in all && At(start, t, s.run, done, when, db)
  }

  lemma SessionFromAt(start: Db, t: Id, run: Id, done: set<Id>, when: map<Id, int>, db: Db, s: Session, end: Db)
    returns (done': set<Id>, when': map<Id, int>)
    requires At(start, t, run, done, when, db) && Runs(db, t, s, end)
    ensures At(start, t, run, done', when', end)
  {
    if TenantPending(db, t) {
      SessionFromMiddle(start, t, run, done, when, db, s, end);
      done', when' := done + Picked(s.batches), when + Stamps(s.batches);
    } else {
      SessionFromEnd(start, t, run, done, when, db, s, end);
      done', when' := done, when;
    }
  }

  lemma SessionKeepsReached(start: Db, t: Id, all: seq<Session>, db: Db, s: Session, end: Db)
    requires !TenantPending(start, t) && s in all
    requires Reached(start, t, all, db) && Runs(db, t, s, end)
    ensures Reached(start, t, all, end)
  {
    if db == start {
      SessionFromStart(start, t, s, end);
    } else {
      var r, done, when :| r in all && At(start, t, r.run, done, when, db);
      var done', when' := SessionFromAt(start, t, r.run, done, when, db, s, end);
    }
  }

  lemma {:induction false} ScheduleReaches(start: Db, t: Id, all: seq<Session>, db: Db, sessions: seq<Session>, end: Db)
    requires !TenantPending(start, t) && forall s | s in sessions :: s in all
    requires Reached(start, t, all, db) && Schedule(db, t, sessions, end)
    ensures Reached(start, t, all, end)
    decreases |sessions|
  {
    if sessions != [] {
      var mid :| Runs(db, t, sessions[0], mid) && Schedule(mid, t, sessions[1..], end);
      SessionKeepsReached(start, t, all, db, sessions[0], mid);
      ScheduleReaches(start, t, all, mid, sessions[1..], end);
    }
  }

  /** Any number of processes, each with its own batch size, crashing anywhere, each batch with
      any pick: the tenant is untouched, or some of one run's duplicates are archived; and once
      nothing is pending, the end is the one-step archive of all duplicates of the start. */
  lemma ScheduleRefinesOneStep(start: Db, t: Id, sessions: seq<Session>, end: Db)
    requires !TenantPending(start, t) && Schedule(start, t, sessions, end)
    ensures end == start || exists s, done, when :: s in sessions && At(start, t, s.run, done, when, end)
    ensures end != start && !TenantPending(end, t) ==>
              exists s, when :: s in sessions && At(start, t, s.run, Duplicates(start.incidents, t), when, end)
  {
    ScheduleReaches(start, t, sessions, start, sessions, end);
    if end != start && !TenantPending(end, t) {
      var s, done, when :| s in sessions && At(start, t, s.run, done, when, end);
      PendingAt(start, t, s.run, done, when, end);
    }
  }

  lemma UndoRowsAt(start: Db, run: Id, rows: map<Id, PendingRow>, done: set<Id>, when: map<Id, int>)
    requires RunPoint(start, run, rows, done, when)
    ensures UndoOf(RunTo(start, run, rows, done, when), run) == done
  {
    assert forall i | i in start.undo :: i !in UndoOf(start, run);
    assert forall i | i in done :: Archivable(Started(start, run, rows), i);
  }

  /** And whatever the schedule left, `--undo` of the run of one of its processes gives the start
      back, but for the closing fields of the incidents archived; it is not refused. */
  lemma UndoAfterSchedule(start: Db, t: Id, sessions: seq<Session>, end: Db)
    requires !TenantPending(start, t) && Schedule(start, t, sessions, end) && end != start && Legal(start)
    ensures exists s :: s in sessions && TryUndo(end, s.run) == Ok(ClearedDb(start, UndoOf(end, s.run)))
  {
    ScheduleRefinesOneStep(start, t, sessions, end);
    var s, done, when :| s in sessions && At(start, t, s.run, done, when, end);
    UndoFromAnyPoint(start, s.run, Rows(start, t, s.run), done, when);
    UndoRowsAt(start, s.run, Rows(start, t, s.run), done, when);
    assert TryUndo(end, s.run) == Ok(ClearedDb(start, UndoOf(end, s.run)));
  }
}
