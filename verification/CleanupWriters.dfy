/** A run among other writers: what they do between its batches, and a run that they leave stuck. */
module CleanupWriters {
  import opened Wrappers
  import opened Incidents
  import opened Cleanup
  import opened CleanupUndo
  import opened CleanupRuns
  import opened CleanupSchedule

  /** A transaction of the application: rows written, rows deleted. */
  datatype Write = Write(incidents: Table, gone: set<Id>, cells: map<Cell, Option<Id>>, dropped: set<Cell>)

  function Touches(w: Write): set<Id> {
    w.incidents.Keys + w.gone
  }

  function Written(db: Db, w: Write): Db {
    db.(incidents := db.incidents - w.gone + w.incidents, cells := db.cells - w.dropped + w.cells)
  }

  /** A write, row by row: a row written holds what was written, a row deleted is gone, others stay. */
  lemma WrittenColumns(db: Db, w: Write, i: Id, c: Cell)
    ensures var d := Written(db, w);
            && (i in d.incidents <==> i in w.incidents || (i in db.incidents && i !in w.gone))
            && (i in d.incidents ==>
                  d.incidents[i] == if i in w.incidents then w.incidents[i] else db.incidents[i])
            && (c in d.cells <==> c in w.cells || (c in db.cells && c !in w.dropped))
            && (c in d.cells ==> d.cells[c] == if c in w.cells then w.cells[c] else db.cells[c])
            && d.pending == db.pending && d.undo == db.undo && d.relinks == db.relinks
  {
  }

  /** What is committed after the first transaction of a run. Crashes and restarted processes leave no
      event of their own. */
  datatype Event = Batched(batch: Batch) | Wrote(write: Write)

  /** Batches of the run and writes in any order. Until its batch an incident of the run may be
      written in any way, also so that the batch skips it; `taken` are those that had their batch. */
  predicate Plays(db: Db, run: Id, taken: set<Id>, events: seq<Event>, end: Db)
    decreases |events|
  {
    if events == [] then end == db
    else match events[0]
      case Batched(b) =>
        && b.pick <= PendingOf(db, run) && TryBatch(db, b).Ok?
        && Plays(TryBatch(db, b).value, run, taken + b.pick, events[1..], end)
      case Wrote(w) => Touches(w) !! taken && Plays(Written(db, w), run, taken, events[1..], end)
  }

  /** Only the writes. */
  function WithWrites(db: Db, events: seq<Event>): Db
    decreases |events|
  {
    if events == [] then db
    else WithWrites(if events[0].Wrote? then Written(db, events[0].write) else db, events[1..])
  }

  /** Only the batches. */
  function Batches(events: seq<Event>): seq<Batch> {
    if events == [] then []
    else (if events[0].Batched? then [events[0].batch] else []) + Batches(events[1..])
  }

  predicate Avoids(events: seq<Event>, ids: set<Id>) {
    forall k | 0 <= k < |events| && events[k].Wrote? :: Touches(events[k].write) !! ids
  }

  lemma {:induction false} TakenIsAvoided(db: Db, run: Id, taken: set<Id>, events: seq<Event>, end: Db, ids: set<Id>)
    requires Plays(db, run, taken, events, end) && ids <= taken
    ensures Avoids(events, ids)
    decreases |events|
  {
    if events != [] {
      match events[0] {
        case Batched(b) => TakenIsAvoided(TryBatch(db, b).value, run, taken + b.pick, events[1..], end, ids);
        case Wrote(w) => TakenIsAvoided(Written(db, w), run, taken, events[1..], end, ids);
      }
      assert forall k | 1 <= k < |events| :: events[k] == events[1..][k - 1];
    }
  }

  lemma WriteKeepsArchivable(db: Db, w: Write, i: Id)
    requires i !in Touches(w)
    ensures Archivable(Written(db, w), i) <==> Archivable(db, i)
    ensures i in db.incidents <==> i in Written(db, w).incidents
    ensures i in db.incidents ==> Written(db, w).incidents[i] == db.incidents[i]
  {
  }

  lemma WriteCommutesTable(db: Db, w: Write, chosen: set<Id>, when: map<Id, int>)
    requires chosen <= when.Keys && Touches(w) !! chosen
    ensures Written(Archiving(db, chosen, when), w).incidents == ArchivedTable(Written(db, w), chosen, when)
  {
    forall i | i in chosen ensures Archivable(Written(db, w), i) <==> Archivable(db, i) {
      WriteKeepsArchivable(db, w, i);
    }
  }

  lemma WriteCommutesUndo(db: Db, w: Write, chosen: set<Id>, when: map<Id, int>)
    requires chosen <= when.Keys && Touches(w) !! chosen
    ensures UndoRows(db, chosen, when) == UndoRows(Written(db, w), chosen, when)
  {
    forall i | i in chosen ensures Archivable(Written(db, w), i) <==> Archivable(db, i) {
      WriteKeepsArchivable(db, w, i);
    }
  }

  /** A write after a batch might as well have come before it. */
  lemma WriteCommutes(db: Db, w: Write, chosen: set<Id>, when: map<Id, int>)
    requires chosen <= when.Keys && Touches(w) !! chosen
    ensures Written(Archiving(db, chosen, when), w) == Archiving(Written(db, w), chosen, when)
  {
    WriteCommutesTable(db, w, chosen, when);
    WriteCommutesUndo(db, w, chosen, when);
  }

  lemma {:induction false} WritesCommute(db: Db, events: seq<Event>, chosen: set<Id>, when: map<Id, int>)
    requires chosen <= when.Keys && Avoids(events, chosen)
    ensures WithWrites(Archiving(db, chosen, when), events) == Archiving(WithWrites(db, events), chosen, when)
    decreases |events|
  {
    if events != [] {
      assert forall k | 0 <= k < |events| - 1 :: events[1..][k] == events[k + 1];
      if events[0].Wrote? {
        WriteCommutes(db, events[0].write, chosen, when);
        WritesCommute(Written(db, events[0].write), events[1..], chosen, when);
      } else {
        WritesCommute(db, events[1..], chosen, when);
      }
    }
  }

  lemma OneBatchMore(db: Db, b: Batch, rest: seq<Batch>, when: map<Id, int>)
    requires b.pick !! Picked(rest) && when == Stamps([b] + rest)
    ensures Archiving(Archiving(db, b.pick, Stamp(b.pick, b.now)), Picked(rest), Stamps(rest))
            == Archiving(db, Picked([b] + rest), when)
  {
    assert ([b] + rest)[1..] == rest;
    var d := Archiving(db, b.pick, Stamp(b.pick, b.now));
    ArchivingLocal(db, b.pick, Stamp(b.pick, b.now), when);
    ArchivingLocal(d, Picked(rest), Stamps(rest), when);
    ArchivingCompose(db, b.pick, Picked(rest), when);
  }

  lemma WritePending(db: Db, w: Write, run: Id)
    ensures PendingOf(Written(db, w), run) == PendingOf(db, run)
  {
  }

  /** However the writes of others fall between the batches, the end is that of all writes first and
      then one archive step over everything the batches picked. Each batch judges an incident by what
      the writes have made of it. */
  lemma {:induction false} WritesThenOneStep(db: Db, run: Id, taken: set<Id>, events: seq<Event>, end: Db)
    requires Plays(db, run, taken, events, end)
    ensures Picked(Batches(events)) <= PendingOf(db, run)
    ensures PendingOf(end, run) == PendingOf(db, run) - Picked(Batches(events))
    ensures end == Archiving(WithWrites(db, events), Picked(Batches(events)), Stamps(Batches(events)))
    decreases |events|
  {
    if events == [] {
      ArchivingNothing(db);
    } else {
      var rest := events[1..];
      match events[0] {
        case Batched(b) =>
          var w := Stamp(b.pick, b.now);
          var d := Archiving(db, b.pick, w);
          WritesThenOneStep(d, run, taken + b.pick, rest, end);
          PendingAfter(db, run, b.pick, w);
          TakenIsAvoided(d, run, taken + b.pick, rest, end, b.pick);
          WritesCommute(db, rest, b.pick, w);
          BatchFirst(events, b);
          OneBatchMore(WithWrites(db, rest), b, Batches(rest), Stamps(Batches(events)));
        case Wrote(w) =>
          WritesThenOneStep(Written(db, w), run, taken, rest, end);
          WritePending(db, w, run);
          assert Batches(events) == Batches(rest);
      }
    }
  }

  lemma BatchFirst(events: seq<Event>, b: Batch)
    requires events != [] && events[0] == Batched(b)
    ensures Batches(events) == [b] + Batches(events[1..])
    ensures Picked(Batches(events)) == b.pick + Picked(Batches(events[1..]))
  {
    assert Batches(events)[1..] == Batches(events[1..]);
  }

  lemma CompletePlay(db: Db, run: Id, events: seq<Event>, end: Db)
    requires Plays(db, run, {}, events, end) && PendingOf(end, run) == {}
    ensures Picked(Batches(events)) == PendingOf(db, run)
    ensures end == Archiving(WithWrites(db, events), PendingOf(db, run), Stamps(Batches(events)))
  {
    WritesThenOneStep(db, run, {}, events, end);
    assert Picked(Batches(events)) == PendingOf(db, run);
  }

  /** A complete run among other writers, by any number of processes that crashed anywhere: the
      duplicates of its snapshot are archived in one step after all writes, but those whose status
      the writes had changed. */
  lemma RunAmongWriters(start: Db, run: Id, rows: map<Id, PendingRow>, events: seq<Event>, end: Db)
    requires RowsOk(start, run, rows) && Plays(Started(start, run, rows), run, {}, events, end)
    requires PendingOf(end, run) == {}
    ensures Picked(Batches(events)) == rows.Keys
    ensures end == Archiving(WithWrites(Started(start, run, rows), events), rows.Keys, Stamps(Batches(events)))
  {
    CompletePlay(Started(start, run, rows), run, events, end);
    PendingStarted(start, run, rows);
  }

  // ---- A run that is left stuck ----

  function Reopened(db: Db, i: Id, was: Incident): Db {
    db.(incidents := db.incidents[i := was])
  }

  predicate OnlyThoseClosed(m: Table, archived: Table, ids: set<Id>) {
    && archived.Keys == m.Keys
    && forall j | j in m :: if j in ids then !archived[j].status.IsOpen() else archived[j] == m[j]
  }

  lemma OneLeft(m: Table, archived: Table, t: Id, i: Id)
    requires i in Duplicates(m, t) && OnlyThoseClosed(m, archived, Duplicates(m, t))
    ensures Duplicates(archived[i := m[i]], t) == {i}
  {
    var others := Duplicates(m, t) - {i};
    RankingAfter(m, archived[i := m[i]], t, others);
    assert Duplicates(m, t) - others == {i};
  }

  lemma RunCloses(start: Db, run: Id, rows: map<Id, PendingRow>, when: map<Id, int>)
    requires RunPoint(start, run, rows, rows.Keys, when)
    ensures OnlyThoseClosed(start.incidents, RunTo(start, run, rows, rows.Keys, when).incidents, rows.Keys)
  {
    StartedArchivable(start, run, rows, rows.Keys, when);
  }

  lemma ReopenedRanks(start: Db, t: Id, run: Id, when: map<Id, int>, db: Db, i: Id)
    requires At(start, t, run, Duplicates(start.incidents, t), when, db) && i in Duplicates(start.incidents, t)
    ensures Duplicates(Reopened(db, i, start.incidents[i]).incidents, t) == {i}
  {
    var rows := Rows(start, t, run);
    assert rows.Keys == Duplicates(start.incidents, t) by {
      SnapshotOk(start, t, run);
    }
    RunCloses(start, run, rows, when);
    OneLeft(start.incidents, db.incidents, t, i);
  }

  /** A new run over one incident to which nothing is attached changes no reference. */
  lemma NoMoves(db: Db, run: Id, rows: map<Id, PendingRow>, i: Id)
    requires RowsOk(db, run, rows) && rows.Keys == {i}
    requires forall c | c in db.cells && c.fk in Fks(db) :: db.cells[c] != Some(i)
    ensures Started(db, run, rows).cells == db.cells
  {
    assert forall j | j in db.pending :: j !in PendingOf(db, run);
    assert forall c :: !Relinkable(Snapshot(db, rows), run, Fks(db), c);
  }

  lemma StartsWithoutMoves(db: Db, t: Id, run: Id, i: Id)
    requires Startable(db, t, run) && Duplicates(db.incidents, t) == {i}
    requires forall c | c in db.cells && c.fk in Fks(db) :: db.cells[c] != Some(i)
    requires FirstWithoutId(db.catalog, db.lacksId) == None && UniqueOk(db.cells, db.exclusive)
    ensures TryStart(db, t, run) == Ok(Some(Started(db, run, Rows(db, t, run))))
  {
    SnapshotOk(db, t, run);
    NoMoves(db, run, Rows(db, t, run), i);
    assert i in Rows(db, t, run);
  }

  lemma OnlyPending(db: Db, run: Id, i: Id)
    requires PendingOf(db, run) == {i} && Archivable(db, i)
    ensures CanFinish(db, run) <==> i !in db.undo
  {
    StuckIff(db, run);
    assert AnyBlocked(db, {i}) <==> Blocked(db, i);
  }

  /** How a run gets stuck. A run is complete; then one of its incidents is reopened by other means, as
      it was, and so ranks as a duplicate again. The next run starts and commits its first
      transaction, but can never finish while the undo row of the first run is there. */
  lemma ReopenedRunIsStuck(start: Db, t: Id, run: Id, when: map<Id, int>, db: Db, i: Id, next: Id)
    requires At(start, t, run, Duplicates(start.incidents, t), when, db) && i in Duplicates(start.incidents, t)
    requires FreshRun(db, next) && FirstWithoutId(db.catalog, db.lacksId) == None && UniqueOk(db.cells, db.exclusive)
    ensures var again := Reopened(db, i, start.incidents[i]);
            var d := Started(again, next, Rows(again, t, next));
            && Duplicates(again.incidents, t) == {i} && !TenantPending(again, t)
            && TryStart(again, t, next) == Ok(Some(d))
            && !CanFinish(d, next) && CanFinish(d.(undo := d.undo - {i}), next)
  {
    AfterCompleteRun(start, t, run, when, db, i);
    ReopenedRanks(start, t, run, when, db, i);
    StuckAgain(Reopened(db, i, start.incidents[i]), t, next, i);
  }

  lemma StuckAgain(db: Db, t: Id, run: Id, i: Id)
    requires FreshRun(db, run) && !TenantPending(db, t) && Duplicates(db.incidents, t) == {i}
    requires i !in db.pending && i in db.undo
    requires forall c | c in db.cells && c.fk in Fks(db) :: db.cells[c] != Some(i)
    requires FirstWithoutId(db.catalog, db.lacksId) == None && UniqueOk(db.cells, db.exclusive)
    ensures var d := Started(db, run, Rows(db, t, run));
            && TryStart(db, t, run) == Ok(Some(d))
            && !CanFinish(d, run) && CanFinish(d.(undo := d.undo - {i}), run)
  {
    assert Duplicates(db.incidents, t) * db.pending.Keys == {};
    StartsWithoutMoves(db, t, run, i);
    StuckAfterStart(db, t, run, i);
  }

  lemma AfterCompleteRun(start: Db, t: Id, run: Id, when: map<Id, int>, db: Db, i: Id)
    requires At(start, t, run, Duplicates(start.incidents, t), when, db) && i in Duplicates(start.incidents, t)
    ensures !TenantPending(db, t) && i !in db.pending && i in db.undo && i in db.incidents
    ensures forall c | c in db.cells && c.fk in Fks(db) :: db.cells[c] != Some(i)
  {
    var rows, all := Rows(start, t, run), Duplicates(start.incidents, t);
    PendingAt(start, t, run, all, when, db);
    SnapshotOk(start, t, run);
    PendingRows(start, run, rows, all, when);
    UndoRowsAt(start, run, rows, all, when);
    assert i in UndoOf(db, run);
    StartedArchivable(start, run, rows, all, when);
    NothingOnRow(start, run, rows, all, when, i);
  }

  lemma StuckAfterStart(db: Db, t: Id, run: Id, i: Id)
    requires FreshRun(db, run) && Duplicates(db.incidents, t) == {i} && i !in db.pending && i in db.undo
    ensures var d := Started(db, run, Rows(db, t, run));
            !CanFinish(d, run) && CanFinish(d.(undo := d.undo - {i}), run)
  {
    var d := Started(db, run, Rows(db, t, run));
    assert Rows(db, t, run).Keys == {i};
    assert forall j | j in db.pending :: j !in PendingOf(db, run);
    assert PendingOf(d, run) == {i};
    OnlyPending(d, run, i);
    var e := d.(undo := d.undo - {i});
    assert PendingOf(e, run) == {i};
    OnlyPending(e, run, i);
  }
}
