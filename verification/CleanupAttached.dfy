/** When nothing is left attached to an incident that a run archived. */
module CleanupAttached {
  import opened Wrappers
  import opened Incidents
  import opened Cleanup
  import opened CleanupUndo
  import opened CleanupRuns
  import opened CleanupSchedule
  import opened CleanupLedger

  /** A reference in a column of the catalog. */
  predicate Attached(db: Db, c: Cell, i: Id) {
    c in db.cells && c.fk in Fks(db) && db.cells[c] == Some(i)
  }

  /** The steps neither start the run again nor undo it. */
  predicate During(steps: seq<Step>, r: Id) {
    forall k | 0 <= k < |steps| :: !(steps[k].Start? && steps[k].run == r) && !(steps[k].Undo? && steps[k].run == r)
  }

  lemma {:induction false} SnapshotFixed(l: Ledger, r: Id, steps: seq<Step>)
    requires During(steps, r)
    ensures History(l, r, steps).snapshot == l.snapshot
    decreases |steps|
  {
    if steps != [] {
      assert Observe(l, r, steps[0]).snapshot == l.snapshot;
      SnapshotFixed(Observe(l, r, steps[0]), r, steps[1..]);
    }
  }

  /** All states of a play, the first and the last included. */
  function Trail<S, E>(s: S, es: seq<E>, f: (S, E) -> S): (states: seq<S>)
    ensures |states| == |es| + 1 && states[0] == s
    decreases |es|
  {
    [s] + if es == [] then [] else Trail(f(s, es[0]), es[1..], f)
  }

  lemma {:induction false} TrailEnds<S, E>(s: S, es: seq<E>, f: (S, E) -> S)
    ensures Trail(s, es, f)[|es|] == Play(s, es, f)
    decreases |es|
  {
    if es != [] {
      TrailEnds(f(s, es[0]), es[1..], f);
    }
  }

  /** The databases before the first step, between the steps and after the last. */
  function Databases(l: Ledger, r: Id, steps: seq<Step>): (dbs: seq<Db>)
    ensures |dbs| == |steps| + 1
  {
    var states := Trail(l, steps, Observer(r));
    seq(|states|, k requires 0 <= k < |states| => states[k].db)
  }

  lemma DatabaseEnds(l: Ledger, r: Id, steps: seq<Step>)
    ensures Databases(l, r, steps)[0] == l.db && Databases(l, r, steps)[|steps|] == History(l, r, steps).db
  {
    TrailEnds(l, steps, Observer(r));
  }

  /** The step after `dbs[k]` attached the reference, and no later step took it off again. */
  predicate BroughtAndLeft(dbs: seq<Db>, c: Cell, i: Id, k: nat) {
    k + 1 < |dbs| && !Attached(dbs[k], c, i) && forall j | k < j < |dbs| :: Attached(dbs[j], c, i)
  }

  /** Some step attached the reference for good. */
  ghost predicate Arrives(dbs: seq<Db>, c: Cell, i: Id) {
    exists k: nat :: BroughtAndLeft(dbs, c, i, k)
  }

  lemma {:induction false} LastArrival(dbs: seq<Db>, c: Cell, i: Id)
    requires dbs != [] && !Attached(dbs[0], c, i)
    ensures Attached(dbs[|dbs| - 1], c, i) <==> Arrives(dbs, c, i)
    decreases |dbs|
  {
    var n := |dbs| - 1;
    if n > 0 && Attached(dbs[n], c, i) {
      if Attached(dbs[n - 1], c, i) {
        LastArrival(dbs[..n], c, i);
        var k: nat :| BroughtAndLeft(dbs[..n], c, i, k);
        assert forall j | k < j < n :: dbs[..n][j] == dbs[j];
        assert BroughtAndLeft(dbs, c, i, k);
      } else {
        assert BroughtAndLeft(dbs, c, i, n - 1);
      }
    }
  }

  /** What can attach a reference to an incident: a write of the application, the start of a run that
      keeps this incident, which is open then, or the undo of a run that had moved the reference off
      it. A batch never does. */
  lemma AttachingStep(db: Db, s: Step, c: Cell, i: Id)
    requires !Attached(db, c, i) && Attached(Next(db, s), c, i)
    ensures match s
            case Start(t, _) => IsCandidate(db.incidents, t, i)
            case Commit(_, _) => false
            case Undo(run) => RelinkKey(run, c) in db.relinks && db.relinks[RelinkKey(run, c)].from == i
            case Outside(_, _, _, _, _) => true
  {
    assert !s.Outside? ==> Fks(Next(db, s)) == Fks(db);
    if s.Start? {
      StartRows(db, s.tenant, s.run);
      SnapshotOk(db, s.tenant, s.run);
      StartedCell(db, s.run, Rows(db, s.tenant, s.run), c);
      OneKeeperPerGroup(db.incidents, s.tenant, db.cells[c].value, db.cells[c].value);
    }
  }

  lemma StartedDetached(db: Db, run: Id, rows: map<Id, PendingRow>)
    requires RowsOk(db, run, rows) && KeepersOutside(rows)
    ensures forall c, i | i in rows :: !Attached(Started(db, run, rows), c, i)
  {
    var d := Started(db, run, rows);
    assert Fks(d) == Fks(db) && d.cells.Keys == db.cells.Keys;
    forall c, i | i in rows ensures !Attached(d, c, i) {
      if c in db.cells && c.fk in Fks(db) {
        StartedOffRows(db, run, rows, c);
      }
    }
  }

  /** Right after the first transaction nothing is attached to an incident of the snapshot. */
  lemma StartDetaches(l: Ledger, r: Id, t: Id)
    requires Next(l.db, Start(t, r)) != l.db
    ensures var h := Observe(l, r, Start(t, r)); forall c, i | i in h.snapshot :: !Attached(h.db, c, i)
  {
    StartRows(l.db, t, r);
    SnapshotOk(l.db, t, r);
    NewRunPending(l.db, r, Rows(l.db, t, r));
    StartedDetached(l.db, r, Rows(l.db, t, r));
  }

  lemma AllArrivals(dbs: seq<Db>, last: Db, ids: set<Id>)
    requires dbs != [] && last == dbs[|dbs| - 1] && forall c, i | i in ids :: !Attached(dbs[0], c, i)
    ensures (forall c, i | i in ids :: !Attached(last, c, i)) <==> (forall c, i | i in ids :: !Arrives(dbs, c, i))
  {
    forall c, i | i in ids ensures Attached(last, c, i) <==> Arrives(dbs, c, i) {
      LastArrival(dbs, c, i);
    }
  }

  lemma ArchivedInSnapshot(l: Ledger, r: Id, steps: seq<Step>)
    requires Balanced(l, r) && During(steps, r)
    ensures History(l, r, steps).archived.Keys <= l.snapshot.Keys
  {
    SnapshotFixed(l, r, steps);
    Conservation(l, r, steps);
  }

  /** A run that has left nothing attached to its snapshot leaves nothing attached to what it archives,
      exactly if no step attaches a reference that stays. */
  lemma DetachedIff(l: Ledger, r: Id, steps: seq<Step>)
    requires Balanced(l, r) && During(steps, r) && forall c, i | i in l.snapshot :: !Attached(l.db, c, i)
    ensures var h := History(l, r, steps);
            (forall c, i | i in h.archived :: !Attached(h.db, c, i))
            <==> (forall c, i | i in h.archived :: !Arrives(Databases(l, r, steps), c, i))
  {
    ArchivedInSnapshot(l, r, steps);
    DatabaseEnds(l, r, steps);
    AllArrivals(Databases(l, r, steps), History(l, r, steps).db, History(l, r, steps).archived.Keys);
  }

  /** After the start of a run and any history of batches, outside writes and other runs, no reference
      is attached to an incident the run has archived exactly if no later step attached one that
      stayed. */
  lemma NothingLeftAttachedIff(l: Ledger, r: Id, t: Id, steps: seq<Step>)
    requires Balanced(l, r) && Next(l.db, Start(t, r)) != l.db && During(steps, r)
    ensures var s := Observe(l, r, Start(t, r));
            var h := History(s, r, steps);
            (forall c, i | i in h.archived :: !Attached(h.db, c, i))
            <==> (forall c, i | i in h.archived :: !Arrives(Databases(s, r, steps), c, i))
  {
    StartDetaches(l, r, t);
    StartBalances(l, r, t);
    DetachedIff(Observe(l, r, Start(t, r)), r, steps);
  }

  lemma ArchivingKeepsAttached(db: Db, chosen: set<Id>, when: map<Id, int>, c: Cell, i: Id)
    requires chosen <= when.Keys
    ensures Attached(Archiving(db, chosen, when), c, i) <==> Attached(db, c, i)
  {
    assert Fks(Archiving(db, chosen, when)) == Fks(db);
  }

  lemma OwnBatchArchives(db: Db, r: Id, i: Id, now: int)
    requires i in PendingOf(db, r) && Archivable(db, i) && i !in db.undo
    ensures var d := Archiving(db, {i}, Stamp({i}, now));
            && Next(db, Commit(r, Batch({i}, now))) == d
            && i in UndoOf(d, r) && i in d.incidents && d.incidents[i].status == Archived
  {
    assert !AnyBlocked(db, {i});
  }

  lemma ObservedDb(l: Ledger, r: Id, s: Step)
    ensures Observe(l, r, s).db == Next(l.db, s)
  {
  }

  lemma ArchivedIsUndo(h: Ledger, r: Id, i: Id)
    requires Balanced(h, r) && i in UndoOf(h.db, r)
    ensures i in h.archived
  {
  }

  /** Such a step exists: a reference written to a duplicate between the first transaction and the
      batch that takes it is left on the archived incident. */
  lemma LateReferenceStaysAttached(l: Ledger, r: Id, c: Cell, i: Id, now: int)
    requires Balanced(l, r) && i in PendingOf(l.db, r) && Archivable(l.db, i) && i !in l.db.undo
    requires Attached(l.db, c, i)
    ensures var h := Observe(l, r, Commit(r, Batch({i}, now)));
            i in h.archived && i in h.db.incidents && h.db.incidents[i].status == Archived && Attached(h.db, c, i)
  {
    var s := Commit(r, Batch({i}, now));
    ObservedDb(l, r, s);
    OwnBatchArchives(l.db, r, i, now);
    OwnCommitBalances(l, r, Batch({i}, now));
    ArchivedIsUndo(Observe(l, r, s), r, i);
    ArchivingKeepsAttached(l.db, {i}, Stamp({i}, now), c, i);
  }
}
