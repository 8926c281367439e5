/** The script itself: methods that change the relations in place, each tied to the transaction
    it performs. */
module CleanupDatabase {
  import opened Wrappers
  import opened Incidents
  import opened Cleanup
  import opened CleanupUndo
  import opened CleanupRuns
  import opened CleanupSchedule
  import opened CleanupPlan

  /** `LIMIT n` without ORDER BY: some rows, as many as there are up to `n`. */
  method Limit(ids: set<Id>, n: nat) returns (pick: set<Id>)
    ensures pick <= ids && |pick| == if n <= |ids| then n else |ids|
  {
    pick := {};
    var rest := ids;
    while |pick| < n && rest != {}
      invariant pick + rest == ids && pick !! rest && |pick| <= n && |pick| + |rest| == |ids|
      decreases rest
    {
      var i :| i in rest;
      pick, rest := pick + {i}, rest - {i};
    }
  }

  lemma {:induction false} DrainsAppend(db: Db, run: Id, limit: nat, batches: seq<Batch>, mid: Db, b: Batch, end: Db)
    requires Drains(db, run, limit, batches, mid)
    requires ValidPick(mid, run, limit, b.pick) && TryBatch(mid, b) == Ok(end)
    ensures Drains(db, run, limit, batches + [b], end)
    decreases |batches|
  {
    if batches == [] {
      assert [b][1..] == [] && Drains(end, run, limit, [], end);
    } else {
      DrainsAppend(TryBatch(db, batches[0]).value, run, limit, batches[1..], mid, b, end);
      assert (batches + [b])[1..] == batches[1..] + [b];
    }
  }

  class Database {
    var incidents: Table
    var cells: map<Cell, Option<Id>>
    var catalog: seq<Fk>
    var lacksId: set<string>
    var exclusive: set<(Cell, Cell)>
    var pending: map<Id, PendingRow>
    var undo: map<Id, UndoRow>
    var relinks: map<RelinkKey, Move>

    function View(): Db
      reads this
    {
      Db(incidents, cells, catalog, lacksId, exclusive, pending, undo, relinks)
    }

    constructor (db: Db)
      ensures View() == db
    {
      incidents, cells, catalog, lacksId := db.incidents, db.cells, db.catalog, db.lacksId;
      exclusive, pending, undo, relinks := db.exclusive, db.pending, db.undo, db.relinks;
    }

    /** The dry run of a tenant. */
    method BuildPlan(t: Id) returns (r: Result<Plan, Failure>)
      ensures r == PlanOf(View(), t)
    {
      var plan := Plan(|Candidates(incidents, t)|, |Keepers(incidents, t)|, |Duplicates(incidents, t)|,
                       |GroupKeys(incidents, Crowded(incidents, t))|, map[]);
      if plan.archive == 0 {
        return Ok(plan);
      }
      var bad := FirstWithoutId(catalog, lacksId);
      if bad.Some? {
        return Err(NoIdColumn(bad.value));
      }
      var counts: map<Fk, nat> := map[];
      for k := 0 to |catalog|
        invariant counts == RelinkCounts(View(), t, set f | f in catalog[..k])
      {
        var n := |Hits(View(), t, catalog[k])|;
        if n > 0 {
          counts := counts[catalog[k] := n];
        }
        assert catalog[..k + 1] == catalog[..k] + [catalog[k]];
      }
      assert catalog[..|catalog|] == catalog;
      return Ok(plan.(relinks := counts));
    }

    method PendingRunOf(t: Id) returns (run: Option<Id>)
      ensures run.None? <==> !TenantPending(View(), t)
      ensures run.Some? ==> PendingRun(View(), t, run.value)
    {
      var own := set i | i in pending && pending[i].tenant == t;
      if own == {} {
        assert forall i | i in pending :: i !in own;
        return None;
      }
      var i :| i in own;
      return Some(pending[i].run);
    }

    /** One pass: record the moves of a column, then make them. */
    method RelinkColumn(run: Id, fk: Fk)
      modifies `cells, `relinks
      ensures View() == Relink(old(View()), run, {fk})
    {
      var db := View();
      relinks := relinks + RelinkRows(db, run, {fk});
      cells := Relink(db, run, {fk}).cells;
    }

    /** Repoint the references of every catalog column in turn. */
    method RelinkColumns(run: Id)
      requires KeepersNotPending(View(), run)
      modifies `cells, `relinks
      ensures View() == Relink(old(View()), run, Fks(old(View())))
    {
      ghost var s := View();
      RelinkNone(s, run);
      for k := 0 to |catalog|
        invariant View() == Relink(s, run, Prefix(catalog, k))
      {
        RelinkOneMore(s, run, catalog, k);
        RelinkColumn(run, catalog[k]);
      }
      assert catalog[..|catalog|] == catalog;
    }

    /** All columns in one transaction: a unique constraint that refuses undoes them all. */
    method RelinkOrAbort(run: Id) returns (ok: bool)
      requires KeepersNotPending(View(), run)
      modifies `cells, `relinks
      ensures var d := Relink(old(View()), run, Fks(old(View())));
              ok == UniqueOk(d.cells, exclusive) && View() == if ok then d else old(View())
    {
      var cells0, relinks0 := cells, relinks;
      RelinkColumns(run);
      ok := UniqueOk(cells, exclusive);
      if !ok {
        cells, relinks := cells0, relinks0;
      }
    }

    /** The first transaction: `Ok(false)` and every error leave the database as it was. */
    method StartRun(t: Id, run: Id) returns (r: Result<bool, Failure>)
      requires FreshRun(View(), run)
      modifies this
      ensures match TryStart(old(View()), t, run)
              case Err(e) => r == Err(e) && View() == old(View())
              case Ok(None) => r == Ok(false) && View() == old(View())
              case Ok(Some(d)) => r == Ok(true) && View() == d
    {
      var pending0 := pending;
      var rows := SnapshotRows(incidents, t, run);
      if rows.Keys * pending.Keys != {} {
        return Err(DuplicateKey);
      }
      if rows == map[] {
        return Ok(false);
      }
      StartKeepers(View(), t, run);
      pending := pending + rows;
      var bad := FirstWithoutId(catalog, lacksId);
      if bad.Some? {
        pending := pending0;
        return Err(NoIdColumn(bad.value));
      }
      var ok := RelinkOrAbort(run);
      if !ok {
        pending := pending0;
        return Err(UniqueViolation);
      }
      return Ok(true);
    }

    /** One archive transaction; reports how many rows are left. */
    method ArchiveBatch(run: Id, limit: nat, now: int) returns (r: Result<nat, Failure>, ghost b: Batch)
      modifies this
      ensures b.now == now && ValidPick(old(View()), run, limit, b.pick)
      ensures match TryBatch(old(View()), b)
              case Ok(d) => r == Ok(|PendingOf(d, run)|) && View() == d
              case Err(e) => r == Err(e) && View() == old(View())
    {
      var pick := Limit(PendingOf(View(), run), limit);
      b := Batch(pick, now);
      if AnyBlocked(View(), pick) {
        return Err(UniqueViolation), b;
      }
      var when := Stamp(pick, now);
      var db := View();
      incidents := ArchivedTable(db, pick, when);
      undo := undo + UndoRows(db, pick, when);
      pending := pending - pick;
      return Ok(|PendingOf(View(), run)|), b;
    }

    /** The batch loop, until nothing of the run is pending. */
    method Drain(run: Id, batchSize: nat, clock: nat -> int)
      returns (r: Result<nat, Failure>, ghost batches: seq<Batch>)
      requires batchSize >= 1
      modifies this
      ensures Drains(old(View()), run, batchSize, batches, View())
      ensures if r.Ok? then PendingOf(View(), run) == {} else AnyBlocked(View(), PendingOf(View(), run))
    {
      ghost var from := View();
      batches := [];
      var k := 0;
      while true
        invariant Drains(from, run, batchSize, batches, View())
        decreases |PendingOf(View(), run)|, if k == 0 then 1 else 0
      {
        ghost var before := View();
        var left, b := ArchiveBatch(run, batchSize, clock(k));
        if left.Err? {
          return Err(left.error), batches;
        }
        DrainsAppend(from, run, batchSize, batches, before, b, View());
        batches := batches + [b];
        BatchProgress(before, run, batchSize, b, View());
        k := k + 1;
        if left.value == 0 {
          return Ok(k), batches;
        }
      }
    }

    /** `apply_cleanup`: what it did is one session of the schedule; on success nothing of its
        run is pending, `None` means there was nothing to do, and an archive batch fails only on
        an incident that still has an undo row. */
    method ApplyCleanup(t: Id, newRun: Id, batchSize: nat, clock: nat -> int)
      returns (r: Result<Option<Id>, Failure>, ghost s: Session)
      requires batchSize >= 1 && FreshRun(View(), newRun)
      modifies this
      ensures Runs(old(View()), t, s, View()) && s.batchSize == batchSize
      ensures r == Ok(None) ==>
                View() == old(View()) && !TenantPending(View(), t) && Duplicates(View().incidents, t) == {}
      ensures r.Ok? && r.value.Some? ==> r.value.value == s.run && PendingOf(View(), s.run) == {}
      ensures r.Err? ==> View() == old(View()) || AnyBlocked(View(), PendingOf(View(), s.run))
    {
      var found := PendingRunOf(t);
      var run := if found.Some? then found.value else newRun;
      s := Session(run, batchSize, true, []);
      if found.None? {
        ghost var before := View();
        var started := StartRun(t, run);
        if started.Err? {
          return Err(started.error), s;
        }
        if !started.value {
          NothingStarted(before, t, run);
          return Ok(None), s;
        }
      }
      var drained, batches := Drain(run, batchSize, clock);
      s := s.(batches := batches);
      if drained.Err? {
        return Err(drained.error), s;
      }
      return Ok(Some(run)), s;
    }

    /** The body of `main` for one tenant: the dry run decides whether `--apply` does anything,
        even when an interrupted run still has pending rows. */
    method RunTenant(t: Id, apply: bool, newRun: Id, batchSize: nat, clock: nat -> int)
      returns (plan: Result<Plan, Failure>, ghost s: Option<Session>)
      requires batchSize >= 1 && FreshRun(View(), newRun)
      modifies this
      ensures plan == PlanOf(old(View()), t)
      ensures s.Some? <==> apply && plan.Ok? && Duplicates(old(incidents), t) != {}
      ensures if s.Some? then Runs(old(View()), t, s.value, View()) else View() == old(View())
    {
      plan := BuildPlan(t);
      s := None;
      if apply && plan.Ok? && plan.value.archive != 0 {
        var r, session := ApplyCleanup(t, newRun, batchSize, clock);
        s := Some(session);
      }
    }

    /** Repoint the recorded references, one column after the other. */
    method RestoreCells(run: Id)
      modifies `cells
      ensures cells == UndoneCells(old(View()), run)
    {
      var db := View();
      var todo := set k | k in relinks && k.run == run :: k.cell.fk;
      assert forall c | c in db.cells && Restorable(db, run, c) :: RelinkKey(run, c).cell.fk in todo;
      while todo != {}
        invariant cells.Keys == db.cells.Keys
        invariant forall c | c in db.cells ::
                    cells[c] == if c.fk in todo then db.cells[c] else UndoneCell(db, run, c)
        decreases todo
      {
        var fk :| fk in todo;
        var current := View();
        assert forall c | c in db.cells && c.fk == fk :: UndoneCell(current, run, c) == UndoneCell(db, run, c);
        cells := map c | c in cells :: if c.fk == fk then UndoneCell(current, run, c) else cells[c];
        todo := todo - {fk};
      }
    }

    /** `undo_run`: all or nothing; reports the number of incidents restored. */
    method UndoRun(run: Id) returns (r: Result<nat, Failure>)
      modifies this
      ensures match TryUndo(old(View()), run)
              case Ok(d) => View() == d && r == Ok(|set i | i in old(incidents) && Reopenable(old(View()), run, i)|)
              case Err(e) => View() == old(View()) && r == Err(e)
    {
      var db := View();
      UndoLegalParts(db, run);
      RestoreCells(run);
      if !UniqueOk(cells, exclusive) || !ReferencesOk(View()) {
        cells := db.cells;
        return Err(ConstraintViolation);
      }
      var restored := set i | i in incidents && Reopenable(db, run, i);
      incidents := UndoneTable(db, run);
      if !SignaturesOk(incidents) {
        cells, incidents := db.cells, db.incidents;
        return Err(ConstraintViolation);
      }
      relinks := RelinksWithout(db, run);
      undo := UndoWithout(db, run);
      pending := PendingWithout(db, run);
      return Ok(|restored|);
    }
  }

  /** The application resolves every open incident of the tenant. */
  function Resolved(db: Db, t: Id): Db {
    db.(incidents := map i | i in db.incidents ::
      if IsCandidate(db.incidents, t, i) then db.incidents[i].(status := Other("resolved")) else db.incidents[i])
  }

  /** Once the application has resolved the incidents a run was still going to archive, the dry run
      counts nothing, so while the tenant has no duplicates no rerun takes that run's rows out of
      `pending`. */
  lemma ClosedIncidentsStrandRun(db: Db, t: Id)
    requires TenantPending(db, t)
    ensures var d := Resolved(db, t);
            TenantPending(d, t) && PlanOf(d, t).Ok? && PlanOf(d, t).value.archive == 0
  {
    assert Duplicates(Resolved(db, t).incidents, t) == {};
  }

  function Prefix(catalog: seq<Fk>, k: nat): set<Fk>
    requires k <= |catalog|
  {
    set f | f in catalog[..k]
  }

  lemma PrefixStep(catalog: seq<Fk>, k: nat)
    requires k < |catalog|
    ensures Prefix(catalog, k) + {catalog[k]} == Prefix(catalog, k + 1)
  {
    assert catalog[..k + 1] == catalog[..k] + [catalog[k]];
  }

  lemma RelinkOneMore(db: Db, run: Id, catalog: seq<Fk>, k: nat)
    requires KeepersNotPending(db, run) && k < |catalog|
    ensures Relink(Relink(db, run, Prefix(catalog, k)), run, {catalog[k]}) == Relink(db, run, Prefix(catalog, k + 1))
  {
    RelinkCompose(db, run, Prefix(catalog, k), {catalog[k]});
    PrefixStep(catalog, k);
  }

  lemma UndoLegalParts(db: Db, run: Id)
    ensures Legal(Undone(db, run)) <==>
              && UniqueOk(UndoneCells(db, run), db.exclusive)
              && ReferencesOk(db.(cells := UndoneCells(db, run))) && SignaturesOk(UndoneTable(db, run))
  {
    assert Undone(db, run).incidents.Keys == db.incidents.Keys;
    assert Fks(Undone(db, run)) == Fks(db) == Fks(db.(cells := UndoneCells(db, run)));
  }

  lemma BatchProgress(db: Db, run: Id, limit: nat, b: Batch, d: Db)
    requires limit >= 1 && ValidPick(db, run, limit, b.pick) && TryBatch(db, b) == Ok(d)
    ensures PendingOf(db, run) == {} || |PendingOf(d, run)| < |PendingOf(db, run)|
    ensures PendingOf(db, run) == {} ==> PendingOf(d, run) == {}
  {
    PendingAfter(db, run, b.pick, Stamp(b.pick, b.now));
    assert |PendingOf(db, run) - b.pick| == |PendingOf(db, run)| - |b.pick|;
  }

  lemma NothingStarted(db: Db, t: Id, run: Id)
    requires TryStart(db, t, run) == Ok(None)
    ensures Duplicates(db.incidents, t) == {}
  {
    assert SnapshotRows(db.incidents, t, run).Keys == Duplicates(db.incidents, t);
  }

  lemma RelinkNone(db: Db, run: Id)
    ensures Relink(db, run, {}) == db
  {
    assert Relink(db, run, {}).cells == db.cells;
    assert RelinkRows(db, run, {}) == map[];
  }

  lemma StartKeepers(db: Db, t: Id, run: Id)
    requires FreshRun(db, run)
    ensures KeepersNotPending(Snapshot(db, SnapshotRows(db.incidents, t, run)), run)
  {
    var rows := SnapshotRows(db.incidents, t, run);
    forall i | i in rows ensures rows[i].keeper !in rows {
      OneKeeperPerGroup(db.incidents, t, i, i);
    }
    assert forall i | i in db.pending :: i !in PendingOf(db, run);
  }
}
