/** Undo reverses a run from every point it can stop at, and when a constraint refuses it. */
module CleanupUndo {
  import opened Wrappers
  import opened Incidents
  import opened Cleanup

  /** `rows` can be the snapshot of a new run: fresh keys, and the present status of each row. */
  predicate RowsOk(db: Db, run: Id, rows: map<Id, PendingRow>) {
    && FreshRun(db, run)
    && rows.Keys * db.pending.Keys == {}
    && forall i | i in rows ::
         rows[i].run == run && i in db.incidents && rows[i].previousStatus == db.incidents[i].status
  }

  /** No incident the run keeps is itself waiting to be archived by it. */
  predicate KeepersOutside(rows: map<Id, PendingRow>) {
    forall i | i in rows :: rows[i].keeper !in rows
  }

  /** The run has archived the incidents in `done`; the rest of its snapshot is still pending. */
  predicate RunPoint(db: Db, run: Id, rows: map<Id, PendingRow>, done: set<Id>, when: map<Id, int>) {
    RowsOk(db, run, rows) && done <= rows.Keys && done <= when.Keys && done * db.undo.Keys == {}
  }

  function RunTo(db: Db, run: Id, rows: map<Id, PendingRow>, done: set<Id>, when: map<Id, int>): Db
    requires RunPoint(db, run, rows, done, when)
  {
    Archiving(Started(db, run, rows), done, when)
  }

  /** The columns the script clears: undo writes NULL whatever they held before. */
  function Cleared(m: Table, done: set<Id>): Table {
    map i | i in m :: if i in done then m[i].(archivedAt := None, closureReason := None) else m[i]
  }

  predicate NeverClosed(m: Table, done: set<Id>) {
    forall i | i in done && i in m :: m[i].archivedAt == None && m[i].closureReason == None
  }

  lemma UndoCells(db: Db, run: Id, rows: map<Id, PendingRow>, done: set<Id>, when: map<Id, int>)
    requires RunPoint(db, run, rows, done, when)
    ensures Undone(RunTo(db, run, rows, done, when), run).cells == db.cells
  {
    var s := Snapshot(db, rows);
    var r := RunTo(db, run, rows, done, when);
    var u := Undone(r, run);
    assert u.cells.Keys == db.cells.Keys;
    forall c | c in db.cells
      ensures u.cells[c] == db.cells[c]
    {
      if Relinkable(s, run, Fks(db), c) {
        assert r.relinks[RelinkKey(run, c)] == MoveOf(s, run, c);
        assert RelinkKey(run, c) in r.relinks;
      } else {
        assert RelinkKey(run, c) !in RelinksOf(db, run);
        assert RelinkKey(run, c) !in r.relinks;
      }
    }
  }

  lemma UndoIncidents(db: Db, run: Id, rows: map<Id, PendingRow>, done: set<Id>, when: map<Id, int>)
    requires RunPoint(db, run, rows, done, when)
    ensures Undone(RunTo(db, run, rows, done, when), run).incidents == Cleared(db.incidents, done)
  {
    var r := RunTo(db, run, rows, done, when);
    var u := Undone(r, run);
    forall i | i in db.incidents
      ensures u.incidents[i] == Cleared(db.incidents, done)[i]
    {
      if i !in done {
        assert i !in UndoOf(db, run);
      } else {
        assert Archivable(Started(db, run, rows), i);
      }
    }
  }

  lemma UndoPending(db: Db, run: Id, rows: map<Id, PendingRow>, done: set<Id>, when: map<Id, int>)
    requires RunPoint(db, run, rows, done, when)
    ensures Undone(RunTo(db, run, rows, done, when), run).pending == db.pending
  {
    assert forall i | i in db.pending :: i !in PendingOf(db, run);
  }

  lemma UndoUndo(db: Db, run: Id, rows: map<Id, PendingRow>, done: set<Id>, when: map<Id, int>)
    requires RunPoint(db, run, rows, done, when)
    ensures Undone(RunTo(db, run, rows, done, when), run).undo == db.undo
  {
    assert forall i | i in db.undo :: i !in UndoOf(db, run);
  }

  lemma UndoRelinks(db: Db, run: Id, rows: map<Id, PendingRow>, done: set<Id>, when: map<Id, int>)
    requires RunPoint(db, run, rows, done, when)
    ensures Undone(RunTo(db, run, rows, done, when), run).relinks == db.relinks
  {
    assert forall k | k in db.relinks :: k !in RelinksOf(db, run);
  }

  lemma ClearedSignatures(m: Table, done: set<Id>)
    ensures SignaturesOk(Cleared(m, done)) <==> SignaturesOk(m)
  {
    var n := Cleared(m, done);
    assert forall i | i in m :: Exposed(n[i]) == Exposed(m[i])
                                && n[i].tenant == m[i].tenant && n[i].signature == m[i].signature;
  }

  lemma ClearedLegal(db: Db, done: set<Id>)
    ensures Legal(ClearedDb(db, done)) <==> Legal(db)
  {
    ClearedSignatures(db.incidents, done);
    assert Fks(ClearedDb(db, done)) == Fks(db);
  }

  lemma ClearedIsSame(m: Table, done: set<Id>)
    ensures Cleared(m, done) == m <==> NeverClosed(m, done)
  {
    if !NeverClosed(m, done) {
      var i :| i in done && i in m && !(m[i].archivedAt == None && m[i].closureReason == None);
      assert Cleared(m, done)[i] != m[i];
    }
  }

  function ClearedDb(db: Db, done: set<Id>): Db {
    db.(incidents := Cleared(db.incidents, done))
  }

  lemma UndoneRun(db: Db, run: Id, rows: map<Id, PendingRow>, done: set<Id>, when: map<Id, int>)
    requires RunPoint(db, run, rows, done, when)
    ensures Undone(RunTo(db, run, rows, done, when), run) == ClearedDb(db, done)
  {
    UndoCells(db, run, rows, done, when);
    UndoIncidents(db, run, rows, done, when);
    UndoPending(db, run, rows, done, when);
    UndoUndo(db, run, rows, done, when);
    UndoRelinks(db, run, rows, done, when);
  }

  /** Undo after the first transaction and any committed batches: statuses, references and
      bookkeeping are back, and the result is the very database before the run exactly when no
      archived incident carried a closing date or reason while open. It is refused only if the
      state before the run was already illegal. */
  lemma UndoFromAnyPoint(db: Db, run: Id, rows: map<Id, PendingRow>, done: set<Id>, when: map<Id, int>)
    requires RunPoint(db, run, rows, done, when)
    ensures Undone(RunTo(db, run, rows, done, when), run) == ClearedDb(db, done)
    ensures ClearedDb(db, done) == db <==> NeverClosed(db.incidents, done)
    ensures TryUndo(RunTo(db, run, rows, done, when), run).Ok? <==> Legal(db)
  {
    UndoneRun(db, run, rows, done, when);
    ClearedLegal(db, done);
    ClearedIsSame(db.incidents, done);
  }

  // ---- Refused undos ----

  /** A reference that undo would restore, next to an exclusive partner that would then hold the
      same incident. */
  predicate CellConflict(db: Db, run: Id) {
    exists p | p in db.exclusive ::
      && p.0 != p.1 && p.0 in db.cells && p.1 in db.cells
      && (Restorable(db, run, p.0) || Restorable(db, run, p.1))
      && UndoneCell(db, run, p.0).Some? && UndoneCell(db, run, p.0) == UndoneCell(db, run, p.1)
  }

  /** The status undo would leave `i` with. */
  function UndoneStatus(db: Db, run: Id, i: Id): Status
    requires i in db.incidents
  {
    if Reopenable(db, run, i) then db.undo[i].previousStatus else db.incidents[i].status
  }

  predicate SameSignature(a: Incident, b: Incident) {
    && a.signature.Some? && a.signature == b.signature && a.tenant == b.tenant
    && !a.deleted && !b.deleted
  }

  /** An incident that undo would open again, while another one with its signature is open or would
      be opened by the same undo. */
  predicate SignatureConflict(db: Db, run: Id) {
    exists i, j | i in db.incidents && j in db.incidents ::
      && i != j && Reopenable(db, run, i) && SameSignature(db.incidents[i], db.incidents[j])
      && UndoneStatus(db, run, i) == Open && UndoneStatus(db, run, j) == Open
  }

  /** A reference in a column of the catalog that undo would return to an incident that is gone. */
  predicate OriginGone(db: Db, run: Id) {
    exists c | c in db.cells ::
      c.fk in Fks(db) && Restorable(db, run, c) && db.relinks[RelinkKey(run, c)].from !in db.incidents
  }

  lemma ReferencesRefusedIff(db: Db, run: Id)
    requires ReferencesOk(db)
    ensures ReferencesOk(Undone(db, run)) <==> !OriginGone(db, run)
  {
    var d := Undone(db, run);
    assert Fks(d) == Fks(db) && d.incidents.Keys == db.incidents.Keys;
    forall c | c in db.cells ensures d.cells[c] == UndoneCell(db, run, c) {
    }
  }

  lemma CellsRefusedIff(db: Db, run: Id)
    requires UniqueOk(db.cells, db.exclusive)
    ensures UniqueOk(UndoneCells(db, run), db.exclusive) <==> !CellConflict(db, run)
  {
    var cells := UndoneCells(db, run);
    forall p | p in db.exclusive && p.0 != p.1 && p.0 in db.cells && p.1 in db.cells
      ensures cells[p.0] == UndoneCell(db, run, p.0) && cells[p.1] == UndoneCell(db, run, p.1)
    {
    }
  }

  lemma SignaturesRefusedIff(db: Db, run: Id)
    requires SignaturesOk(db.incidents)
    ensures SignaturesOk(UndoneTable(db, run)) <==> !SignatureConflict(db, run)
  {
    var m, n := db.incidents, UndoneTable(db, run);
    forall i | i in m
      ensures Exposed(n[i]) <==> m[i].signature.Some? && !m[i].deleted && UndoneStatus(db, run, i) == Open
      ensures n[i].tenant == m[i].tenant && n[i].signature == m[i].signature
    {
    }
    if !SignaturesOk(n) {
      var i, j :| i in n && j in n && i != j && Exposed(n[i]) && Exposed(n[j])
                  && n[i].tenant == n[j].tenant && n[i].signature == n[j].signature;
      assert SameSignature(m[i], m[j]) && SameSignature(m[j], m[i]);
      assert Reopenable(db, run, i) || Reopenable(db, run, j);
    }
  }

  /** Undo meets something that a constraint refuses. */
  predicate Conflict(db: Db, run: Id) {
    CellConflict(db, run) || SignatureConflict(db, run) || OriginGone(db, run)
  }

  /** On a legal database undo is refused exactly if it meets one of the three conflicts. */
  lemma UndoRefusedIff(db: Db, run: Id)
    requires Legal(db)
    ensures TryUndo(db, run).Err? <==> Conflict(db, run)
  {
    CellsRefusedIff(db, run);
    SignaturesRefusedIff(db, run);
    ReferencesRefusedIff(db, run);
  }
}
