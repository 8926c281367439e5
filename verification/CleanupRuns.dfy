/** The first transaction of a run: the snapshot of a tenant is well formed, relinking is sound,
    and going column by column amounts to one step. */
module CleanupRuns {
  import opened Wrappers
  import opened Incidents
  import opened Cleanup
  import opened CleanupUndo

  // ---- The snapshot of a tenant ----

  function Rows(db: Db, t: Id, run: Id): map<Id, PendingRow> {
    SnapshotRows(db.incidents, t, run)
  }

  predicate Startable(db: Db, t: Id, run: Id) {
    FreshRun(db, run) && !TenantPending(db, t) && Duplicates(db.incidents, t) * db.pending.Keys == {}
  }

  lemma SnapshotOk(db: Db, t: Id, run: Id)
    requires Startable(db, t, run)
    ensures RowsOk(db, run, Rows(db, t, run))
    ensures Rows(db, t, run).Keys == Duplicates(db.incidents, t)
    ensures KeepersOutside(Rows(db, t, run))
    ensures forall i | i in Rows(db, t, run) :: Rows(db, t, run)[i].tenant == t
  {
    var rows := Rows(db, t, run);
    assert rows.Keys == Duplicates(db.incidents, t);
    forall i | i in rows ensures rows[i].keeper !in rows {
      OneKeeperPerGroup(db.incidents, t, i, i);
    }
  }

  predicate OnRow(db: Db, rows: map<Id, PendingRow>, c: Cell) {
    c in db.cells && db.cells[c].Some? && db.cells[c].value in rows && c.fk in Fks(db)
  }

  /** The effect of the first transaction on one reference. */
  lemma StartedCell(db: Db, run: Id, rows: map<Id, PendingRow>, c: Cell)
    requires RowsOk(db, run, rows) && KeepersOutside(rows) && c in db.cells
    ensures var d := Started(db, run, rows);
            && !Relinkable(d, run, Fks(db), c)
            && (RelinkKey(run, c) in d.relinks <==> OnRow(db, rows, c))
            && (OnRow(db, rows, c) ==>
                  var from := db.cells[c].value;
                  && d.relinks[RelinkKey(run, c)] == Move(from, rows[from].keeper)
                  && d.cells[c] == Some(rows[from].keeper))
            && (!OnRow(db, rows, c) ==> d.cells[c] == db.cells[c])
  {
    var s := Snapshot(db, rows);
    assert forall i | i in db.pending :: i !in PendingOf(db, run);
    assert RelinkKey(run, c) !in RelinksOf(db, run);
    assert Relinkable(s, run, Fks(db), c) <==> OnRow(db, rows, c);
  }

  /** One pass over the columns leaves no reference on a duplicate; a moved reference lands on
      the keeper of its own group, in the same tenant, and its move is recorded; no other
      reference and no incident changes. */
  lemma RelinkSound(db: Db, t: Id, run: Id)
    requires Startable(db, t, run)
    ensures var d := Started(db, run, Rows(db, t, run));
            && d.cells.Keys == db.cells.Keys && d.incidents == db.incidents && d.undo == db.undo
            && (forall c | c in db.cells && c.fk in Fks(db) && d.cells[c].Some? ::
                  d.cells[c].value !in Duplicates(db.incidents, t))
            && (forall c | c in db.cells && d.cells[c] != db.cells[c] ::
                  && c.fk in Fks(db) && db.cells[c].Some? && d.cells[c].Some?
                  && db.cells[c].value in Duplicates(db.incidents, t)
                  && d.cells[c].value == KeeperOf(db.incidents, t, db.cells[c].value)
                  && RelinkKey(run, c) in d.relinks
                  && d.relinks[RelinkKey(run, c)] == Move(db.cells[c].value, d.cells[c].value))
  {
    var rows := Rows(db, t, run);
    SnapshotOk(db, t, run);
    forall c | c in db.cells
      ensures !Relinkable(Started(db, run, rows), run, Fks(db), c)
      ensures OnRow(db, rows, c) ==> Started(db, run, rows).cells[c].Some?
      ensures Started(db, run, rows).cells[c].Some? && c.fk in Fks(db) ==>
                Started(db, run, rows).cells[c].value !in rows
    {
      StartedCell(db, run, rows, c);
    }
    forall c | c in db.cells && Started(db, run, rows).cells[c] != db.cells[c]
      ensures OnRow(db, rows, c)
      ensures Started(db, run, rows).cells[c] == Some(KeeperOf(db.incidents, t, db.cells[c].value))
      ensures RelinkKey(run, c) in Started(db, run, rows).relinks
      ensures Started(db, run, rows).relinks[RelinkKey(run, c)]
              == Move(db.cells[c].value, Started(db, run, rows).cells[c].value)
    {
      StartedCell(db, run, rows, c);
    }
  }

  predicate KeepersNotPending(db: Db, run: Id) {
    forall i | i in db.pending && db.pending[i].run == run ::
      var k := db.pending[i].keeper; !(k in db.pending && db.pending[k].run == run)
  }

  /** Column after column is the same as all columns at once, whatever order or repetition the
      catalog has. */
  lemma RelinkCompose(db: Db, run: Id, done: set<Fk>, more: set<Fk>)
    requires KeepersNotPending(db, run)
    ensures Relink(Relink(db, run, done), run, more) == Relink(db, run, done + more)
  {
    RelinkComposeCells(db, run, done, more);
    RelinkComposeRows(db, run, done, more);
    MapSumAssociates(db.relinks, RelinkRows(db, run, done), RelinkRows(Relink(db, run, done), run, more));
  }

  lemma MapSumAssociates<K, V>(a: map<K, V>, b: map<K, V>, c: map<K, V>)
    ensures a + b + c == a + (b + c)
  {
  }

  lemma RelinkComposeCells(db: Db, run: Id, done: set<Fk>, more: set<Fk>)
    requires KeepersNotPending(db, run)
    ensures Relink(Relink(db, run, done), run, more).cells == Relink(db, run, done + more).cells
  {
  }

  /** What one pass moved, the next does not see. */
  lemma RelinkableLater(db: Db, run: Id, done: set<Fk>, more: set<Fk>, c: Cell)
    requires KeepersNotPending(db, run)
    ensures var d := Relink(db, run, done);
            && (Relinkable(d, run, more, c) <==> Relinkable(db, run, more, c) && c.fk !in done)
            && (Relinkable(d, run, more, c) ==> MoveOf(d, run, c) == MoveOf(db, run, c))
  {
  }

  lemma RelinkComposeKeys(db: Db, run: Id, done: set<Fk>, more: set<Fk>)
    requires KeepersNotPending(db, run)
    ensures RelinkRows(db, run, done).Keys + RelinkRows(Relink(db, run, done), run, more).Keys
            == RelinkRows(db, run, done + more).Keys
  {
    forall k: RelinkKey
      ensures k in RelinkRows(db, run, done) || k in RelinkRows(Relink(db, run, done), run, more)
              <==> k in RelinkRows(db, run, done + more)
    {
      if k.run == run {
        assert k == RelinkKey(run, k.cell);
        RelinkableLater(db, run, done, more, k.cell);
      }
    }
  }

  lemma RelinkComposeRows(db: Db, run: Id, done: set<Fk>, more: set<Fk>)
    requires KeepersNotPending(db, run)
    ensures RelinkRows(db, run, done) + RelinkRows(Relink(db, run, done), run, more) == RelinkRows(db, run, done + more)
  {
    var first, second := RelinkRows(db, run, done), RelinkRows(Relink(db, run, done), run, more);
    RelinkComposeKeys(db, run, done, more);
    forall k | k in RelinkRows(db, run, done + more)
      ensures (first + second)[k] == RelinkRows(db, run, done + more)[k]
    {
      assert k == RelinkKey(run, k.cell);
      RelinkableLater(db, run, done, more, k.cell);
    }
    SameMap(first + second, RelinkRows(db, run, done + more));
  }

  lemma SameMap<K, V>(a: map<K, V>, b: map<K, V>)
    requires a.Keys == b.Keys && forall k | k in b :: a[k] == b[k]
    ensures a == b
  {
  }

  // ---- Foreign keys ----

  /** No catalog reference is left on a row of the snapshot. */
  lemma StartedOffRows(db: Db, run: Id, rows: map<Id, PendingRow>, c: Cell)
    requires RowsOk(db, run, rows) && KeepersOutside(rows) && c in db.cells && c.fk in Fks(db)
    ensures var d := Started(db, run, rows); c in d.cells && (d.cells[c].Some? ==> d.cells[c].value !in rows)
  {
    StartedCell(db, run, rows, c);
  }

  lemma NothingOnRow(db: Db, run: Id, rows: map<Id, PendingRow>, done: set<Id>, when: map<Id, int>, i: Id)
    requires RunPoint(db, run, rows, done, when) && KeepersOutside(rows) && i in rows
    ensures var r := RunTo(db, run, rows, done, when);
            forall c | c in r.cells && c.fk in Fks(r) :: r.cells[c] != Some(i)
  {
    var r := RunTo(db, run, rows, done, when);
    forall c | c in r.cells && c.fk in Fks(r) ensures r.cells[c] != Some(i) {
      StartedOffRows(db, run, rows, c);
    }
  }

  /** The first transaction breaks no foreign key, because keepers exist. */
  lemma StartedReferences(db: Db, run: Id, rows: map<Id, PendingRow>)
    requires RowsOk(db, run, rows) && KeepersOutside(rows) && ReferencesOk(db)
    requires forall i | i in rows :: rows[i].keeper in db.incidents
    ensures ReferencesOk(Started(db, run, rows))
  {
    var d := Started(db, run, rows);
    assert Fks(d) == Fks(db) && d.cells.Keys == db.cells.Keys;
    forall c | c in d.cells && c.fk in Fks(d) && d.cells[c].Some? ensures d.cells[c].value in d.incidents {
      StartedCell(db, run, rows, c);
    }
  }

  lemma KeepersExist(m: Table, t: Id, run: Id)
    ensures forall i | i in SnapshotRows(m, t, run) :: SnapshotRows(m, t, run)[i].keeper in m
  {
    forall i | i in SnapshotRows(m, t, run) ensures SnapshotRows(m, t, run)[i].keeper in m {
      OneKeeperPerGroup(m, t, i, i);
    }
  }
}
