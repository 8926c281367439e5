/** What the transactions write, column by column, and what the report counts. */
module CleanupColumns {
  import opened Wrappers
  import opened Incidents
  import opened Cleanup
  import opened CleanupUndo
  import opened CleanupRuns
  import opened CleanupSchedule
  import opened CleanupPlan

  // ---- The first transaction ----

  /** The first table of the catalog without id column. */
  lemma {:induction false} FirstWithoutIdIs(catalog: seq<Fk>, lacksId: set<string>)
    ensures FirstWithoutId(catalog, lacksId).None? <==> forall f | f in catalog :: f.table !in lacksId
    ensures forall table | FirstWithoutId(catalog, lacksId) == Some(table) ::
              exists k | 0 <= k < |catalog| ::
                && catalog[k].table == table && table in lacksId
                && forall j | 0 <= j < k :: catalog[j].table !in lacksId
    decreases |catalog|
  {
    if catalog != [] {
      FirstWithoutIdIs(catalog[1..], lacksId);
      if catalog[0].table !in lacksId && FirstWithoutId(catalog, lacksId).Some? {
        var rest, table := catalog[1..], FirstWithoutId(catalog, lacksId).value;
        var k :| 0 <= k < |rest| && rest[k].table == table && forall j | 0 <= j < k :: rest[j].table !in lacksId;
        assert catalog[k + 1].table == table;
        assert forall j | 0 <= j < k + 1 :: catalog[j].table !in lacksId;
      }
    }
  }

  /** The outcome of the first transaction: nothing to do exactly without duplicates, else an error for
      a duplicate that is pending already, for a table without id column, or for a reference that a
      unique constraint refuses on the keeper, in this order; else the commit. */
  lemma StartOutcome(db: Db, t: Id, run: Id)
    ensures var r, dups := TryStart(db, t, run), Duplicates(db.incidents, t);
            && (r == Ok(None) <==> dups == {})
            && (r == Err(DuplicateKey) <==> exists i :: i in dups && i in db.pending)
            && (forall table | r == Err(NoIdColumn(table)) :: table in db.lacksId)
            && (dups != {} && (forall i | i in dups :: i !in db.pending) ==>
                  && (r.Err? && r.error.NoIdColumn? <==> exists f :: f in db.catalog && f.table in db.lacksId)
                  && ((forall f | f in db.catalog :: f.table !in db.lacksId) ==>
                        r == if UniqueOk(Started(db, run, Rows(db, t, run)).cells, db.exclusive)
                             then Ok(Some(Started(db, run, Rows(db, t, run)))) else Err(UniqueViolation)))
  {
    var rows := SnapshotRows(db.incidents, t, run);
    assert rows.Keys == Duplicates(db.incidents, t);
    if i :| i in rows && i in db.pending {
      assert i in rows.Keys * db.pending.Keys;
    }
    FirstWithoutIdIs(db.catalog, db.lacksId);
  }

  /** The pending row of a duplicate. */
  lemma SnapshotColumns(db: Db, t: Id, run: Id, i: Id)
    requires i in Duplicates(db.incidents, t)
    ensures i in Rows(db, t, run)
    ensures var p := Rows(db, t, run)[i];
            && p.run == run && p.tenant == t && p.previousStatus == db.incidents[i].status
            && IsOpenIn(db.incidents, t, p.keeper) && SameScopeAndTitle(db.incidents[p.keeper], db.incidents[i])
            && p.keeper !in Duplicates(db.incidents, t)
  {
    CandidateIff(db.incidents, t, i);
    KeeperFields(db.incidents, t, i);
    OneKeeperPerGroup(db.incidents, t, i, i);
  }

  // ---- A batch ----

  /** A committed batch, row by row. An incident that still has the status of its pending row is closed
      with the date and the reason, and its undo row repeats the pending one; any other picked incident
      stays; all picked rows leave the pending table, and nothing else changes. */
  lemma BatchColumns(db: Db, b: Batch, d: Db, i: Id)
    requires b.pick <= db.pending.Keys && TryBatch(db, b) == Ok(d)
    ensures i in b.pick && i in db.incidents && db.incidents[i].status == db.pending[i].previousStatus ==>
              var was, p := db.incidents[i], db.pending[i];
              && i in d.incidents && i !in db.undo && i in d.undo
              && d.incidents[i] == was.(status := Archived, archivedAt := Some(b.now),
                   closureReason := Some("Archived as duplicate incident by cleanup_duplicate_incidents.py"))
              && d.undo[i] == UndoRow(p.run, p.tenant, p.keeper, p.previousStatus, b.now)
    ensures !(i in b.pick && i in db.incidents && db.incidents[i].status == db.pending[i].previousStatus) ==>
              && (i in d.incidents <==> i in db.incidents) && (i in db.incidents ==> d.incidents[i] == db.incidents[i])
              && (i in d.undo <==> i in db.undo) && (i in db.undo ==> d.undo[i] == db.undo[i])
    ensures i in d.pending <==> i in db.pending && i !in b.pick
    ensures i in d.pending ==> d.pending[i] == db.pending[i]
    ensures d.cells == db.cells && d.relinks == db.relinks
  {
    assert i in b.pick ==> !Blocked(db, i);
  }

  /** A batch is refused exactly if it would archive an incident that still has an undo row. */
  lemma BatchRefusedIff(db: Db, b: Batch)
    requires b.pick <= db.pending.Keys
    ensures TryBatch(db, b).Err? <==>
              exists i | i in b.pick ::
                i in db.undo && i in db.incidents && db.incidents[i].status == db.pending[i].previousStatus
  {
    if i :| i in b.pick && i in db.undo && i in db.incidents && db.incidents[i].status == db.pending[i].previousStatus {
      assert Blocked(db, i);
    }
    if AnyBlocked(db, b.pick) {
      var i :| i in b.pick && Blocked(db, i);
      assert i in db.undo && i in db.incidents && db.incidents[i].status == db.pending[i].previousStatus;
    }
  }

  // ---- Constraints ----

  /** What the constraints forbid: one incident in both cells of an exclusive pair, two open incidents of
      a tenant with one signature, neither deleted, and a reference of the catalog to no incident. */
  lemma LegalIff(db: Db)
    ensures Legal(db) <==>
              && (forall c, d | (c, d) in db.exclusive && c != d && c in db.cells && d in db.cells ::
                    db.cells[c] == None || db.cells[c] != db.cells[d])
              && (forall i, j | i in db.incidents && j in db.incidents && i != j
                                && db.incidents[i].status == Open && db.incidents[j].status == Open
                                && !db.incidents[i].deleted && !db.incidents[j].deleted
                                && db.incidents[i].tenant == db.incidents[j].tenant ::
                    db.incidents[i].signature == None || db.incidents[i].signature != db.incidents[j].signature)
              && (forall c | c in db.cells && c.fk in db.catalog ::
                    db.cells[c] == None || db.cells[c].value in db.incidents)
  {
    if UniqueOk(db.cells, db.exclusive) {
      forall c, d | (c, d) in db.exclusive && c != d && c in db.cells && d in db.cells
        ensures db.cells[c] == None || db.cells[c] != db.cells[d]
      {
        var p := (c, d);
        assert p in db.exclusive && p.0 in db.cells && p.1 in db.cells;
      }
    }
  }

  // ---- Undo ----

  /** An accepted undo, row by row: an incident of the run that is still archived gets the status of its
      undo row and no closing date or reason; a reference still where the run put it goes back to where
      its relink row says; the rows of the run are gone. */
  lemma UndoColumns(db: Db, run: Id, d: Db, i: Id, c: Cell)
    requires TryUndo(db, run) == Ok(d)
    ensures i in d.incidents <==> i in db.incidents
    ensures i in db.incidents ==>
              d.incidents[i] ==
              if i in db.undo && db.undo[i].run == run && db.incidents[i].status == Archived
              then db.incidents[i].(status := db.undo[i].previousStatus, archivedAt := None, closureReason := None)
              else db.incidents[i]
    ensures c in d.cells <==> c in db.cells
    ensures c in db.cells ==>
              d.cells[c] ==
              if RelinkKey(run, c) in db.relinks && db.cells[c] == Some(db.relinks[RelinkKey(run, c)].to)
              then Some(db.relinks[RelinkKey(run, c)].from) else db.cells[c]
    ensures i in d.pending <==> i in db.pending && db.pending[i].run != run
    ensures i in d.undo <==> i in db.undo && db.undo[i].run != run
    ensures forall k :: k in d.relinks <==> k in db.relinks && k.run != run
  {
  }

  // ---- The report ----

  function OpenOf(m: Table, t: Id): set<Id> {
    set i | i in m && IsOpenIn(m, t, i)
  }

  /** Scope and title of the groups with two or more open incidents. */
  function CrowdedGroups(m: Table, t: Id): set<GroupKey> {
    set i | i in m && IsOpenIn(m, t, i)
            && (exists j | j in m :: j != i && IsOpenIn(m, t, j) && SameScopeAndTitle(m[j], m[i])) ::
      GroupKey(if m[i].device.Some? then m[i].device else m[i].site, m[i].title)
  }

  lemma CrowdedIff(m: Table, t: Id, i: Id)
    requires IsOpenIn(m, t, i)
    ensures i in Crowded(m, t) <==> exists j | j in m :: j != i && IsOpenIn(m, t, j) && SameScopeAndTitle(m[j], m[i])
  {
    CandidateIff(m, t, i);
    var peers := Peers(m, t, i);
    forall j | j in m ensures j in peers <==> IsOpenIn(m, t, j) && SameScopeAndTitle(m[j], m[i]) {
      CandidateIff(m, t, j);
      GroupIff(m[j], m[i]);
    }
    assert i in peers;
    if j :| j in peers && j != i {
      TwoMembers(peers, j, i);
    } else {
      assert peers == {i};
    }
  }

  lemma CrowdedKeys(m: Table, t: Id)
    ensures GroupKeys(m, Crowded(m, t)) == CrowdedGroups(m, t)
  {
    forall i | IsOpenIn(m, t, i)
      ensures i in Crowded(m, t) <==> exists j | j in m :: j != i && IsOpenIn(m, t, j) && SameScopeAndTitle(m[j], m[i])
    {
      CrowdedIff(m, t, i);
    }
    forall i | i in m ensures IsCandidate(m, t, i) <==> IsOpenIn(m, t, i) {
      CandidateIff(m, t, i);
    }
  }

  /** The report fails exactly if there are duplicates and a table of the catalog has no id column. */
  lemma PlanFailsIff(db: Db, t: Id)
    ensures PlanOf(db, t).Err? <==>
              Duplicates(db.incidents, t) != {} && exists f :: f in db.catalog && f.table in db.lacksId
  {
    FirstWithoutIdIs(db.catalog, db.lacksId);
  }

  /** The numbers of the report: the open incidents, the groups of two or more, what is archived and what
      is kept, and per column of the catalog the references to what is archived, if there are any. */
  lemma PlanReports(db: Db, t: Id)
    requires PlanOf(db, t).Ok?
    ensures var plan, m := PlanOf(db, t).value, db.incidents;
            && plan.openTotal == |OpenOf(m, t)| && plan.groups == |CrowdedGroups(m, t)|
            && plan.archive == |Duplicates(m, t)| && plan.keep + plan.archive == plan.openTotal
            && (plan.archive == 0 <==> plan.groups == 0)
            && (forall fk | fk in plan.relinks :: plan.relinks[fk] > 0)
            && (forall fk | fk in Fks(db) :: |Hits(db, t, fk)| == if fk in plan.relinks then plan.relinks[fk] else 0)
  {
    var m := db.incidents;
    forall i | i in m ensures IsCandidate(m, t, i) <==> IsOpenIn(m, t, i) {
      CandidateIff(m, t, i);
    }
    assert Candidates(m, t) == OpenOf(m, t);
    CrowdedKeys(m, t);
    PlanAddsUp(m, t);
    PlannedMoves(db, t);
  }
}
