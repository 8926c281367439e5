/** The dry run: its counts, and that an apply does exactly what it announced. */
module CleanupPlan {
  import opened Wrappers
  import opened Incidents
  import opened Cleanup
  import opened CleanupUndo
  import opened CleanupRuns
  import opened CleanupSchedule
  import Sets

  /** The counts of the report; `relinks` has no zero entries. */
  datatype Plan = Plan(openTotal: nat, keep: nat, archive: nat, groups: nat, relinks: map<Fk, nat>)

  function Keepers(m: Table, t: Id): set<Id> {
    set i | i in m && IsCandidate(m, t, i) && RowNumber(m, t, i) == 1
  }

  function GroupOf(m: Table, i: Id): GroupKey {
    if i in m then Group(m[i]) else GroupKey(None, "")
  }

  function GroupKeys(m: Table, ids: set<Id>): set<GroupKey> {
    set i | i in ids :: GroupOf(m, i)
  }

  /** The members of groups with more than one member. */
  function Crowded(m: Table, t: Id): set<Id> {
    set i | i in m && IsCandidate(m, t, i) && |Peers(m, t, i)| > 1
  }

  /** The cells of one column that point at a duplicate. */
  function Hits(db: Db, t: Id, fk: Fk): set<Cell> {
    set c | c in db.cells && c.fk == fk && db.cells[c].Some? && db.cells[c].value in Duplicates(db.incidents, t)
  }

  function RelinkCounts(db: Db, t: Id, fks: set<Fk>): map<Fk, nat> {
    map f | f in fks && |Hits(db, t, f)| > 0 :: |Hits(db, t, f)|
  }

  function PlanOf(db: Db, t: Id): Result<Plan, Failure> {
    var m := db.incidents;
    var counts := Plan(|Candidates(m, t)|, |Keepers(m, t)|, |Duplicates(m, t)|, |GroupKeys(m, Crowded(m, t))|, map[]);
    if counts.archive == 0 then Ok(counts)
    else match FirstWithoutId(db.catalog, db.lacksId)
      case Some(table) => Err(NoIdColumn(table))
      case None => Ok(counts.(relinks := RelinkCounts(db, t, Fks(db))))
  }

  lemma OneKeyPerKeeper(m: Table, t: Id)
    ensures |Keepers(m, t)| == |GroupKeys(m, Candidates(m, t))|
  {
    var keepers := Keepers(m, t);
    forall x, y | x in keepers && y in keepers && x != y
      ensures GroupOf(m, x) != GroupOf(m, y)
    {
      RowNumberOneIsKeeper(m, t, x);
      RowNumberOneIsKeeper(m, t, y);
      OneKeeperPerGroup(m, t, x, y);
    }
    forall i | i in Candidates(m, t)
      ensures exists k :: k in keepers && GroupOf(m, k) == GroupOf(m, i)
    {
      var k := KeeperOf(m, t, i);
      OneKeeperPerGroup(m, t, i, k);
      RowNumberOneIsKeeper(m, t, k);
      assert k in keepers;
    }
    assert forall i | i in keepers :: i in Candidates(m, t);
    Sets.SameSize(keepers, i => GroupOf(m, i), GroupKeys(m, Candidates(m, t)));
  }

  /** Every open incident is kept or archived, one is kept per group, and there is something to
      archive exactly when some group has two members. */
  lemma PlanAddsUp(m: Table, t: Id)
    ensures |Keepers(m, t)| + |Duplicates(m, t)| == |Candidates(m, t)|
    ensures |Keepers(m, t)| == |GroupKeys(m, Candidates(m, t))|
    ensures |Duplicates(m, t)| == 0 <==> |GroupKeys(m, Crowded(m, t))| == 0
  {
    assert Candidates(m, t) == Keepers(m, t) + Duplicates(m, t);
    OneKeyPerKeeper(m, t);
    forall i | i in Duplicates(m, t) ensures i in Crowded(m, t) {
      var k := KeeperOf(m, t, i);
      OneKeeperPerGroup(m, t, i, i);
      TwoMembers(Peers(m, t, i), i, k);
    }
    forall i | i in Crowded(m, t) ensures Duplicates(m, t) != {} {
      var k := KeeperOf(m, t, i);
      assert Peers(m, t, i) != {k};
      var j :| j in Peers(m, t, i) && j != k;
      OneKeeperPerGroup(m, t, i, j);
    }
    if i :| i in Crowded(m, t) {
      assert GroupOf(m, i) in GroupKeys(m, Crowded(m, t));
    }
    if Crowded(m, t) == {} {
      assert GroupKeys(m, Crowded(m, t)) == {};
    }
  }

  lemma TwoMembers(s: set<Id>, i: Id, k: Id)
    requires i in s && k in s && i != k
    ensures |s| > 1
  {
    assert |s - {i}| == |s| - 1;
    assert k in s - {i};
  }

  // ---- The dry run predicts the apply ----

  function RelinkedIn(db: Db, run: Id, fk: Fk): set<RelinkKey> {
    set k | k in db.relinks && k.run == run && k.cell.fk == fk
  }

  lemma RelinkedCount(d: Db, run: Id, fk: Fk, hits: set<Cell>)
    requires forall c | c in hits :: c.fk == fk
    requires forall c: Cell | c.fk == fk :: RelinkKey(run, c) in d.relinks <==> c in hits
    ensures |RelinkedIn(d, run, fk)| == |hits|
  {
    forall k | k in RelinkedIn(d, run, fk) ensures k.cell in hits && RelinkKey(run, k.cell) == k {
    }
    Sets.SameSize(hits, c => RelinkKey(run, c), RelinkedIn(d, run, fk));
  }

  lemma RecordedIffHit(start: Db, t: Id, run: Id, c: Cell)
    requires Startable(start, t, run) && c.fk in Fks(start)
    ensures RelinkKey(run, c) in Started(start, run, Rows(start, t, run)).relinks <==> c in Hits(start, t, c.fk)
  {
    var rows := Rows(start, t, run);
    SnapshotOk(start, t, run);
    if c in start.cells {
      StartedCell(start, run, rows, c);
    } else {
      assert RelinkKey(run, c) !in RelinksOf(start, run);
    }
  }

  lemma ArchivedAt(start: Db, t: Id, run: Id, when: map<Id, int>, end: Db)
    requires At(start, t, run, Duplicates(start.incidents, t), when, end)
    ensures UndoOf(end, run) == Duplicates(start.incidents, t)
  {
    UndoRowsAt(start, run, Rows(start, t, run), Duplicates(start.incidents, t), when);
  }

  lemma CandidatesAfter(m: Table, m': Table, t: Id, done: set<Id>)
    requires m'.Keys == m.Keys && done == Duplicates(m, t)
    requires forall i | i in m :: if i in done then !m'[i].status.IsOpen() else m'[i] == m[i]
    ensures Candidates(m', t) == Keepers(m, t)
  {
  }

  lemma CandidatesLeft(start: Db, t: Id, run: Id, rows: map<Id, PendingRow>, when: map<Id, int>)
    requires rows.Keys == Duplicates(start.incidents, t) && RunPoint(start, run, rows, rows.Keys, when)
    ensures Candidates(RunTo(start, run, rows, rows.Keys, when).incidents, t) == Keepers(start.incidents, t)
  {
    StartedArchivable(start, run, rows, rows.Keys, when);
    CandidatesAfter(start.incidents, RunTo(start, run, rows, rows.Keys, when).incidents, t, rows.Keys);
  }

  lemma CandidatesAt(start: Db, t: Id, run: Id, when: map<Id, int>, end: Db)
    requires At(start, t, run, Duplicates(start.incidents, t), when, end)
    ensures Candidates(end.incidents, t) == Keepers(start.incidents, t)
  {
    var rows := Rows(start, t, run);
    assert rows.Keys == Duplicates(start.incidents, t) by {
      SnapshotOk(start, t, run);
    }
    CandidatesLeft(start, t, run, rows, when);
  }

  lemma MovesAt(start: Db, t: Id, run: Id, when: map<Id, int>, end: Db, fk: Fk)
    requires At(start, t, run, Duplicates(start.incidents, t), when, end) && fk in Fks(start)
    ensures |RelinkedIn(end, run, fk)| == |Hits(start, t, fk)|
  {
    forall c: Cell | c.fk == fk
      ensures RelinkKey(run, c) in end.relinks <==> c in Hits(start, t, fk)
    {
      RecordedIffHit(start, t, run, c);
    }
    RelinkedCount(end, run, fk, Hits(start, t, fk));
  }

  lemma PlannedMoves(db: Db, t: Id)
    requires PlanOf(db, t).Ok?
    ensures var plan := PlanOf(db, t).value;
            && plan.archive == |Duplicates(db.incidents, t)| && plan.keep == |Keepers(db.incidents, t)|
            && forall fk | fk in Fks(db) ::
                 |Hits(db, t, fk)| == if fk in plan.relinks then plan.relinks[fk] else 0
  {
    if Duplicates(db.incidents, t) == {} {
      assert forall fk :: Hits(db, t, fk) == {};
    }
  }

  /** On the state the dry run saw, a completed apply archives exactly `archive` incidents, moves
      exactly the announced number of references per column, and leaves `keep` open incidents,
      none of them a duplicate. */
  lemma PlanPredictsApply(start: Db, t: Id, run: Id, when: map<Id, int>, end: Db)
    requires At(start, t, run, Duplicates(start.incidents, t), when, end) && PlanOf(start, t).Ok?
    ensures var plan := PlanOf(start, t).value;
            && |UndoOf(end, run)| == plan.archive
            && |Candidates(end.incidents, t)| == plan.keep
            && Duplicates(end.incidents, t) == {}
            && forall fk | fk in Fks(start) ::
                 |RelinkedIn(end, run, fk)| == if fk in plan.relinks then plan.relinks[fk] else 0
  {
    ArchivedAt(start, t, run, when, end);
    DuplicatesAt(start, t, run, Duplicates(start.incidents, t), when, end);
    CandidatesAt(start, t, run, when, end);
    PlannedMoves(start, t);
    forall fk | fk in Fks(start)
      ensures |RelinkedIn(end, run, fk)| == |Hits(start, t, fk)|
    {
      MovesAt(start, t, run, when, end, fk);
    }
  }

  // ---- A dry run in the middle of a run ----

  lemma NoHitsAt(start: Db, t: Id, run: Id, done: set<Id>, when: map<Id, int>, mid: Db, fk: Fk)
    requires At(start, t, run, done, when, mid) && fk in Fks(mid)
    ensures Hits(mid, t, fk) == {}
  {
    SnapshotOk(start, t, run);
    DuplicatesAt(start, t, run, done, when, mid);
    forall c | c in mid.cells && c.fk == fk ensures c !in Hits(mid, t, fk) {
      if mid.cells[c].Some? && mid.cells[c].value in Duplicates(mid.incidents, t) {
        NothingOnRow(start, run, Rows(start, t, run), done, when, mid.cells[c].value);
      }
    }
  }

  lemma NoRelinkCounts(start: Db, t: Id, run: Id, done: set<Id>, when: map<Id, int>, mid: Db)
    requires At(start, t, run, done, when, mid)
    ensures RelinkCounts(mid, t, Fks(mid)) == map[]
  {
    forall f | f in Fks(mid) ensures |Hits(mid, t, f)| == 0 {
      NoHitsAt(start, t, run, done, when, mid, f);
    }
  }

  /** The end of a resumed run: all duplicates of its start are archived, and since the middle no
      reference has moved. */
  lemma ResumeEnds(start: Db, t: Id, run: Id, done: set<Id>, when: map<Id, int>, mid: Db, s: Session, end: Db)
    requires At(start, t, run, done, when, mid) && TenantPending(mid, t)
    requires Runs(mid, t, s, end) && !TenantPending(end, t)
    ensures s.run == run && end.cells == mid.cells && end.relinks == mid.relinks
    ensures UndoOf(mid, run) == done && UndoOf(end, run) == Duplicates(start.incidents, t)
    ensures done <= Duplicates(start.incidents, t)
    ensures PendingOf(mid, run) == Duplicates(start.incidents, t) - done
  {
    var rows := Rows(start, t, run);
    var all, later := done + Picked(s.batches), when + Stamps(s.batches);
    SessionFromMiddle(start, t, run, done, when, mid, s, end);
    PendingAt(start, t, run, all, later, end);
    PendingAt(start, t, run, done, when, mid);
    UndoRowsAt(start, run, rows, done, when);
    UndoRowsAt(start, run, rows, all, later);
    SnapshotOk(start, t, run);
  }

  lemma PlanInTheMiddle(start: Db, t: Id, run: Id, done: set<Id>, when: map<Id, int>, mid: Db)
    requires At(start, t, run, done, when, mid) && PlanOf(mid, t).Ok?
    ensures PlanOf(mid, t).value.relinks == map[]
    ensures PlanOf(mid, t).value.archive == |Duplicates(start.incidents, t) - done|
  {
    DuplicatesAt(start, t, run, done, when, mid);
    NoRelinkCounts(start, t, run, done, when, mid);
    PlannedMoves(mid, t);
  }

  /** A dry run taken while a run is interrupted announces exactly what resuming it does: it archives
      `archive` more incidents, namely what is pending, and moves no reference. */
  lemma PlanPredictsResume(start: Db, t: Id, run: Id, done: set<Id>, when: map<Id, int>, mid: Db, s: Session, end: Db)
    requires At(start, t, run, done, when, mid) && TenantPending(mid, t) && PlanOf(mid, t).Ok?
    requires Runs(mid, t, s, end) && !TenantPending(end, t)
    ensures var plan := PlanOf(mid, t).value;
            && plan.archive == |PendingOf(mid, run)| == |UndoOf(end, run)| - |UndoOf(mid, run)|
            && plan.relinks == map[] && end.cells == mid.cells && end.relinks == mid.relinks
  {
    ResumeEnds(start, t, run, done, when, mid, s, end);
    PlanInTheMiddle(start, t, run, done, when, mid);
    var all := Duplicates(start.incidents, t);
    assert |all - done| == |all| - |done|;
  }

  /** A tenant without duplicates has one open incident per group. */
  lemma NoDuplicatesOnePerGroup(m: Table, t: Id)
    ensures Duplicates(m, t) == {} <==>
            forall i, j | IsCandidate(m, t, i) && IsCandidate(m, t, j) && Group(m[i]) == Group(m[j]) :: i == j
  {
    if Duplicates(m, t) == {} {
      forall i, j | IsCandidate(m, t, i) && IsCandidate(m, t, j) && Group(m[i]) == Group(m[j]) ensures i == j {
        OneKeeperPerGroup(m, t, i, j);
        OneKeeperPerGroup(m, t, j, i);
      }
    } else {
      var i :| i in Duplicates(m, t);
      OneKeeperPerGroup(m, t, i, i);
    }
  }
}
