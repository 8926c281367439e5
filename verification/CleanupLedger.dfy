/** Conservation over every history: any interleaving of runs of any tenants, undos, crashes and
    arbitrary edits by the application to incidents and references. */
module CleanupLedger {
  import opened Wrappers
  import opened Incidents
  import opened Cleanup
  import opened CleanupUndo
  import opened CleanupRuns
  import opened CleanupSchedule

  /** One committed transaction. A crash commits nothing, so it is no step. An outside write may
      change incidents, references and the schema in any way the unique constraints allow. */
  datatype Step =
    | Start(tenant: Id, run: Id)
    | Commit(run: Id, batch: Batch)
    | Undo(run: Id)
    | Outside(incidents: Table, cells: map<Cell, Option<Id>>, catalog: seq<Fk>, lacksId: set<string>,
              exclusive: set<(Cell, Cell)>)

  function Written(db: Db, s: Step): Db
    requires s.Outside?
  {
    db.(incidents := s.incidents, cells := s.cells, catalog := s.catalog, lacksId := s.lacksId,
        exclusive := s.exclusive)
  }

  function Next(db: Db, s: Step): Db {
    match s
    case Start(t, run) =>
      if TenantPending(db, t) || !FreshRun(db, run) then db
      else
        var first := TryStart(db, t, run);
        if first.Ok? && first.value.Some? then first.value.value else db
    case Commit(run, b) =>
      if b.pick <= PendingOf(db, run) && TryBatch(db, b).Ok? then TryBatch(db, b).value else db
    case Undo(run) =>
      if TryUndo(db, run).Ok? then TryUndo(db, run).value else db
    case Outside(_, _, _, _, _) =>
      if Legal(Written(db, s)) then Written(db, s) else db
  }

  /** What an observer of run `r` writes down: the snapshot it took and the references seen to move
      then; the incidents whose row was seen to change in one of its batches, with the status just
      before; and the incidents its batches consumed without touching, with the status they had
      (`None` if the row was gone). */
  datatype Ledger = Ledger(
    db: Db, snapshot: map<Id, PendingRow>, moved: map<Cell, Move>, archived: map<Id, Status>,
    skipped: map<Id, Option<Status>>)

  predicate Touched(db: Db, db': Db, i: Id) {
    i in db.incidents && i in db'.incidents && db'.incidents[i] != db.incidents[i]
  }

  function StatusOf(db: Db, i: Id): Option<Status> {
    if i in db.incidents then Some(db.incidents[i].status) else None
  }

  function Seen(db: Db, d: Db, consumed: set<Id>): map<Id, Status> {
    map i | i in consumed && Touched(db, d, i) :: db.incidents[i].status
  }

  function Unseen(db: Db, d: Db, consumed: set<Id>): map<Id, Option<Status>> {
    map i | i in consumed && !Touched(db, d, i) :: StatusOf(db, i)
  }

  predicate SeenToMove(db: Db, d: Db, c: Cell) {
    c in db.cells && c in d.cells && db.cells[c].Some? && d.cells[c].Some? && d.cells[c] != db.cells[c]
  }

  function Moves(db: Db, d: Db): map<Cell, Move> {
    map c | c in db.cells && SeenToMove(db, d, c) :: Move(db.cells[c].value, d.cells[c].value)
  }

  function PendingRowsOf(db: Db, r: Id): map<Id, PendingRow> {
    map i | i in db.pending && db.pending[i].run == r :: db.pending[i]
  }

  function Observe(l: Ledger, r: Id, s: Step): Ledger {
    var db := l.db;
    var db' := Next(db, s);
    if s.Start? && s.run == r && db' != db then
      Ledger(db', PendingRowsOf(db', r), Moves(db, db'), map[], map[])
    else if s.Commit? && s.run == r then
      var consumed := PendingOf(db, r) - PendingOf(db', r);
      Ledger(db', l.snapshot, l.moved, l.archived + Seen(db, db', consumed), l.skipped + Unseen(db, db', consumed))
    else if s.Undo? && s.run == r && TryUndo(db, r).Ok? then
      Ledger(db', map[], map[], map[], map[])
    else
      l.(db := db')
  }

  function Play<S, E>(s: S, es: seq<E>, f: (S, E) -> S): S
    decreases |es|
  {
    if es == [] then s else Play(f(s, es[0]), es[1..], f)
  }

  function Observer(r: Id): (Ledger, Step) -> Ledger {
    (l, s) => Observe(l, r, s)
  }

  function History(l: Ledger, r: Id, steps: seq<Step>): Ledger {
    Play(l, steps, Observer(r))
  }

  /** What is written down of a committed batch: a picked incident that still has its recorded status is
      archived, any other one skipped, with the status it has or as gone. */
  lemma BatchObserved(l: Ledger, r: Id, b: Batch, i: Id)
    requires b.pick <= PendingOf(l.db, r) && TryBatch(l.db, b).Ok? && i in b.pick
    requires l.db.pending[i].previousStatus.IsOpen()
    ensures var o, m := Observe(l, r, Commit(r, b)), l.db.incidents;
            && o.db == TryBatch(l.db, b).value && o.snapshot == l.snapshot && o.moved == l.moved
            && if i in m && m[i].status == l.db.pending[i].previousStatus then
                 i in o.archived && o.archived[i] == m[i].status && (i in o.skipped ==> i in l.skipped)
               else
                 && i in o.skipped && o.skipped[i] == (if i in m then Some(m[i].status) else None)
                 && (i in o.archived ==> i in l.archived)
  {
    assert i in PendingOf(l.db, r) - PendingOf(TryBatch(l.db, b).value, r);
  }

  /** An outside write replaces incidents, references and schema, or is refused as a whole. */
  lemma OutsideObserved(db: Db, s: Step)
    requires s.Outside?
    ensures var d := Next(db, s);
            d == db || (d.incidents == s.incidents && d.cells == s.cells && d.catalog == s.catalog
                        && d.lacksId == s.lacksId && d.exclusive == s.exclusive && d.pending == db.pending
                        && d.undo == db.undo && d.relinks == db.relinks && Legal(d))
    ensures Legal(Db(s.incidents, s.cells, s.catalog, s.lacksId, s.exclusive, db.pending, db.undo, db.relinks)) ==>
              Next(db, s).incidents == s.incidents && Next(db, s).cells == s.cells
  {
  }

  // ---- Processes as histories ----

  function Commits(run: Id, batches: seq<Batch>): seq<Step> {
    if batches == [] then [] else [Commit(run, batches[0])] + Commits(run, batches[1..])
  }

  lemma {:induction false} DrainIsHistory(db: Db, run: Id, limit: nat, batches: seq<Batch>, end: Db)
    requires Drains(db, run, limit, batches, end)
    ensures Play(db, Commits(run, batches), Next) == end
    decreases |batches|
  {
    if batches != [] {
      var mid := TryBatch(db, batches[0]).value;
      assert Next(db, Commit(run, batches[0])) == mid;
      DrainIsHistory(mid, run, limit, batches[1..], end);
      assert Commits(run, batches)[1..] == Commits(run, batches[1..]);
    }
  }

  lemma PlayFirst<S, E>(s: S, e: E, rest: seq<E>, f: (S, E) -> S)
    ensures Play(s, [e] + rest, f) == Play(f(s, e), rest, f)
  {
    assert ([e] + rest)[1..] == rest;
  }

  lemma StartCommits(db: Db, t: Id, run: Id, d: Db)
    requires !TenantPending(db, t) && FreshRun(db, run) && TryStart(db, t, run) == Ok(Some(d))
    ensures Next(db, Start(t, run)) == d
  {
  }

  lemma StartIsHistory(db: Db, t: Id, s: Session, first: Db, end: Db)
    requires !TenantPending(db, t) && FreshRun(db, s.run) && TryStart(db, t, s.run) == Ok(Some(first))
    requires Drains(first, s.run, s.batchSize, s.batches, end)
    ensures Play(db, [Start(t, s.run)] + Commits(s.run, s.batches), Next) == end
  {
    StartCommits(db, t, s.run, first);
    DrainIsHistory(first, s.run, s.batchSize, s.batches, end);
    PlayFirst(db, Start(t, s.run), Commits(s.run, s.batches), Next);
  }

  /** What a process does, started on any database and stopped anywhere, is a history of these steps:
      those of its batches, if it resumes a run, or its start and those, or nothing. */
  lemma SessionIsHistory(db: Db, t: Id, s: Session, end: Db)
    requires Runs(db, t, s, end)
    ensures if TenantPending(db, t) then Play(db, Commits(s.run, s.batches), Next) == end
            else end == db || Play(db, [Start(t, s.run)] + Commits(s.run, s.batches), Next) == end
  {
    if TenantPending(db, t) {
      DrainIsHistory(db, s.run, s.batchSize, s.batches, end);
    } else {
      var first := TryStart(db, t, s.run);
      if first.Ok? && first.value.Some? && s.committed {
        StartIsHistory(db, t, s, first.value.value, end);
      }
    }
  }

  predicate Splits(all: set<Id>, a: set<Id>, b: set<Id>, c: set<Id>) {
    all == a + b + c && a !! b && a !! c && b !! c
  }

  /** Every incident of the snapshot is in exactly one of pending, undo and skipped. */
  predicate IncidentsBalanced(l: Ledger, r: Id) {
    && Splits(l.snapshot.Keys, PendingOf(l.db, r), UndoOf(l.db, r), l.skipped.Keys)
    && UndoOf(l.db, r) == l.archived.Keys
    && (forall i | i in l.archived :: l.db.undo[i].previousStatus == l.archived[i])
    && (forall i | i in PendingOf(l.db, r) :: l.db.pending[i] == l.snapshot[i])
    && (forall i | i in l.snapshot :: l.snapshot[i].previousStatus.IsOpen())
    && (forall i | i in l.archived :: l.archived[i] == l.snapshot[i].previousStatus)
    && (forall i | i in l.skipped :: l.skipped[i] != Some(l.snapshot[i].previousStatus))
  }

  /** The relink rows of the run are exactly the moves that were seen, each off an incident of the
      snapshot to its keeper. */
  predicate MovesBalanced(l: Ledger, r: Id) {
    && (forall k | k in l.db.relinks && k.run == r :: k.cell in l.moved)
    && (forall c | c in l.moved ::
          && RelinkKey(r, c) in l.db.relinks && l.db.relinks[RelinkKey(r, c)] == l.moved[c]
          && l.moved[c].from in l.snapshot && l.moved[c].to == l.snapshot[l.moved[c].from].keeper)
  }

  predicate Balanced(l: Ledger, r: Id) {
    IncidentsBalanced(l, r) && MovesBalanced(l, r)
  }

  /** Every history begins balanced: before the run there is nothing to record. */
  lemma FreshIsBalanced(db: Db, r: Id)
    requires FreshRun(db, r)
    ensures Balanced(Ledger(db, map[], map[], map[], map[]), r)
  {
    assert forall k | k in db.relinks :: k.run == r ==> k in RelinksOf(db, r);
  }

  /** The rows of run `r` are the same in both states. */
  predicate SameRun(db: Db, db': Db, r: Id) {
    && PendingOf(db', r) == PendingOf(db, r) && UndoOf(db', r) == UndoOf(db, r)
    && (forall i | i in PendingOf(db, r) :: db'.pending[i] == db.pending[i])
    && (forall i | i in UndoOf(db, r) :: db'.undo[i] == db.undo[i])
    && (forall k | k in db.relinks && k.run == r :: k in db'.relinks && db'.relinks[k] == db.relinks[k])
    && (forall k | k in db'.relinks && k.run == r :: k in db.relinks)
  }

  lemma FrameBalances(l: Ledger, db': Db, r: Id)
    requires Balanced(l, r) && SameRun(l.db, db', r)
    ensures Balanced(l.(db := db'), r)
  {
  }

  // ---- Start ----

  /** A started run, seen from any run `r`: its own rows are new, the others' are untouched. */
  lemma StartRows(db: Db, t: Id, run: Id)
    ensures var d := Next(db, Start(t, run));
            d == db || (Startable(db, t, run) && d == Started(db, run, Rows(db, t, run))
                        && UniqueOk(d.cells, db.exclusive))
  {
    if !TenantPending(db, t) && FreshRun(db, run) {
      TryStartCommits(db, t, run);
    }
  }

  lemma StartFrame(db: Db, t: Id, run: Id, r: Id)
    requires run != r
    ensures SameRun(db, Next(db, Start(t, run)), r)
  {
    StartRows(db, t, run);
    if Next(db, Start(t, run)) != db {
      SnapshotOk(db, t, run);
      OtherRunKept(db, run, Rows(db, t, run), r);
    }
  }

  lemma OtherRunKept(db: Db, run: Id, rows: map<Id, PendingRow>, r: Id)
    requires RowsOk(db, run, rows) && run != r
    ensures SameRun(db, Started(db, run, rows), r)
  {
    PendingKept(db.pending, rows, run, r);
  }

  lemma PendingKept(pending: map<Id, PendingRow>, rows: map<Id, PendingRow>, run: Id, r: Id)
    requires rows.Keys * pending.Keys == {} && run != r && forall i | i in rows :: rows[i].run == run
    ensures forall i :: i in pending + rows && (pending + rows)[i].run == r <==> i in pending && pending[i].run == r
    ensures forall i | i in pending :: (pending + rows)[i] == pending[i]
  {
    assert forall i | i in rows :: i !in rows.Keys * pending.Keys;
  }

  lemma SnapshotStatuses(m: Table, t: Id, run: Id)
    ensures forall i | i in SnapshotRows(m, t, run) :: SnapshotRows(m, t, run)[i].previousStatus.IsOpen()
  {
  }

  lemma NewRunPending(db: Db, run: Id, rows: map<Id, PendingRow>)
    requires RowsOk(db, run, rows)
    ensures var d := Started(db, run, rows);
            PendingRowsOf(d, run) == rows && PendingOf(d, run) == rows.Keys && UndoOf(d, run) == {}
  {
    assert forall i | i in db.pending :: i !in PendingOf(db, run);
  }

  /** The relink rows of a new run are exactly the references seen to change, with old and new value. */
  lemma NewRunMoves(db: Db, run: Id, rows: map<Id, PendingRow>)
    requires RowsOk(db, run, rows) && KeepersOutside(rows)
    ensures var d := Started(db, run, rows);
            && (forall c :: c in Moves(db, d) <==> RelinkKey(run, c) in d.relinks)
            && (forall c | c in Moves(db, d) ::
                  && d.relinks[RelinkKey(run, c)] == Moves(db, d)[c]
                  && Moves(db, d)[c].from in rows && Moves(db, d)[c].to == rows[Moves(db, d)[c].from].keeper)
  {
    var d := Started(db, run, rows);
    forall c
      ensures SeenToMove(db, d, c) <==> RelinkKey(run, c) in d.relinks
      ensures SeenToMove(db, d, c) ==>
                && OnRow(db, rows, c) && d.cells[c] == Some(rows[db.cells[c].value].keeper)
                && d.relinks[RelinkKey(run, c)] == Move(db.cells[c].value, d.cells[c].value)
    {
      if c in db.cells {
        StartedCell(db, run, rows, c);
      } else {
        assert RelinkKey(run, c) !in RelinksOf(db, run);
      }
    }
  }

  lemma NewRunBalances(db: Db, run: Id, rows: map<Id, PendingRow>)
    requires RowsOk(db, run, rows) && KeepersOutside(rows) && forall i | i in rows :: rows[i].previousStatus.IsOpen()
    ensures var d := Started(db, run, rows);
            Balanced(Ledger(d, PendingRowsOf(d, run), Moves(db, d), map[], map[]), run)
  {
    NewRunPending(db, run, rows);
    NewRunMoves(db, run, rows);
    var d := Started(db, run, rows);
    assert forall k | k in d.relinks && k.run == run :: k == RelinkKey(run, k.cell);
  }

  lemma StartBalances(l: Ledger, r: Id, t: Id)
    requires Balanced(l, r)
    ensures Balanced(Observe(l, r, Start(t, r)), r)
  {
    var db, d := l.db, Next(l.db, Start(t, r));
    StartRows(db, t, r);
    if d != db {
      SnapshotOk(db, t, r);
      SnapshotStatuses(db.incidents, t, r);
      NewRunBalances(db, r, Rows(db, t, r));
    }
  }

  // ---- Batches and undos ----

  lemma CommitFrame(db: Db, run: Id, b: Batch, r: Id)
    requires run != r
    ensures SameRun(db, Next(db, Commit(run, b)), r)
  {
    if b.pick <= PendingOf(db, run) && TryBatch(db, b).Ok? {
      var d := TryBatch(db, b).value;
      assert forall i | i in b.pick :: !Blocked(db, i);
      assert PendingOf(d, r) == PendingOf(db, r);
      assert UndoOf(d, r) == UndoOf(db, r);
    }
  }

  lemma UndoFrame(db: Db, run: Id, r: Id)
    requires run != r
    ensures SameRun(db, Undone(db, run), r)
  {
    var d := Undone(db, run);
    assert PendingOf(d, r) == PendingOf(db, r);
    assert UndoOf(d, r) == UndoOf(db, r);
  }

  /** What a committed batch of the run does to its own rows. */
  lemma CommitRows(db: Db, b: Batch, r: Id, d: Db)
    requires b.pick <= PendingOf(db, r) && TryBatch(db, b) == Ok(d)
    requires forall i | i in PendingOf(db, r) :: db.pending[i].previousStatus.IsOpen()
    ensures PendingOf(d, r) == PendingOf(db, r) - b.pick
    ensures forall i | i in PendingOf(d, r) :: d.pending[i] == db.pending[i]
    ensures UndoOf(d, r) == UndoOf(db, r) + set i | i in b.pick && Archivable(db, i)
    ensures forall i | i in UndoOf(db, r) :: d.undo[i] == db.undo[i]
    ensures forall i | i in b.pick :: Touched(db, d, i) <==> Archivable(db, i)
    ensures forall i | i in b.pick && Archivable(db, i) ::
              d.undo[i].previousStatus == db.incidents[i].status == db.pending[i].previousStatus
  {
    assert forall i | i in b.pick :: !Blocked(db, i);
  }

  lemma SplitsOn(all: set<Id>, a: set<Id>, b: set<Id>, c: set<Id>, pick: set<Id>, seen: set<Id>)
    requires Splits(all, a, b, c) && seen <= pick <= a
    ensures Splits(all, a - pick, b + seen, c + (pick - seen))
  {
  }

  lemma ConsumedBalances(l: Ledger, r: Id, d: Db, pick: set<Id>, seen: map<Id, Status>, unseen: map<Id, Option<Status>>)
    requires IncidentsBalanced(l, r) && Consumes(l.db, d, r, pick, seen, unseen)
    ensures IncidentsBalanced(Ledger(d, l.snapshot, l.moved, l.archived + seen, l.skipped + unseen), r)
  {
    assert l.skipped.Keys + unseen.Keys == (l.skipped + unseen).Keys;
    SplitsOn(l.snapshot.Keys, PendingOf(l.db, r), UndoOf(l.db, r), l.skipped.Keys, pick, seen.Keys);
  }

  lemma SeenFacts(db: Db, d: Db, consumed: set<Id>)
    ensures Seen(db, d, consumed).Keys == set i | i in consumed && Touched(db, d, i)
    ensures Unseen(db, d, consumed).Keys == consumed - Seen(db, d, consumed).Keys
    ensures forall i | i in Seen(db, d, consumed) :: Seen(db, d, consumed)[i] == db.incidents[i].status
    ensures forall i | i in Unseen(db, d, consumed) :: Unseen(db, d, consumed)[i] == StatusOf(db, i)
  {
  }

  /** What a batch leaves alone has another status than in the snapshot, or is gone. */
  lemma UnseenDiffers(db: Db, d: Db, pick: set<Id>)
    requires forall i | i in pick :: i in db.pending && (Touched(db, d, i) <==> Archivable(db, i))
    ensures forall i | i in Unseen(db, d, pick) :: Unseen(db, d, pick)[i] != Some(db.pending[i].previousStatus)
  {
  }

  /** What an observer of a batch over `pick` finds. */
  predicate Consumes(db: Db, d: Db, r: Id, pick: set<Id>, seen: map<Id, Status>, unseen: map<Id, Option<Status>>) {
    && pick <= PendingOf(db, r) && PendingOf(d, r) == PendingOf(db, r) - pick
    && (forall i | i in PendingOf(d, r) :: d.pending[i] == db.pending[i])
    && seen.Keys <= pick && unseen.Keys == pick - seen.Keys
    && UndoOf(d, r) == UndoOf(db, r) + seen.Keys
    && (forall i | i in UndoOf(db, r) :: d.undo[i] == db.undo[i])
    && (forall i | i in seen :: d.undo[i].previousStatus == seen[i] == db.pending[i].previousStatus)
    && (forall i | i in unseen :: unseen[i] != Some(db.pending[i].previousStatus))
  }

  lemma CommitConsumes(db: Db, b: Batch, r: Id, d: Db)
    requires b.pick <= PendingOf(db, r) && TryBatch(db, b) == Ok(d)
    requires forall i | i in PendingOf(db, r) :: db.pending[i].previousStatus.IsOpen()
    ensures Consumes(db, d, r, b.pick, Seen(db, d, b.pick), Unseen(db, d, b.pick))
  {
    CommitRows(db, b, r, d);
    SeenFacts(db, d, b.pick);
    UnseenDiffers(db, d, b.pick);
    assert Seen(db, d, b.pick).Keys == set i | i in b.pick && Archivable(db, i);
  }

  lemma ConsumedObserved(l: Ledger, r: Id, d: Db, pick: set<Id>)
    requires IncidentsBalanced(l, r)
    requires Consumes(l.db, d, r, pick, Seen(l.db, d, pick), Unseen(l.db, d, pick))
    ensures var consumed := PendingOf(l.db, r) - PendingOf(d, r);
            IncidentsBalanced(Ledger(d, l.snapshot, l.moved, l.archived + Seen(l.db, d, consumed),
                                     l.skipped + Unseen(l.db, d, consumed)), r)
  {
    assert PendingOf(l.db, r) - PendingOf(d, r) == pick;
    ConsumedBalances(l, r, d, pick, Seen(l.db, d, pick), Unseen(l.db, d, pick));
  }

  lemma NothingConsumed(l: Ledger, r: Id)
    ensures var none := PendingOf(l.db, r) - PendingOf(l.db, r);
            l.archived + Seen(l.db, l.db, none) == l.archived && l.skipped + Unseen(l.db, l.db, none) == l.skipped
  {
  }

  lemma OwnCommitBalances(l: Ledger, r: Id, b: Batch)
    requires Balanced(l, r)
    ensures Balanced(Observe(l, r, Commit(r, b)), r)
  {
    var d := Next(l.db, Commit(r, b));
    assert d.relinks == l.db.relinks;
    if b.pick <= PendingOf(l.db, r) && TryBatch(l.db, b).Ok? {
      CommitConsumes(l.db, b, r, d);
      ConsumedObserved(l, r, d, b.pick);
    } else {
      NothingConsumed(l, r);
      assert Observe(l, r, Commit(r, b)) == l;
    }
  }

  lemma UndoneIsFresh(db: Db, r: Id)
    ensures FreshRun(Undone(db, r), r)
  {
  }

  lemma UndoBalances(l: Ledger, r: Id)
    requires Balanced(l, r)
    ensures Balanced(Observe(l, r, Undo(r)), r)
  {
    if TryUndo(l.db, r).Ok? {
      UndoneIsFresh(l.db, r);
      FreshIsBalanced(Undone(l.db, r), r);
    } else {
      assert Observe(l, r, Undo(r)) == l;
    }
  }

  lemma OutsideFrame(db: Db, s: Step, r: Id)
    requires s.Outside?
    ensures SameRun(db, Next(db, s), r)
  {
  }

  lemma StepBalances(l: Ledger, r: Id, s: Step)
    requires Balanced(l, r)
    ensures Balanced(Observe(l, r, s), r)
  {
    match s {
      case Start(t, run) =>
        if run == r { StartBalances(l, r, t); } else { StartFrame(l.db, t, run, r); }
      case Commit(run, b) =>
        if run == r { OwnCommitBalances(l, r, b); } else { CommitFrame(l.db, run, b, r); }
      case Undo(run) =>
        if run == r { UndoBalances(l, r); } else { UndoFrame(l.db, run, r); }
      case Outside(_, _, _, _, _) =>
        OutsideFrame(l.db, s, r);
    }
    if s.Outside? || s.run != r {
      FrameBalances(l, Next(l.db, s), r);
    }
  }

  /** In every history each incident of a run's snapshot is in exactly one of pending, undo and
      skipped. It has an undo row of the run exactly if a batch of the run was seen to change it,
      and the row holds the status it had just before, which is the open one of the snapshot. It is
      skipped only if its status had changed since the snapshot or its row was gone. And the run's
      relink rows are exactly the references it was seen to move. */
  lemma {:induction false} Conservation(l: Ledger, r: Id, steps: seq<Step>)
    requires Balanced(l, r)
    ensures Balanced(History(l, r, steps), r)
    decreases |steps|
  {
    if steps != [] {
      StepBalances(l, r, steps[0]);
      Conservation(Observe(l, r, steps[0]), r, steps[1..]);
    }
  }

  // ---- Undo after any history ----

  lemma ArchivingKeepsSignatures(db: Db, chosen: set<Id>, when: map<Id, int>)
    requires chosen <= when.Keys && SignaturesOk(db.incidents)
    ensures SignaturesOk(ArchivedTable(db, chosen, when))
  {
    var m := ArchivedTable(db, chosen, when);
    assert forall i | i in m :: Exposed(m[i]) ==> m[i] == db.incidents[i];
  }

  lemma StartedLegal(db: Db, run: Id, rows: map<Id, PendingRow>)
    requires Legal(db) && RowsOk(db, run, rows) && KeepersOutside(rows)
    requires forall i | i in rows :: rows[i].keeper in db.incidents
    requires UniqueOk(Started(db, run, rows).cells, db.exclusive)
    ensures Legal(Started(db, run, rows))
  {
    StartedReferences(db, run, rows);
  }

  lemma StartIsLegal(db: Db, t: Id, run: Id)
    requires Legal(db)
    ensures Legal(Next(db, Start(t, run)))
  {
    StartRows(db, t, run);
    if Next(db, Start(t, run)) != db {
      SnapshotOk(db, t, run);
      KeepersExist(db.incidents, t, run);
      StartedLegal(db, run, Rows(db, t, run));
    }
  }

  lemma CommitIsLegal(db: Db, chosen: set<Id>, when: map<Id, int>)
    requires Legal(db) && chosen <= when.Keys
    ensures Legal(Archiving(db, chosen, when))
  {
    ArchivingKeepsSignatures(db, chosen, when);
    assert Fks(Archiving(db, chosen, when)) == Fks(db);
  }

  lemma LegalStep(db: Db, s: Step)
    requires Legal(db)
    ensures Legal(Next(db, s))
  {
    match s {
      case Start(t, run) => StartIsLegal(db, t, run);
      case Commit(run, b) =>
        if b.pick <= PendingOf(db, run) { CommitIsLegal(db, b.pick, Stamp(b.pick, b.now)); }
      case Undo(_) =>
      case Outside(_, _, _, _, _) =>
    }
  }

  lemma {:induction false} LegalHistory(l: Ledger, r: Id, steps: seq<Step>)
    requires Legal(l.db)
    ensures Legal(History(l, r, steps).db)
    decreases |steps|
  {
    if steps != [] {
      LegalStep(l.db, steps[0]);
      LegalHistory(Observe(l, r, steps[0]), r, steps[1..]);
    }
  }

  /** What an accepted undo does, in terms of what was seen: an incident that this run archived gets
      the status it had just before, if it is still archived; a reference that this run moved
      returns, if it is still where the run put it. Everything else stays: skipped incidents, later
      edits, and the rows of all other runs. */
  predicate Effect(h: Ledger, u: Db, r: Id) {
    && u.incidents.Keys == h.db.incidents.Keys && u.cells.Keys == h.db.cells.Keys
    && (forall i | i in h.db.incidents ::
          if i in h.archived && h.db.incidents[i].status == Archived
          then u.incidents[i] == Reopen(h.db.incidents[i], h.archived[i])
          else u.incidents[i] == h.db.incidents[i])
    && (forall i | i in h.skipped && i in h.db.incidents :: u.incidents[i] == h.db.incidents[i])
    && (forall c | c in h.db.cells ::
          if c in h.moved && h.db.cells[c] == Some(h.moved[c].to)
          then u.cells[c] == Some(h.moved[c].from)
          else u.cells[c] == h.db.cells[c])
    && FreshRun(u, r)
  }

  lemma UndoneIncidents(h: Ledger, r: Id)
    requires Balanced(h, r)
    ensures forall i | i in h.db.incidents ::
              Reopenable(h.db, r, i) <==> i in h.archived && h.db.incidents[i].status == Archived
  {
    forall i | i in h.db.incidents
      ensures Reopenable(h.db, r, i) <==> i in h.archived && h.db.incidents[i].status == Archived
    {
      assert i in UndoOf(h.db, r) <==> i in h.archived;
    }
  }

  lemma UndoneMoves(h: Ledger, r: Id)
    requires Balanced(h, r)
    ensures forall c | c in h.db.cells ::
              Restorable(h.db, r, c) <==> c in h.moved && h.db.cells[c] == Some(h.moved[c].to)
  {
    forall c | c in h.db.cells
      ensures Restorable(h.db, r, c) <==> c in h.moved && h.db.cells[c] == Some(h.moved[c].to)
    {
      assert RelinkKey(r, c) in h.db.relinks ==> RelinkKey(r, c).cell in h.moved;
    }
  }

  lemma UndoneEffect(h: Ledger, r: Id)
    requires Balanced(h, r)
    ensures Effect(h, Undone(h.db, r), r)
  {
    UndoneIncidents(h, r);
    UndoneMoves(h, r);
  }

  /** After any history, undo either has exactly that effect or changes nothing. From a legal start it
      is refused if and only if a reference it would return meets an exclusive partner that then
      holds the same incident, or would return to an incident that is gone, or an incident it would
      open again meets another open one with its signature. */
  lemma UndoRespectsEdits(l: Ledger, r: Id, steps: seq<Step>)
    requires Balanced(l, r)
    ensures var h := History(l, r, steps);
            var u := Next(h.db, Undo(r));
            && (TryUndo(h.db, r).Ok? ==> Effect(h, u, r) && forall q | q != r :: SameRun(h.db, u, q))
            && (TryUndo(h.db, r).Err? ==> u == h.db)
    ensures var h := History(l, r, steps);
            Legal(l.db) ==> (TryUndo(h.db, r).Err? <==> Conflict(h.db, r))
  {
    Conservation(l, r, steps);
    UndoNow(History(l, r, steps), r);
    if Legal(l.db) {
      LegalHistory(l, r, steps);
      UndoRefusedIff(History(l, r, steps).db, r);
    }
  }

  lemma UndoNow(h: Ledger, r: Id)
    requires Balanced(h, r)
    ensures var u := Next(h.db, Undo(r));
            && (TryUndo(h.db, r).Ok? ==> Effect(h, u, r) && forall q | q != r :: SameRun(h.db, u, q))
            && (TryUndo(h.db, r).Err? ==> u == h.db)
  {
    UndoneEffect(h, r);
    forall q | q != r ensures SameRun(h.db, Undone(h.db, r), q) {
      UndoFrame(h.db, r, q);
    }
  }
}
