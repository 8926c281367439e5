/** The duplicate-incident cleanup as transactions over five relations: incidents, the cells
    that reference them, and the pending, undo and relink bookkeeping of the script. */
module Cleanup {
  import opened Wrappers
  import opened Incidents

  datatype Fk = Fk(table: string, column: string)

  /** One nullable foreign-key value: a column of a row of a referencing table. */
  datatype Cell = Cell(fk: Fk, row: Id)

  datatype PendingRow = PendingRow(run: Id, tenant: Id, keeper: Id, previousStatus: Status)

  datatype UndoRow = UndoRow(run: Id, tenant: Id, keeper: Id, previousStatus: Status, archivedAt: int)

  datatype RelinkKey = RelinkKey(run: Id, cell: Cell)

  datatype Move = Move(from: Id, to: Id)

  /** The database. Primary keys and the UNIQUE on `undo.incident_id` are map keys. `catalog`
      lists the foreign keys to incidents (possibly with repeats), `lacksId` the tables without
      an id column, `exclusive` the pairs of cells that a unique constraint of the referencing
      table forbids to hold one incident at once. */
  datatype Db = Db(
    incidents: Table,
    cells: map<Cell, Option<Id>>,
    catalog: seq<Fk>,
    lacksId: set<string>,
    exclusive: set<(Cell, Cell)>,
    pending: map<Id, PendingRow>,
    undo: map<Id, UndoRow>,
    relinks: map<RelinkKey, Move>)

  datatype Failure = NoIdColumn(table: string) | DuplicateKey | UniqueViolation | ConstraintViolation

  const REASON := "Archived as duplicate incident by cleanup_duplicate_incidents.py"

  function Fks(db: Db): set<Fk> {
    set f | f in db.catalog
  }

  predicate UniqueOk(cells: map<Cell, Option<Id>>, exclusive: set<(Cell, Cell)>) {
    forall p | p in exclusive && p.0 != p.1 && p.0 in cells && p.1 in cells ::
      cells[p.0].Some? ==> cells[p.0] != cells[p.1]
  }

  /** The rows that the unique index on (tenant, signature) of open incidents covers. */
  predicate Exposed(i: Incident) {
    i.status == Open && i.signature.Some? && !i.deleted
  }

  predicate SignaturesOk(m: Table) {
    forall i, j | i in m && j in m && i != j && Exposed(m[i]) && Exposed(m[j]) ::
      !(m[i].tenant == m[j].tenant && m[i].signature == m[j].signature)
  }

  /** The foreign keys: a value in a column of the catalog names an incident that exists. */
  predicate ReferencesOk(db: Db) {
    forall c | c in db.cells && c.fk in Fks(db) && db.cells[c].Some? :: db.cells[c].value in db.incidents
  }

  /** What the constraints allow; PostgreSQL keeps every committed state legal. */
  predicate Legal(db: Db) {
    UniqueOk(db.cells, db.exclusive) && SignaturesOk(db.incidents) && ReferencesOk(db)
  }

  function PendingOf(db: Db, run: Id): set<Id> {
    set i | i in db.pending && db.pending[i].run == run
  }

  function UndoOf(db: Db, run: Id): set<Id> {
    set i | i in db.undo && db.undo[i].run == run
  }

  function RelinksOf(db: Db, run: Id): set<RelinkKey> {
    set k | k in db.relinks && k.run == run
  }

  predicate TenantPending(db: Db, t: Id) {
    exists i | i in db.pending :: db.pending[i].tenant == t
  }

  /** uuid4 never repeats a run id. */
  predicate FreshRun(db: Db, run: Id) {
    PendingOf(db, run) == {} && UndoOf(db, run) == {} && RelinksOf(db, run) == {}
  }

  // ---- Transaction 1: snapshot the duplicates and repoint their references ----

  function SnapshotRows(m: Table, t: Id, run: Id): map<Id, PendingRow> {
    map i | i in Duplicates(m, t) :: PendingRow(run, t, KeeperOf(m, t, i), m[i].status)
  }

  function Snapshot(db: Db, rows: map<Id, PendingRow>): Db {
    db.(pending := db.pending + rows)
  }

  /** The join `x.col = p.incident_id` restricted to the run. */
  predicate PointsAtPending(db: Db, run: Id, c: Cell) {
    && c in db.cells && db.cells[c].Some?
    && db.cells[c].value in db.pending && db.pending[db.cells[c].value].run == run
  }

  predicate Relinkable(db: Db, run: Id, fks: set<Fk>, c: Cell) {
    PointsAtPending(db, run, c) && c.fk in fks
  }

  function MoveOf(db: Db, run: Id, c: Cell): Move
    requires PointsAtPending(db, run, c)
  {
    Move(db.cells[c].value, db.pending[db.cells[c].value].keeper)
  }

  function RelinkRows(db: Db, run: Id, fks: set<Fk>): (rows: map<RelinkKey, Move>)
    ensures forall k | k in rows :: k.run == run
    ensures forall c :: RelinkKey(run, c) in rows <==> Relinkable(db, run, fks, c)
    ensures forall c | Relinkable(db, run, fks, c) :: rows[RelinkKey(run, c)] == MoveOf(db, run, c)
  {
    map c | c in db.cells && Relinkable(db, run, fks, c) :: RelinkKey(run, c) := MoveOf(db, run, c)
  }

  /** Record and repoint every reference held in the columns `fks`. */
  function Relink(db: Db, run: Id, fks: set<Fk>): Db {
    db.(
    cells := map c | c in db.cells ::
      if Relinkable(db, run, fks, c) then Some(MoveOf(db, run, c).to) else db.cells[c],
    relinks := db.relinks + RelinkRows(db, run, fks))
  }

  /** The committed first transaction with the snapshot `rows`. */
  function Started(db: Db, run: Id, rows: map<Id, PendingRow>): Db {
    Relink(Snapshot(db, rows), run, Fks(db))
  }

  /** What the first transaction does for a tenant without pending rows: nothing to archive,
      an aborted transaction, or the committed snapshot. */
  function TryStart(db: Db, t: Id, run: Id): Result<Option<Db>, Failure> {
    var rows := SnapshotRows(db.incidents, t, run);
    if rows.Keys * db.pending.Keys != {} then Err(DuplicateKey)
    else if rows == map[] then Ok(None)
    else match FirstWithoutId(db.catalog, db.lacksId)
      case Some(table) => Err(NoIdColumn(table))
      case None =>
        if UniqueOk(Started(db, run, rows).cells, db.exclusive) then Ok(Some(Started(db, run, rows)))
        else Err(UniqueViolation)
  }

  function FirstWithoutId(catalog: seq<Fk>, lacksId: set<string>): Option<string> {
    if catalog == [] then None
    else if catalog[0].table in lacksId then Some(catalog[0].table)
    else FirstWithoutId(catalog[1..], lacksId)
  }

  // ---- Transactions 2..n: archive a batch of the pending rows ----

  /** The guard `i.status = b.previous_status`: nobody has touched the status since. */
  predicate Archivable(db: Db, i: Id) {
    i in db.pending && i in db.incidents && db.incidents[i].status == db.pending[i].previousStatus
  }

  function Archive(i: Incident, now: int): Incident {
    i.(status := Archived, archivedAt := Some(now), closureReason := Some(REASON))
  }

  function ArchivedTable(db: Db, chosen: set<Id>, when: map<Id, int>): Table
    requires chosen <= when.Keys
  {
    map i | i in db.incidents ::
      if i in chosen && Archivable(db, i) then Archive(db.incidents[i], when[i]) else db.incidents[i]
  }

  function UndoRows(db: Db, chosen: set<Id>, when: map<Id, int>): map<Id, UndoRow>
    requires chosen <= when.Keys
  {
    map i | i in chosen && Archivable(db, i) ::
      var p := db.pending[i]; UndoRow(p.run, p.tenant, p.keeper, p.previousStatus, when[i])
  }

  /** Archive the rows `chosen`, each with the time stamp of its batch. */
  function Archiving(db: Db, chosen: set<Id>, when: map<Id, int>): Db
    requires chosen <= when.Keys
  {
    db.(incidents := ArchivedTable(db, chosen, when),
        undo := db.undo + UndoRows(db, chosen, when),
        pending := db.pending - chosen)
  }

  /** The insert would repeat an `undo.incident_id`. */
  predicate Blocked(db: Db, i: Id) {
    Archivable(db, i) && i in db.undo
  }

  // ---- Undo ----

  predicate Restorable(db: Db, run: Id, c: Cell) {
    && c in db.cells && RelinkKey(run, c) in db.relinks
    && db.cells[c] == Some(db.relinks[RelinkKey(run, c)].to)
  }

  function UndoneCell(db: Db, run: Id, c: Cell): Option<Id>
    requires c in db.cells
  {
    if Restorable(db, run, c) then Some(db.relinks[RelinkKey(run, c)].from) else db.cells[c]
  }

  predicate Reopenable(db: Db, run: Id, i: Id) {
    && i in db.incidents && i in db.undo && db.undo[i].run == run
    && db.incidents[i].status == Archived
  }

  function Reopen(i: Incident, status: Status): Incident {
    i.(status := status, archivedAt := None, closureReason := None)
  }

  function UndoneIncident(db: Db, run: Id, i: Id): Incident
    requires i in db.incidents
  {
    if Reopenable(db, run, i) then Reopen(db.incidents[i], db.undo[i].previousStatus) else db.incidents[i]
  }

  function UndoneCells(db: Db, run: Id): map<Cell, Option<Id>> {
    map c | c in db.cells :: UndoneCell(db, run, c)
  }

  function UndoneTable(db: Db, run: Id): Table {
    map i | i in db.incidents :: UndoneIncident(db, run, i)
  }

  function PendingWithout(db: Db, run: Id): map<Id, PendingRow> {
    map i | i in db.pending && db.pending[i].run != run :: db.pending[i]
  }

  function UndoWithout(db: Db, run: Id): map<Id, UndoRow> {
    map i | i in db.undo && db.undo[i].run != run :: db.undo[i]
  }

  function RelinksWithout(db: Db, run: Id): map<RelinkKey, Move> {
    map k | k in db.relinks && k.run != run :: db.relinks[k]
  }

  /** The committed undo transaction. */
  function Undone(db: Db, run: Id): Db {
    db.(cells := UndoneCells(db, run),
        incidents := UndoneTable(db, run),
        pending := PendingWithout(db, run),
        undo := UndoWithout(db, run),
        relinks := RelinksWithout(db, run))
  }

  /** One transaction: a constraint that refuses the restored rows refuses all of it. */
  function TryUndo(db: Db, run: Id): Result<Db, Failure> {
    if Legal(Undone(db, run)) then Ok(Undone(db, run)) else Err(ConstraintViolation)
  }
}
