/** The online swap of the dedup index of normalized_events: three statements, each committed on
    its own, while writers go on and the process may die and be started again. The row in which
    alembic keeps the current version says which of `upgrade` and `downgrade` can be started. */
module IndexSwap {
  import opened Wrappers

  type Id = nat

  datatype Event = Event(integration: Option<Id>, signature: Option<string>, suppressed: bool, deleted: bool)

  type Rows = map<Id, Event>

  /** The partial predicate: not suppressed, signature present, not deleted. */
  predicate Active(e: Event) {
    !e.suppressed && e.signature.Some? && !e.deleted
  }

  /** NULLs are distinct in a unique index. */
  predicate SameKey(a: Event, b: Event) {
    a.integration.Some? && a.signature.Some? && a.integration == b.integration && a.signature == b.signature
  }

  datatype Kind = Full | Partial

  predicate Covers(k: Kind, e: Event) {
    k.Full? || Active(e)
  }

  predicate UniqueUnder(k: Kind, rows: Rows) {
    forall a, b | a in rows && b in rows && a != b && Covers(k, rows[a]) && Covers(k, rows[b]) ::
      !SameKey(rows[a], rows[b])
  }

  /** The partial index forbids two rows that agree on integration and signature, both not NULL, and
      are neither suppressed nor deleted; the full index forbids any two that agree. */
  lemma UniqueIff(rows: Rows)
    ensures UniqueUnder(Partial, rows) <==>
              forall a, b | a in rows && b in rows && a != b && !rows[a].suppressed && !rows[a].deleted
                            && !rows[b].suppressed && !rows[b].deleted ::
                rows[a].integration == rows[b].integration && rows[a].signature == rows[b].signature ==>
                  rows[a].integration == None || rows[a].signature == None
    ensures UniqueUnder(Full, rows) <==>
              forall a, b | a in rows && b in rows && a != b ::
                rows[a].integration == rows[b].integration && rows[a].signature == rows[b].signature ==>
                  rows[a].integration == None || rows[a].signature == None
  {
  }

  lemma UniqueWith(k: Kind, rows: Rows, id: Id, e: Event)
    requires id !in rows && UniqueUnder(k, rows)
    ensures UniqueUnder(k, rows[id := e]) <==>
              !Covers(k, e) || forall b | b in rows && Covers(k, rows[b]) :: !SameKey(e, rows[b])
  {
    var next := rows[id := e];
    if UniqueUnder(k, next) && Covers(k, e) {
      forall b | b in rows && Covers(k, rows[b]) ensures !SameKey(e, rows[b]) {
        assert next[b] == rows[b] && next[id] == e;
      }
    }
  }

  /** What the indexes refuse of an insert: the partial one nothing that is suppressed, deleted or has
      a NULL, and nothing whose like are all suppressed or deleted; the full one any second row. */
  lemma InsertAllowed(rows: Rows, id: Id, e: Event)
    requires id !in rows
    ensures UniqueUnder(Partial, rows) ==>
              (UniqueUnder(Partial, rows[id := e]) <==>
               || e.suppressed || e.deleted || e.signature == None || e.integration == None
               || forall b | b in rows && rows[b].integration == e.integration && rows[b].signature == e.signature ::
                    rows[b].suppressed || rows[b].deleted)
    ensures UniqueUnder(Full, rows) ==>
              (UniqueUnder(Full, rows[id := e]) <==>
               || e.signature == None || e.integration == None
               || forall b | b in rows && rows[b].integration == e.integration :: rows[b].signature != e.signature)
  {
    if UniqueUnder(Partial, rows) {
      UniqueWith(Partial, rows, id, e);
    }
    if UniqueUnder(Full, rows) {
      UniqueWith(Full, rows, id, e);
    }
  }

  datatype Name = Final | Temp

  datatype Db = Db(rows: Rows, indexes: map<Name, Kind>)

  /** PostgreSQL keeps every unique index valid. */
  predicate Consistent(db: Db) {
    forall n | n in db.indexes :: UniqueUnder(db.indexes[n], db.rows)
  }

  datatype Failure = DuplicateRows | NoSuchIndex | NameTaken

  // ---- The statements ----

  /** CREATE UNIQUE INDEX CONCURRENTLY IF NOT EXISTS temp: the test is on the name only. */
  function Create(db: Db, k: Kind): Result<Db, Failure> {
    if Temp in db.indexes then Ok(db)
    else if UniqueUnder(k, db.rows) then Ok(db.(indexes := db.indexes[Temp := k]))
    else Err(DuplicateRows)
  }

  /** DROP INDEX CONCURRENTLY IF EXISTS final. */
  function Drop(db: Db): Result<Db, Failure> {
    Ok(db.(indexes := db.indexes - {Final}))
  }

  /** ALTER INDEX temp RENAME TO final. */
  function Rename(db: Db): Result<Db, Failure> {
    if Temp !in db.indexes then Err(NoSuchIndex)
    else if Final in db.indexes then Err(NameTaken)
    else Ok(db.(indexes := (db.indexes - {Temp})[Final := db.indexes[Temp]]))
  }

  /** Statement `pc` of `upgrade` (which builds the partial index) or `downgrade` (the full one). */
  function Statement(db: Db, k: Kind, pc: nat): Result<Db, Failure>
    requires pc < 3
  {
    if pc == 0 then Create(db, k) else if pc == 1 then Drop(db) else Rename(db)
  }

  /** Each statement by its effect on the two names. None changes a row. */
  lemma StatementOutcome(db: Db, k: Kind)
    ensures Create(db, k) == Err(DuplicateRows) <==> Temp !in db.indexes && !UniqueUnder(k, db.rows)
    ensures Create(db, k).Ok? ==>
              var d := Create(db, k).value;
              && d.rows == db.rows && Temp in d.indexes
              && d.indexes[Temp] == (if Temp in db.indexes then db.indexes[Temp] else k)
              && (Final in d.indexes <==> Final in db.indexes)
              && (Final in db.indexes ==> d.indexes[Final] == db.indexes[Final])
    ensures Drop(db).Ok?
    ensures var d := Drop(db).value;
            && d.rows == db.rows && Final !in d.indexes && (Temp in d.indexes <==> Temp in db.indexes)
            && (Temp in db.indexes ==> d.indexes[Temp] == db.indexes[Temp])
    ensures Rename(db) == Err(NoSuchIndex) <==> Temp !in db.indexes
    ensures Rename(db) == Err(NameTaken) <==> Temp in db.indexes && Final in db.indexes
    ensures Rename(db).Ok? ==>
              var d := Rename(db).value;
              d.rows == db.rows && Temp !in d.indexes && Final in d.indexes && d.indexes[Final] == db.indexes[Temp]
  {
  }

  // ---- Runs ----

  /** A process is migrating towards `goal` and has completed `pc` statements. `applied` is the
      version row: this revision counts as applied. */
  datatype State = State(db: Db, applied: bool, goal: Kind, pc: nat)

  datatype Step =
    | Execute            // the next statement; if it fails the process ends
    | Stamp              // after the last statement: the version row is updated
    | Launch(goal: Kind) // the process died or ended, and upgrade or downgrade is run (again)
    | Write(rows: Rows)  // any change by the application; refused if an index forbids it
    | Restamp(applied: bool)  // somebody sets the version row by hand

  /** What the version row allows to be run: a downgrade of an applied revision, else an upgrade. */
  function Due(applied: bool): Kind {
    if applied then Full else Partial
  }

  /** A launch that the version row does not allow skips this revision. */
  function Next(s: State, step: Step): State {
    match step
    case Execute =>
      if s.pc >= 3 then s
      else
        var r := Statement(s.db, s.goal, s.pc);
        if r.Ok? then s.(db := r.value, pc := s.pc + 1) else s.(pc := 0)
    case Stamp => if s.pc == 3 then s.(applied := s.goal == Partial) else s
    case Launch(goal) => if goal == Due(s.applied) then s.(goal := goal, pc := 0) else s
    case Write(rows) =>
      if Consistent(s.db.(rows := rows)) then s.(db := s.db.(rows := rows)) else s
    case Restamp(applied) => s.(applied := applied)
  }

  function Trace(s: State, steps: seq<Step>): State
    decreases |steps|
  {
    if steps == [] then s else Trace(Next(s, steps[0]), steps[1..])
  }

  /** After the first statement the temporary index exists, after the second the final one does
      not, and after the third only the final one does. */
  predicate Sound(s: State) {
    && s.pc <= 3 && Consistent(s.db) && s.db.indexes != map[]
    && (1 <= s.pc <= 2 ==> Temp in s.db.indexes)
    && (s.pc == 2 ==> Final !in s.db.indexes)
    && (s.pc == 3 ==> s.db.indexes.Keys == {Final})
  }

  lemma OnlyName(m: map<Name, Kind>, n: Name, other: Name)
    requires n != other && n in m && other !in m
    ensures m.Keys == {n}
  {
    assert forall x | x in m :: x == n || x == other;
  }

  lemma FullImpliesPartial(rows: Rows)
    requires UniqueUnder(Full, rows)
    ensures UniqueUnder(Partial, rows)
  {
  }

  lemma StepKeepsSound(s: State, step: Step)
    requires Sound(s)
    ensures Sound(Next(s, step))
    ensures step.Execute? && 0 < s.pc < 3 ==> Statement(s.db, s.goal, s.pc).Ok?
    ensures step.Execute? && s.pc == 0 && s.goal == Partial ==> Statement(s.db, Partial, 0).Ok?
  {
    if step.Execute? && s.pc == 0 {
      var n :| n in s.db.indexes;
      if s.db.indexes[n] == Full {
        FullImpliesPartial(s.db.rows);
      }
    } else if step.Execute? && s.pc == 1 {
      var d := Drop(s.db).value;
      assert Temp in d.indexes;
      assert forall n | n in d.indexes :: d.indexes[n] == s.db.indexes[n];
    } else if step.Execute? && s.pc == 2 {
      var d := Rename(s.db).value;
      OnlyName(d.indexes, Final, Temp);
      assert d.indexes[Final] == s.db.indexes[Temp];
    }
  }

  /** There is never a window without protection: from any consistent database with some dedup
      index, in every history of upgrades, downgrades, crashes, reruns, writes and hand-set version
      rows, no two active rows ever share a non-null (integration, signature). */
  lemma {:induction false} NeverUnprotected(s: State, steps: seq<Step>)
    requires Sound(s)
    ensures Sound(Trace(s, steps)) && UniqueUnder(Partial, Trace(s, steps).db.rows)
    decreases |steps|
  {
    if steps == [] {
      var n :| n in s.db.indexes;
      assert UniqueUnder(s.db.indexes[n], s.db.rows);
      if s.db.indexes[n] == Full {
        FullImpliesPartial(s.db.rows);
      }
    } else {
      StepKeepsSound(s, steps[0]);
      NeverUnprotected(Next(s, steps[0]), steps[1..]);
    }
  }

  /** The same, said of two rows of any reachable state. */
  lemma NoActivePair(s: State, steps: seq<Step>, a: Id, b: Id)
    requires Sound(s) && a != b
    ensures var rows := Trace(s, steps).db.rows;
            a in rows && b in rows && rows[a].integration == rows[b].integration && rows[a].integration != None
            && rows[a].signature == rows[b].signature && rows[a].signature != None ==>
              rows[a].suppressed || rows[a].deleted || rows[b].suppressed || rows[b].deleted
  {
    NeverUnprotected(s, steps);
  }

  /** The temporary index, if there is one, is of the kind being built, and a process that has been
      through leaves its own kind. */
  predicate Orderly(s: State) {
    && Sound(s)
    && (s.pc < 3 ==> s.goal == Due(s.applied))
    && (Temp in s.db.indexes ==> s.db.indexes[Temp] == Due(s.applied))
    && (s.pc == 3 ==> s.db.indexes == map[Final := s.goal])
  }

  lemma StepKeepsOrderly(s: State, step: Step)
    requires Orderly(s) && !step.Restamp?
    ensures Orderly(Next(s, step))
  {
    StepKeepsSound(s, step);
    if step.Execute? && s.pc == 2 {
      assert Next(s, step).db.indexes == map[Final := s.goal];
    }
  }

  /** When the next statement fails. */
  lemma FailsIff(s: State)
    requires Orderly(s) && s.pc < 3
    ensures Statement(s.db, s.goal, s.pc).Err? <==>
              s.pc == 0 && s.goal == Full && Temp !in s.db.indexes && !UniqueUnder(Full, s.db.rows)
  {
    StepKeepsSound(s, Execute);
  }

  /** All histories of upgrades and downgrades that the version row allows, crashed and rerun after
      any statement or before the version row is updated, with any writes in between: a process
      that gets through leaves exactly the index it was to build, under the final name; an upgrade
      never fails, in particular not its CREATE on duplicates; a downgrade fails exactly at its
      CREATE, if the rows contradict the full index and no earlier attempt has built it. */
  lemma {:induction false} EveryMigrationSwaps(s: State, steps: seq<Step>)
    requires Orderly(s) && forall i | 0 <= i < |steps| :: !steps[i].Restamp?
    ensures var e := Trace(s, steps);
            && Orderly(e)
            && (e.pc == 3 ==> e.db.indexes == map[Final := e.goal])
            && (e.pc < 3 ==>
                  (Statement(e.db, e.goal, e.pc).Err? <==>
                   e.pc == 0 && e.goal == Full && Temp !in e.db.indexes && !UniqueUnder(Full, e.db.rows)))
    decreases |steps|
  {
    if steps == [] {
      if s.pc < 3 {
        FailsIff(s);
      }
    } else {
      StepKeepsOrderly(s, steps[0]);
      EveryMigrationSwaps(Next(s, steps[0]), steps[1..]);
    }
  }

  /** The stale full index, with this revision not applied, starts such a history. */
  lemma StaleIndexIsStart(rows: Rows)
    requires UniqueUnder(Full, rows)
    ensures Orderly(State(Db(rows, map[Final := Full]), false, Partial, 0))
  {
    assert Final in map[Final := Full];
  }

  // ---- One undisturbed migration ----

  function Migrate(db: Db, k: Kind): Result<Db, Failure> {
    match Create(db, k)
    case Err(e) => Err(e)
    case Ok(d1) =>
      match Drop(d1)
      case Err(e) => Err(e)
      case Ok(d2) => Rename(d2)
  }

  /** On any consistent database, whatever the version row was made to say, a migration fails
      exactly when it has to build its index and the rows contradict it; otherwise one index is
      left, under the final name. It is of the wanted kind exactly when no temporary index of the
      other kind was lying around: IF NOT EXISTS adopts whatever has the name. */
  lemma MigrateOutcome(db: Db, k: Kind)
    requires Consistent(db)
    ensures Migrate(db, k).Err? <==> Temp !in db.indexes && !UniqueUnder(k, db.rows)
    ensures Migrate(db, k).Ok? ==>
              && Migrate(db, k).value.rows == db.rows && Migrate(db, k).value.indexes.Keys == {Final}
              && Consistent(Migrate(db, k).value)
    ensures Migrate(db, k).Ok? ==>
              (Migrate(db, k).value.indexes == map[Final := k]
               <==> Temp !in db.indexes || db.indexes[Temp] == k)
  {
    var c := Create(db, k);
    if c.Ok? {
      var d := Drop(c.value).value;
      OnlyName(d.indexes, Temp, Final);
      var e := Rename(d).value;
      OnlyName(e.indexes, Final, Temp);
      assert e.indexes[Final] == c.value.indexes[Temp];
      assert e.indexes == map[Final := c.value.indexes[Temp]];
    }
  }

  /** A downgrade that died after its first statement leaves a full index under the temporary name.
      An upgrade is then not allowed; the downgrade, run again, adopts that index and ends. Only if
      somebody corrects the version row by hand instead does the upgrade run, and make the full
      index the final one. */
  lemma InterruptedDowngrade(rows: Rows)
    requires UniqueUnder(Full, rows)
    ensures var s := State(Db(rows, map[Final := Partial]), true, Full, 0);
            var died := Next(s, Execute);
            && Orderly(s) && Next(died, Launch(Partial)) == died
            && Trace(died, [Launch(Full), Execute, Execute, Execute, Stamp])
               == State(Db(rows, map[Final := Full]), false, Full, 3)
            && Trace(Next(died, Restamp(false)), [Launch(Partial), Execute, Execute, Execute, Stamp])
               == State(Db(rows, map[Final := Full]), true, Partial, 3)
  {
    var s := State(Db(rows, map[Final := Partial]), true, Full, 0);
    FullImpliesPartial(rows);
    assert Final in s.db.indexes;
    var died := Next(s, Execute);
    assert died.db.indexes == map[Final := Partial, Temp := Full];
    AdoptsTemp(died, Full);
    AdoptsTemp(died.(applied := false), Partial);
  }

  lemma AdoptsTemp(died: State, k: Kind)
    requires k == Due(died.applied) && died.db.indexes == map[Final := Partial, Temp := Full]
    ensures Trace(died, [Launch(k), Execute, Execute, Execute, Stamp])
            == State(Db(died.db.rows, map[Final := Full]), k == Partial, k, 3)
  {
    var s1 := Next(died, Launch(k));
    var s2 := Next(s1, Execute);
    assert s2.db == died.db;
    var s3 := Next(s2, Execute);
    assert s3.db.indexes == map[Temp := Full];
    var s4 := Next(s3, Execute);
    assert s4.db.indexes == map[Final := Full];
    TraceFive(died, [Launch(k), Execute, Execute, Execute, Stamp]);
  }

  lemma TraceFive(s: State, t: seq<Step>)
    requires |t| == 5
    ensures Trace(s, t) == Next(Next(Next(Next(Next(s, t[0]), t[1]), t[2]), t[3]), t[4])
  {
    var t1, t2, t3, t4, t5 := t[1..], t[2..], t[3..], t[4..], t[5..];
    assert t1[1..] == t2 && t2[1..] == t3 && t3[1..] == t4 && t4[1..] == t5 == [];
    var s1 := Next(s, t[0]);
    var s2 := Next(s1, t[1]);
    var s3 := Next(s2, t[2]);
    var s4 := Next(s3, t[3]);
    assert Trace(s4, t4) == Trace(Next(s4, t[4]), t5);
    assert Trace(s3, t3) == Trace(s4, t4);
    assert Trace(s2, t2) == Trace(s3, t3);
    assert Trace(s1, t1) == Trace(s2, t2);
  }

  // ---- The migration script ----

  class NormalizedEvents {
    var rows: Rows
    var indexes: map<Name, Kind>

    function View(): Db
      reads this
    {
      Db(rows, indexes)
    }

    constructor (db: Db)
      ensures View() == db
    {
      rows, indexes := db.rows, db.indexes;
    }

    /** A statement of the application; the unique indexes may refuse it. */
    method WriteRows(next: Rows) returns (ok: bool)
      modifies `rows
      ensures ok == Consistent(Db(next, indexes)) && rows == if ok then next else old(rows)
    {
      ok := Consistent(Db(next, indexes));
      if ok {
        rows := next;
      }
    }

    method CreateTemp(k: Kind) returns (r: Result<(), Failure>)
      modifies `indexes
      ensures match Create(old(View()), k)
              case Ok(d) => r == Ok(()) && View() == d
              case Err(e) => r == Err(e) && View() == old(View())
    {
      if Temp !in indexes {
        if !UniqueUnder(k, rows) {
          return Err(DuplicateRows);
        }
        indexes := indexes[Temp := k];
      }
      return Ok(());
    }

    /** `upgrade` for the partial index, `downgrade` for the full one; statements before a failing
        one stay committed. */
    method RunMigration(k: Kind) returns (r: Result<(), Failure>)
      requires Consistent(View())
      modifies `indexes
      ensures match Migrate(old(View()), k)
              case Ok(d) => r == Ok(()) && View() == d
              case Err(e) => r == Err(e) && View() == old(View())
    {
      MigrateOutcome(View(), k);
      r := CreateTemp(k);
      if r.Err? {
        return;
      }
      indexes := indexes - {Final};
      indexes := (indexes - {Temp})[Final := indexes[Temp]];
    }
  }
}
