/** Runs on top of runs: undoing in reverse order returns to the start plus whatever was added
    in between, unless a unique constraint refuses one of the undos; and when another order does. */
module CleanupStack {
  import opened Wrappers
  import opened Incidents
  import opened Cleanup
  import opened CleanupUndo
  import opened CleanupRuns

  /** New incidents and new references, inserted by the application between two runs. */
  datatype Addition = Addition(incidents: Table, cells: map<Cell, Option<Id>>)

  /** New rows have new keys, so nothing recorded earlier speaks about them. */
  predicate Fresh(db: Db, a: Addition) {
    && (forall i | i in a.incidents :: i !in db.incidents && i !in db.undo)
    && (forall c | c in a.cells :: c !in db.cells)
    && forall k | k in db.relinks :: k.cell !in a.cells
  }

  function Extend(db: Db, a: Addition): Db {
    db.(incidents := db.incidents + a.incidents, cells := db.cells + a.cells)
  }

  lemma UndoExtendedCells(db: Db, a: Addition, run: Id)
    requires Fresh(db, a)
    ensures Undone(Extend(db, a), run).cells == Undone(db, run).cells + a.cells
  {
    var e := Extend(db, a);
    forall c | c in e.cells
      ensures Undone(e, run).cells[c] == (Undone(db, run).cells + a.cells)[c]
    {
      assert c in a.cells ==> RelinkKey(run, c) !in db.relinks;
    }
  }

  lemma UndoExtendedIncidents(db: Db, a: Addition, run: Id)
    requires Fresh(db, a)
    ensures Undone(Extend(db, a), run).incidents == Undone(db, run).incidents + a.incidents
  {
    var e := Extend(db, a);
    forall i | i in e.incidents
      ensures Undone(e, run).incidents[i] == (Undone(db, run).incidents + a.incidents)[i]
    {
      assert i in a.incidents ==> i !in db.undo && i !in db.incidents;
      assert Reopenable(e, run, i) <==> Reopenable(db, run, i);
    }
  }

  lemma UndoExtended(db: Db, a: Addition, run: Id)
    requires Fresh(db, a)
    ensures Undone(Extend(db, a), run) == Extend(Undone(db, run), a)
    ensures Fresh(Undone(db, run), a)
  {
    UndoExtendedCells(db, a, run);
    UndoExtendedIncidents(db, a, run);
  }

  lemma UndoCleared(db: Db, done: set<Id>, run: Id)
    ensures Undone(ClearedDb(db, done), run) == ClearedDb(Undone(db, run), done)
  {
    var c := ClearedDb(db, done);
    assert Undone(c, run).incidents == Cleared(Undone(db, run).incidents, done);
  }

  /** Do `f` for the ids one by one, the last one first, until one is refused. */
  function TryEach<S>(s: S, ids: seq<Id>, f: (S, Id) -> Result<S, Failure>): Result<S, Failure>
    decreases |ids|
  {
    if ids == [] then Ok(s)
    else match f(s, ids[|ids| - 1])
      case Err(e) => Err(e)
      case Ok(t) => TryEach(t, ids[..|ids| - 1], f)
  }

  lemma {:induction false} TryEachSplit<S>(s: S, id: Id, rest: seq<Id>, f: (S, Id) -> Result<S, Failure>)
    ensures TryEach(s, [id] + rest, f)
            == (match TryEach(s, rest, f) case Err(e) => Err(e) case Ok(t) => f(t, id))
    decreases |rest|
  {
    var ids := [id] + rest;
    if rest == [] {
      assert ids[..0] == [];
    } else {
      var last := rest[|rest| - 1];
      assert ids[..|ids| - 1] == [id] + rest[..|rest| - 1];
      if f(s, last).Ok? {
        TryEachSplit(f(s, last).value, id, rest[..|rest| - 1], f);
      }
    }
  }

  /** Undo the runs of `runs` one by one, the last one first, until one is refused. */
  function TryUndoAll(db: Db, runs: seq<Id>): Result<Db, Failure> {
    TryEach(db, runs, TryUndo)
  }

  /** One run, stopped at any point, and the rows added after it. */
  datatype Layer = Layer(run: Id, rows: map<Id, PendingRow>, done: set<Id>, when: map<Id, int>, added: Addition)

  predicate LayerOk(db: Db, l: Layer) {
    RunPoint(db, l.run, l.rows, l.done, l.when) && Fresh(RunTo(db, l.run, l.rows, l.done, l.when), l.added)
  }

  function Apply(db: Db, l: Layer): Db
    requires LayerOk(db, l)
  {
    Extend(RunTo(db, l.run, l.rows, l.done, l.when), l.added)
  }

  predicate StackOk(db: Db, layers: seq<Layer>)
    decreases |layers|
  {
    layers == [] || (LayerOk(db, layers[0]) && StackOk(Apply(db, layers[0]), layers[1..]))
  }

  function ApplyAll(db: Db, layers: seq<Layer>): Db
    requires StackOk(db, layers)
    decreases |layers|
  {
    if layers == [] then db else ApplyAll(Apply(db, layers[0]), layers[1..])
  }

  function WithoutRun(db: Db, l: Layer): Db {
    Extend(ClearedDb(db, l.done), l.added)
  }

  /** The database as if no run had happened: the additions, and the closing fields that undo
      cannot bring back. */
  function Restored(db: Db, layers: seq<Layer>): Db
    decreases |layers|
  {
    if layers == [] then db else Restored(WithoutRun(db, layers[0]), layers[1..])
  }

  function Runs(layers: seq<Layer>): seq<Id> {
    seq(|layers|, i requires 0 <= i < |layers| => layers[i].run)
  }

  /** The additions of the upper layers are fresh for the database below them. */
  predicate AdditionsFresh(db: Db, layers: seq<Layer>)
    decreases |layers|
  {
    layers == [] || (Fresh(db, layers[0].added) && AdditionsFresh(WithoutRun(db, layers[0]), layers[1..]))
  }

  lemma UndoWithoutRun(db: Db, l: Layer, run: Id)
    requires Fresh(db, l.added)
    ensures Undone(WithoutRun(db, l), run) == WithoutRun(Undone(db, run), l) && Fresh(Undone(db, run), l.added)
  {
    UndoExtended(ClearedDb(db, l.done), l.added, run);
    UndoCleared(db, l.done, run);
  }

  /** Undoing one run from under layers whose additions are fresh for it. */
  lemma {:induction false} UndoUnderAdditions(db: Db, layers: seq<Layer>, run: Id)
    requires AdditionsFresh(db, layers)
    ensures Undone(Restored(db, layers), run) == Restored(Undone(db, run), layers)
    ensures AdditionsFresh(Undone(db, run), layers)
    decreases |layers|
  {
    if layers != [] {
      UndoWithoutRun(db, layers[0], run);
      UndoUnderAdditions(WithoutRun(db, layers[0]), layers[1..], run);
    }
  }

  lemma UndoLayer(db: Db, l: Layer)
    requires LayerOk(db, l)
    ensures Undone(Apply(db, l), l.run) == WithoutRun(db, l) && Fresh(db, l.added)
  {
    var base := RunTo(db, l.run, l.rows, l.done, l.when);
    UndoExtended(base, l.added, l.run);
    UndoneRun(db, l.run, l.rows, l.done, l.when);
  }

  lemma UndoLowest(db: Db, l: Layer, upper: seq<Layer>)
    requires LayerOk(db, l) && AdditionsFresh(Apply(db, l), upper)
    ensures Undone(Restored(Apply(db, l), upper), l.run) == Restored(db, [l] + upper)
    ensures AdditionsFresh(db, [l] + upper)
  {
    UndoUnderAdditions(Apply(db, l), upper, l.run);
    UndoLayer(db, l);
    assert ([l] + upper)[1..] == upper;
  }

  /** For every layer: the state before its run, with everything added later, is legal. */
  predicate LegalBelow(db: Db, layers: seq<Layer>)
    requires StackOk(db, layers)
    decreases |layers|
  {
    layers == [] || (Legal(Restored(db, layers)) && LegalBelow(Apply(db, layers[0]), layers[1..]))
  }

  /** The lowest run after all others: `left` is what undoing the upper ones leaves. */
  lemma ThenLowest(top: Db, run: Id, rest: seq<Id>, left: Db, whole: Db, legal: bool)
    requires TryUndoAll(top, rest).Ok? <==> legal
    requires legal ==> TryUndoAll(top, rest) == Ok(left)
    requires Undone(left, run) == whole
    ensures TryUndoAll(top, [run] + rest).Ok? <==> legal && Legal(whole)
    ensures legal && Legal(whole) ==> TryUndoAll(top, [run] + rest) == Ok(whole)
  {
    TryEachSplit(top, run, rest, TryUndo);
  }

  lemma StackUnfolds(db: Db, layers: seq<Layer>)
    requires StackOk(db, layers) && layers != []
    ensures LayerOk(db, layers[0]) && StackOk(Apply(db, layers[0]), layers[1..])
    ensures ApplyAll(db, layers) == ApplyAll(Apply(db, layers[0]), layers[1..])
  {
  }

  lemma LegalBelowUnfolds(db: Db, layers: seq<Layer>)
    requires StackOk(db, layers) && layers != []
    ensures LegalBelow(db, layers) <==> Legal(Restored(db, layers)) && LegalBelow(Apply(db, layers[0]), layers[1..])
  {
  }

  /** Any number of stacked runs, each stopped anywhere: later runs may archive an earlier run's
      keeper and move a reference again. Undoing them latest first succeeds exactly if for every
      layer the state before its run is legal together with the later additions, and then leaves
      the starting database plus exactly the additions. */
  lemma {:induction false} StackedUndo(db: Db, layers: seq<Layer>)
    requires StackOk(db, layers)
    ensures TryUndoAll(ApplyAll(db, layers), Runs(layers)).Ok? <==> LegalBelow(db, layers)
    ensures LegalBelow(db, layers) ==> TryUndoAll(ApplyAll(db, layers), Runs(layers)) == Ok(Restored(db, layers))
    ensures AdditionsFresh(db, layers)
    decreases |layers|
  {
    if layers != [] {
      var l, upper := layers[0], layers[1..];
      StackUnfolds(db, layers);
      LegalBelowUnfolds(db, layers);
      assert layers == [l] + upper && Runs(layers) == [l.run] + Runs(upper);
      StackedUndo(Apply(db, l), upper);
      UndoLowest(db, l, upper);
      ThenLowest(ApplyAll(db, layers), l.run, Runs(upper), Restored(Apply(db, l), upper), Restored(db, layers),
                 LegalBelow(Apply(db, l), upper));
    }
  }

  /** Why the condition is needed, first kind. Once the run has moved a reference off a duplicate,
      the application may insert an exclusive partner of it for the duplicate: that is legal, but
      the reference cannot come back beside it. */
  lemma LateReferenceBlocksUndo(db: Db, l: Layer, c: Cell, late: Cell)
    requires LayerOk(db, l) && KeepersOutside(l.rows) && Legal(RunTo(db, l.run, l.rows, l.done, l.when))
    requires OnRow(db, l.rows, c) && (c, late) in db.exclusive
    requires forall p | p in db.exclusive && (p.0 == late || p.1 == late) :: p == (c, late)
    requires l.added.incidents == map[] && l.added.cells.Keys == {late} && l.added.cells[late] == db.cells[c]
    ensures Legal(Apply(db, l)) && TryUndo(Apply(db, l), l.run).Err?
  {
    LateReferenceIsLegal(db, l, c, late);
    UndoLayer(db, l);
    assert WithoutRun(db, l).cells == db.cells + l.added.cells;
    BothOnOne(db.cells, l.added.cells, db.exclusive, c, late);
  }

  lemma BothOnOne(cells: map<Cell, Option<Id>>, more: map<Cell, Option<Id>>, exclusive: set<(Cell, Cell)>,
                  c: Cell, late: Cell)
    requires c in cells && cells[c].Some? && c !in more && late in more && more[late] == cells[c]
    requires (c, late) in exclusive
    ensures !UniqueOk(cells + more, exclusive)
  {
    assert (c, late).0 == c && (c, late).1 == late;
  }

  lemma LateReferenceIsLegal(db: Db, l: Layer, c: Cell, late: Cell)
    requires LayerOk(db, l) && KeepersOutside(l.rows) && Legal(RunTo(db, l.run, l.rows, l.done, l.when))
    requires OnRow(db, l.rows, c) && (c, late) in db.exclusive
    requires forall p | p in db.exclusive && (p.0 == late || p.1 == late) :: p == (c, late)
    requires l.added.incidents == map[] && l.added.cells.Keys == {late} && l.added.cells[late] == db.cells[c]
    ensures Legal(Apply(db, l))
  {
    MovedOff(db, l.run, l.rows, l.done, l.when, c);
    LegalWithOneMore(RunTo(db, l.run, l.rows, l.done, l.when), l.added, c, late);
  }

  lemma MovedOff(db: Db, run: Id, rows: map<Id, PendingRow>, done: set<Id>, when: map<Id, int>, c: Cell)
    requires RunPoint(db, run, rows, done, when) && KeepersOutside(rows) && OnRow(db, rows, c)
    ensures var r := RunTo(db, run, rows, done, when);
            && c in r.cells && r.cells[c] != db.cells[c]
            && r.exclusive == db.exclusive && r.incidents.Keys == db.incidents.Keys
  {
    StartedCell(db, run, rows, c);
  }

  lemma LegalWithOneMore(base: Db, a: Addition, c: Cell, late: Cell)
    requires Legal(base) && Fresh(base, a) && a.incidents == map[] && a.cells.Keys == {late}
    requires c in base.cells && base.cells[c] != a.cells[late]
    requires a.cells[late].Some? ==> a.cells[late].value in base.incidents
    requires forall p | p in base.exclusive && (p.0 == late || p.1 == late) :: p == (c, late)
    ensures Legal(Extend(base, a))
  {
    OneMoreCell(base.cells, a.cells, base.exclusive, c, late);
    assert base.incidents + a.incidents == base.incidents;
    assert Fks(Extend(base, a)) == Fks(base);
  }

  lemma OneMoreCell(cells: map<Cell, Option<Id>>, more: map<Cell, Option<Id>>, exclusive: set<(Cell, Cell)>,
                    c: Cell, late: Cell)
    requires UniqueOk(cells, exclusive) && c in cells && late !in cells
    requires more.Keys == {late} && more[late] != cells[c]
    requires forall p | p in exclusive && (p.0 == late || p.1 == late) :: p == (c, late)
    ensures UniqueOk(cells + more, exclusive)
  {
    assert (c, late).0 == c && (c, late).1 == late;
  }

  /** Second kind: an archived incident leaves its signature free, the alert fires again and opens
      a new incident with it. The archived one cannot be opened again beside it. */
  lemma RefiredSignatureBlocksUndo(db: Db, l: Layer, i: Id, j: Id)
    requires LayerOk(db, l) && Legal(db) && Legal(Apply(db, l))
    requires i in l.done && i in db.incidents && Exposed(db.incidents[i])
    requires j in l.added.incidents && Exposed(l.added.incidents[j])
    requires SameSignature(db.incidents[i], l.added.incidents[j])
    ensures TryUndo(Apply(db, l), l.run).Err?
  {
    UndoLayer(db, l);
    assert i !in l.added.incidents;
    WithoutRunRows(db, l, i, j);
    TwoExposed(WithoutRun(db, l).incidents, i, j);
  }

  /** Third kind: once the run has moved a reference off an incident, nothing in the catalog's columns
      points at it any more, and deleting the incident is legal. The reference cannot return to it. */
  lemma DeletedOriginBlocksUndo(db: Db, run: Id, rows: map<Id, PendingRow>, done: set<Id>, when: map<Id, int>, c: Cell)
    requires RunPoint(db, run, rows, done, when) && KeepersOutside(rows) && Legal(RunTo(db, run, rows, done, when))
    requires OnRow(db, rows, c)
    ensures var r := RunTo(db, run, rows, done, when);
            var d := r.(incidents := r.incidents - {db.cells[c].value});
            Legal(d) && OriginGone(d, run) && TryUndo(d, run).Err?
  {
    var r := RunTo(db, run, rows, done, when);
    var i := db.cells[c].value;
    NothingOnRow(db, run, rows, done, when, i);
    LegalWithout(r, i);
    OriginIsGone(db, run, rows, done, when, c);
    UndoRefusedIff(r.(incidents := r.incidents - {i}), run);
  }

  lemma OriginIsGone(db: Db, run: Id, rows: map<Id, PendingRow>, done: set<Id>, when: map<Id, int>, c: Cell)
    requires RunPoint(db, run, rows, done, when) && KeepersOutside(rows) && OnRow(db, rows, c)
    ensures var r := RunTo(db, run, rows, done, when);
            OriginGone(r.(incidents := r.incidents - {db.cells[c].value}), run)
  {
    StartedCell(db, run, rows, c);
    var r := RunTo(db, run, rows, done, when);
    var d := r.(incidents := r.incidents - {db.cells[c].value});
    assert Fks(d) == Fks(db) && Restorable(d, run, c);
  }

  lemma LegalWithout(db: Db, i: Id)
    requires Legal(db) && forall c | c in db.cells && c.fk in Fks(db) :: db.cells[c] != Some(i)
    ensures Legal(db.(incidents := db.incidents - {i}))
  {
    assert Fks(db.(incidents := db.incidents - {i})) == Fks(db);
  }

  lemma WithoutRunRows(db: Db, l: Layer, i: Id, j: Id)
    requires i in db.incidents && i !in l.added.incidents && j in l.added.incidents
    ensures var m := WithoutRun(db, l).incidents;
            && i in m && j in m && m[j] == l.added.incidents[j]
            && m[i].status == db.incidents[i].status && m[i].deleted == db.incidents[i].deleted
            && m[i].signature == db.incidents[i].signature && m[i].tenant == db.incidents[i].tenant
  {
  }

  lemma TwoExposed(m: Table, i: Id, j: Id)
    requires i in m && j in m && i != j && Exposed(m[i]) && Exposed(m[j]) && SameSignature(m[i], m[j])
    ensures !SignaturesOk(m)
  {
    assert m[i].tenant == m[j].tenant && m[i].signature == m[j].signature;
  }

  // ---- The order of two undos ----

  predicate SharesCell(db: Db, r1: Id, r2: Id) {
    exists c | c in db.cells :: RelinkKey(r1, c) in db.relinks && RelinkKey(r2, c) in db.relinks
  }

  lemma UndoesCommuteCells(db: Db, r1: Id, r2: Id)
    requires r1 != r2 && !SharesCell(db, r1, r2)
    ensures Undone(Undone(db, r1), r2).cells == Undone(Undone(db, r2), r1).cells
  {
  }

  lemma UndoesCommuteIncidents(db: Db, r1: Id, r2: Id)
    requires r1 != r2
    ensures Undone(Undone(db, r1), r2).incidents == Undone(Undone(db, r2), r1).incidents
  {
    var d1, d2 := Undone(db, r1), Undone(db, r2);
    forall i | i in db.incidents
      ensures Undone(d1, r2).incidents[i] == Undone(d2, r1).incidents[i]
    {
      assert Reopenable(d1, r2, i) <==> Reopenable(db, r2, i);
      assert Reopenable(d2, r1, i) <==> Reopenable(db, r1, i);
    }
  }

  lemma UndoneCommute(db: Db, r1: Id, r2: Id)
    requires r1 != r2 && !SharesCell(db, r1, r2)
    ensures Undone(Undone(db, r1), r2) == Undone(Undone(db, r2), r1)
  {
    var x, y := Undone(Undone(db, r1), r2), Undone(Undone(db, r2), r1);
    UndoesCommuteCells(db, r1, r2);
    UndoesCommuteIncidents(db, r1, r2);
    assert x.pending == y.pending;
    assert x.undo == y.undo;
    assert x.relinks == y.relinks;
  }

  lemma TryTwo(db: Db, first: Id, second: Id)
    ensures TryUndoAll(db, [second, first])
            == if Legal(Undone(db, first)) && Legal(Undone(Undone(db, first), second))
               then Ok(Undone(Undone(db, first), second)) else Err(ConstraintViolation)
  {
    assert [second, first] == [second] + [first];
    TryEachSplit(db, second, [first], TryUndo);
    assert [first] == [first] + [];
    TryEachSplit(db, first, [], TryUndo);
  }

  /** In any state, the undos of two runs that recorded no common reference commute: if either may
      come first, both orders end alike, or both are refused at their second undo. */
  lemma UndoesCommute(db: Db, r1: Id, r2: Id)
    requires r1 != r2 && !SharesCell(db, r1, r2)
    ensures TryUndo(db, r1).Ok? && TryUndo(db, r2).Ok? ==> TryUndoAll(db, [r1, r2]) == TryUndoAll(db, [r2, r1])
  {
    UndoneCommute(db, r1, r2);
    TryTwo(db, r1, r2);
    TryTwo(db, r2, r1);
  }

  /** What a run's relink rows say about the state before it. */
  lemma RecordedMove(db: Db, l: Layer, c: Cell, other: Id)
    requires LayerOk(db, l) && other != l.run
    ensures RelinkKey(other, c) in Apply(db, l).relinks <==> RelinkKey(other, c) in db.relinks
    ensures RelinkKey(other, c) in db.relinks ==>
              Apply(db, l).relinks[RelinkKey(other, c)] == db.relinks[RelinkKey(other, c)]
    ensures RelinkKey(l.run, c) in Apply(db, l).relinks ==>
              && c in db.cells && db.cells[c].Some? && db.cells[c].value in l.rows
              && Apply(db, l).relinks[RelinkKey(l.run, c)] == Move(db.cells[c].value, l.rows[db.cells[c].value].keeper)
              && Apply(db, l).cells[c] == Some(l.rows[db.cells[c].value].keeper)
  {
    var s := Snapshot(db, l.rows);
    assert RelinkKey(l.run, c) !in RelinksOf(db, l.run);
    if Relinkable(s, l.run, Fks(db), c) {
      var i := db.cells[c].value;
      assert i !in PendingOf(db, l.run);
      assert c !in l.added.cells;
    }
  }

  lemma MissedByOldest(db: Db, r1: Id, r2: Id, c: Cell, k1: Id, k2: Id)
    requires r1 != r2 && k1 != k2 && c in db.cells && db.cells[c] == Some(k2)
    requires RelinkKey(r1, c) in db.relinks && db.relinks[RelinkKey(r1, c)].to == k1
    requires RelinkKey(r2, c) in db.relinks && db.relinks[RelinkKey(r2, c)] == Move(k1, k2)
    ensures c in Undone(Undone(db, r1), r2).cells && Undone(Undone(db, r1), r2).cells[c] == Some(k1)
  {
    assert Undone(db, r1).cells[c] == Some(k2);
  }

  lemma SharedCell(db: Db, l1: Layer, l2: Layer, c: Cell)
    requires LayerOk(db, l1) && LayerOk(Apply(db, l1), l2) && l1.run != l2.run
    requires KeepersOutside(l1.rows) && KeepersOutside(l2.rows)
    requires var top := Apply(Apply(db, l1), l2);
             RelinkKey(l1.run, c) in top.relinks && RelinkKey(l2.run, c) in top.relinks
    ensures c in db.cells && db.cells[c].Some? && db.cells[c].value in l1.rows
    ensures var d := Undone(Undone(Apply(Apply(db, l1), l2), l1.run), l2.run);
            var k1 := l1.rows[db.cells[c].value].keeper;
            c in d.cells && d.cells[c] == Some(k1) && d.cells[c] != db.cells[c]
  {
    var mid := Apply(db, l1);
    RecordedMove(db, l1, c, l2.run);
    RecordedMove(mid, l2, c, l1.run);
    var k1 := l1.rows[db.cells[c].value].keeper;
    var k2 := l2.rows[k1].keeper;
    MissedByOldest(Apply(mid, l2), l1.run, l2.run, c, k1, k2);
  }

  /** Undone oldest first, a reference moved by both runs comes back only to the keeper of the
      first: never to the incident it pointed at. */
  lemma SharedCellStranded(db: Db, l1: Layer, l2: Layer, c: Cell)
    requires LayerOk(db, l1) && LayerOk(Apply(db, l1), l2) && l1.run != l2.run
    requires KeepersOutside(l1.rows) && KeepersOutside(l2.rows)
    requires var top := Apply(Apply(db, l1), l2);
             RelinkKey(l1.run, c) in top.relinks && RelinkKey(l2.run, c) in top.relinks
    ensures c in db.cells && db.cells[c].Some? && db.cells[c].value in l1.rows
    ensures var r := TryUndoAll(Apply(Apply(db, l1), l2), [l2.run, l1.run]);
            r.Ok? ==> && c in r.value.cells && r.value.cells[c] != db.cells[c]
                      && r.value.cells[c] == Some(l1.rows[db.cells[c].value].keeper)
  {
    SharedCell(db, l1, l2, c);
    TryTwo(Apply(Apply(db, l1), l2), l1.run, l2.run);
  }

  lemma RestoredTwo(db: Db, l1: Layer, l2: Layer)
    ensures Restored(db, [l1, l2]) == WithoutRun(WithoutRun(db, l1), l2)
  {
    assert [l1, l2][1..] == [l2] && [l2][1..] == [];
    assert Restored(WithoutRun(db, l1), [l2]) == Restored(WithoutRun(WithoutRun(db, l1), l2), []);
  }

  lemma TwoLayers(db: Db, l1: Layer, l2: Layer)
    requires LayerOk(db, l1) && LayerOk(Apply(db, l1), l2)
    ensures Undone(Undone(Apply(Apply(db, l1), l2), l2.run), l1.run) == Restored(db, [l1, l2])
    ensures Fresh(db, l1.added) && Fresh(WithoutRun(db, l1), l2.added)
  {
    var mid := Apply(db, l1);
    UndoLayer(mid, l2);
    UndoWithoutRun(mid, l2, l1.run);
    UndoLayer(db, l1);
    RestoredTwo(db, l1, l2);
  }

  /** Undoing the older of two stacked runs first gives start plus additions exactly when no
      reference was moved by both, the first undo is accepted, and that result is legal. */
  lemma OldestFirstIff(db: Db, l1: Layer, l2: Layer)
    requires LayerOk(db, l1) && LayerOk(Apply(db, l1), l2) && l1.run != l2.run
    requires KeepersOutside(l1.rows) && KeepersOutside(l2.rows)
    ensures var top := Apply(Apply(db, l1), l2);
            TryUndoAll(top, [l2.run, l1.run]) == Ok(Restored(db, [l1, l2]))
            <==> && !SharesCell(top, l1.run, l2.run)
                 && TryUndo(top, l1.run).Ok? && Legal(Restored(db, [l1, l2]))
  {
    var top := Apply(Apply(db, l1), l2);
    TwoLayers(db, l1, l2);
    TryTwo(top, l1.run, l2.run);
    if SharesCell(top, l1.run, l2.run) {
      var c :| c in top.cells && RelinkKey(l1.run, c) in top.relinks && RelinkKey(l2.run, c) in top.relinks;
      SharedCell(db, l1, l2, c);
      RestoredTwo(db, l1, l2);
      assert Restored(db, [l1, l2]).cells[c] == db.cells[c];
    } else {
      UndoneCommute(top, l1.run, l2.run);
    }
  }
}
