/** Object identifiers in lexicographic order, and what a GETNEXT walk over a sorted table sees
    (section 4.2.2 of RFC 3416). */
module SnmpOids {
  import opened Wrappers

  type Oid = seq<nat>

  /** The order of tuples: component by component, a proper prefix first. */
  predicate Less(a: Oid, b: Oid) {
    b != [] && (a == [] || a[0] < b[0] || (a[0] == b[0] && Less(a[1..], b[1..])))
  }

  /** A proper prefix is less; otherwise the first component in which they differ decides. */
  lemma {:induction false} LessIff(a: Oid, b: Oid)
    ensures Less(a, b) <==>
              || (a <= b && a != b)
              || (exists i | 0 <= i < |a| && i < |b| :: a[..i] == b[..i] && a[i] < b[i])
    decreases |a|
  {
    if a != [] && b != [] {
      var x, y := a[1..], b[1..];
      LessIff(x, y);
      assert a == [a[0]] + x && b == [b[0]] + y;
      if a[0] == b[0] {
        if i :| 0 <= i < |x| && i < |y| && x[..i] == y[..i] && x[i] < y[i] {
          assert a[..i + 1] == [a[0]] + x[..i] && b[..i + 1] == [b[0]] + y[..i];
          assert a[i + 1] < b[i + 1];
        }
        if i :| 0 <= i < |a| && i < |b| && a[..i] == b[..i] && a[i] < b[i] {
          assert x[..i - 1] == a[..i][1..] && y[..i - 1] == b[..i][1..];
          assert x[i - 1] < y[i - 1];
        }
      } else {
        assert a[..0] == b[..0];
        if i :| 0 <= i < |a| && i < |b| && a[..i] == b[..i] && a[i] < b[i] {
          assert i > 0 ==> a[..i][0] == b[..i][0];
        }
      }
    }
  }

  lemma LessIrreflexive(a: Oid)
    ensures !Less(a, a)
  {
  }

  lemma LessTransitive(a: Oid, b: Oid, c: Oid)
    requires Less(a, b) && Less(b, c)
    ensures Less(a, c)
  {
  }

  lemma LessTotal(a: Oid, b: Oid)
    ensures Less(a, b) || a == b || Less(b, a)
  {
    if a != [] && b != [] && a[0] == b[0] {
      LessTotal(a[1..], b[1..]);
      assert a == [a[0]] + a[1..] && b == [b[0]] + b[1..];
    }
  }

  lemma PrefixLess(base: Oid, k: Oid)
    requires base <= k && base != k
    ensures Less(base, k)
  {
    if base != [] {
      PrefixLess(base[1..], k[1..]);
    }
  }

  /** The identifiers under a prefix form one block of the order. */
  lemma {:induction false} PrefixBlock(base: Oid, a: Oid, b: Oid, c: Oid)
    requires base <= a && base <= c && Less(a, b) && Less(b, c)
    ensures base <= b
    decreases |base|
  {
    if base != [] {
      assert a[0] == c[0] && b[0] == a[0];
      PrefixBlock(base[1..], a[1..], b[1..], c[1..]);
    }
  }

  predicate Increasing(s: seq<Oid>) {
    forall i, j | 0 <= i < j < |s| :: Less(s[i], s[j])
  }

  /** Position of the first entry greater than `oid`. */
  function First(sorted: seq<Oid>, oid: Oid): (k: nat)
    ensures k <= |sorted|
    ensures forall i | 0 <= i < k :: !Less(oid, sorted[i])
    ensures k < |sorted| ==> Less(oid, sorted[k])
  {
    if sorted == [] || Less(oid, sorted[0]) then 0 else 1 + First(sorted[1..], oid)
  }

  function Next(sorted: seq<Oid>, oid: Oid): Option<Oid> {
    var k := First(sorted, oid);
    if k < |sorted| then Some(sorted[k]) else None
  }

  /** GETNEXT answers with the least entry greater than the request, if there is one. */
  lemma NextIsSuccessor(sorted: seq<Oid>, oid: Oid)
    requires Increasing(sorted)
    ensures match Next(sorted, oid)
            case None => forall k | k in sorted :: !Less(oid, k)
            case Some(n) =>
              n in sorted && Less(oid, n) && forall k | k in sorted && Less(oid, k) :: k == n || Less(n, k)
  {
  }

  lemma FirstOfEntry(sorted: seq<Oid>, k: nat)
    requires Increasing(sorted) && k < |sorted|
    ensures First(sorted, sorted[k]) == k + 1
  {
    var f := First(sorted, sorted[k]);
    LessIrreflexive(sorted[k]);
    if f <= k && f < k {
      LessTransitive(sorted[f], sorted[k], sorted[f]);
      LessIrreflexive(sorted[f]);
    }
  }

  /** The identifiers a walker collects by asking for the successor until there is none. */
  function Walk(sorted: seq<Oid>, oid: Oid): seq<Oid>
    requires Increasing(sorted)
    decreases |sorted| - First(sorted, oid)
  {
    var k := First(sorted, oid);
    if k == |sorted| then []
    else
      FirstOfEntry(sorted, k);
      [sorted[k]] + Walk(sorted, sorted[k])
  }

  lemma {:induction false} WalkIsSuffix(sorted: seq<Oid>, oid: Oid)
    requires Increasing(sorted)
    ensures Walk(sorted, oid) == sorted[First(sorted, oid)..]
    decreases |sorted| - First(sorted, oid)
  {
    var f := First(sorted, oid);
    if f < |sorted| {
      FirstOfEntry(sorted, f);
      WalkIsSuffix(sorted, sorted[f]);
    }
  }

  lemma SuffixIsRest(sorted: seq<Oid>, oid: Oid, k: Oid)
    requires Increasing(sorted)
    ensures k in sorted[First(sorted, oid)..] <==> k in sorted && Less(oid, k)
  {
    var f := First(sorted, oid);
    if k in sorted && Less(oid, k) {
      var i :| 0 <= i < |sorted| && sorted[i] == k;
      assert sorted[f..][i - f] == k;
    }
    if k in sorted[f..] {
      var i :| f <= i < |sorted| && sorted[i] == k;
      if i > f {
        LessTransitive(oid, sorted[f], k);
      }
    }
  }

  /** A walk from any identifier, in the table or not, visits exactly the entries after it: all of
      them, once each, in increasing order. */
  lemma WalkVisitsTheRest(sorted: seq<Oid>, oid: Oid)
    requires Increasing(sorted)
    ensures Walk(sorted, oid) == sorted[First(sorted, oid)..]
    ensures Increasing(Walk(sorted, oid))
    ensures forall k :: k in Walk(sorted, oid) <==> k in sorted && Less(oid, k)
  {
    WalkIsSuffix(sorted, oid);
    forall k ensures k in Walk(sorted, oid) <==> k in sorted && Less(oid, k) {
      SuffixIsRest(sorted, oid, k);
    }
  }

  /** A walker that stops at the first identifier outside the column. */
  function ColumnWalk(sorted: seq<Oid>, column: Oid, oid: Oid): seq<Oid>
    requires Increasing(sorted)
    decreases |sorted| - First(sorted, oid)
  {
    var k := First(sorted, oid);
    if k == |sorted| || !(column <= sorted[k]) then []
    else
      FirstOfEntry(sorted, k);
      [sorted[k]] + ColumnWalk(sorted, column, sorted[k])
  }

  lemma {:induction false} ColumnWalkIsBlock(sorted: seq<Oid>, column: Oid, oid: Oid)
    requires Increasing(sorted) && column <= oid
    ensures ColumnWalk(sorted, column, oid) <= Walk(sorted, oid)
    ensures forall k :: k in ColumnWalk(sorted, column, oid) <==> k in sorted && Less(oid, k) && column <= k
    decreases |sorted| - First(sorted, oid)
  {
    var f := First(sorted, oid);
    WalkVisitsTheRest(sorted, oid);
    if f < |sorted| {
      FirstOfEntry(sorted, f);
      if column <= sorted[f] {
        ColumnWalkIsBlock(sorted, column, sorted[f]);
        NextIsSuccessor(sorted, oid);
        forall k | k in sorted && Less(sorted[f], k) ensures Less(oid, k) {
          LessTransitive(oid, sorted[f], k);
        }
      } else {
        NextIsSuccessor(sorted, oid);
        forall k | k in sorted && Less(oid, k) ensures !(column <= k) {
          if column <= k && k != sorted[f] {
            PrefixBlock(column, oid, sorted[f], k);
          }
        }
      }
    }
  }

  /** Starting at the column's own identifier the walk returns exactly the column, in order. */
  lemma ColumnWalkReturnsColumn(sorted: seq<Oid>, column: Oid)
    requires Increasing(sorted)
    ensures var found := ColumnWalk(sorted, column, column);
            && Increasing(found)
            && forall k :: k in found <==> k in sorted && column <= k && k != column
  {
    ColumnWalkIsBlock(sorted, column, column);
    WalkVisitsTheRest(sorted, column);
    var found := ColumnWalk(sorted, column, column);
    assert forall i | 0 <= i < |found| :: found[i] == Walk(sorted, column)[i];
    LessIrreflexive(column);
    forall k | k in sorted && column <= k && k != column ensures Less(column, k) {
      PrefixLess(column, k);
    }
  }

  // ---- Sorting the keys ----

  lemma InsertKeepsOrder(sorted: seq<Oid>, k: Oid)
    requires Increasing(sorted) && k !in sorted
    ensures var f := First(sorted, k); Increasing(sorted[..f] + [k] + sorted[f..])
  {
    var f := First(sorted, k);
    forall i | 0 <= i < f ensures Less(sorted[i], k) {
      LessTotal(sorted[i], k);
    }
    forall i | f <= i < |sorted| ensures Less(k, sorted[i]) {
      if i > f {
        LessTransitive(k, sorted[f], sorted[i]);
      }
    }
  }

  method SortOids(keys: set<Oid>) returns (sorted: seq<Oid>)
    ensures Increasing(sorted) && forall k :: k in sorted <==> k in keys
  {
    sorted := [];
    var rest := keys;
    while rest != {}
      invariant Increasing(sorted) && rest <= keys
      invariant forall k :: k in sorted <==> k in keys && k !in rest
      decreases rest
    {
      var k :| k in rest;
      var f := First(sorted, k);
      InsertKeepsOrder(sorted, k);
      var next := sorted[..f] + [k] + sorted[f..];
      assert forall x :: x in next <==> x == k || x in sorted by {
        assert sorted == sorted[..f] + sorted[f..];
      }
      sorted, rest := next, rest - {k};
    }
  }
}
