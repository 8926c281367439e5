/** The migration round trip: breadth-first ancestors of a revision, and the revision a downgrade
    of the newest migrations has to go to. */
module MigrationGraph {
  import opened Wrappers

  type Rev = string

  /** What a migration file declares. */
  datatype Down = NoDown | One(parent: Rev) | Many(parents: seq<Rev>)

  type Graph = map<Rev, Down>

  /** Every declared parent is a revision of the script directory; `get_revision` raises otherwise. */
  predicate Closed(g: Graph) {
    forall r | r in g :: forall i | 0 <= i < |Listed(g[r])| :: Listed(g[r])[i] in g
  }

  function Listed(d: Down): seq<Rev> {
    match d
    case NoDown => []
    case One(p) => [p]
    case Many(ps) => ps
  }

  function Parents(g: Graph, r: Rev): seq<Rev>
    requires r in g
  {
    Listed(g[r])
  }

  // ---- Paths and distances ----

  /** `path` leads from its first revision towards the base, parent by parent. */
  ghost predicate IsPath(g: Graph, path: seq<Rev>) {
    && path != [] && (forall i | 0 <= i < |path| :: path[i] in g)
    && forall i | 0 <= i < |path| - 1 :: path[i + 1] in Parents(g, path[i])
  }

  ghost predicate PathBetween(g: Graph, a: Rev, b: Rev, path: seq<Rev>) {
    IsPath(g, path) && path[0] == a && path[|path| - 1] == b
  }

  /** `b` is `a` or an ancestor of it. */
  ghost predicate Reaches(g: Graph, a: Rev, b: Rev) {
    exists path :: PathBetween(g, a, b, path)
  }

  /** The shortest way from `a` to `b` has `d` steps. */
  ghost predicate Distance(g: Graph, a: Rev, b: Rev, d: nat) {
    && (exists path :: PathBetween(g, a, b, path) && |path| == d + 1)
    && forall path | PathBetween(g, a, b, path) :: |path| >= d + 1
  }

  lemma PathStep(g: Graph, a: Rev, b: Rev, c: Rev, path: seq<Rev>)
    requires PathBetween(g, a, b, path) && c in g && c in Parents(g, b)
    ensures PathBetween(g, a, c, path + [c])
  {
  }

  lemma PathJoin(g: Graph, a: Rev, b: Rev, c: Rev, p: seq<Rev>, q: seq<Rev>)
    requires PathBetween(g, a, b, p) && PathBetween(g, b, c, q)
    ensures PathBetween(g, a, c, p + q[1..])
  {
    var r := p + q[1..];
    forall i | 0 <= i < |r| - 1 ensures r[i + 1] in Parents(g, r[i]) {
      if i < |p| - 1 {
        assert r[i] == p[i] && r[i + 1] == p[i + 1];
      } else {
        assert r[i] == q[i - (|p| - 1)] && r[i + 1] == q[i + 1 - (|p| - 1)];
      }
    }
  }

  lemma PathSlice(g: Graph, path: seq<Rev>, i: nat, j: nat)
    requires IsPath(g, path) && i <= j < |path|
    ensures PathBetween(g, path[i], path[j], path[i..j + 1])
  {
  }

  // ---- The breadth-first search ----

  /** Seen revisions, each once, with their distances, nearest first. */
  ghost predicate SeenOk(g: Graph, rev: Rev, order: seq<Rev>, dist: seq<nat>) {
    && |dist| == |order|
    && (forall i | 0 <= i < |order| :: order[i] in g && Distance(g, rev, order[i], dist[i]))
    && (forall i, j | 0 <= i < j < |order| :: dist[i] <= dist[j])
    && (forall i, j | 0 <= i < j < |order| :: order[i] != order[j])
  }

  ghost predicate FoundAt(g: Graph, rev: Rev, r: Rev, d: nat) {
    r in g && exists path :: PathBetween(g, rev, r, path) && |path| == d + 1
  }

  /** Queue entries (possibly repeated), each with the length of the way on which it was found. */
  ghost predicate QueueOk(g: Graph, rev: Rev, queue: seq<Rev>, depth: seq<nat>) {
    && |depth| == |queue|
    && (forall k | 0 <= k < |queue| :: FoundAt(g, rev, queue[k], depth[k]))
    && (forall k, l | 0 <= k < l < |queue| :: depth[k] <= depth[l])
  }

  /** The queue continues where the seen part ends, at most one step further out. */
  ghost predicate Consecutive(dist: seq<nat>, depth: seq<nat>) {
    forall k | 0 <= k < |depth| && dist != [] :: dist[|dist| - 1] <= depth[k] <= dist[|dist| - 1] + 1
  }

  ghost predicate SearchInv(g: Graph, rev: Rev, order: seq<Rev>, dist: seq<nat>, queue: seq<Rev>, depth: seq<nat>) {
    && SeenOk(g, rev, order, dist) && QueueOk(g, rev, queue, depth) && Consecutive(dist, depth)
    && (rev in order || (order == [] && queue == [rev] && depth == [0]))
    && Frontier(g, order, dist, queue, depth)
  }

  /** Each parent of a seen revision is seen at most one step further, or waits in the queue. */
  ghost predicate Frontier(g: Graph, order: seq<Rev>, dist: seq<nat>, queue: seq<Rev>, depth: seq<nat>)
    requires |dist| == |order| && |depth| == |queue|
  {
    forall i, p | 0 <= i < |order| && order[i] in g && p in Parents(g, order[i]) ::
      p in order || exists k :: 0 <= k < |queue| && queue[k] == p && depth[k] <= dist[i] + 1
  }

  /** The first unseen revision of a way out of `rev` waits in the queue, no later than the way
      takes to get there. */
  lemma UnseenIsQueued(g: Graph, rev: Rev, order: seq<Rev>, dist: seq<nat>, queue: seq<Rev>, depth: seq<nat>,
                       x: Rev, path: seq<Rev>)
    requires SearchInv(g, rev, order, dist, queue, depth)
    requires PathBetween(g, rev, x, path) && x !in order
    ensures exists k :: 0 <= k < |queue| && depth[k] <= |path| - 1
  {
    if order == [] {
      assert depth[0] <= |path| - 1;
    } else {
      var j := FirstUnseen(order, path);
      var y := path[j - 1];
      var i :| 0 <= i < |order| && order[i] == y;
      PathSlice(g, path, 0, j - 1);
      assert Distance(g, rev, y, dist[i]);
      assert path[j - 1 + 1] in Parents(g, y);
      var k :| 0 <= k < |queue| && queue[k] == path[j] && depth[k] <= dist[i] + 1;
    }
  }

  lemma FirstUnseen(order: seq<Rev>, path: seq<Rev>) returns (j: nat)
    requires path != [] && path[0] in order && path[|path| - 1] !in order
    ensures 0 < j < |path| && path[j] !in order && path[j - 1] in order
    decreases |path|
  {
    if path[|path| - 2] in order {
      j := |path| - 1;
    } else {
      j := FirstUnseen(order, path[..|path| - 1]);
    }
  }

  /** An unseen revision at the head of the queue has been found on a shortest way. */
  lemma HeadIsNearest(g: Graph, rev: Rev, order: seq<Rev>, dist: seq<nat>, queue: seq<Rev>, depth: seq<nat>)
    requires SearchInv(g, rev, order, dist, queue, depth) && queue != [] && queue[0] !in order
    ensures Distance(g, rev, queue[0], depth[0])
  {
    forall path | PathBetween(g, rev, queue[0], path) ensures |path| >= depth[0] + 1 {
      UnseenIsQueued(g, rev, order, dist, queue, depth, queue[0], path);
    }
  }

  lemma DropSeen(g: Graph, rev: Rev, order: seq<Rev>, dist: seq<nat>, queue: seq<Rev>, depth: seq<nat>)
    requires SearchInv(g, rev, order, dist, queue, depth) && queue != [] && queue[0] in order
    ensures SearchInv(g, rev, order, dist, queue[1..], depth[1..])
  {
    forall i, p | 0 <= i < |order| && order[i] in g && p in Parents(g, order[i]) && p !in order
      ensures exists k :: 0 <= k < |queue[1..]| && queue[1..][k] == p && depth[1..][k] <= dist[i] + 1
    {
      var k :| 0 <= k < |queue| && queue[k] == p && depth[k] <= dist[i] + 1;
      assert queue[1..][k - 1] == p && depth[1..][k - 1] == depth[k];
    }
  }

  function Constant(n: nat, d: nat): seq<nat> {
    seq(n, _ => d)
  }

  lemma TakeHead(g: Graph, rev: Rev, order: seq<Rev>, dist: seq<nat>, queue: seq<Rev>, depth: seq<nat>)
    requires SearchInv(g, rev, order, dist, queue, depth) && Closed(g) && queue != [] && queue[0] !in order
    ensures var cur := queue[0];
            cur in g && SearchInv(g, rev, order + [cur], dist + [depth[0]], queue[1..] + Parents(g, cur),
                                  depth[1..] + Constant(|Parents(g, cur)|, depth[0] + 1))
  {
    var cur, d := queue[0], depth[0];
    assert FoundAt(g, rev, cur, d);
    HeadIsNearest(g, rev, order, dist, queue, depth);
    SeenGrows(g, rev, order, dist, cur, d);
    QueueGrows(g, rev, queue, depth);
    FrontierMoves(g, order, dist, queue, depth);
  }

  lemma SeenGrows(g: Graph, rev: Rev, order: seq<Rev>, dist: seq<nat>, cur: Rev, d: nat)
    requires SeenOk(g, rev, order, dist) && cur in g && cur !in order && Distance(g, rev, cur, d)
    requires dist != [] ==> dist[|dist| - 1] <= d
    ensures SeenOk(g, rev, order + [cur], dist + [d])
  {
    AppendSorted(order, dist, cur, d);
    AppendDistances(g, rev, order, dist, cur, d);
  }

  lemma AppendDistances(g: Graph, rev: Rev, order: seq<Rev>, dist: seq<nat>, cur: Rev, d: nat)
    requires SeenOk(g, rev, order, dist) && cur in g && Distance(g, rev, cur, d)
    ensures var order', dist' := order + [cur], dist + [d];
            forall i | 0 <= i < |order'| :: order'[i] in g && Distance(g, rev, order'[i], dist'[i])
  {
    forall i | 0 <= i < |order + [cur]|
      ensures (order + [cur])[i] in g && Distance(g, rev, (order + [cur])[i], (dist + [d])[i])
    {
      if i < |order| {
        assert (order + [cur])[i] == order[i] && (dist + [d])[i] == dist[i];
      }
    }
  }

  lemma AppendSorted(order: seq<Rev>, dist: seq<nat>, cur: Rev, d: nat)
    requires |order| == |dist| && cur !in order
    requires forall i, j | 0 <= i < j < |order| :: order[i] != order[j] && dist[i] <= dist[j]
    requires dist != [] ==> dist[|dist| - 1] <= d
    ensures var order', dist' := order + [cur], dist + [d];
            forall i, j | 0 <= i < j < |order'| :: order'[i] != order'[j] && dist'[i] <= dist'[j]
  {
    var order', dist' := order + [cur], dist + [d];
    forall i, j | 0 <= i < j < |order'| ensures order'[i] != order'[j] && dist'[i] <= dist'[j] {
      if j == |order| {
        assert order[i] in order;
        assert dist[i] <= dist[|dist| - 1];
      }
    }
  }

  lemma QueueGrows(g: Graph, rev: Rev, queue: seq<Rev>, depth: seq<nat>)
    requires QueueOk(g, rev, queue, depth) && Closed(g) && queue != []
    requires forall k | 0 <= k < |depth| :: depth[k] <= depth[0] + 1
    ensures queue[0] in g
    ensures QueueOk(g, rev, queue[1..] + Parents(g, queue[0]),
                    depth[1..] + Constant(|Parents(g, queue[0])|, depth[0] + 1))
  {
    var cur, d := queue[0], depth[0];
    assert FoundAt(g, rev, cur, d);
    var path :| PathBetween(g, rev, cur, path) && |path| == d + 1;
    var ps := Parents(g, cur);
    forall k | 0 <= k < |ps| ensures FoundAt(g, rev, ps[k], d + 1) {
      PathStep(g, rev, cur, ps[k], path);
    }
  }

  lemma FrontierMoves(g: Graph, order: seq<Rev>, dist: seq<nat>, queue: seq<Rev>, depth: seq<nat>)
    requires |dist| == |order| && |depth| == |queue| && Frontier(g, order, dist, queue, depth)
    requires queue != [] && queue[0] in g
    ensures Frontier(g, order + [queue[0]], dist + [depth[0]], queue[1..] + Parents(g, queue[0]),
                     depth[1..] + Constant(|Parents(g, queue[0])|, depth[0] + 1))
  {
    var cur, d, ps := queue[0], depth[0], Parents(g, queue[0]);
    var order', dist' := order + [cur], dist + [d];
    var queue', depth' := queue[1..] + ps, depth[1..] + Constant(|ps|, d + 1);
    forall i, p | 0 <= i < |order'| && order'[i] in g && p in Parents(g, order'[i]) && p !in order'
      ensures exists k :: 0 <= k < |queue'| && queue'[k] == p && depth'[k] <= dist'[i] + 1
    {
      if i < |order| {
        var k :| 0 <= k < |queue| && queue[k] == p && depth[k] <= dist[i] + 1;
        assert queue'[k - 1] == p && depth'[k - 1] == depth[k];
      } else {
        var m :| 0 <= m < |ps| && ps[m] == p;
        assert queue'[|queue| - 1 + m] == p && depth'[|queue| - 1 + m] == d + 1;
      }
    }
  }

  /** With an empty queue nothing reachable is missing. */
  lemma NothingLeft(g: Graph, rev: Rev, order: seq<Rev>, dist: seq<nat>, x: Rev)
    requires SearchInv(g, rev, order, dist, [], [])
    ensures x in order <==> Reaches(g, rev, x)
  {
    if Reaches(g, rev, x) && x !in order {
      var path :| PathBetween(g, rev, x, path);
      UnseenIsQueued(g, rev, order, dist, [], [], x, path);
    }
  }

  /** `rev` and all its ancestors, each once and nothing else, nearest first, on any finite graph
      (cycles included) although the queue may repeat revisions. */
  method Ancestors(g: Graph, rev: Rev) returns (order: seq<Rev>, ghost dist: seq<nat>)
    requires Closed(g) && rev in g
    ensures forall x :: x in order <==> Reaches(g, rev, x)
    ensures SeenOk(g, rev, order, dist)
  {
    var seen: set<Rev> := {};
    var queue := [rev];
    ghost var depth := [0];
    order, dist := [], [];
    StartInv(g, rev);
    while queue != []
      invariant SearchInv(g, rev, order, dist, queue, depth)
      invariant seen <= g.Keys && forall x :: x in seen <==> x in order
      decreases g.Keys - seen, |queue|
    {
      var cur := queue[0];
      if cur in seen {
        DropSeen(g, rev, order, dist, queue, depth);
        queue, depth := queue[1..], depth[1..];
      } else {
        TakeHead(g, rev, order, dist, queue, depth);
        seen := seen + {cur};
        order, dist := order + [cur], dist + [depth[0]];
        depth := depth[1..] + Constant(|Parents(g, cur)|, depth[0] + 1);
        queue := queue[1..] + Parents(g, cur);
      }
    }
    forall x ensures x in order <==> Reaches(g, rev, x) {
      NothingLeft(g, rev, order, dist, x);
    }
  }

  lemma StartInv(g: Graph, rev: Rev)
    requires rev in g
    ensures SearchInv(g, rev, [], [], [rev], [0])
  {
    assert PathBetween(g, rev, rev, [rev]);
  }

  // ---- The downgrade target ----

  datatype Target = Base | At(rev: Rev)

  ghost predicate Common(g: Graph, parents: seq<Rev>, r: Rev) {
    forall i | 0 <= i < |parents| :: Reaches(g, parents[i], r)
  }

  /** A common ancestor with none closer to the first parent. */
  ghost predicate Nearest(g: Graph, parents: seq<Rev>, r: Rev)
    requires parents != []
  {
    && Common(g, parents, r)
    && forall c, d: nat, e: nat |
         Common(g, parents, c) && Distance(g, parents[0], r, d) && Distance(g, parents[0], c, e) :: d <= e
  }

  /** An ordinary head goes back to its parent; a merge head to a nearest common ancestor of its
      parents, and to "base" exactly when they have none. */
  ghost predicate IsTarget(g: Graph, head: Rev, target: Target)
    requires head in g
  {
    var parents := Parents(g, head);
    if |parents| == 0 then target == Base
    else if |parents| == 1 then target == At(parents[0])
    else match target
      case Base => forall r :: !Common(g, parents, r)
      case At(r) => Nearest(g, parents, r)
  }

  lemma DistanceUnique(g: Graph, a: Rev, b: Rev, d: nat, e: nat)
    requires Distance(g, a, b, d) && Distance(g, a, b, e)
    ensures d == e
  {
  }

  lemma LaterIsFarther(g: Graph, rev: Rev, order: seq<Rev>, dist: seq<nat>, k: nat, c: Rev, d: nat, e: nat)
    requires SeenOk(g, rev, order, dist) && k < |order| && c in order
    requires forall j | 0 <= j < k :: order[j] != c
    requires Distance(g, rev, order[k], d) && Distance(g, rev, c, e)
    ensures d <= e
  {
    var i :| 0 <= i < |order| && order[i] == c;
    DistanceUnique(g, rev, c, e, dist[i]);
    DistanceUnique(g, rev, order[k], d, dist[k]);
  }

  /** The first common revision in the breadth-first order is a nearest one. */
  lemma FirstIsNearest(g: Graph, parents: seq<Rev>, order: seq<Rev>, dist: seq<nat>, k: nat)
    requires parents != [] && SeenOk(g, parents[0], order, dist) && k < |order|
    requires forall x :: x in order <==> Reaches(g, parents[0], x)
    requires Common(g, parents, order[k]) && forall i | 0 <= i < k :: !Common(g, parents, order[i])
    ensures Nearest(g, parents, order[k])
  {
    forall c, d: nat, e: nat |
      Common(g, parents, c) && Distance(g, parents[0], order[k], d) && Distance(g, parents[0], c, e)
      ensures d <= e
    {
      assert Reaches(g, parents[0], c);
      LaterIsFarther(g, parents[0], order, dist, k, c, d, e);
    }
  }

  /** The revisions every parent reaches. */
  method CommonAncestors(g: Graph, parents: seq<Rev>) returns (common: set<Rev>)
    requires Closed(g) && parents != [] && forall i | 0 <= i < |parents| :: parents[i] in g
    ensures forall r :: r in common <==> Common(g, parents, r)
  {
    var first, _ := Ancestors(g, parents[0]);
    common := set r | r in first;
    assert forall r :: r in common <==> Common(g, parents[..1], r);
    for k := 1 to |parents|
      invariant forall r :: r in common <==> Common(g, parents[..k], r)
    {
      var more, _ := Ancestors(g, parents[k]);
      var other := set r | r in more;
      CommonStep(g, parents, k);
      common := common * other;
    }
    assert parents[..|parents|] == parents;
  }

  /** The revision to downgrade to. */
  method TargetFor(g: Graph, head: Rev) returns (target: Target)
    requires Closed(g) && head in g
    ensures IsTarget(g, head, target)
  {
    var parents := Parents(g, head);
    if parents == [] {
      return Base;
    }
    if |parents| == 1 {
      return At(parents[0]);
    }
    var common := CommonAncestors(g, parents);
    var order, dist := Ancestors(g, parents[0]);
    for k := 0 to |order|
      invariant forall i | 0 <= i < k :: !Common(g, parents, order[i])
    {
      if order[k] in common {
        FirstIsNearest(g, parents, order, dist, k);
        return At(order[k]);
      }
    }
    NoneCommon(g, parents, order);
    return Base;
  }

  lemma NoneCommon(g: Graph, parents: seq<Rev>, order: seq<Rev>)
    requires parents != [] && (forall x | Reaches(g, parents[0], x) :: x in order)
    requires forall i | 0 <= i < |order| :: !Common(g, parents, order[i])
    ensures forall r :: !Common(g, parents, r)
  {
    forall r ensures Common(g, parents, r) ==> r in order {
    }
  }

  lemma CommonStep(g: Graph, parents: seq<Rev>, k: nat)
    requires k < |parents|
    ensures forall r :: Common(g, parents[..k + 1], r) <==> Common(g, parents[..k], r) && Reaches(g, parents[k], r)
  {
    assert parents[..k + 1] == parents[..k] + [parents[k]];
  }

  // ---- In terms of what the migration files declare ----

  /** What a revision declares as its parents, said without listing them. */
  predicate Declares(d: Down, p: Rev) {
    match d
    case NoDown => false
    case One(q) => p == q
    case Many(ps) => p in ps
  }

  lemma ParentIff(g: Graph, r: Rev, p: Rev)
    requires r in g
    ensures p in Parents(g, r) <==> Declares(g[r], p)
  {
  }

  /** One revision reaches another exactly through a parent that its file declares. */
  lemma ReachesIff(g: Graph, a: Rev, b: Rev)
    requires Closed(g) && a in g && a != b
    ensures Reaches(g, a, b) <==> exists p :: Declares(g[a], p) && Reaches(g, p, b)
  {
    if Reaches(g, a, b) {
      var path :| PathBetween(g, a, b, path);
      PathEnds(g, path);
      PathSlice(g, path, 1, |path| - 1);
      ParentIff(g, a, path[1]);
    }
    forall p | Declares(g[a], p) && Reaches(g, p, b) ensures Reaches(g, a, b) {
      ParentIff(g, a, p);
      var path :| PathBetween(g, p, b, path);
      assert PathBetween(g, a, p, [a, p]);
      PathJoin(g, a, p, b, [a, p], path);
    }
  }

  lemma ReachesItself(g: Graph, a: Rev)
    requires a in g
    ensures Reaches(g, a, a)
  {
    assert PathBetween(g, a, a, [a]);
  }

  /** A revision that every one of `ps` reaches. */
  ghost predicate FromAll(g: Graph, ps: seq<Rev>, r: Rev) {
    forall p | p in ps :: Reaches(g, p, r)
  }

  lemma CommonIff(g: Graph, ps: seq<Rev>, r: Rev)
    ensures Common(g, ps, r) <==> FromAll(g, ps, r)
  {
    if FromAll(g, ps, r) {
      assert forall i | 0 <= i < |ps| :: ps[i] in ps;
    }
  }

  /** The target in terms of the head's file: base for none or an empty list, the parent for one, and for
      a merge a revision that every listed parent reaches, no farther from the first one than any other
      such revision, or base exactly if there is none. */
  lemma TargetDeclared(g: Graph, head: Rev, target: Target)
    requires Closed(g) && head in g && IsTarget(g, head, target)
    ensures match g[head]
            case NoDown => target == Base
            case One(p) => target == At(p)
            case Many(ps) =>
              && (ps == [] ==> target == Base)
              && (|ps| == 1 ==> target == At(ps[0]))
              && (|ps| >= 2 ==> (target == Base <==> forall r :: !FromAll(g, ps, r)))
              && (|ps| >= 2 && target.At? ==>
                    && FromAll(g, ps, target.rev)
                    && forall r, d: nat, e: nat |
                         FromAll(g, ps, r) && Distance(g, ps[0], target.rev, d) && Distance(g, ps[0], r, e) :: d <= e)
  {
    forall ps, r ensures Common(g, ps, r) <==> FromAll(g, ps, r) {
      CommonIff(g, ps, r);
    }
  }

  // ---- When the nearest common ancestor is the lowest ----

  /** Every other common ancestor is an ancestor of it. */
  ghost predicate Lowest(g: Graph, parents: seq<Rev>, r: Rev) {
    Common(g, parents, r) && forall c | Common(g, parents, c) :: Reaches(g, r, c)
  }

  /** Where the first parent's line enters the common history: a common revision that is the first
      parent itself or a parent of an ancestor of it that is not common. */
  ghost predicate Entry(g: Graph, parents: seq<Rev>, f: Rev)
    requires parents != []
  {
    && Common(g, parents, f)
    && (f == parents[0]
        || exists x :: x in g && Reaches(g, parents[0], x) && !Common(g, parents, x) && f in Parents(g, x))
  }

  /** Position `j` is the first common revision of the path. */
  ghost predicate EntersAt(g: Graph, parents: seq<Rev>, path: seq<Rev>, j: nat) {
    && j < |path| && Common(g, parents, path[j])
    && forall i | 0 <= i < j :: !Common(g, parents, path[i])
  }

  lemma FirstCommon(g: Graph, parents: seq<Rev>, path: seq<Rev>) returns (j: nat)
    requires path != [] && Common(g, parents, path[|path| - 1])
    ensures EntersAt(g, parents, path, j)
    decreases |path|
  {
    var n := |path| - 1;
    if i :| 0 <= i < n && Common(g, parents, path[i]) {
      j := FirstCommon(g, parents, path[..i + 1]);
      assert forall k | 0 <= k < j :: path[k] == path[..i + 1][k];
    } else {
      j := n;
    }
  }

  /** Every way to a common ancestor passes an entry. */
  lemma BelowEntry(g: Graph, parents: seq<Rev>, c: Rev, path: seq<Rev>) returns (j: nat)
    requires parents != [] && Common(g, parents, c) && PathBetween(g, parents[0], c, path)
    ensures EntersAt(g, parents, path, j) && Entry(g, parents, path[j]) && Reaches(g, path[j], c)
  {
    j := FirstCommon(g, parents, path);
    PathSlice(g, path, j, |path| - 1);
    if j > 0 {
      PathSlice(g, path, 0, j - 1);
      assert path[j - 1 + 1] in Parents(g, path[j - 1]);
    }
  }

  /** The nearest common ancestor is the lowest one exactly when every entry is an ancestor of it. */
  lemma LowestIff(g: Graph, parents: seq<Rev>, r: Rev)
    requires parents != [] && Nearest(g, parents, r)
    ensures Lowest(g, parents, r) <==> forall f | Entry(g, parents, f) :: Reaches(g, r, f)
  {
    if forall f | Entry(g, parents, f) :: Reaches(g, r, f) {
      forall c | Common(g, parents, c) ensures Reaches(g, r, c) {
        var path :| PathBetween(g, parents[0], c, path);
        var j := BelowEntry(g, parents, c, path);
        var p :| PathBetween(g, r, path[j], p);
        var q :| PathBetween(g, path[j], c, q);
        PathJoin(g, r, path[j], c, p, q);
      }
    }
  }

  /** For a merge head as a whole: every target it may get is the lowest common ancestor exactly when
      every nearest common ancestor reaches every entry of the first parent's history. */
  lemma TargetLowestIff(g: Graph, head: Rev)
    requires head in g && |Parents(g, head)| >= 2
    ensures var parents := Parents(g, head);
            (forall t | IsTarget(g, head, t) :: t.Base? || Lowest(g, parents, t.rev))
            <==> (forall r, f | Nearest(g, parents, r) && Entry(g, parents, f) :: Reaches(g, r, f))
  {
    var parents := Parents(g, head);
    forall r | Nearest(g, parents, r)
      ensures Lowest(g, parents, r) <==> forall f | Entry(g, parents, f) :: Reaches(g, r, f)
    {
      LowestIff(g, parents, r);
    }
    assert forall r :: IsTarget(g, head, At(r)) <==> Nearest(g, parents, r);
  }

  /** The part of the first parent's history that is not common is one line. */
  ghost predicate SingleLine(g: Graph, parents: seq<Rev>)
    requires parents != []
  {
    forall x | x in g && Reaches(g, parents[0], x) && !Common(g, parents, x) :: |Parents(g, x)| <= 1
  }

  /** Along a single line all ways enter the common history at the same place. */
  lemma SameEntry(g: Graph, parents: seq<Rev>, p: seq<Rev>, q: seq<Rev>, i: nat, j: nat)
    requires parents != [] && SingleLine(g, parents)
    requires IsPath(g, p) && IsPath(g, q) && p[0] == parents[0] == q[0]
    requires EntersAt(g, parents, p, i) && EntersAt(g, parents, q, j)
    ensures i == j && p[i] == q[j]
  {
    LineForced(g, parents, p, q, if i < j then i else j);
  }

  lemma LineForced(g: Graph, parents: seq<Rev>, p: seq<Rev>, q: seq<Rev>, k: nat)
    requires parents != [] && SingleLine(g, parents)
    requires IsPath(g, p) && IsPath(g, q) && p[0] == parents[0] == q[0] && k < |p| && k < |q|
    requires forall m | 0 <= m < k :: !Common(g, parents, p[m])
    ensures p[k] == q[k]
  {
    if k > 0 {
      LineForced(g, parents, p, q, k - 1);
      PathSlice(g, p, 0, k - 1);
      assert Reaches(g, parents[0], p[k - 1]);
      assert p[k - 1 + 1] in Parents(g, p[k - 1]) && q[k - 1 + 1] in Parents(g, q[k - 1]);
    }
  }

  /** If no revision of the first parent's own line is itself a merge, the target of the downgrade
      is the lowest common ancestor: everything the merged lines share stays applied. */
  lemma NearestIsLowestOnSingleLine(g: Graph, parents: seq<Rev>, r: Rev)
    requires parents != [] && Nearest(g, parents, r) && SingleLine(g, parents)
    ensures Lowest(g, parents, r)
  {
    var way :| PathBetween(g, parents[0], r, way);
    var shortest, d := ShortestPath(g, parents[0], r, way);
    var j := BelowEntry(g, parents, r, shortest);
    var f := shortest[j];
    PathSlice(g, shortest, 0, j);
    var short, e := ShortestPath(g, parents[0], f, shortest[..j + 1]);
    assert d <= e;
    assert f == r;
    forall c | Common(g, parents, c) ensures Reaches(g, r, c) {
      var path :| PathBetween(g, parents[0], c, path);
      var i := BelowEntry(g, parents, c, path);
      SameEntry(g, parents, path, shortest, i, j);
    }
  }

  lemma ShortestPath(g: Graph, a: Rev, b: Rev, path: seq<Rev>) returns (best: seq<Rev>, d: nat)
    requires PathBetween(g, a, b, path)
    ensures PathBetween(g, a, b, best) && |best| == d + 1 && d + 1 <= |path| && Distance(g, a, b, d)
    decreases |path|
  {
    if shorter :| PathBetween(g, a, b, shorter) && |shorter| < |path| {
      best, d := ShortestPath(g, a, b, shorter);
    } else {
      best, d := path, |path| - 1;
    }
  }

  lemma PathEnds(g: Graph, path: seq<Rev>)
    requires IsPath(g, path)
    ensures |path| > 1 ==> path[1] in Parents(g, path[0])
    ensures |path| > 1 ==> path[|path| - 1] in Parents(g, path[|path| - 2])
  {
    assert |path| > 1 ==> path[0 + 1] in Parents(g, path[0]);
    assert |path| > 1 ==> path[|path| - 2 + 1] in Parents(g, path[|path| - 2]);
  }

  lemma RootReachesItself(g: Graph, x: Rev, y: Rev)
    requires x in g && Parents(g, x) == [] && Reaches(g, x, y)
    ensures x == y
  {
    var path :| PathBetween(g, x, y, path);
    PathEnds(g, path);
  }

  /** A merge `h` of two lines that both come from the same two unrelated revisions. */
  function Crossed(h: Rev, p: Rev, q: Rev, a: Rev, b: Rev): Graph {
    map[h := Many([p, q]), p := Many([a, b]), q := Many([a, b]), a := NoDown, b := NoDown]
  }

  predicate AllDifferent(h: Rev, p: Rev, q: Rev, a: Rev, b: Rev) {
    h != p && h != q && h != a && h != b && p != q && p != a && p != b && q != a && q != b && a != b
  }

  /** What a line over two roots reaches. */
  lemma LineReaches(g: Graph, x: Rev, a: Rev, b: Rev, y: Rev)
    requires x in g && a in g && b in g && Parents(g, x) == [a, b] && Parents(g, a) == [] == Parents(g, b)
    ensures Reaches(g, x, y) <==> y == x || y == a || y == b
  {
    assert PathBetween(g, x, x, [x]) && PathBetween(g, x, a, [x, a]) && PathBetween(g, x, b, [x, b]);
    if Reaches(g, x, y) {
      var path :| PathBetween(g, x, y, path);
      if |path| > 1 {
        PathEnds(g, path);
        PathSlice(g, path, 1, |path| - 1);
        RootReachesItself(g, path[1], y);
      }
    }
  }

  /** Two lines over the same two roots. */
  predicate SharesRoots(g: Graph, p: Rev, q: Rev, a: Rev, b: Rev) {
    && p in g && q in g && a in g && b in g && p != q && p != a && p != b && q != a && q != b && a != b
    && Parents(g, p) == [a, b] == Parents(g, q) && Parents(g, a) == [] == Parents(g, b)
  }

  lemma RootsCommon(g: Graph, p: Rev, q: Rev, a: Rev, b: Rev, r: Rev)
    requires SharesRoots(g, p, q, a, b)
    ensures Common(g, [p, q], r) <==> r == a || r == b
  {
    LineReaches(g, p, a, b, r);
    LineReaches(g, q, a, b, r);
    assert [p, q][0] == p && [p, q][1] == q;
  }

  lemma RootsNotLowest(g: Graph, p: Rev, q: Rev, a: Rev, b: Rev, r: Rev)
    requires SharesRoots(g, p, q, a, b)
    ensures !Lowest(g, [p, q], r)
  {
    RootsCommon(g, p, q, a, b, r);
    RootsCommon(g, p, q, a, b, if r == a then b else a);
    if r == a && Reaches(g, a, b) {
      RootReachesItself(g, a, b);
    }
    if r == b && Reaches(g, b, a) {
      RootReachesItself(g, b, a);
    }
  }

  /** In general the target is not the lowest common ancestor: of the two revisions that the merged
      lines share, whichever becomes the target, the other is not an ancestor of it, although it is
      common too. */
  lemma TargetNeedNotBeLowest(h: Rev, p: Rev, q: Rev, a: Rev, b: Rev)
    requires AllDifferent(h, p, q, a, b)
    ensures var g := Crossed(h, p, q, a, b);
            && Closed(g) && Parents(g, h) == [p, q]
            && forall t | IsTarget(g, h, t) :: t.At? && !Lowest(g, Parents(g, h), t.rev)
  {
    var g := Crossed(h, p, q, a, b);
    assert SharesRoots(g, p, q, a, b);
    RootsCommon(g, p, q, a, b, a);
    forall r ensures !Lowest(g, [p, q], r) {
      RootsNotLowest(g, p, q, a, b, r);
    }
  }
}
