/** The incident table, and the ranking that splits the open incidents of one tenant into
    duplicate groups and picks the copy each group keeps. */
module Incidents {
  import opened Wrappers

  /** A UUID; `nat` carries the order PostgreSQL gives it. */
  type Id = nat

  datatype Status =
    | Open | Acknowledged | Investigating | Monitoring
    | Archived
    | Other(name: string)  // resolved, closed, recovered: neither open nor archived
  {
    predicate IsOpen() {
      Open? || Acknowledged? || Investigating? || Monitoring?
    }
  }

  datatype Incident = Incident(
    tenant: Id,
    device: Option<Id>,
    site: Option<Id>,
    title: string,  // as normalized by the query: lower case, no "incident:" prefix, single spaces
    signature: Option<string>,
    deleted: bool,
    status: Status,
    lastAlertAt: int,
    alertCount: int,
    archivedAt: Option<int>,
    closureReason: Option<string>)

  type Table = map<Id, Incident>

  // ---- Groups ----

  /** The partition key of the ranking; a missing scope is `None` ('no-scope'). Device and site
      identifiers share one text space, so they share one type here. */
  datatype GroupKey = GroupKey(scope: Option<Id>, title: string)

  function Group(i: Incident): GroupKey {
    GroupKey(if i.device.Some? then i.device else i.site, i.title)
  }

  predicate IsCandidate(m: Table, t: Id, i: Id) {
    i in m && m[i].tenant == t && !m[i].deleted && m[i].status.IsOpen()
  }

  /** The rows of `open_i`. */
  function Candidates(m: Table, t: Id): set<Id> {
    set i | i in m && IsCandidate(m, t, i)
  }

  /** The window partition of `i`. */
  function Peers(m: Table, t: Id, i: Id): set<Id>
    requires i in m
  {
    set j | j in m && IsCandidate(m, t, j) && Group(m[j]) == Group(m[i])
  }

  /** ORDER BY last_alert_at DESC, alert_count DESC, id. */
  predicate RanksBefore(m: Table, i: Id, j: Id)
    requires i in m && j in m
  {
    || m[i].lastAlertAt > m[j].lastAlertAt
    || (m[i].lastAlertAt == m[j].lastAlertAt &&
        (|| m[i].alertCount > m[j].alertCount
         || (m[i].alertCount == m[j].alertCount && i < j)))
  }

  function Predecessors(m: Table, t: Id, i: Id): set<Id>
    requires i in m
  {
    set j | j in Peers(m, t, i) && RanksBefore(m, j, i)
  }

  /** row_number() OVER w. */
  function RowNumber(m: Table, t: Id, i: Id): nat
    requires i in m
  {
    1 + |Predecessors(m, t, i)|
  }

  predicate IsFirst(m: Table, ids: set<Id>, k: Id)
    requires ids <= m.Keys
  {
    k in ids && forall j | j in ids :: j == k || RanksBefore(m, k, j)
  }

  lemma FirstExists(m: Table, ids: set<Id>)
    requires ids <= m.Keys && ids != {}
    ensures exists k :: IsFirst(m, ids, k)
  {
    var x :| x in ids;
    var rest := ids - {x};
    assert forall j | j in ids :: j == x || j in rest;
    if rest == {} {
      assert IsFirst(m, ids, x);
    } else {
      FirstExists(m, rest);
      var k :| IsFirst(m, rest, k);
      assert IsFirst(m, ids, if RanksBefore(m, x, k) then x else k);
    }
  }

  /** first_value(id) OVER w: the incident the group keeps. */
  function KeeperOf(m: Table, t: Id, i: Id): (k: Id)
    requires IsCandidate(m, t, i)
    ensures IsFirst(m, Peers(m, t, i), k)
  {
    assert i in Peers(m, t, i);
    FirstExists(m, Peers(m, t, i));
    var k :| k in m && IsFirst(m, Peers(m, t, i), k);
    k
  }

  /** The rows with `rn > 1`: the incidents a run archives. */
  function Duplicates(m: Table, t: Id): set<Id> {
    set i | i in m && IsCandidate(m, t, i) && RowNumber(m, t, i) > 1
  }

  /** `rn = 1` marks exactly the incident that `first_value` names, and a group has one of them. */
  lemma RowNumberOneIsKeeper(m: Table, t: Id, i: Id)
    requires IsCandidate(m, t, i)
    ensures RowNumber(m, t, i) == 1 <==> KeeperOf(m, t, i) == i
  {
    var k := KeeperOf(m, t, i);
    if k == i {
      assert Predecessors(m, t, i) == {};
    } else {
      assert k in Predecessors(m, t, i);
    }
  }

  /** All members of a group agree on one keeper, which is a member and not itself a duplicate. */
  lemma OneKeeperPerGroup(m: Table, t: Id, i: Id, j: Id)
    requires IsCandidate(m, t, i) && IsCandidate(m, t, j)
    ensures KeeperOf(m, t, i) == KeeperOf(m, t, j) <==> Group(m[i]) == Group(m[j])
    ensures IsCandidate(m, t, KeeperOf(m, t, i)) && KeeperOf(m, t, i) !in Duplicates(m, t)
    ensures i in Duplicates(m, t) <==> i != KeeperOf(m, t, i)
  {
    var k, l := KeeperOf(m, t, i), KeeperOf(m, t, j);
    if Group(m[i]) == Group(m[j]) {
      assert Peers(m, t, i) == Peers(m, t, j);
    }
    assert Peers(m, t, k) == Peers(m, t, i);
    RowNumberOneIsKeeper(m, t, k);
    RowNumberOneIsKeeper(m, t, i);
  }

  /** Removing duplicates from the open set (by archiving them) moves no other group's keeper. */
  lemma KeeperSurvives(m: Table, m': Table, t: Id, i: Id)
    requires IsCandidate(m, t, i) && IsCandidate(m', t, i)
    requires m.Keys == m'.Keys
    requires forall j | j in m :: m'[j] == m[j] || (j in Duplicates(m, t) && !m'[j].status.IsOpen())
    ensures KeeperOf(m', t, i) == KeeperOf(m, t, i)
  {
    var k := KeeperOf(m, t, i);
    OneKeeperPerGroup(m, t, i, i);
    assert m'[i] == m[i] && m'[k] == m[k];
    assert Peers(m', t, i) <= Peers(m, t, i);
    assert k in Peers(m', t, i);
    assert IsFirst(m', Peers(m', t, i), k);
  }

  // ---- The ranking in terms of the columns ----

  /** Of the incidents with one device, site and title that are open in the tenant, the one kept is the
      one that alerted last; among those the one with most alerts; among those the first id. */
  lemma KeeperIsLatest(m: Table, t: Id, i: Id, j: Id)
    requires i in m && m[i].tenant == t && !m[i].deleted
    requires j in m && m[j].tenant == t && !m[j].deleted
    requires m[i].status in {Open, Acknowledged, Investigating, Monitoring}
    requires m[j].status in {Open, Acknowledged, Investigating, Monitoring}
    requires m[i].device == m[j].device && m[i].site == m[j].site && m[i].title == m[j].title
    ensures IsCandidate(m, t, i)
    ensures var k := KeeperOf(m, t, i);
            && k in m && m[j].lastAlertAt <= m[k].lastAlertAt
            && (m[j].lastAlertAt == m[k].lastAlertAt ==> m[j].alertCount <= m[k].alertCount)
            && (m[j].lastAlertAt == m[k].lastAlertAt && m[j].alertCount == m[k].alertCount ==> k <= j)
  {
    assert j in Peers(m, t, i);
  }

  /** Open in the tenant, column by column. */
  predicate IsOpenIn(m: Table, t: Id, i: Id) {
    i in m && m[i].tenant == t && !m[i].deleted && m[i].status in {Open, Acknowledged, Investigating, Monitoring}
  }

  /** The scope is the device, or the site of an incident without device; two without both agree. */
  predicate SameScopeAndTitle(a: Incident, b: Incident) {
    a.title == b.title &&
    match (a.device, b.device)
    case (Some(x), Some(y)) => x == y
    case (Some(x), None) => b.site == Some(x)
    case (None, Some(y)) => a.site == Some(y)
    case (None, None) => a.site == b.site
  }

  lemma CandidateIff(m: Table, t: Id, i: Id)
    ensures IsCandidate(m, t, i) <==> IsOpenIn(m, t, i)
  {
  }

  lemma GroupIff(a: Incident, b: Incident)
    ensures Group(a) == Group(b) <==> SameScopeAndTitle(a, b)
  {
  }

  /** What a run archives, without ranks or partitions: the open incidents that another open one with
      the same scope and title precedes by date, then alert count, then id. */
  lemma DuplicateIff(m: Table, t: Id, i: Id)
    ensures i in Duplicates(m, t) <==>
              IsOpenIn(m, t, i) && exists j | j in m ::
                && IsOpenIn(m, t, j) && SameScopeAndTitle(m[j], m[i])
                && (|| m[i].lastAlertAt < m[j].lastAlertAt
                    || (m[i].lastAlertAt == m[j].lastAlertAt && m[i].alertCount < m[j].alertCount)
                    || (m[i].lastAlertAt == m[j].lastAlertAt && m[i].alertCount == m[j].alertCount && j < i))
  {
    CandidateIff(m, t, i);
    forall j | j in m && i in m
      ensures j in Peers(m, t, i) <==> IsOpenIn(m, t, j) && SameScopeAndTitle(m[j], m[i])
    {
      CandidateIff(m, t, j);
      GroupIff(m[j], m[i]);
    }
    if IsCandidate(m, t, i) {
      RowNumberOneIsKeeper(m, t, i);
      if Predecessors(m, t, i) == {} {
        assert RowNumber(m, t, i) == 1;
      } else {
        var j :| j in Predecessors(m, t, i);
        assert |Predecessors(m, t, i)| >= 1;
      }
    }
  }

  /** The keeper of a group shares its scope and title and precedes all of it. */
  lemma KeeperFields(m: Table, t: Id, i: Id)
    requires IsOpenIn(m, t, i)
    ensures IsCandidate(m, t, i)
    ensures var k := KeeperOf(m, t, i);
            && IsOpenIn(m, t, k) && SameScopeAndTitle(m[k], m[i])
            && forall j | j in m && IsOpenIn(m, t, j) && SameScopeAndTitle(m[j], m[i]) ::
                 || j == k || m[j].lastAlertAt < m[k].lastAlertAt
                 || (m[j].lastAlertAt == m[k].lastAlertAt && m[j].alertCount < m[k].alertCount)
                 || (m[j].lastAlertAt == m[k].lastAlertAt && m[j].alertCount == m[k].alertCount && k < j)
  {
    var k := KeeperOf(m, t, i);
    CandidateIff(m, t, k);
    GroupIff(m[k], m[i]);
    forall j | j in m && IsOpenIn(m, t, j) && SameScopeAndTitle(m[j], m[i]) ensures j in Peers(m, t, i) {
      CandidateIff(m, t, j);
      GroupIff(m[j], m[i]);
    }
  }
}
