/** The lab agent: a table built once from a profile, answered request by request. */
module SnmpAgent {
  import opened Wrappers
  import opened SnmpOids
  import opened SnmpMib
  import opened SnmpRoundTrip

  datatype Kind = Get | GetNext | GetBulk | OtherPdu

  datatype VarBind = VarBind(oid: Oid, value: Value)

  /** An error carries the one-based position of the request it is about, zero for none. */
  datatype Reply = NoSuchName(index: nat) | Response(binds: seq<VarBind>)

  ghost predicate Sorts(sorted: seq<Oid>, mib: Mib) {
    Increasing(sorted) && forall k :: k in sorted <==> k in mib
  }

  predicate Answers(mib: Mib, oid: Oid, b: VarBind) {
    oid in mib && b == VarBind(oid, mib[oid])
  }

  /** The binding a walker gets back: the least greater entry, or the end marker at its own request. */
  predicate Successor(mib: Mib, oid: Oid, b: VarBind) {
    if exists k :: k in mib && Less(oid, k) then
      && b.oid in mib && Less(oid, b.oid) && b.value == mib[b.oid]
      && forall k | k in mib && Less(oid, k) :: k == b.oid || Less(b.oid, k)
    else b == VarBind(oid, EndOfMibView)
  }

  class LabSnmpAgent {
    const mib: Mib
    const sortedOids: seq<Oid>
    var served: nat

    ghost predicate Valid() {
      Sorts(sortedOids, mib)
    }

    constructor (profile: Profile)
      ensures Valid() && mib == Table(profile) && served == 0
    {
      var table := BuildMib(profile);
      mib := table;
      var sorted := SortOids(table.Keys);
      sortedOids := sorted;
      served := 0;
    }

    method NextOid(oid: Oid) returns (next: Option<Oid>)
      ensures next == Next(sortedOids, oid)
    {
      for i := 0 to |sortedOids|
        invariant forall j | 0 <= j < i :: !Less(oid, sortedOids[j])
      {
        if Less(oid, sortedOids[i]) {
          return Some(sortedOids[i]);
        }
      }
      next := None;
    }

    /** GETBULK is answered as GETNEXT. A GET fails as a whole at its first unknown identifier; only
        successful replies are counted. */
    method Handle(kind: Kind, requested: seq<Oid>) returns (reply: Reply)
      requires Valid()
      modifies this
      ensures kind == OtherPdu ==> reply == NoSuchName(0)
      ensures kind == Get ==>
                match reply
                case NoSuchName(n) =>
                  && 1 <= n <= |requested| && requested[n - 1] !in mib
                  && forall j | 0 <= j < n - 1 :: requested[j] in mib
                case Response(bs) =>
                  |bs| == |requested| && forall j | 0 <= j < |bs| :: Answers(mib, requested[j], bs[j])
      ensures kind == GetNext || kind == GetBulk ==>
                && reply.Response? && |reply.binds| == |requested|
                && forall j | 0 <= j < |requested| :: Successor(mib, requested[j], reply.binds[j])
      ensures served == old(served) + if reply.Response? then 1 else 0
    {
      if kind == OtherPdu {
        return NoSuchName(0);
      }
      var binds: seq<VarBind> := [];
      for index := 0 to |requested|
        invariant |binds| == index && served == old(served)
        invariant kind == Get ==> forall j | 0 <= j < index ::
                                    Answers(mib, requested[j], binds[j])
        invariant kind != Get ==> forall j | 0 <= j < index :: Successor(mib, requested[j], binds[j])
      {
        var key := requested[index];
        if kind == Get {
          if key !in mib {
            return NoSuchName(index + 1);
          }
          binds := binds + [VarBind(key, mib[key])];
        } else {
          var target := NextOid(key);
          NextIsSuccessor(sortedOids, key);
          var bind := match target case None => VarBind(key, EndOfMibView) case Some(t) => VarBind(t, mib[t]);
          assert Successor(mib, key, bind);
          binds := binds + [bind];
        }
      }
      served := served + 1;
      reply := Response(binds);
    }
  }

  /** The answer is unique: a walker following the replies follows the sorted table. */
  lemma SuccessorIsNext(mib: Mib, sorted: seq<Oid>, oid: Oid, b: VarBind)
    requires Sorts(sorted, mib)
    ensures Successor(mib, oid, b) <==>
              b == match Next(sorted, oid) case None => VarBind(oid, EndOfMibView) case Some(t) => VarBind(t, mib[t])
  {
    NextIsSuccessor(sorted, oid);
    match Next(sorted, oid) {
      case None =>
      case Some(t) =>
        if Successor(mib, oid, b) && b.oid != t {
          LessTransitive(t, b.oid, t);
          LessIrreflexive(t);
        }
    }
  }

  // ---- What a walk brings home ----

  /** The bindings collected by repeated GETNEXT requests from `oid`. */
  function Collected(mib: Mib, sorted: seq<Oid>, oid: Oid): Mib
    requires Sorts(sorted, mib)
  {
    map k | k in Walk(sorted, oid) && k in mib :: mib[k]
  }

  lemma KeysStartWithOne(p: Profile, k: Oid)
    requires Distinct(p) && k in Table(p)
    ensures Less([0], k)
  {
    KeysOfTable(p, k);
    var c, index :| k == Key(c, index) && Originates(p, Row(c, index, Table(p)[k]));
    KeyStart(c, index);
  }

  /** A collector that walks the agent from the root rebuilds the whole table, hence every interface,
      neighbour, address and route of the profile. */
  lemma WalkRecoversProfile(p: Profile, sorted: seq<Oid>)
    requires Distinct(p) && Sorts(sorted, Table(p))
    ensures Collected(Table(p), sorted, [0]) == Table(p)
    ensures Recovers(Parse(Collected(Table(p), sorted, [0])), p)
  {
    WalkVisitsTheRest(sorted, [0]);
    forall k | k in Table(p) ensures k in Walk(sorted, [0]) {
      KeysStartWithOne(p, k);
    }
    assert Collected(Table(p), sorted, [0]) == Table(p);
    ProfileRoundTrip(p);
  }
}
