/** A device profile as an OID table: every row keeps its own identifier, and the table gives the
    profile back. */
module SnmpMib {
  import opened Wrappers
  import opened SnmpOids

  // ---- Profile ----

  /** An address text together with the numbers its dotted parts stand for. */
  datatype Address = Address(text: string, octets: seq<nat>)

  datatype Interface = Interface(
    index: nat, descr: string, admin: int, oper: int, speed: int,
    inOctets: int, outOctets: int, inErrors: int, outErrors: int)

  datatype LldpNeighbour = LldpNeighbour(
    port: nat, sysName: string, portId: string, chassisId: string, address: Address, portDesc: string)

  datatype CdpNeighbour = CdpNeighbour(port: nat, deviceId: string, portId: string, platform: string, address: string)

  datatype IpAddress = IpAddress(ifIndex: int, address: Address, netmask: string)

  datatype Route = Route(destination: Address, netmask: Address, nextHop: Address, ifIndex: int, proto: int)

  datatype Profile = Profile(
    sysName: string, sysDescr: string, interfaces: seq<Interface>, lldp: seq<LldpNeighbour>,
    cdp: seq<CdpNeighbour>, exposeChassis: bool, addresses: seq<IpAddress>, routes: seq<Route>)

  datatype Value =
    | OctetString(text: string) | Integer(i: int) | Gauge32(g: int) | Counter64(c64: int) | Counter32(c32: int)
    | ObjectId(dotted: string) | Netmask(mask: string) | EndOfMibView

  const LAB_SYS_OBJECT_ID := "1.3.6.1.4.1.99999.9.1"
  const GAUGE32_MAX: int := 4_294_967_295

  // ---- Columns ----

  datatype Column =
    | SysDescr | SysName | SysObjectId | IfNumber
    | IfDescr | IfSpeed | IfAdmin | IfOper | IfInOctets | IfInErrors | IfOutOctets | IfOutErrors
    | LldpLocChassis
    | LldpChassisId | LldpPortId | LldpPortDesc | LldpSysName | LldpManAddr
    | CdpAddress | CdpDeviceId | CdpDevicePort | CdpPlatform
    | IpAddrIfIndex | IpAddrNetmask
    | RouteIfIndex | RouteProto

  const CDP_TABLE: Oid := [1, 3, 6, 1, 4, 1, 9, 9, 23, 1, 2, 1, 1]

  function Base(c: Column): Oid {
    match c
    case SysDescr => [1, 3, 6, 1, 2, 1, 1, 1, 0]
    case SysName => [1, 3, 6, 1, 2, 1, 1, 5, 0]
    case SysObjectId => [1, 3, 6, 1, 2, 1, 1, 2, 0]
    case IfNumber => [1, 3, 6, 1, 2, 1, 2, 1, 0]
    case IfDescr => [1, 3, 6, 1, 2, 1, 2, 2, 1, 2]
    case IfSpeed => [1, 3, 6, 1, 2, 1, 2, 2, 1, 5]
    case IfAdmin => [1, 3, 6, 1, 2, 1, 2, 2, 1, 7]
    case IfOper => [1, 3, 6, 1, 2, 1, 2, 2, 1, 8]
    case IfInOctets => [1, 3, 6, 1, 2, 1, 2, 2, 1, 10]
    case IfInErrors => [1, 3, 6, 1, 2, 1, 2, 2, 1, 14]
    case IfOutOctets => [1, 3, 6, 1, 2, 1, 2, 2, 1, 16]
    case IfOutErrors => [1, 3, 6, 1, 2, 1, 2, 2, 1, 20]
    case LldpLocChassis => [1, 0, 8802, 1, 1, 2, 1, 3, 2, 0]
    case LldpChassisId => [1, 0, 8802, 1, 1, 2, 1, 4, 1, 1, 5]
    case LldpPortId => [1, 0, 8802, 1, 1, 2, 1, 4, 1, 1, 7]
    case LldpPortDesc => [1, 0, 8802, 1, 1, 2, 1, 4, 1, 1, 8]
    case LldpSysName => [1, 0, 8802, 1, 1, 2, 1, 4, 1, 1, 9]
    case LldpManAddr => [1, 0, 8802, 1, 1, 2, 1, 4, 2, 1, 4]
    case CdpAddress => [1, 3, 6, 1, 4, 1, 9, 9, 23, 1, 2, 1, 1, 4]
    case CdpDeviceId => [1, 3, 6, 1, 4, 1, 9, 9, 23, 1, 2, 1, 1, 6]
    case CdpDevicePort => [1, 3, 6, 1, 4, 1, 9, 9, 23, 1, 2, 1, 1, 7]
    case CdpPlatform => [1, 3, 6, 1, 4, 1, 9, 9, 23, 1, 2, 1, 1, 8]
    case IpAddrIfIndex => [1, 3, 6, 1, 2, 1, 4, 20, 1, 2]
    case IpAddrNetmask => [1, 3, 6, 1, 2, 1, 4, 20, 1, 3]
    case RouteIfIndex => [1, 3, 6, 1, 2, 1, 4, 24, 4, 1, 5]
    case RouteProto => [1, 3, 6, 1, 2, 1, 4, 24, 4, 1, 7]
  }

  function Key(c: Column, index: Oid): Oid {
    Base(c) + index
  }

  /** The column an identifier belongs to, read off a few distinguishing components. */
  function ColumnOf(k: Oid): Option<Column> {
    if |k| < 9 then None
    else if k[1] == 0 then LldpColumn(k)
    else if k[4] == 4 then CdpColumn(k)
    else if k[6] == 1 then
      (if k[7] == 1 then Some(SysDescr) else if k[7] == 5 then Some(SysName) else Some(SysObjectId))
    else if k[6] == 2 then
      (if k[7] == 1 then Some(IfNumber) else IfColumn(k))
    else IpColumn(k)
  }

  function LldpColumn(k: Oid): Option<Column>
    requires |k| >= 9
  {
    if k[7] == 3 then Some(LldpLocChassis)
    else if k[8] == 2 then Some(LldpManAddr)
    else if |k| < 11 then None
    else if k[10] == 5 then Some(LldpChassisId)
    else if k[10] == 7 then Some(LldpPortId)
    else if k[10] == 8 then Some(LldpPortDesc)
    else Some(LldpSysName)
  }

  function CdpColumn(k: Oid): Option<Column> {
    if |k| < 14 then None
    else if k[13] == 4 then Some(CdpAddress)
    else if k[13] == 6 then Some(CdpDeviceId)
    else if k[13] == 7 then Some(CdpDevicePort)
    else Some(CdpPlatform)
  }

  function IfColumn(k: Oid): Option<Column> {
    if |k| < 10 then None
    else if k[9] == 2 then Some(IfDescr)
    else if k[9] == 5 then Some(IfSpeed)
    else if k[9] == 7 then Some(IfAdmin)
    else if k[9] == 8 then Some(IfOper)
    else if k[9] == 10 then Some(IfInOctets)
    else if k[9] == 14 then Some(IfInErrors)
    else if k[9] == 16 then Some(IfOutOctets)
    else Some(IfOutErrors)
  }

  function IpColumn(k: Oid): Option<Column>
    requires |k| >= 9
  {
    if |k| < 10 then None
    else if k[7] == 20 then (if k[9] == 2 then Some(IpAddrIfIndex) else Some(IpAddrNetmask))
    else if |k| < 11 then None
    else if k[10] == 5 then Some(RouteIfIndex)
    else Some(RouteProto)
  }

  lemma ColumnOfKey(c: Column, index: Oid)
    ensures ColumnOf(Key(c, index)) == Some(c)
  {
    var k := Key(c, index);
    var b := Base(c);
    assert forall i | 0 <= i < |b| :: k[i] == b[i];
  }

  lemma KeyStart(c: Column, index: Oid)
    ensures Key(c, index) != [] && Key(c, index)[0] == 1
  {
    assert Base(c) != [] && Base(c)[0] == 1;
  }

  /** No two rows of different columns, and no two indexes of one column, share an identifier. */
  lemma KeyInjective(c: Column, i: Oid, d: Column, j: Oid)
    requires Key(c, i) == Key(d, j)
    ensures c == d && i == j
  {
    ColumnOfKey(c, i);
    ColumnOfKey(d, j);
    assert Key(c, i)[|Base(c)|..] == i;
    assert Key(d, j)[|Base(d)|..] == j;
  }

  // ---- Rows ----

  datatype Row = Row(column: Column, index: Oid, value: Value)

  function Saturated(speed: int): int {
    if speed < GAUGE32_MAX then speed else GAUGE32_MAX
  }

  function SystemRows(p: Profile): seq<Row> {
    [Row(SysDescr, [], OctetString(p.sysDescr)), Row(SysName, [], OctetString(p.sysName)),
     Row(SysObjectId, [], ObjectId(LAB_SYS_OBJECT_ID)), Row(IfNumber, [], Integer(|p.interfaces|))]
  }

  function InterfaceRows(i: Interface): seq<Row> {
    var x := [i.index];
    [Row(IfDescr, x, OctetString(i.descr)), Row(IfSpeed, x, Gauge32(Saturated(i.speed))),
     Row(IfAdmin, x, Integer(i.admin)), Row(IfOper, x, Integer(i.oper)),
     Row(IfInOctets, x, Counter64(i.inOctets)), Row(IfOutOctets, x, Counter64(i.outOctets)),
     Row(IfInErrors, x, Counter32(i.inErrors)), Row(IfOutErrors, x, Counter32(i.outErrors))]
  }

  function ChassisRows(p: Profile): seq<Row> {
    if p.exposeChassis then [Row(LldpLocChassis, [], OctetString(p.sysName))] else []
  }

  /** An empty text gets no row. */
  function TextRow(c: Column, port: nat, text: string): seq<Row> {
    if text == "" then [] else [Row(c, [0, port, 1], OctetString(text))]
  }

  function LldpRows(n: LldpNeighbour): seq<Row> {
    TextRow(LldpSysName, n.port, n.sysName) + TextRow(LldpPortId, n.port, n.portId)
    + TextRow(LldpChassisId, n.port, n.chassisId) + TextRow(LldpPortDesc, n.port, n.portDesc)
    + if |n.address.octets| == 4 then
        [Row(LldpManAddr, [0, n.port, 1, 1, 4] + n.address.octets, OctetString(n.address.text))]
      else []
  }

  function CdpRows(n: CdpNeighbour): seq<Row> {
    var x := [n.port, 1];
    [Row(CdpAddress, x, OctetString(n.address)), Row(CdpDeviceId, x, OctetString(n.deviceId)),
     Row(CdpDevicePort, x, OctetString(n.portId)), Row(CdpPlatform, x, OctetString(n.platform))]
  }

  function AddressRows(a: IpAddress): seq<Row> {
    [Row(IpAddrIfIndex, a.address.octets, Integer(a.ifIndex)), Row(IpAddrNetmask, a.address.octets, Netmask(a.netmask))]
  }

  function RouteIndex(r: Route): Oid {
    r.destination.octets + r.netmask.octets + [0] + r.nextHop.octets
  }

  function RouteRows(r: Route): seq<Row> {
    [Row(RouteIfIndex, RouteIndex(r), Integer(r.ifIndex)), Row(RouteProto, RouteIndex(r), Integer(r.proto))]
  }

  function Each<A>(items: seq<A>, f: A -> seq<Row>): seq<Row> {
    if items == [] then [] else Each(items[..|items| - 1], f) + f(items[|items| - 1])
  }

  lemma {:induction false} InEach<A>(items: seq<A>, f: A -> seq<Row>, r: Row)
    ensures r in Each(items, f) <==> exists a :: a in items && r in f(a)
    decreases |items|
  {
    if items != [] {
      var n := |items| - 1;
      InEach(items[..n], f, r);
      assert items == items[..n] + [items[n]];
    }
  }

  function Rows(p: Profile): seq<Row> {
    SystemRows(p) + Each(p.interfaces, InterfaceRows) + ChassisRows(p) + Each(p.lldp, LldpRows)
    + Each(p.cdp, CdpRows) + Each(p.addresses, AddressRows) + Each(p.routes, RouteRows)
  }

  // ---- Building the table ----

  type Mib = map<Oid, Value>

  function Fold<S, E>(s: S, items: seq<E>, f: (S, E) -> S): S {
    if items == [] then s else f(Fold(s, items[..|items| - 1], f), items[|items| - 1])
  }

  lemma {:induction false} FoldAppend<S, E>(s: S, a: seq<E>, b: seq<E>, f: (S, E) -> S)
    ensures Fold(Fold(s, a, f), b, f) == Fold(s, a + b, f)
    decreases |b|
  {
    if b == [] {
      assert a + b == a;
    } else {
      FoldAppend(s, a, b[..|b| - 1], f);
      assert (a + b)[..|a + b| - 1] == a + b[..|b| - 1];
    }
  }

  function Put(m: Mib, r: Row): Mib {
    m[Key(r.column, r.index) := r.value]
  }

  /** Assign row after row; a later row overwrites. */
  function Assign(m: Mib, rows: seq<Row>): Mib {
    Fold(m, rows, Put)
  }

  lemma AssignAppend(m: Mib, a: seq<Row>, b: seq<Row>)
    ensures Assign(Assign(m, a), b) == Assign(m, a + b)
  {
    FoldAppend(m, a, b, Put);
  }

  method WriteRows(m: Mib, rows: seq<Row>) returns (r: Mib)
    ensures r == Assign(m, rows)
  {
    r := m;
    for i := 0 to |rows|
      invariant r == Assign(m, rows[..i])
    {
      assert rows[..i + 1][..i] == rows[..i];
      r := r[Key(rows[i].column, rows[i].index) := rows[i].value];
    }
    assert rows[..|rows|] == rows;
  }

  /** One loop over one list of the profile. */
  method WriteEach<A>(m: Mib, items: seq<A>, f: A -> seq<Row>) returns (r: Mib)
    ensures r == Assign(m, Each(items, f))
  {
    r := m;
    for i := 0 to |items|
      invariant r == Assign(m, Each(items[..i], f))
    {
      AssignAppend(m, Each(items[..i], f), f(items[i]));
      assert items[..i + 1][..i] == items[..i];
      r := WriteRows(r, f(items[i]));
    }
    assert items[..|items|] == items;
  }

  method BuildMib(p: Profile) returns (mib: Mib)
    ensures mib == Assign(map[], Rows(p))
  {
    ghost var done := SystemRows(p);
    mib := WriteRows(map[], SystemRows(p));
    mib := WriteEach(mib, p.interfaces, InterfaceRows);
    AssignAppend(map[], done, Each(p.interfaces, InterfaceRows));
    done := done + Each(p.interfaces, InterfaceRows);
    mib := WriteRows(mib, ChassisRows(p));
    AssignAppend(map[], done, ChassisRows(p));
    done := done + ChassisRows(p);
    mib := WriteEach(mib, p.lldp, LldpRows);
    AssignAppend(map[], done, Each(p.lldp, LldpRows));
    done := done + Each(p.lldp, LldpRows);
    mib := WriteEach(mib, p.cdp, CdpRows);
    AssignAppend(map[], done, Each(p.cdp, CdpRows));
    done := done + Each(p.cdp, CdpRows);
    mib := WriteEach(mib, p.addresses, AddressRows);
    AssignAppend(map[], done, Each(p.addresses, AddressRows));
    done := done + Each(p.addresses, AddressRows);
    mib := WriteEach(mib, p.routes, RouteRows);
    AssignAppend(map[], done, Each(p.routes, RouteRows));
  }

  // ---- No row overwrites another ----

  /** Interface indexes, the local ports of either neighbour protocol, addresses and route keys
      occur once; addresses have four octets where the index needs it. */
  predicate Distinct(p: Profile) {
    && (forall a, b | a in p.interfaces && b in p.interfaces && a.index == b.index :: a == b)
    && (forall a, b | a in p.lldp && b in p.lldp && a.port == b.port :: a == b)
    && (forall a, b | a in p.cdp && b in p.cdp && a.port == b.port :: a == b)
    && (forall a, b | a in p.addresses && b in p.addresses && a.address.octets == b.address.octets :: a == b)
    && (forall r | r in p.routes :: |r.destination.octets| == |r.netmask.octets| == |r.nextHop.octets| == 4)
    && (forall a, b | a in p.routes && b in p.routes && RouteIndex(a) == RouteIndex(b) :: a == b)
  }

  predicate Functional(rows: seq<Row>) {
    forall r, s | r in rows && s in rows && r.column == s.column && r.index == s.index :: r.value == s.value
  }

  /** In a table without conflicting rows every row can be read back, and nothing else is there. */
  lemma {:induction false} AssignHolds(rows: seq<Row>)
    requires Functional(rows)
    ensures forall r | r in rows :: Key(r.column, r.index) in Assign(map[], rows)
                                    && Assign(map[], rows)[Key(r.column, r.index)] == r.value
    ensures forall k | k in Assign(map[], rows) :: exists r :: r in rows && Key(r.column, r.index) == k
    decreases |rows|
  {
    if rows != [] {
      var n := |rows| - 1;
      var last := rows[n];
      assert rows == rows[..n] + [last];
      AssignHolds(rows[..n]);
      forall r | r in rows[..n] && Key(r.column, r.index) == Key(last.column, last.index)
        ensures r.value == last.value
      {
        KeyInjective(r.column, r.index, last.column, last.index);
      }
      forall k | k in Assign(map[], rows) ensures exists r :: r in rows && Key(r.column, r.index) == k {
        if k == Key(last.column, last.index) {
          assert last in rows;
        } else {
          assert k in Assign(map[], rows[..n]);
          var r :| r in rows[..n] && Key(r.column, r.index) == k;
          assert r in rows;
        }
      }
    }
  }
}
