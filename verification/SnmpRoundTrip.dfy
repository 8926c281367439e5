/** Decoding the OID table of a profile recovers the profile. */
module SnmpRoundTrip {
  import opened Wrappers
  import opened SnmpOids
  import opened SnmpMib

  function Table(p: Profile): Mib {
    Assign(map[], Rows(p))
  }

  // ---- Which part of the profile a row comes from ----

  datatype Part = System | Interfaces | Chassis | Lldp | Cdp | Addresses | Routes

  function PartOf(c: Column): Part {
    match c
    case SysDescr => System
    case SysName => System
    case SysObjectId => System
    case IfNumber => System
    case LldpLocChassis => Chassis
    case LldpChassisId => Lldp
    case LldpPortId => Lldp
    case LldpPortDesc => Lldp
    case LldpSysName => Lldp
    case LldpManAddr => Lldp
    case CdpAddress => Cdp
    case CdpDeviceId => Cdp
    case CdpDevicePort => Cdp
    case CdpPlatform => Cdp
    case IpAddrIfIndex => Addresses
    case IpAddrNetmask => Addresses
    case RouteIfIndex => Routes
    case RouteProto => Routes
    case _ => Interfaces
  }

  predicate Originates(p: Profile, r: Row) {
    match PartOf(r.column)
    case System => r in SystemRows(p)
    case Interfaces => exists i :: i in p.interfaces && r in InterfaceRows(i)
    case Chassis => r in ChassisRows(p)
    case Lldp => exists n :: n in p.lldp && r in LldpRows(n)
    case Cdp => exists n :: n in p.cdp && r in CdpRows(n)
    case Addresses => exists a :: a in p.addresses && r in AddressRows(a)
    case Routes => exists t :: t in p.routes && r in RouteRows(t)
  }

  predicate IsText(r: Row, c: Column, port: nat, text: string) {
    r.column == c && text != "" && r.index == [0, port, 1] && r.value == OctetString(text)
  }

  lemma LldpRowsShape(n: LldpNeighbour, r: Row)
    ensures r in LldpRows(n) <==>
              || IsText(r, LldpSysName, n.port, n.sysName) || IsText(r, LldpPortId, n.port, n.portId)
              || IsText(r, LldpChassisId, n.port, n.chassisId) || IsText(r, LldpPortDesc, n.port, n.portDesc)
              || (r.column == LldpManAddr && |n.address.octets| == 4
                  && r.index == [0, n.port, 1, 1, 4] + n.address.octets && r.value == OctetString(n.address.text))
  {
  }

  lemma PartsOfRows(p: Profile, r: Row)
    ensures r in SystemRows(p) ==> PartOf(r.column) == System
    ensures r in ChassisRows(p) ==> PartOf(r.column) == Chassis
    ensures forall i :: r in InterfaceRows(i) ==> PartOf(r.column) == Interfaces
    ensures forall n :: r in CdpRows(n) ==> PartOf(r.column) == Cdp
    ensures forall a :: r in AddressRows(a) ==> PartOf(r.column) == Addresses
    ensures forall t :: r in RouteRows(t) ==> PartOf(r.column) == Routes
  {
  }

  lemma LldpPart(r: Row)
    ensures forall n :: r in LldpRows(n) ==> PartOf(r.column) == Lldp
  {
    forall n ensures r in LldpRows(n) ==> PartOf(r.column) == Lldp {
      LldpRowsShape(n, r);
    }
  }

  lemma InRows(p: Profile, r: Row)
    ensures r in Rows(p) <==>
              || r in SystemRows(p) || r in Each(p.interfaces, InterfaceRows) || r in ChassisRows(p)
              || r in Each(p.lldp, LldpRows) || r in Each(p.cdp, CdpRows) || r in Each(p.addresses, AddressRows)
              || r in Each(p.routes, RouteRows)
  {
    InSum(SystemRows(p), Each(p.interfaces, InterfaceRows), ChassisRows(p), Each(p.lldp, LldpRows),
          Each(p.cdp, CdpRows), Each(p.addresses, AddressRows), Each(p.routes, RouteRows), r);
  }

  lemma InSum(a: seq<Row>, b: seq<Row>, c: seq<Row>, d: seq<Row>, e: seq<Row>, f: seq<Row>, g: seq<Row>, r: Row)
    ensures r in a + b + c + d + e + f + g <==>
              r in a || r in b || r in c || r in d || r in e || r in f || r in g
  {
  }

  lemma RowOrigin(p: Profile, r: Row)
    ensures r in Rows(p) <==> Originates(p, r)
  {
    InRows(p, r);
    PartsOfRows(p, r);
    LldpPart(r);
    InEach(p.interfaces, InterfaceRows, r);
    InEach(p.lldp, LldpRows, r);
    InEach(p.cdp, CdpRows, r);
    InEach(p.addresses, AddressRows, r);
    InEach(p.routes, RouteRows, r);
  }

  // ---- No row overwrites another ----

  lemma InterfaceFunctional(i: Interface, r: Row, s: Row)
    requires r in InterfaceRows(i) && s in InterfaceRows(i) && r.column == s.column
    ensures r.value == s.value
  {
  }

  lemma LldpFunctional(n: LldpNeighbour, r: Row, s: Row)
    requires r in LldpRows(n) && s in LldpRows(n) && r.column == s.column
    ensures r.value == s.value
  {
    LldpRowsShape(n, r);
    LldpRowsShape(n, s);
  }

  lemma SameInterface(i: Interface, j: Interface, r: Row, s: Row)
    requires r in InterfaceRows(i) && s in InterfaceRows(j) && r.index == s.index
    ensures i.index == j.index
  {
    assert r.index[0] == i.index && s.index[0] == j.index;
  }

  lemma SameLldp(m: LldpNeighbour, n: LldpNeighbour, r: Row, s: Row)
    requires r in LldpRows(m) && s in LldpRows(n) && r.index == s.index
    ensures m.port == n.port
  {
    LldpRowsShape(m, r);
    LldpRowsShape(n, s);
    assert r.index[1] == m.port && s.index[1] == n.port;
  }

  lemma SameCdp(m: CdpNeighbour, n: CdpNeighbour, r: Row, s: Row)
    requires r in CdpRows(m) && s in CdpRows(n) && r.index == s.index && r.column == s.column
    ensures m.port == n.port && (m == n ==> r.value == s.value)
  {
    assert r.index[0] == m.port && s.index[0] == n.port;
  }

  lemma SameAddress(a: IpAddress, b: IpAddress, r: Row, s: Row)
    requires r in AddressRows(a) && s in AddressRows(b) && r.index == s.index && r.column == s.column
    ensures a.address.octets == b.address.octets && (a == b ==> r.value == s.value)
  {
  }

  lemma SameRoute(a: Route, b: Route, r: Row, s: Row)
    requires r in RouteRows(a) && s in RouteRows(b) && r.index == s.index && r.column == s.column
    ensures RouteIndex(a) == RouteIndex(b) && (a == b ==> r.value == s.value)
  {
  }

  lemma InterfaceOrigin(p: Profile, r: Row) returns (i: Interface)
    requires Originates(p, r) && PartOf(r.column) == Interfaces
    ensures i in p.interfaces && r in InterfaceRows(i)
  {
    i :| i in p.interfaces && r in InterfaceRows(i);
  }

  lemma LldpOrigin(p: Profile, r: Row) returns (n: LldpNeighbour)
    requires Originates(p, r) && PartOf(r.column) == Lldp
    ensures n in p.lldp && r in LldpRows(n)
  {
    n :| n in p.lldp && r in LldpRows(n);
  }

  lemma CdpOrigin(p: Profile, r: Row) returns (n: CdpNeighbour)
    requires Originates(p, r) && PartOf(r.column) == Cdp
    ensures n in p.cdp && r in CdpRows(n)
  {
    n :| n in p.cdp && r in CdpRows(n);
  }

  lemma AddressOrigin(p: Profile, r: Row) returns (a: IpAddress)
    requires Originates(p, r) && PartOf(r.column) == Addresses
    ensures a in p.addresses && r in AddressRows(a)
  {
    a :| a in p.addresses && r in AddressRows(a);
  }

  lemma RouteOrigin(p: Profile, r: Row) returns (t: Route)
    requires Originates(p, r) && PartOf(r.column) == Routes
    ensures t in p.routes && r in RouteRows(t)
  {
    t :| t in p.routes && r in RouteRows(t);
  }

  lemma SingleRows(p: Profile, r: Row, s: Row)
    requires Originates(p, r) && Originates(p, s) && r.column == s.column
    requires PartOf(r.column) == System || PartOf(r.column) == Chassis
    ensures r.value == s.value
  {
  }

  /** The same identifier means the same item of the profile. */
  lemma SameItem(p: Profile, r: Row, s: Row)
    requires Distinct(p) && Originates(p, r) && Originates(p, s) && r.column == s.column && r.index == s.index
    ensures r.value == s.value
  {
    match PartOf(r.column) {
      case System => SingleRows(p, r, s);
      case Chassis => SingleRows(p, r, s);
      case Interfaces =>
        var i := InterfaceOrigin(p, r);
        var j := InterfaceOrigin(p, s);
        SameInterface(i, j, r, s);
        InterfaceFunctional(i, r, s);
      case Lldp =>
        var m := LldpOrigin(p, r);
        var n := LldpOrigin(p, s);
        SameLldp(m, n, r, s);
        LldpFunctional(m, r, s);
      case Cdp =>
        var m := CdpOrigin(p, r);
        var n := CdpOrigin(p, s);
        SameCdp(m, n, r, s);
      case Addresses =>
        var a := AddressOrigin(p, r);
        var b := AddressOrigin(p, s);
        SameAddress(a, b, r, s);
      case Routes =>
        var a := RouteOrigin(p, r);
        var b := RouteOrigin(p, s);
        SameRoute(a, b, r, s);
    }
  }

  lemma NoCollisions(p: Profile)
    requires Distinct(p)
    ensures Functional(Rows(p))
  {
    forall r, s | r in Rows(p) && s in Rows(p) && r.column == s.column && r.index == s.index
      ensures r.value == s.value
    {
      RowOrigin(p, r);
      RowOrigin(p, s);
      SameItem(p, r, s);
    }
  }

  /** The table holds exactly the rows of the profile. */
  lemma TableHolds(p: Profile, c: Column, index: Oid, v: Value)
    requires Distinct(p)
    ensures Key(c, index) in Table(p) && Table(p)[Key(c, index)] == v <==> Originates(p, Row(c, index, v))
  {
    NoCollisions(p);
    AssignHolds(Rows(p));
    RowOrigin(p, Row(c, index, v));
    if Key(c, index) in Table(p) {
      var r :| r in Rows(p) && Key(r.column, r.index) == Key(c, index);
      KeyInjective(r.column, r.index, c, index);
      assert r == Row(c, index, r.value);
    }
  }

  lemma KeysOfTable(p: Profile, k: Oid)
    requires Distinct(p) && k in Table(p)
    ensures exists c, index :: k == Key(c, index) && Originates(p, Row(c, index, Table(p)[k]))
  {
    NoCollisions(p);
    AssignHolds(Rows(p));
    var r :| r in Rows(p) && Key(r.column, r.index) == k;
    RowOrigin(p, r);
    assert Row(r.column, r.index, Table(p)[k]) == r;
  }

  lemma CdpServed(p: Profile, n: CdpNeighbour) returns (k: Oid)
    requires Distinct(p) && n in p.cdp
    ensures k in Table(p) && CDP_TABLE <= k
  {
    var r := CdpRows(n)[0];
    assert r == Row(CdpAddress, [n.port, 1], OctetString(n.address));
    TableHolds(p, CdpAddress, [n.port, 1], OctetString(n.address));
    assert CDP_TABLE <= Key(CdpAddress, [n.port, 1]);
    k := Key(CdpAddress, [n.port, 1]);
  }

  /** CDP identifiers exist exactly when the profile declares CDP neighbours. */
  lemma CdpOnlyIfDeclared(p: Profile)
    requires Distinct(p)
    ensures (exists k :: k in Table(p) && CDP_TABLE <= k) <==> p.cdp != []
  {
    if p.cdp != [] {
      var k := CdpServed(p, p.cdp[0]);
    }
    forall k | k in Table(p) && CDP_TABLE <= k ensures p.cdp != [] {
      KeysOfTable(p, k);
      var c, index :| k == Key(c, index) && Originates(p, Row(c, index, Table(p)[k]));
      UnderCdp(c, index);
    }
  }

  lemma UnderCdp(c: Column, index: Oid)
    requires CDP_TABLE <= Key(c, index)
    ensures PartOf(c) == Cdp
  {
    var k := Key(c, index);
    assert k[4] == CDP_TABLE[4] && k[1] == CDP_TABLE[1];
    ColumnOfKey(c, index);
  }

  // ---- Decoding ----

  datatype Cell = Cell(column: Column, index: Oid)

  type Cells = map<Cell, Value>

  function CellOf(k: Oid): Option<Cell> {
    match ColumnOf(k)
    case None => None
    case Some(c) => if Base(c) <= k then Some(Cell(c, k[|Base(c)|..])) else None
  }

  function CellSet(m: Mib): set<Cell> {
    set k | k in m && CellOf(k).Some? :: CellOf(k).value
  }

  /** What a collector sees: the table by column and row index. */
  function Parse(m: Mib): Cells {
    map x | x in CellSet(m) && Key(x.column, x.index) in m :: m[Key(x.column, x.index)]
  }

  function Text(t: Cells, c: Column, x: Oid): string {
    if Cell(c, x) in t && t[Cell(c, x)].OctetString? then t[Cell(c, x)].text else ""
  }

  function Num(t: Cells, c: Column, x: Oid): int {
    if Cell(c, x) !in t then 0
    else match t[Cell(c, x)]
      case Integer(i) => i
      case Gauge32(g) => g
      case Counter64(n) => n
      case Counter32(n) => n
      case _ => 0
  }

  function Mask(t: Cells, x: Oid): string {
    if Cell(IpAddrNetmask, x) in t && t[Cell(IpAddrNetmask, x)].Netmask? then t[Cell(IpAddrNetmask, x)].mask else ""
  }

  /** The row indexes present in a column. */
  function Indexes(t: Cells, c: Column): set<Oid> {
    set x | x in t && x.column == c :: x.index
  }

  function InterfaceAt(t: Cells, x: nat): Interface {
    Interface(x, Text(t, IfDescr, [x]), Num(t, IfAdmin, [x]), Num(t, IfOper, [x]), Num(t, IfSpeed, [x]),
              Num(t, IfInOctets, [x]), Num(t, IfOutOctets, [x]), Num(t, IfInErrors, [x]), Num(t, IfOutErrors, [x]))
  }

  function DecodeInterfaces(t: Cells): set<Interface> {
    set x | x in Indexes(t, IfDescr) && |x| == 1 :: InterfaceAt(t, x[0])
  }

  /** What the LLDP tables say of the neighbour on a port. */
  datatype LldpView = LldpView(
    port: nat, sysName: string, portId: string, chassisId: string, portDesc: string, addresses: set<Address>)

  /** Every row of the LLDP tables names its local port as the second part of its index. */
  function LldpPorts(t: Cells): set<nat> {
    set x | x in t && PartOf(x.column) == Lldp && |x.index| >= 2 :: x.index[1]
  }

  function AddressesAt(t: Cells, port: nat): set<Address> {
    set x | x in Indexes(t, LldpManAddr) && |x| == 9 && x[1] == port :: Address(Text(t, LldpManAddr, x), x[5..])
  }

  function LldpAt(t: Cells, port: nat): LldpView {
    var row := [0, port, 1];
    LldpView(port, Text(t, LldpSysName, row), Text(t, LldpPortId, row), Text(t, LldpChassisId, row),
             Text(t, LldpPortDesc, row), AddressesAt(t, port))
  }

  function DecodeLldp(t: Cells): set<LldpView> {
    set port | port in LldpPorts(t) :: LldpAt(t, port)
  }

  function CdpAt(t: Cells, port: nat): CdpNeighbour {
    var x := [port, 1];
    CdpNeighbour(port, Text(t, CdpDeviceId, x), Text(t, CdpDevicePort, x), Text(t, CdpPlatform, x),
                 Text(t, CdpAddress, x))
  }

  function DecodeCdp(t: Cells): set<CdpNeighbour> {
    set x | x in Indexes(t, CdpAddress) && |x| == 2 :: CdpAt(t, x[0])
  }

  /** The ipAddrTable carries the numbers of an address, not its text. */
  datatype AddressView = AddressView(octets: Oid, ifIndex: int, netmask: string)

  function AddressAt(t: Cells, x: Oid): AddressView {
    AddressView(x, Num(t, IpAddrIfIndex, x), Mask(t, x))
  }

  function DecodeAddresses(t: Cells): set<AddressView> {
    set x | x in Indexes(t, IpAddrIfIndex) :: AddressAt(t, x)
  }

  datatype RouteView = RouteView(destination: Oid, netmask: Oid, nextHop: Oid, ifIndex: int, proto: int)

  function RouteAt(t: Cells, x: Oid): RouteView
    requires |x| == 13
  {
    RouteView(x[..4], x[4..8], x[9..], Num(t, RouteIfIndex, x), Num(t, RouteProto, x))
  }

  function DecodeRoutes(t: Cells): set<RouteView> {
    set x | x in Indexes(t, RouteIfIndex) && |x| == 13 :: RouteAt(t, x)
  }

  // ---- Round trips ----

  lemma CellOfKey(c: Column, index: Oid)
    ensures CellOf(Key(c, index)) == Some(Cell(c, index))
  {
    ColumnOfKey(c, index);
    assert Key(c, index)[|Base(c)|..] == index;
  }

  predicate Holds(t: Cells, r: Row) {
    Cell(r.column, r.index) in t && t[Cell(r.column, r.index)] == r.value
  }

  /** The parsed table holds exactly the rows of the profile. */
  lemma ParsedHolds(p: Profile, r: Row)
    requires Distinct(p)
    ensures Holds(Parse(Table(p)), r) <==> Originates(p, r)
  {
    var k := Key(r.column, r.index);
    TableHolds(p, r.column, r.index, r.value);
    assert r == Row(r.column, r.index, r.value);
    CellOfKey(r.column, r.index);
    if k in Table(p) {
      assert Cell(r.column, r.index) in CellSet(Table(p));
    }
  }

  /** A parsed table that holds the rows of a profile and no other. */
  ghost predicate Exact(t: Cells, p: Profile) {
    forall r :: Holds(t, r) <==> Originates(p, r)
  }

  lemma ParsedExact(p: Profile)
    requires Distinct(p)
    ensures Exact(Parse(Table(p)), p)
  {
    forall r ensures Holds(Parse(Table(p)), r) <==> Originates(p, r) {
      ParsedHolds(p, r);
    }
  }

  /** Every row of a column that can be parsed comes from the profile. */
  lemma RowAt(t: Cells, p: Profile, c: Column, x: Oid) returns (r: Row)
    requires Exact(t, p) && x in Indexes(t, c)
    ensures r.column == c && r.index == x && Originates(p, r)
  {
    r := Row(c, x, t[Cell(c, x)]);
    assert Originates(p, r);
  }

  lemma InterfaceHolds(t: Cells, p: Profile, i: Interface, r: Row)
    requires Exact(t, p) && i in p.interfaces && r in InterfaceRows(i)
    ensures Holds(t, r)
  {
    PartsOfRows(p, r);
    assert Originates(p, r);
  }

  lemma InterfaceReadBack(t: Cells, i: Interface)
    requires forall r | r in InterfaceRows(i) :: Holds(t, r)
    ensures InterfaceAt(t, i.index) == i.(speed := Saturated(i.speed)) && [i.index] in Indexes(t, IfDescr)
  {
    var rs := InterfaceRows(i);
    assert Holds(t, rs[0]) && Holds(t, rs[1]) && Holds(t, rs[2]) && Holds(t, rs[3]);
    assert Holds(t, rs[4]) && Holds(t, rs[5]) && Holds(t, rs[6]) && Holds(t, rs[7]);
  }

  lemma InterfaceBack(t: Cells, p: Profile, i: Interface)
    requires Exact(t, p) && i in p.interfaces
    ensures InterfaceAt(t, i.index) == i.(speed := Saturated(i.speed))
    ensures [i.index] in Indexes(t, IfDescr)
  {
    forall r | r in InterfaceRows(i) ensures Holds(t, r) {
      InterfaceHolds(t, p, i, r);
    }
    InterfaceReadBack(t, i);
  }

  lemma InterfaceOf(t: Cells, p: Profile, x: Oid) returns (i: Interface)
    requires Exact(t, p) && x in Indexes(t, IfDescr)
    ensures i in p.interfaces && x == [i.index]
  {
    var r := RowAt(t, p, IfDescr, x);
    i := InterfaceOrigin(p, r);
  }

  /** Every interface comes back, its speed saturated at the 32-bit gauge, and no other. */
  lemma InterfacesDecode(t: Cells, p: Profile)
    requires Exact(t, p)
    ensures DecodeInterfaces(t) == set i | i in p.interfaces :: i.(speed := Saturated(i.speed))
  {
    forall i | i in p.interfaces ensures i.(speed := Saturated(i.speed)) in DecodeInterfaces(t) {
      InterfaceBack(t, p, i);
      assert [i.index][0] == i.index;
    }
    forall d | d in DecodeInterfaces(t) ensures exists i :: i in p.interfaces && d == i.(speed := Saturated(i.speed)) {
      var x :| x in Indexes(t, IfDescr) && |x| == 1 && d == InterfaceAt(t, x[0]);
      var i := InterfaceOf(t, p, x);
      InterfaceBack(t, p, i);
    }
  }

  lemma CdpHolds(t: Cells, p: Profile, n: CdpNeighbour, r: Row)
    requires Exact(t, p) && n in p.cdp && r in CdpRows(n)
    ensures Holds(t, r)
  {
    PartsOfRows(p, r);
    assert Originates(p, r);
  }

  lemma CdpReadBack(t: Cells, n: CdpNeighbour)
    requires forall r | r in CdpRows(n) :: Holds(t, r)
    ensures CdpAt(t, n.port) == n && [n.port, 1] in Indexes(t, CdpAddress)
  {
    var rs := CdpRows(n);
    assert Holds(t, rs[0]) && Holds(t, rs[1]) && Holds(t, rs[2]) && Holds(t, rs[3]);
  }

  lemma CdpBack(t: Cells, p: Profile, n: CdpNeighbour)
    requires Exact(t, p) && n in p.cdp
    ensures CdpAt(t, n.port) == n && [n.port, 1] in Indexes(t, CdpAddress)
  {
    forall r | r in CdpRows(n) ensures Holds(t, r) {
      CdpHolds(t, p, n, r);
    }
    CdpReadBack(t, n);
  }

  lemma CdpOf(t: Cells, p: Profile, x: Oid) returns (n: CdpNeighbour)
    requires Exact(t, p) && x in Indexes(t, CdpAddress)
    ensures n in p.cdp && x == [n.port, 1]
  {
    var r := RowAt(t, p, CdpAddress, x);
    n := CdpOrigin(p, r);
  }

  /** Exactly the CDP neighbours come back. */
  lemma CdpDecode(t: Cells, p: Profile)
    requires Exact(t, p)
    ensures DecodeCdp(t) == set n | n in p.cdp
  {
    forall n | n in p.cdp ensures n in DecodeCdp(t) {
      CdpBack(t, p, n);
      assert [n.port, 1][0] == n.port;
    }
    forall d | d in DecodeCdp(t) ensures d in p.cdp {
      var x :| x in Indexes(t, CdpAddress) && |x| == 2 && d == CdpAt(t, x[0]);
      var n := CdpOf(t, p, x);
      CdpBack(t, p, n);
    }
  }

  function ManAddrIndex(n: LldpNeighbour): Oid {
    [0, n.port, 1, 1, 4] + n.address.octets
  }

  lemma LldpHolds(t: Cells, p: Profile, n: LldpNeighbour, r: Row)
    requires Exact(t, p) && n in p.lldp && r in LldpRows(n)
    ensures Holds(t, r)
  {
    LldpPart(r);
    assert Originates(p, r);
  }

  lemma LldpOf(t: Cells, p: Profile, c: Column, x: Oid) returns (n: LldpNeighbour, r: Row)
    requires Exact(t, p) && PartOf(c) == Lldp && x in Indexes(t, c)
    ensures n in p.lldp && r in LldpRows(n) && r.column == c && r.index == x && Holds(t, r)
  {
    r := RowAt(t, p, c, x);
    n := LldpOrigin(p, r);
    assert Originates(p, r);
  }

  function LldpText(n: LldpNeighbour, c: Column): string {
    match c
    case LldpSysName => n.sysName
    case LldpPortId => n.portId
    case LldpChassisId => n.chassisId
    case _ => n.portDesc
  }

  predicate LldpTextColumn(c: Column) {
    c == LldpSysName || c == LldpPortId || c == LldpChassisId || c == LldpPortDesc
  }

  lemma LldpTextRow(n: LldpNeighbour, r: Row)
    requires LldpTextColumn(r.column)
    ensures r in LldpRows(n) <==>
              LldpText(n, r.column) != "" && r.index == [0, n.port, 1] && r.value == OctetString(LldpText(n, r.column))
  {
    LldpRowsShape(n, r);
  }

  lemma OnePortOneNeighbour(p: Profile, m: LldpNeighbour, n: LldpNeighbour)
    requires Distinct(p) && m in p.lldp && n in p.lldp && [0, m.port, 1] == [0, n.port, 1]
    ensures m == n
  {
    assert [0, m.port, 1][1] == m.port && [0, n.port, 1][1] == n.port;
  }

  lemma LldpTextPresent(t: Cells, p: Profile, n: LldpNeighbour, c: Column, x: Oid)
    requires Distinct(p) && Exact(t, p) && n in p.lldp && LldpTextColumn(c) && x == [0, n.port, 1] && x in Indexes(t, c)
    ensures Holds(t, Row(c, x, OctetString(LldpText(n, c))))
  {
    var m, r := LldpOf(t, p, c, x);
    LldpTextRow(m, r);
    OnePortOneNeighbour(p, m, n);
  }

  lemma LldpTextServed(t: Cells, p: Profile, n: LldpNeighbour, c: Column, x: Oid)
    requires Exact(t, p) && n in p.lldp && LldpTextColumn(c) && x == [0, n.port, 1] && LldpText(n, c) != ""
    ensures x in Indexes(t, c)
  {
    var r := Row(c, x, OctetString(LldpText(n, c)));
    LldpTextRow(n, r);
    LldpHolds(t, p, n, r);
  }

  /** A text column reads back, the empty text as an absent row. */
  lemma LldpTextBack(t: Cells, p: Profile, n: LldpNeighbour, c: Column)
    requires Distinct(p) && Exact(t, p) && n in p.lldp && LldpTextColumn(c)
    ensures Text(t, c, [0, n.port, 1]) == LldpText(n, c)
  {
    var x := [0, n.port, 1];
    if x in Indexes(t, c) {
      LldpTextPresent(t, p, n, c, x);
    } else if LldpText(n, c) != "" {
      LldpTextServed(t, p, n, c, x);
    } else {
      assert Cell(c, x) !in t;
    }
  }

  lemma ManAddrParts(n: LldpNeighbour)
    ensures ManAddrIndex(n)[1] == n.port && ManAddrIndex(n)[5..] == n.address.octets
  {
  }

  lemma ManAddrBack(t: Cells, p: Profile, n: LldpNeighbour)
    requires Exact(t, p) && n in p.lldp && |n.address.octets| == 4
    ensures Text(t, LldpManAddr, ManAddrIndex(n)) == n.address.text
    ensures ManAddrIndex(n) in Indexes(t, LldpManAddr)
  {
    var r := Row(LldpManAddr, ManAddrIndex(n), OctetString(n.address.text));
    LldpRowsShape(n, r);
    LldpHolds(t, p, n, r);
  }

  /** Something of the neighbour is served. */
  predicate IsServed(n: LldpNeighbour) {
    n.sysName != "" || n.portId != "" || n.chassisId != "" || n.portDesc != "" || |n.address.octets| == 4
  }

  function ViewOfLldp(n: LldpNeighbour): LldpView {
    LldpView(n.port, n.sysName, n.portId, n.chassisId, n.portDesc,
             if |n.address.octets| == 4 then {n.address} else {})
  }

  lemma ManAddrOf(t: Cells, p: Profile, x: Oid) returns (n: LldpNeighbour)
    requires Exact(t, p) && x in Indexes(t, LldpManAddr)
    ensures n in p.lldp && |n.address.octets| == 4 && x == ManAddrIndex(n)
  {
    var m, r := LldpOf(t, p, LldpManAddr, x);
    LldpRowsShape(m, r);
    n := m;
  }

  lemma AddressOnPort(t: Cells, p: Profile, n: LldpNeighbour, x: Oid)
    requires Distinct(p) && Exact(t, p) && n in p.lldp && x in Indexes(t, LldpManAddr) && |x| == 9 && x[1] == n.port
    ensures |n.address.octets| == 4 && Address(Text(t, LldpManAddr, x), x[5..]) == n.address
  {
    var m := ManAddrOf(t, p, x);
    ManAddrParts(m);
    OnePortOneNeighbour(p, m, n);
    ManAddrBack(t, p, n);
  }

  lemma AddressesBack(t: Cells, p: Profile, n: LldpNeighbour)
    requires Distinct(p) && Exact(t, p) && n in p.lldp
    ensures AddressesAt(t, n.port) == if |n.address.octets| == 4 then {n.address} else {}
  {
    forall x | x in Indexes(t, LldpManAddr) && |x| == 9 && x[1] == n.port
      ensures |n.address.octets| == 4 && Address(Text(t, LldpManAddr, x), x[5..]) == n.address
    {
      AddressOnPort(t, p, n, x);
    }
    if |n.address.octets| == 4 {
      ManAddrBack(t, p, n);
      ManAddrParts(n);
      var x := ManAddrIndex(n);
      assert Address(Text(t, LldpManAddr, x), x[5..]) in AddressesAt(t, n.port);
    }
  }

  lemma LldpBack(t: Cells, p: Profile, n: LldpNeighbour)
    requires Distinct(p) && Exact(t, p) && n in p.lldp
    ensures LldpAt(t, n.port) == ViewOfLldp(n)
  {
    LldpTextBack(t, p, n, LldpSysName);
    LldpTextBack(t, p, n, LldpPortId);
    LldpTextBack(t, p, n, LldpChassisId);
    LldpTextBack(t, p, n, LldpPortDesc);
    AddressesBack(t, p, n);
  }

  lemma ServedTextRow(n: LldpNeighbour, c: Column) returns (r: Row)
    requires LldpTextColumn(c) && LldpText(n, c) != ""
    ensures r in LldpRows(n) && PartOf(r.column) == Lldp && |r.index| >= 2 && r.index[1] == n.port
  {
    r := Row(c, [0, n.port, 1], OctetString(LldpText(n, c)));
    LldpTextRow(n, r);
  }

  lemma ServedAddressRow(n: LldpNeighbour) returns (r: Row)
    requires |n.address.octets| == 4
    ensures r in LldpRows(n) && PartOf(r.column) == Lldp && |r.index| >= 2 && r.index[1] == n.port
  {
    r := Row(LldpManAddr, ManAddrIndex(n), OctetString(n.address.text));
    LldpRowsShape(n, r);
    ManAddrParts(n);
  }

  lemma ServedRow(n: LldpNeighbour) returns (r: Row)
    requires IsServed(n)
    ensures r in LldpRows(n) && PartOf(r.column) == Lldp && |r.index| >= 2 && r.index[1] == n.port
  {
    if |n.address.octets| == 4 {
      r := ServedAddressRow(n);
    } else {
      r := ServedTextRow(n, if n.sysName != "" then LldpSysName else if n.portId != "" then LldpPortId
                            else if n.chassisId != "" then LldpChassisId else LldpPortDesc);
    }
  }

  lemma ServedPort(t: Cells, p: Profile, n: LldpNeighbour)
    requires Exact(t, p) && n in p.lldp && IsServed(n)
    ensures n.port in LldpPorts(t)
  {
    var r := ServedRow(n);
    LldpHolds(t, p, n, r);
    assert Cell(r.column, r.index).index[1] == n.port;
  }

  lemma RowIsServed(n: LldpNeighbour, r: Row)
    requires r in LldpRows(n)
    ensures IsServed(n) && |r.index| >= 2 && r.index[1] == n.port
  {
    LldpRowsShape(n, r);
  }

  lemma NeighbourOnPort(t: Cells, p: Profile, port: nat) returns (n: LldpNeighbour)
    requires Exact(t, p) && port in LldpPorts(t)
    ensures n in p.lldp && IsServed(n) && n.port == port
  {
    var x :| x in t && PartOf(x.column) == Lldp && |x.index| >= 2 && x.index[1] == port;
    assert x.index in Indexes(t, x.column);
    var m, r := LldpOf(t, p, x.column, x.index);
    RowIsServed(m, r);
    n := m;
  }

  /** Exactly the LLDP neighbours of which anything is served come back, with every text they
      declare, an absent row standing for the empty text, and with their management address exactly
      if it has four octets. */
  lemma LldpDecode(t: Cells, p: Profile)
    requires Distinct(p) && Exact(t, p)
    ensures DecodeLldp(t) == set n | n in p.lldp && IsServed(n) :: ViewOfLldp(n)
  {
    forall n | n in p.lldp && IsServed(n) ensures ViewOfLldp(n) in DecodeLldp(t) {
      ServedPort(t, p, n);
      LldpBack(t, p, n);
    }
    forall d | d in DecodeLldp(t) ensures exists n :: n in p.lldp && IsServed(n) && d == ViewOfLldp(n) {
      var port :| port in LldpPorts(t) && d == LldpAt(t, port);
      var n := NeighbourOnPort(t, p, port);
      LldpBack(t, p, n);
    }
  }

  lemma AddressHolds(t: Cells, p: Profile, a: IpAddress, r: Row)
    requires Exact(t, p) && a in p.addresses && r in AddressRows(a)
    ensures Holds(t, r)
  {
    PartsOfRows(p, r);
    assert Originates(p, r);
  }

  function ViewOfAddress(a: IpAddress): AddressView {
    AddressView(a.address.octets, a.ifIndex, a.netmask)
  }

  lemma AddressBack(t: Cells, p: Profile, a: IpAddress)
    requires Exact(t, p) && a in p.addresses
    ensures AddressAt(t, a.address.octets) == ViewOfAddress(a)
    ensures a.address.octets in Indexes(t, IpAddrIfIndex)
  {
    AddressHolds(t, p, a, AddressRows(a)[0]);
    AddressHolds(t, p, a, AddressRows(a)[1]);
  }

  lemma AddressOf(t: Cells, p: Profile, x: Oid) returns (a: IpAddress)
    requires Exact(t, p) && x in Indexes(t, IpAddrIfIndex)
    ensures a in p.addresses && x == a.address.octets
  {
    var r := RowAt(t, p, IpAddrIfIndex, x);
    a := AddressOrigin(p, r);
  }

  /** Every address comes back with its interface and netmask, and no other. */
  lemma AddressesDecode(t: Cells, p: Profile)
    requires Exact(t, p)
    ensures DecodeAddresses(t) == set a | a in p.addresses :: ViewOfAddress(a)
  {
    forall a | a in p.addresses ensures ViewOfAddress(a) in DecodeAddresses(t) {
      AddressBack(t, p, a);
    }
    forall d | d in DecodeAddresses(t) ensures exists a :: a in p.addresses && d == ViewOfAddress(a) {
      var x :| x in Indexes(t, IpAddrIfIndex) && d == AddressAt(t, x);
      var a := AddressOf(t, p, x);
      AddressBack(t, p, a);
    }
  }

  lemma RouteHolds(t: Cells, p: Profile, a: Route, r: Row)
    requires Exact(t, p) && a in p.routes && r in RouteRows(a)
    ensures Holds(t, r)
  {
    PartsOfRows(p, r);
    assert Originates(p, r);
  }

  function ViewOfRoute(r: Route): RouteView {
    RouteView(r.destination.octets, r.netmask.octets, r.nextHop.octets, r.ifIndex, r.proto)
  }

  lemma RouteParts(d: Oid, m: Oid, h: Oid)
    requires |d| == |m| == |h| == 4
    ensures var x := d + m + [0] + h; |x| == 13 && x[..4] == d && x[4..8] == m && x[9..] == h
  {
  }

  lemma RouteReadBack(t: Cells, a: Route, x: Oid)
    requires |x| == 13 && x[..4] == a.destination.octets && x[4..8] == a.netmask.octets && x[9..] == a.nextHop.octets
    requires Holds(t, Row(RouteIfIndex, x, Integer(a.ifIndex))) && Holds(t, Row(RouteProto, x, Integer(a.proto)))
    ensures RouteAt(t, x) == ViewOfRoute(a) && x in Indexes(t, RouteIfIndex)
  {
    assert Cell(RouteIfIndex, x) in t;
  }

  lemma RouteBack(t: Cells, p: Profile, a: Route)
    requires Exact(t, p) && a in p.routes && |a.destination.octets| == |a.netmask.octets| == |a.nextHop.octets| == 4
    ensures |RouteIndex(a)| == 13 && RouteAt(t, RouteIndex(a)) == ViewOfRoute(a)
    ensures RouteIndex(a) in Indexes(t, RouteIfIndex)
  {
    RouteHolds(t, p, a, RouteRows(a)[0]);
    RouteHolds(t, p, a, RouteRows(a)[1]);
    RouteParts(a.destination.octets, a.netmask.octets, a.nextHop.octets);
    RouteReadBack(t, a, RouteIndex(a));
  }

  lemma RouteOf(t: Cells, p: Profile, x: Oid) returns (a: Route)
    requires Exact(t, p) && x in Indexes(t, RouteIfIndex)
    ensures a in p.routes && x == RouteIndex(a)
  {
    var r := RowAt(t, p, RouteIfIndex, x);
    a := RouteOrigin(p, r);
  }

  /** Every route comes back from its thirteen-part index, and no other. */
  lemma RoutesDecode(t: Cells, p: Profile)
    requires Distinct(p) && Exact(t, p)
    ensures DecodeRoutes(t) == set r | r in p.routes :: ViewOfRoute(r)
  {
    forall a | a in p.routes ensures ViewOfRoute(a) in DecodeRoutes(t) {
      RouteBack(t, p, a);
    }
    forall d | d in DecodeRoutes(t) ensures exists a :: a in p.routes && d == ViewOfRoute(a) {
      var x :| x in Indexes(t, RouteIfIndex) && |x| == 13 && d == RouteAt(t, x);
      var a := RouteOf(t, p, x);
      RouteBack(t, p, a);
    }
  }

  lemma SystemHolds(t: Cells, p: Profile, r: Row)
    requires Exact(t, p) && (r in SystemRows(p) || r in ChassisRows(p))
    ensures Holds(t, r)
  {
    PartsOfRows(p, r);
    assert Originates(p, r);
  }

  lemma SystemReadBack(t: Cells, p: Profile)
    requires forall r | r in SystemRows(p) :: Holds(t, r)
    ensures Text(t, SysDescr, []) == p.sysDescr && Text(t, SysName, []) == p.sysName
    ensures Num(t, IfNumber, []) == |p.interfaces|
  {
    var rs := SystemRows(p);
    assert Holds(t, rs[0]) && Holds(t, rs[1]) && Holds(t, rs[3]);
  }

  /** The system group reads back. */
  lemma SystemDecode(t: Cells, p: Profile)
    requires Exact(t, p)
    ensures Text(t, SysDescr, []) == p.sysDescr && Text(t, SysName, []) == p.sysName
    ensures Num(t, IfNumber, []) == |p.interfaces|
  {
    forall r | r in SystemRows(p) ensures Holds(t, r) {
      SystemHolds(t, p, r);
    }
    SystemReadBack(t, p);
  }

  /** The presence test for LLDP: the local chassis row exists exactly when the profile exposes it,
      whatever neighbours there are. */
  lemma ChassisIffExposed(t: Cells, p: Profile)
    requires Exact(t, p)
    ensures [] in Indexes(t, LldpLocChassis) <==> p.exposeChassis
  {
    if p.exposeChassis {
      var r := ChassisRows(p)[0];
      SystemHolds(t, p, r);
      assert r.index == [] && Cell(LldpLocChassis, []) in t;
    }
    if [] in Indexes(t, LldpLocChassis) {
      var r := RowAt(t, p, LldpLocChassis, []);
      assert r in ChassisRows(p);
    }
  }

  /** The parsed table gives the profile back: the system group, whether the local chassis is exposed,
      every interface (its speed saturated at the 32-bit gauge), every LLDP neighbour of which
      anything is served, every CDP neighbour, address and route, and nothing else. */
  predicate Recovers(t: Cells, p: Profile) {
    && Text(t, SysDescr, []) == p.sysDescr && Text(t, SysName, []) == p.sysName
    && Num(t, IfNumber, []) == |p.interfaces|
    && ([] in Indexes(t, LldpLocChassis) <==> p.exposeChassis)
    && DecodeInterfaces(t) == (set i | i in p.interfaces :: i.(speed := Saturated(i.speed)))
    && DecodeLldp(t) == (set n | n in p.lldp && IsServed(n) :: ViewOfLldp(n))
    && DecodeCdp(t) == (set n | n in p.cdp)
    && DecodeAddresses(t) == (set a | a in p.addresses :: ViewOfAddress(a))
    && DecodeRoutes(t) == (set r | r in p.routes :: ViewOfRoute(r))
  }

  lemma ExactRecovers(t: Cells, p: Profile)
    requires Distinct(p) && Exact(t, p)
    ensures Recovers(t, p)
  {
    SystemDecode(t, p);
    ChassisIffExposed(t, p);
    InterfacesDecode(t, p);
    LldpDecode(t, p);
    CdpDecode(t, p);
    AddressesDecode(t, p);
    RoutesDecode(t, p);
  }

  lemma ProfileRoundTrip(p: Profile)
    requires Distinct(p)
    ensures Recovers(Parse(Table(p)), p)
  {
    ParsedExact(p);
    ExactRecovers(Parse(Table(p)), p);
  }
}
