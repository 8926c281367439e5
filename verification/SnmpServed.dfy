/** The table of a profile, entry by entry: the identifiers written out, and typed values. */
module SnmpServed {
  import opened Wrappers
  import opened SnmpOids
  import opened SnmpMib
  import opened SnmpRoundTrip

  predicate Has(m: Mib, oid: Oid, v: Value) {
    oid in m && m[oid] == v
  }

  /** An entry from the row that put it there. */
  lemma Served(p: Profile, c: Column, base: Oid, index: Oid, v: Value)
    requires Distinct(p) && Base(c) == base && Originates(p, Row(c, index, v))
    ensures Has(Table(p), base + index, v)
  {
    TableHolds(p, c, index, v);
  }

  // ---- Scalars ----

  lemma SystemColumn(p: Profile, c: Column, base: Oid, v: Value)
    requires Distinct(p) && Base(c) == base && Row(c, [], v) in SystemRows(p)
    ensures Has(Table(p), base, v)
  {
    PartsOfRows(p, Row(c, [], v));
    Served(p, c, base, [], v);
    assert base + [] == base;
  }

  lemma SysDescrEntry(p: Profile)
    requires Distinct(p)
    ensures Has(Table(p), [1, 3, 6, 1, 2, 1, 1, 1, 0], OctetString(p.sysDescr))
  {
    SystemColumn(p, SysDescr, [1, 3, 6, 1, 2, 1, 1, 1, 0], OctetString(p.sysDescr));
  }

  lemma SysNameEntry(p: Profile)
    requires Distinct(p)
    ensures Has(Table(p), [1, 3, 6, 1, 2, 1, 1, 5, 0], OctetString(p.sysName))
  {
    SystemColumn(p, SysName, [1, 3, 6, 1, 2, 1, 1, 5, 0], OctetString(p.sysName));
  }

  lemma SysObjectIdEntry(p: Profile)
    requires Distinct(p)
    ensures Has(Table(p), [1, 3, 6, 1, 2, 1, 1, 2, 0], ObjectId("1.3.6.1.4.1.99999.9.1"))
  {
    SystemColumn(p, SysObjectId, [1, 3, 6, 1, 2, 1, 1, 2, 0], ObjectId("1.3.6.1.4.1.99999.9.1"));
  }

  lemma IfNumberEntry(p: Profile)
    requires Distinct(p)
    ensures Has(Table(p), [1, 3, 6, 1, 2, 1, 2, 1, 0], Integer(|p.interfaces|))
  {
    SystemColumn(p, IfNumber, [1, 3, 6, 1, 2, 1, 2, 1, 0], Integer(|p.interfaces|));
  }

  /** The chassis entry, there exactly if the profile exposes it. */
  lemma ChassisEntry(p: Profile)
    requires Distinct(p)
    ensures [1, 0, 8802, 1, 1, 2, 1, 3, 2, 0] in Table(p) <==> p.exposeChassis
    ensures p.exposeChassis ==> Has(Table(p), [1, 0, 8802, 1, 1, 2, 1, 3, 2, 0], OctetString(p.sysName))
  {
    var oid: Oid := [1, 0, 8802, 1, 1, 2, 1, 3, 2, 0];
    assert oid + [] == oid;
    assert Key(LldpLocChassis, []) == oid;
    if p.exposeChassis {
      var r := Row(LldpLocChassis, [], OctetString(p.sysName));
      assert r in ChassisRows(p);
      PartsOfRows(p, r);
      Served(p, LldpLocChassis, oid, [], r.value);
    }
    if oid in Table(p) {
      TableHolds(p, LldpLocChassis, [], Table(p)[oid]);
    }
  }

  // ---- Interfaces ----

  lemma InterfaceColumn(p: Profile, i: Interface, c: Column, base: Oid, v: Value)
    requires Distinct(p) && i in p.interfaces && Base(c) == base && Row(c, [i.index], v) in InterfaceRows(i)
    ensures Has(Table(p), base + [i.index], v)
  {
    PartsOfRows(p, Row(c, [i.index], v));
    Served(p, c, base, [i.index], v);
  }

  lemma IfDescrEntry(p: Profile, i: Interface)
    requires Distinct(p) && i in p.interfaces
    ensures Has(Table(p), [1, 3, 6, 1, 2, 1, 2, 2, 1, 2] + [i.index], OctetString(i.descr))
  {
    InterfaceColumn(p, i, IfDescr, [1, 3, 6, 1, 2, 1, 2, 2, 1, 2], OctetString(i.descr));
  }

  /** A speed above the largest 32-bit gauge is served as that gauge. */
  lemma IfSpeedEntry(p: Profile, i: Interface)
    requires Distinct(p) && i in p.interfaces
    ensures Has(Table(p), [1, 3, 6, 1, 2, 1, 2, 2, 1, 5] + [i.index],
                Gauge32(if i.speed < 4_294_967_295 then i.speed else 4_294_967_295))
  {
    InterfaceColumn(p, i, IfSpeed, [1, 3, 6, 1, 2, 1, 2, 2, 1, 5], Gauge32(Saturated(i.speed)));
  }

  lemma IfAdminEntry(p: Profile, i: Interface)
    requires Distinct(p) && i in p.interfaces
    ensures Has(Table(p), [1, 3, 6, 1, 2, 1, 2, 2, 1, 7] + [i.index], Integer(i.admin))
  {
    InterfaceColumn(p, i, IfAdmin, [1, 3, 6, 1, 2, 1, 2, 2, 1, 7], Integer(i.admin));
  }

  lemma IfOperEntry(p: Profile, i: Interface)
    requires Distinct(p) && i in p.interfaces
    ensures Has(Table(p), [1, 3, 6, 1, 2, 1, 2, 2, 1, 8] + [i.index], Integer(i.oper))
  {
    InterfaceColumn(p, i, IfOper, [1, 3, 6, 1, 2, 1, 2, 2, 1, 8], Integer(i.oper));
  }

  /** Octets are 64-bit counters, errors 32-bit ones. */
  lemma IfInOctetsEntry(p: Profile, i: Interface)
    requires Distinct(p) && i in p.interfaces
    ensures Has(Table(p), [1, 3, 6, 1, 2, 1, 2, 2, 1, 10] + [i.index], Counter64(i.inOctets))
  {
    InterfaceColumn(p, i, IfInOctets, [1, 3, 6, 1, 2, 1, 2, 2, 1, 10], Counter64(i.inOctets));
  }

  lemma IfInErrorsEntry(p: Profile, i: Interface)
    requires Distinct(p) && i in p.interfaces
    ensures Has(Table(p), [1, 3, 6, 1, 2, 1, 2, 2, 1, 14] + [i.index], Counter32(i.inErrors))
  {
    InterfaceColumn(p, i, IfInErrors, [1, 3, 6, 1, 2, 1, 2, 2, 1, 14], Counter32(i.inErrors));
  }

  lemma IfOutOctetsEntry(p: Profile, i: Interface)
    requires Distinct(p) && i in p.interfaces
    ensures Has(Table(p), [1, 3, 6, 1, 2, 1, 2, 2, 1, 16] + [i.index], Counter64(i.outOctets))
  {
    InterfaceColumn(p, i, IfOutOctets, [1, 3, 6, 1, 2, 1, 2, 2, 1, 16], Counter64(i.outOctets));
  }

  lemma IfOutErrorsEntry(p: Profile, i: Interface)
    requires Distinct(p) && i in p.interfaces
    ensures Has(Table(p), [1, 3, 6, 1, 2, 1, 2, 2, 1, 20] + [i.index], Counter32(i.outErrors))
  {
    InterfaceColumn(p, i, IfOutErrors, [1, 3, 6, 1, 2, 1, 2, 2, 1, 20], Counter32(i.outErrors));
  }

  // ---- Neighbours ----

  /** An entry that is there exactly if its text is not empty. */
  predicate HasText(m: Mib, oid: Oid, text: string) {
    if text == "" then oid !in m else Has(m, oid, OctetString(text))
  }

  lemma LldpTextEntry(p: Profile, n: LldpNeighbour, c: Column, base: Oid, text: string)
    requires Distinct(p) && n in p.lldp && LldpTextColumn(c) && text == LldpText(n, c) && Base(c) == base
    ensures HasText(Table(p), base + [0, n.port, 1], text)
  {
    var x := [0, n.port, 1];
    var oid := base + x;
    if text != "" {
      var r := Row(c, x, OctetString(text));
      LldpTextRow(n, r);
      LldpPart(r);
      Served(p, c, base, x, OctetString(text));
    }
    if oid in Table(p) {
      LldpTextFound(p, n, c, x, Table(p)[oid]);
    }
  }

  lemma LldpTextFound(p: Profile, n: LldpNeighbour, c: Column, x: Oid, v: Value)
    requires Distinct(p) && n in p.lldp && LldpTextColumn(c) && x == [0, n.port, 1]
    requires Key(c, x) in Table(p) && Table(p)[Key(c, x)] == v
    ensures LldpText(n, c) != ""
  {
    TableHolds(p, c, x, v);
    var m := LldpOrigin(p, Row(c, x, v));
    LldpTextRow(m, Row(c, x, v));
    OnePortOneNeighbour(p, m, n);
  }

  /** The index of a neighbour: time mark 0, local port, remote index 1. */
  lemma LldpChassisIdEntry(p: Profile, n: LldpNeighbour)
    requires Distinct(p) && n in p.lldp
    ensures HasText(Table(p), [1, 0, 8802, 1, 1, 2, 1, 4, 1, 1, 5] + [0, n.port, 1], n.chassisId)
  {
    LldpTextEntry(p, n, LldpChassisId, [1, 0, 8802, 1, 1, 2, 1, 4, 1, 1, 5], n.chassisId);
  }

  lemma LldpPortIdEntry(p: Profile, n: LldpNeighbour)
    requires Distinct(p) && n in p.lldp
    ensures HasText(Table(p), [1, 0, 8802, 1, 1, 2, 1, 4, 1, 1, 7] + [0, n.port, 1], n.portId)
  {
    LldpTextEntry(p, n, LldpPortId, [1, 0, 8802, 1, 1, 2, 1, 4, 1, 1, 7], n.portId);
  }

  lemma LldpPortDescEntry(p: Profile, n: LldpNeighbour)
    requires Distinct(p) && n in p.lldp
    ensures HasText(Table(p), [1, 0, 8802, 1, 1, 2, 1, 4, 1, 1, 8] + [0, n.port, 1], n.portDesc)
  {
    LldpTextEntry(p, n, LldpPortDesc, [1, 0, 8802, 1, 1, 2, 1, 4, 1, 1, 8], n.portDesc);
  }

  lemma LldpSysNameEntry(p: Profile, n: LldpNeighbour)
    requires Distinct(p) && n in p.lldp
    ensures HasText(Table(p), [1, 0, 8802, 1, 1, 2, 1, 4, 1, 1, 9] + [0, n.port, 1], n.sysName)
  {
    LldpTextEntry(p, n, LldpSysName, [1, 0, 8802, 1, 1, 2, 1, 4, 1, 1, 9], n.sysName);
  }

  /** The entry of a four-octet management address: time mark, port, remote index, subtype 1, length 4. */
  lemma LldpAddressEntry(p: Profile, n: LldpNeighbour)
    requires Distinct(p) && n in p.lldp && |n.address.octets| == 4
    ensures Has(Table(p), [1, 0, 8802, 1, 1, 2, 1, 4, 2, 1, 4] + [0, n.port, 1, 1, 4] + n.address.octets,
                OctetString(n.address.text))
  {
    var b: Oid := [1, 0, 8802, 1, 1, 2, 1, 4, 2, 1, 4];
    var x: Oid := [0, n.port, 1, 1, 4] + n.address.octets;
    var r := Row(LldpManAddr, x, OctetString(n.address.text));
    LldpRowsShape(n, r);
    LldpPart(r);
    Served(p, LldpManAddr, b, x, r.value);
    assert b + x == b + [0, n.port, 1, 1, 4] + n.address.octets;
  }

  lemma CdpColumnEntry(p: Profile, n: CdpNeighbour, c: Column, base: Oid, text: string)
    requires Distinct(p) && n in p.cdp && Base(c) == base
    requires Row(c, [n.port, 1], OctetString(text)) in CdpRows(n)
    ensures Has(Table(p), base + [n.port, 1], OctetString(text))
  {
    PartsOfRows(p, Row(c, [n.port, 1], OctetString(text)));
    Served(p, c, base, [n.port, 1], OctetString(text));
  }

  lemma CdpAddressEntry(p: Profile, n: CdpNeighbour)
    requires Distinct(p) && n in p.cdp
    ensures Has(Table(p), [1, 3, 6, 1, 4, 1, 9, 9, 23, 1, 2, 1, 1, 4] + [n.port, 1], OctetString(n.address))
  {
    CdpColumnEntry(p, n, CdpAddress, [1, 3, 6, 1, 4, 1, 9, 9, 23, 1, 2, 1, 1, 4], n.address);
  }

  lemma CdpDeviceIdEntry(p: Profile, n: CdpNeighbour)
    requires Distinct(p) && n in p.cdp
    ensures Has(Table(p), [1, 3, 6, 1, 4, 1, 9, 9, 23, 1, 2, 1, 1, 6] + [n.port, 1], OctetString(n.deviceId))
  {
    CdpColumnEntry(p, n, CdpDeviceId, [1, 3, 6, 1, 4, 1, 9, 9, 23, 1, 2, 1, 1, 6], n.deviceId);
  }

  lemma CdpDevicePortEntry(p: Profile, n: CdpNeighbour)
    requires Distinct(p) && n in p.cdp
    ensures Has(Table(p), [1, 3, 6, 1, 4, 1, 9, 9, 23, 1, 2, 1, 1, 7] + [n.port, 1], OctetString(n.portId))
  {
    CdpColumnEntry(p, n, CdpDevicePort, [1, 3, 6, 1, 4, 1, 9, 9, 23, 1, 2, 1, 1, 7], n.portId);
  }

  lemma CdpPlatformEntry(p: Profile, n: CdpNeighbour)
    requires Distinct(p) && n in p.cdp
    ensures Has(Table(p), [1, 3, 6, 1, 4, 1, 9, 9, 23, 1, 2, 1, 1, 8] + [n.port, 1], OctetString(n.platform))
  {
    CdpColumnEntry(p, n, CdpPlatform, [1, 3, 6, 1, 4, 1, 9, 9, 23, 1, 2, 1, 1, 8], n.platform);
  }

  // ---- Addresses and routes ----

  lemma IpAddrIfIndexEntry(p: Profile, a: IpAddress)
    requires Distinct(p) && a in p.addresses
    ensures Has(Table(p), [1, 3, 6, 1, 2, 1, 4, 20, 1, 2] + a.address.octets, Integer(a.ifIndex))
  {
    var r := AddressRows(a)[0];
    PartsOfRows(p, r);
    Served(p, IpAddrIfIndex, [1, 3, 6, 1, 2, 1, 4, 20, 1, 2], a.address.octets, Integer(a.ifIndex));
  }

  lemma IpAddrNetmaskEntry(p: Profile, a: IpAddress)
    requires Distinct(p) && a in p.addresses
    ensures Has(Table(p), [1, 3, 6, 1, 2, 1, 4, 20, 1, 3] + a.address.octets, Netmask(a.netmask))
  {
    var r := AddressRows(a)[1];
    PartsOfRows(p, r);
    Served(p, IpAddrNetmask, [1, 3, 6, 1, 2, 1, 4, 20, 1, 3], a.address.octets, Netmask(a.netmask));
  }

  lemma RouteColumn(p: Profile, a: Route, c: Column, base: Oid, v: Value)
    requires Distinct(p) && a in p.routes && Base(c) == base && Row(c, RouteIndex(a), v) in RouteRows(a)
    ensures Has(Table(p), base + RouteIndex(a), v)
  {
    PartsOfRows(p, Row(c, RouteIndex(a), v));
    Served(p, c, base, RouteIndex(a), v);
  }

  /** A route is indexed by destination, mask, type of service 0 and next hop. */
  lemma RouteIfIndexEntry(p: Profile, a: Route)
    requires Distinct(p) && a in p.routes
    ensures Has(Table(p), [1, 3, 6, 1, 2, 1, 4, 24, 4, 1, 5]
                          + (a.destination.octets + a.netmask.octets + [0] + a.nextHop.octets), Integer(a.ifIndex))
  {
    RouteColumn(p, a, RouteIfIndex, [1, 3, 6, 1, 2, 1, 4, 24, 4, 1, 5], Integer(a.ifIndex));
  }

  lemma RouteProtoEntry(p: Profile, a: Route)
    requires Distinct(p) && a in p.routes
    ensures Has(Table(p), [1, 3, 6, 1, 2, 1, 4, 24, 4, 1, 7]
                          + (a.destination.octets + a.netmask.octets + [0] + a.nextHop.octets), Integer(a.proto))
  {
    RouteColumn(p, a, RouteProto, [1, 3, 6, 1, 2, 1, 4, 24, 4, 1, 7], Integer(a.proto));
  }

  // ---- Nothing else ----

  predicate IsScalar(k: Oid) {
    k in [[1, 3, 6, 1, 2, 1, 1, 1, 0], [1, 3, 6, 1, 2, 1, 1, 5, 0], [1, 3, 6, 1, 2, 1, 1, 2, 0],
          [1, 3, 6, 1, 2, 1, 2, 1, 0]]
  }

  predicate OfInterface(i: Interface, k: Oid) {
    exists c | c in [2, 5, 7, 8, 10, 14, 16, 20] :: k == [1, 3, 6, 1, 2, 1, 2, 2, 1] + [c] + [i.index]
  }

  predicate OfLldp(n: LldpNeighbour, k: Oid) {
    || (exists c | c in [5, 7, 8, 9] :: k == [1, 0, 8802, 1, 1, 2, 1, 4, 1, 1] + [c] + [0, n.port, 1])
    || (|n.address.octets| == 4
        && k == [1, 0, 8802, 1, 1, 2, 1, 4, 2, 1, 4] + [0, n.port, 1, 1, 4] + n.address.octets)
  }

  predicate OfCdp(n: CdpNeighbour, k: Oid) {
    exists c | c in [4, 6, 7, 8] :: k == [1, 3, 6, 1, 4, 1, 9, 9, 23, 1, 2, 1, 1] + [c] + [n.port, 1]
  }

  predicate OfAddress(a: IpAddress, k: Oid) {
    exists c | c in [2, 3] :: k == [1, 3, 6, 1, 2, 1, 4, 20, 1] + [c] + a.address.octets
  }

  predicate OfRoute(a: Route, k: Oid) {
    exists c | c in [5, 7] ::
      k == [1, 3, 6, 1, 2, 1, 4, 24, 4, 1] + [c]
           + (a.destination.octets + a.netmask.octets + [0] + a.nextHop.octets)
  }

  lemma ScalarKey(p: Profile, r: Row)
    requires r in SystemRows(p)
    ensures IsScalar(Key(r.column, r.index))
  {
    assert Key(r.column, r.index) == Base(r.column);
  }

  lemma InterfaceKey(i: Interface, r: Row)
    requires r in InterfaceRows(i)
    ensures OfInterface(i, Key(r.column, r.index))
  {
    var b: Oid := [1, 3, 6, 1, 2, 1, 2, 2, 1];
    var c := Base(r.column)[9];
    assert Base(r.column) == b + [c];
  }

  lemma LldpKey(n: LldpNeighbour, r: Row)
    requires r in LldpRows(n)
    ensures OfLldp(n, Key(r.column, r.index))
  {
    LldpRowsShape(n, r);
    var k := Key(r.column, r.index);
    if r.column == LldpManAddr {
      assert k == [1, 0, 8802, 1, 1, 2, 1, 4, 2, 1, 4] + [0, n.port, 1, 1, 4] + n.address.octets;
    } else {
      var b: Oid := [1, 0, 8802, 1, 1, 2, 1, 4, 1, 1];
      var c := Base(r.column)[10];
      assert Base(r.column) == b + [c];
    }
  }

  lemma CdpKey(n: CdpNeighbour, r: Row)
    requires r in CdpRows(n)
    ensures OfCdp(n, Key(r.column, r.index))
  {
    var b: Oid := [1, 3, 6, 1, 4, 1, 9, 9, 23, 1, 2, 1, 1];
    var c := Base(r.column)[13];
    assert Base(r.column) == b + [c];
  }

  lemma AddressKey(a: IpAddress, r: Row)
    requires r in AddressRows(a)
    ensures OfAddress(a, Key(r.column, r.index))
  {
    var b: Oid := [1, 3, 6, 1, 2, 1, 4, 20, 1];
    var c := Base(r.column)[9];
    assert Base(r.column) == b + [c];
  }

  lemma RouteKey(a: Route, r: Row)
    requires r in RouteRows(a)
    ensures OfRoute(a, Key(r.column, r.index))
  {
    var b: Oid := [1, 3, 6, 1, 2, 1, 4, 24, 4, 1];
    var c := Base(r.column)[10];
    assert Base(r.column) == b + [c];
  }

  predicate IsListed(p: Profile, k: Oid) {
    || IsScalar(k) || (k == [1, 0, 8802, 1, 1, 2, 1, 3, 2, 0] && p.exposeChassis)
    || (exists i | i in p.interfaces :: OfInterface(i, k))
    || (exists n | n in p.lldp :: OfLldp(n, k))
    || (exists n | n in p.cdp :: OfCdp(n, k))
    || (exists a | a in p.addresses :: OfAddress(a, k))
    || (exists t | t in p.routes :: OfRoute(t, k))
  }

  lemma RowIsListed(p: Profile, r: Row)
    requires Originates(p, r)
    ensures IsListed(p, Key(r.column, r.index))
  {
    match PartOf(r.column) {
      case System => ScalarKey(p, r);
      case Chassis => assert Key(r.column, r.index) == Base(LldpLocChassis);
      case Interfaces => var i := InterfaceOrigin(p, r); InterfaceKey(i, r);
      case Lldp => var n := LldpOrigin(p, r); LldpKey(n, r);
      case Cdp => var n := CdpOrigin(p, r); CdpKey(n, r);
      case Addresses => var a := AddressOrigin(p, r); AddressKey(a, r);
      case Routes => var t := RouteOrigin(p, r); RouteKey(t, r);
    }
  }

  /** The table has no identifier beside those of the profile's items. */
  lemma NothingElse(p: Profile, k: Oid)
    requires Distinct(p) && k in Table(p)
    ensures IsListed(p, k)
  {
    KeysOfTable(p, k);
    var c, index :| k == Key(c, index) && Originates(p, Row(c, index, Table(p)[k]));
    RowIsListed(p, Row(c, index, Table(p)[k]));
  }
}
