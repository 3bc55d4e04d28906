/** No two inbounds of the panel ever claim the same port: the invariant of the two tables, and why
    the checks keep it over every sequence of changes. */
module PortRegistryLaws {
  import opened Wrappers
  import opened PortRegistry
  import PayloadGateways

  // ---------------------------------------------------------------- the invariant

  predicate Uses(o: SshInbound, p: int) {
    p > 0 && (p == o.listen || p == o.backend || p == o.gateway || p == o.udp)
  }

  /** A row's relay port is not one of its other ports. */
  predicate Coherent(o: SshInbound) {
    o.udp > 0 ==> o.udp != o.listen && o.udp != o.backend && o.udp != o.gateway
  }

  /** Two SSH rows share a port only as the UDP relay of both. */
  ghost predicate Apart(a: SshInbound, b: SshInbound) {
    forall p :: Uses(a, p) && Uses(b, p) ==> p == a.udp == b.udp
  }

  ghost predicate ClearOf(db: Db, o: SshInbound) {
    && (forall x :: x in db.xray ==> !Uses(o, x.port))
    && !Uses(o, db.panel) && !Uses(o, db.sub)
  }

  predicate PublicApart(x: XrayInbound, y: XrayInbound) {
    x.port == y.port ==> x.listen != y.listen && !Wildcard(x.listen) && !Wildcard(y.listen)
  }

  ghost predicate UniqueIds(db: Db) {
    && (forall a :: a in db.ssh ==> a.id > 0)
    && (forall x :: x in db.xray ==> x.id != 0)
    && (forall i, j :: 0 <= i < j < |db.ssh| ==> db.ssh[i].id != db.ssh[j].id)
    && (forall i, j :: 0 <= i < j < |db.xray| ==> db.xray[i].id != db.xray[j].id)
  }

  ghost predicate SshInv(ssh: seq<SshInbound>) {
    && (forall a :: a in ssh ==> Coherent(a))
    && (forall a, b :: a in ssh && b in ssh && a.id != b.id ==> Apart(a, b))
  }

  /** The ports anyone can reach. */
  ghost predicate Inv(db: Db) {
    && UniqueIds(db)
    && SshInv(db.ssh)
    && (forall a :: a in db.ssh ==> ClearOf(db, a))
    && (forall x :: x in db.xray && x.port > 0 ==> x.port != db.panel && x.port != db.sub)
    && (forall x, y :: x in db.xray && y in db.xray && x.id != y.id ==> PublicApart(x, y))
  }

  /** A hidden port exists exactly behind a payload bypass. */
  predicate HiddenOk(x: XrayInbound) {
    if x.payloadBypass then x.payloadBackendPort > 0 && x.payloadBackendPort != x.port else x.payloadBackendPort == 0
  }

  predicate HiddenApart(x: XrayInbound, y: XrayInbound) {
    && (x.payloadBackendPort > 0 ==> x.payloadBackendPort != y.port && x.payloadBackendPort != y.payloadBackendPort)
    && (y.payloadBackendPort > 0 ==> y.payloadBackendPort != x.port)
  }

  /** The hidden ports of the Xray rows. */
  ghost predicate HiddenInv(xray: seq<XrayInbound>) {
    && (forall x :: x in xray ==> HiddenOk(x))
    && (forall x, y :: x in xray && y in xray && x.id != y.id ==> HiddenApart(x, y))
  }

  // ---------------------------------------------------------------- what the reservations say

  ghost predicate SshUses(ssh: seq<SshInbound>, exclude: int, p: int) {
    exists o :: o in ssh && o.id != exclude && Uses(o, p)
  }

  lemma {:induction false} SshDomain(ssh: seq<SshInbound>, exclude: int, p: int)
    ensures p in ReserveAllSsh(ssh, exclude) <==> SshUses(ssh, exclude, p)
  {
    if ssh != [] {
      var prefix, o := ssh[..|ssh| - 1], ssh[|ssh| - 1];
      SshDomain(prefix, exclude, p);
      assert ssh == prefix + [o];
      assert o in ssh;
      if SshUses(prefix, exclude, p) {
        var w :| w in prefix && w.id != exclude && Uses(w, p);
        assert w in ssh;
      }
    }
  }

  lemma {:induction false} XrayDomain(m: Reservations, xray: seq<XrayInbound>, p: int)
    ensures p in ReserveAllXray(m, xray) <==> p in m || (p > 0 && exists x :: x in xray && x.port == p)
    ensures p in m && (forall x :: x in xray ==> x.port != p) ==> ReserveAllXray(m, xray)[p] == m[p]
    ensures p > 0 && (exists x :: x in xray && x.port == p) ==> ReserveAllXray(m, xray)[p] == XrayPort
  {
    if xray != [] {
      var prefix, x := xray[..|xray| - 1], xray[|xray| - 1];
      XrayDomain(m, prefix, p);
      assert xray == prefix + [x];
      assert x in xray;
    }
  }

  /** The reserved ports are exactly the positive ports of the other SSH rows, of every Xray row, and
      of the panel. */
  lemma ReservedExactly(db: Db, exclude: int, p: int)
    ensures p in Reserved(db, exclude) <==>
      p > 0 && (SshUses(db.ssh, exclude, p) || (exists x :: x in db.xray && x.port == p) || p == db.panel || p == db.sub)
  {
    SshDomain(db.ssh, exclude, p);
    XrayDomain(ReserveAllSsh(db.ssh, exclude), db.xray, p);
  }

  lemma {:induction false} SharedInSsh(ssh: seq<SshInbound>, exclude: int, p: int, o: SshInbound)
    requires SshInv(ssh)
    requires forall i, j :: 0 <= i < j < |ssh| ==> ssh[i].id != ssh[j].id
    requires p in ReserveAllSsh(ssh, exclude) && ReserveAllSsh(ssh, exclude)[p] == UdpRelay
    requires o in ssh && o.id != exclude && Uses(o, p)
    ensures p == o.udp
  {
    var prefix, last := ssh[..|ssh| - 1], ssh[|ssh| - 1];
    assert ssh == prefix + [last];
    assert last in ssh;
    if last.id != exclude && Uses(last, p) {
      if o != last { assert o.id != last.id; assert Apart(o, last); }
    } else {
      assert forall a :: a in prefix ==> a in ssh;
      SharedInSsh(prefix, exclude, p, o);
    }
  }

  /** Under the invariant, a port recorded as another row's UDP relay is nothing but a relay. */
  lemma SharedRelayIsOnlyARelay(db: Db, exclude: int, p: int)
    requires Inv(db) && p in Reserved(db, exclude) && Reserved(db, exclude)[p] == UdpRelay
    ensures forall o :: o in db.ssh && o.id != exclude && Uses(o, p) ==> p == o.udp
    ensures (forall x :: x in db.xray ==> x.port != p) && p != db.panel && p != db.sub
  {
    ReservedExactly(db, exclude, p);
    XrayDomain(ReserveAllSsh(db.ssh, exclude), db.xray, p);
    forall o | o in db.ssh && o.id != exclude && Uses(o, p) ensures p == o.udp {
      SharedInSsh(db.ssh, exclude, p, o);
    }
  }

  /** Without it the record is not enough: the last row read decides it, so a relay port that is also
      an earlier row's listen port is admitted for sharing. */
  lemma SharingNeedsTheInvariant()
    ensures exists db: Db, v: SshInbound, free ::
      PortsOk(db, v, free) && Validated(v) == Some(v) && (exists o :: o in db.ssh && o.id != v.id && o.listen == v.udp)
  {
    var a := SshInbound(1, true, Normal, 80, 80, 0, 0, true, true);
    var b := SshInbound(2, true, Normal, 81, 81, 0, 80, true, true);
    var v := SshInbound(3, true, Normal, 82, 82, 0, 80, true, true);
    var db := Db([a, b], [], 0, 0);
    assert db.ssh[..1] == [a] && db.ssh[..1][..0] == [];
    assert ReserveAllSsh([a], 3) == map[80 := SshPort];
    assert Reserved(db, 3) == map[80 := UdpRelay, 81 := SshPort];
    assert a in db.ssh;
    assert PortsOk(db, v, p => true);
  }

  // ---------------------------------------------------------------- a row that fits

  /** The row can join the tables, whatever other row of its id it replaces. */
  ghost predicate Fits(db: Db, v: SshInbound) {
    && Coherent(v)
    && (forall a :: a in db.ssh && a.id != v.id ==> Apart(v, a))
    && ClearOf(db, v)
  }

  /** The ports a row gets from validation alone. */
  predicate Sound(v: SshInbound) {
    && ValidPort(v.listen)
    && (if v.mode == Normal then v.backend == v.listen else ValidPort(v.backend))
    && (v.udp > 0 ==> v.udp != v.listen && v.udp != v.backend && v.udp != v.gateway)
  }

  lemma ValidatedIsSound(r: SshInbound)
    requires Validated(r).Some?
    ensures Sound(Validated(r).value) && Validated(r).value.id == r.id
    ensures Validated(r).value.mode in {Normal, PayloadOnly} ==> Validated(r).value.gateway == 0
  {
  }

  /** A row admitted by the checks fits the tables if and only if its gateway port, which the checks
      never look at, is not reserved. */
  lemma FitsIffGatewayFree(db: Db, v: SshInbound, free: int -> bool)
    requires Inv(db) && Sound(v) && PortsOk(db, v, free)
    ensures Fits(db, v) <==> v.gateway !in Reserved(db, v.id)
  {
    ReservedExactly(db, v.id, v.gateway);
    if v.gateway !in Reserved(db, v.id) {
      forall p | Uses(v, p)
        ensures p in Reserved(db, v.id) ==> p == v.udp && Reserved(db, v.id)[p] == UdpRelay
      {
      }
      forall a | a in db.ssh && a.id != v.id ensures Apart(v, a) {
        forall p | Uses(v, p) && Uses(a, p) ensures p == v.udp == a.udp {
          ReservedExactly(db, v.id, p);
          SharedRelayIsOnlyARelay(db, v.id, p);
        }
      }
      forall x | x in db.xray ensures !Uses(v, x.port) {
        ReservedExactly(db, v.id, x.port);
        if Uses(v, x.port) { SharedRelayIsOnlyARelay(db, v.id, x.port); }
      }
      NotThePanels(db, v, free, db.panel);
      NotThePanels(db, v, free, db.sub);
    } else if SshUses(db.ssh, v.id, v.gateway) {
      var o :| o in db.ssh && o.id != v.id && Uses(o, v.gateway);
      assert !Apart(v, o);
    }
  }

  lemma NotThePanels(db: Db, v: SshInbound, free: int -> bool, p: int)
    requires Inv(db) && Sound(v) && PortsOk(db, v, free) && v.gateway !in Reserved(db, v.id)
    requires p == db.panel || p == db.sub
    ensures !Uses(v, p)
  {
    ReservedExactly(db, v.id, p);
    if Uses(v, p) { SharedRelayIsOnlyARelay(db, v.id, p); }
  }

  lemma {:induction false} AllocatedAvoids(reserved: Reservations, r: SshInbound, offers: seq<Option<int>>, i: nat)
    requires AllocateFrom(reserved, r, offers, i).Some?
    ensures AllocateFrom(reserved, r, offers, i).value !in reserved
    ensures AllocateFrom(reserved, r, offers, i).value !in {r.listen, r.backend, r.udp}
    decreases GATEWAY_TRIES - i
  {
    var p := offers[i].value;
    if p == r.listen || p == r.backend || p == r.udp || p in reserved { AllocatedAvoids(reserved, r, offers, i + 1); }
  }

  // ---------------------------------------------------------------- the SSH table changes

  lemma {:induction false} RowIsIn(ssh: seq<SshInbound>, id: int)
    ensures Row(ssh, id).Some? ==> Row(ssh, id).value in ssh && Row(ssh, id).value.id == id
    ensures Row(ssh, id).None? ==> forall a :: a in ssh ==> a.id != id
  {
    if ssh != [] && ssh[0].id != id { RowIsIn(ssh[1..], id); }
  }

  lemma {:induction false} WithoutKeeps(ssh: seq<SshInbound>, id: int)
    ensures forall a :: a in Without(ssh, id) <==> a in ssh && a.id != id
  {
    if ssh != [] {
      WithoutKeeps(ssh[1..], id);
      assert ssh == [ssh[0]] + ssh[1..];
    }
  }

  lemma {:induction false} WithoutStaysDistinct(ssh: seq<SshInbound>, id: int)
    requires forall i, j :: 0 <= i < j < |ssh| ==> ssh[i].id != ssh[j].id
    ensures forall i, j :: 0 <= i < j < |Without(ssh, id)| ==> Without(ssh, id)[i].id != Without(ssh, id)[j].id
  {
    if ssh != [] {
      WithoutKeeps(ssh[1..], id);
      WithoutStaysDistinct(ssh[1..], id);
      assert forall a :: a in ssh[1..] ==> a.id != ssh[0].id;
    }
  }

  lemma Appended(db: Db, v: SshInbound)
    requires Inv(db) && Fits(db, v) && v.id > 0 && (forall a :: a in db.ssh ==> a.id != v.id)
    ensures Inv(db.(ssh := db.ssh + [v]))
  {
  }

  lemma Replaced(db: Db, v: SshInbound)
    requires Inv(db) && Fits(db, v) && v.id > 0
    ensures Inv(db.(ssh := Replace(db.ssh, v)))
  {
    var ssh := Replace(db.ssh, v);
    assert forall a :: a in ssh ==> a == v || (a in db.ssh && a.id != v.id);
  }

  lemma Removed(db: Db, id: int)
    requires Inv(db)
    ensures Inv(db.(ssh := Without(db.ssh, id)))
  {
    WithoutKeeps(db.ssh, id);
    WithoutStaysDistinct(db.ssh, id);
  }

  lemma OwnGatewayIsUnreserved(db: Db, cur: SshInbound)
    requires Inv(db) && cur in db.ssh
    ensures cur.gateway !in Reserved(db, cur.id)
  {
    ReservedExactly(db, cur.id, cur.gateway);
    forall o | o in db.ssh && o.id != cur.id ensures !Uses(o, cur.gateway) {
      assert Apart(cur, o);
    }
  }

  /** Adding a row keeps the invariant if and only if the gateway port sent for a TLS mode is not
      reserved, and the row shares no port with the stored row whose id the request carries: the checks
      take the request for an edit of that row and skip it. A gateway left at 0 is always safe. */
  lemma AddKeepsInvIff(db: Db, r: SshInbound, env: Env)
    requires Inv(db) && AddedSsh(db, r, env).Some?
    requires env.newId > 0 && Row(db.ssh, env.newId).None?
    ensures Inv(db.(ssh := db.ssh + [AddedSsh(db, r, env).value])) <==>
      && !(r.mode in {TlsSni, TlsPayload} && r.gateway in Reserved(db, r.id))
      && forall cur :: cur in db.ssh && cur.id == r.id ==> Apart(AddedSsh(db, r, env).value, cur)
  {
    var w := AddedSsh(db, r, env).value;
    var v := w.(id := r.id);
    ValidatedIsSound(r);
    RowIsIn(db.ssh, env.newId);
    ReservedExactly(db, r.id, 0);
    if Validated(r).value.mode == TlsPayload && r.gateway == 0 {
      AllocatedAvoids(Reserved(db, r.id), Validated(r).value, env.offers, 0);
    }
    assert v.gateway in Reserved(db, r.id) <==> r.mode in {TlsSni, TlsPayload} && r.gateway in Reserved(db, r.id);
    FitsIffGatewayFree(db, v, env.free);
    FitsUnderNewId(db, v, env.newId);
    if Fits(db, w) {
      Appended(db, w);
    } else {
      MisfitBreaks(db, db.ssh + [w], w);
    }
  }

  /** A row that could replace one can be added beside it if the two are apart. */
  lemma FitsUnderNewId(db: Db, v: SshInbound, id: int)
    requires forall a :: a in db.ssh ==> a.id != id
    ensures Fits(db, v.(id := id)) <==>
      Fits(db, v) && forall cur :: cur in db.ssh && cur.id == v.id ==> Apart(v.(id := id), cur)
  {
    var w := v.(id := id);
    assert forall p :: Uses(w, p) <==> Uses(v, p);
    assert forall a :: Apart(w, a) <==> Apart(v, a);
  }

  /** A request to add a copy of a row under that row's id is admitted, although none of its ports is
      free, and makes two rows listen on one port. */
  lemma AddingUnderAStoredIdConflicts()
    ensures exists db: Db, r: SshInbound, env: Env ::
      Inv(db) && r.gateway == 0 && env.newId > 0 && Row(db.ssh, env.newId).None? && (forall p :: !env.free(p)) &&
      AddedSsh(db, r, env).Some? && !Inv(Apply(db, AddSsh(r), env))
  {
    var r := SshInbound(1, true, Normal, 2222, 2222, 0, 0, true, true);
    var db := Db([r], [], 0, 0);
    var env := Env(p => false, [], 2, true, true);
    assert Inv(db);
    assert db.ssh[..0] == [] && db.ssh[1..] == [];
    assert ReserveAllSsh([r], 1) == map[];
    assert Reserved(db, 1) == map[];
    var w := r.(id := 2);
    assert AddedSsh(db, r, env) == Some(w);
    assert !Apart(w, r) by { assert Uses(w, 2222) && Uses(r, 2222); }
    assert Apply(db, AddSsh(r), env).ssh == [r, w];
    AddKeepsInvIff(db, r, env);
    assert r in db.ssh;
  }

  lemma MisfitBreaks(db: Db, ssh: seq<SshInbound>, v: SshInbound)
    requires v in ssh && (forall a :: a in db.ssh && a.id != v.id ==> a in ssh) && !Fits(db, v)
    ensures !Inv(db.(ssh := ssh))
  {
  }

  /** The gateway an update settles on is reserved only when it was sent that way. */
  lemma SettledGateway(db: Db, r: SshInbound, env: Env)
    requires Inv(db) && UpdatedSsh(db, r, env).Some?
    ensures Sound(UpdatedSsh(db, r, env).value) && UpdatedSsh(db, r, env).value.id == r.id
    ensures UpdatedSsh(db, r, env).value.gateway in Reserved(db, r.id) <==>
      r.mode == TlsPayload && r.gateway in Reserved(db, r.id)
  {
    ValidatedIsSound(r);
    RowIsIn(db.ssh, r.id);
    ReservedExactly(db, r.id, 0);
    OwnGatewayIsUnreserved(db, Row(db.ssh, r.id).value);
    if Allocated(db, Validated(r).value, env.offers).Some? {
      AllocatedAvoids(Reserved(db, r.id), Validated(r).value, env.offers, 0);
    }
  }

  lemma OthersSurviveReplace(ssh: seq<SshInbound>, v: SshInbound)
    ensures forall a :: a in ssh && a.id != v.id ==> a in Replace(ssh, v)
    ensures Row(ssh, v.id).Some? ==> v in Replace(ssh, v)
  {
    RowIsIn(ssh, v.id);
    forall a | a in ssh ensures (if a.id == v.id then v else a) in Replace(ssh, v) {
      var i :| 0 <= i < |ssh| && ssh[i] == a;
      assert Replace(ssh, v)[i] == if a.id == v.id then v else a;
    }
  }

  /** Updating a row keeps the invariant if and only if the gateway port sent for a payload mode is
      not reserved by someone else; one left at 0 always does. */
  lemma UpdateKeepsInvIff(db: Db, r: SshInbound, env: Env)
    requires Inv(db) && UpdatedSsh(db, r, env).Some?
    ensures Inv(db.(ssh := Replace(db.ssh, UpdatedSsh(db, r, env).value))) <==>
      !(r.mode == TlsPayload && r.gateway in Reserved(db, r.id))
  {
    var v := UpdatedSsh(db, r, env).value;
    RowIsIn(db.ssh, r.id);
    SettledGateway(db, r, env);
    FitsIffGatewayFree(db, v, env.free);
    if Fits(db, v) {
      Replaced(db, v);
    } else {
      OthersSurviveReplace(db.ssh, v);
      MisfitBreaks(db, Replace(db.ssh, v), v);
    }
  }

  lemma ReEnabled(db: Db, cur: SshInbound, enable: bool)
    requires Inv(db) && cur in db.ssh
    ensures Inv(db.(ssh := Replace(db.ssh, cur.(enable := enable))))
  {
    var v := cur.(enable := enable);
    assert forall p :: Uses(v, p) <==> Uses(cur, p);
    forall a | a in db.ssh && a.id != v.id ensures Apart(v, a) { assert Apart(cur, a); }
    Replaced(db, v);
  }

  lemma PutBack(db: Db, cur: SshInbound)
    requires Inv(db) && cur in db.ssh
    ensures Inv(db.(ssh := Without(db.ssh, cur.id) + [cur]))
  {
    var db' := db.(ssh := Without(db.ssh, cur.id));
    WithoutKeeps(db.ssh, cur.id);
    Removed(db, cur.id);
    Appended(db', cur);
  }

  // ---------------------------------------------------------------- the Xray table changes

  lemma {:induction false} XrayRowIsIn(xray: seq<XrayInbound>, id: int)
    ensures XrayRow(xray, id).Some? ==> XrayRow(xray, id).value in xray && XrayRow(xray, id).value.id == id
    ensures XrayRow(xray, id).None? ==> forall x :: x in xray ==> x.id != id
  {
    if xray != [] && xray[0].id != id { XrayRowIsIn(xray[1..], id); }
  }

  lemma {:induction false} WithoutXrayKeeps(xray: seq<XrayInbound>, id: int)
    ensures forall x :: x in WithoutXray(xray, id) <==> x in xray && x.id != id
  {
    if xray != [] {
      WithoutXrayKeeps(xray[1..], id);
      assert xray == [xray[0]] + xray[1..];
    }
  }

  lemma {:induction false} WithoutXrayStaysDistinct(xray: seq<XrayInbound>, id: int)
    requires forall i, j :: 0 <= i < j < |xray| ==> xray[i].id != xray[j].id
    ensures forall i, j :: 0 <= i < j < |WithoutXray(xray, id)| ==> WithoutXray(xray, id)[i].id != WithoutXray(xray, id)[j].id
  {
    if xray != [] {
      WithoutXrayKeeps(xray[1..], id);
      WithoutXrayStaysDistinct(xray[1..], id);
      assert forall x :: x in xray[1..] ==> x.id != xray[0].id;
    }
  }

  lemma SavedMembers(xray: seq<XrayInbound>, v: XrayInbound)
    ensures forall y :: y in SaveXray(xray, v) <==> y == v || (y in xray && y.id != v.id)
  {
    XrayRowIsIn(xray, v.id);
    if XrayRow(xray, v.id).Some? {
      var s := ReplaceXray(xray, v);
      forall y | y in xray ensures (if y.id == v.id then v else y) in s {
        var i :| 0 <= i < |xray| && xray[i] == y;
        assert s[i] == if y.id == v.id then v else y;
      }
    }
  }

  /** The public port of the row is nobody else's, whatever other row of its id it replaces. */
  ghost predicate XrayFits(db: Db, x: XrayInbound) {
    && (x.port > 0 ==> x.port != db.panel && x.port != db.sub)
    && (forall y :: y in db.xray && y.id != x.id ==> PublicApart(x, y))
    && (forall a :: a in db.ssh ==> !Uses(a, x.port))
  }

  ghost predicate HiddenFits(xray: seq<XrayInbound>, x: XrayInbound) {
    HiddenOk(x) && forall y :: y in xray && y.id != x.id ==> HiddenApart(x, y)
  }

  lemma XraySaved(db: Db, v: XrayInbound)
    requires Inv(db) && XrayFits(db, v) && v.id != 0
    ensures Inv(db.(xray := SaveXray(db.xray, v)))
  {
    SavedMembers(db.xray, v);
    XrayRowIsIn(db.xray, v.id);
  }

  lemma HiddenSavedIff(xray: seq<XrayInbound>, v: XrayInbound)
    requires HiddenInv(xray)
    ensures HiddenInv(SaveXray(xray, v)) <==> HiddenFits(xray, v)
  {
    SavedMembers(xray, v);
    if HiddenInv(SaveXray(xray, v)) {
      forall y | y in xray && y.id != v.id ensures HiddenApart(v, y) {
        assert y in SaveXray(xray, v) && v in SaveXray(xray, v);
      }
    }
  }

  lemma {:induction false} HiddenAvoids(db: Db, publicPort: int, offers: seq<Option<int>>, i: nat)
    requires AllocatedHidden(db, publicPort, offers, i).Some?
    ensures forall x :: x in db.xray ==>
      x.port != AllocatedHidden(db, publicPort, offers, i).value && x.payloadBackendPort != AllocatedHidden(db, publicPort, offers, i).value
    decreases 32 - i
  {
    var p := offers[i].value;
    if p == publicPort || (exists x :: x in db.xray && (x.port == p || x.payloadBackendPort == p)) || ExternallyOwned(db, p) {
      HiddenAvoids(db, publicPort, offers, i + 1);
    }
  }

  /** A public port that passes both checks fits. */
  lemma CheckedFits(db: Db, v: XrayInbound, ignore: int)
    requires !PortTaken(db, v.listen, v.port, ignore) && !ExternallyOwned(db, v.port) && (ignore > 0 ==> ignore == v.id)
    ensures XrayFits(db, v)
  {
  }

  /** The request brings a hidden port that another row has as hidden or public port. */
  ghost predicate BringsTaken(db: Db, x: XrayInbound, id: int) {
    && x.payloadBypass && x.payloadBackendPort > 0
    && exists y :: y in db.xray && y.id != id && (y.port == x.payloadBackendPort || y.payloadBackendPort == x.payloadBackendPort)
  }

  lemma HiddenFitsIff(db: Db, x: XrayInbound, v: XrayInbound, offers: seq<Option<int>>, ignore: int)
    requires !PortTaken(db, x.listen, x.port, ignore) && (ignore > 0 ==> ignore == v.id)
    requires WithHidden(db, x, offers).Some? && v == WithHidden(db, x, offers).value.(id := v.id)
    ensures HiddenFits(db.xray, v) <==> !BringsTaken(db, x, v.id)
  {
    if AllocatedHidden(db, x.port, offers, 0).Some? { HiddenAvoids(db, x.port, offers, 0); }
    if BringsTaken(db, x, v.id) {
      var y :| y in db.xray && y.id != v.id && (y.port == x.payloadBackendPort || y.payloadBackendPort == x.payloadBackendPort);
      assert !HiddenApart(v, y);
    } else {
      forall y | y in db.xray && y.id != v.id ensures HiddenApart(v, y) {
      }
    }
  }

  /** An add request for an Xray row keeps the public ports apart, whatever id or hidden port it
      carries. */
  lemma AddXrayKeepsInv(db: Db, x: XrayInbound, env: Env)
    requires Inv(db) && NewIds(db, AddXray(x), env)
    ensures Inv(Apply(db, AddXray(x), env))
  {
    if AddedXray(db, x, env).Some? {
      var v := AddedXray(db, x, env).value;
      CheckedFits(db, v, 0);
      XraySaved(db, v);
    }
  }

  lemma UpdateXrayKeepsInv(db: Db, x: XrayInbound, env: Env)
    requires Inv(db)
    ensures Inv(Apply(db, UpdateXray(x), env))
  {
    if UpdatedXray(db, x, env).Some? {
      var v := UpdatedXray(db, x, env).value;
      XrayRowIsIn(db.xray, x.id);
      CheckedFits(db, v, x.id);
      XraySaved(db, v);
    }
  }

  /** A hidden port that is sent along is never compared with those of other rows. So an accepted add
      keeps the hidden ports apart if and only if it brings none that another row has. */
  lemma AddXrayKeepsHiddenIff(db: Db, x: XrayInbound, env: Env)
    requires HiddenInv(db.xray) && AddedXray(db, x, env).Some?
    ensures HiddenInv(SaveXray(db.xray, AddedXray(db, x, env).value)) <==> !BringsTaken(db, x, AddedXray(db, x, env).value.id)
  {
    var v := AddedXray(db, x, env).value;
    HiddenFitsIff(db, x, v, env.offers, 0);
    HiddenSavedIff(db.xray, v);
  }

  /** An update does if and only if it brings none, or the stored row has one, which is kept. */
  lemma UpdateXrayKeepsHiddenIff(db: Db, x: XrayInbound, env: Env)
    requires HiddenInv(db.xray) && UpdatedXray(db, x, env).Some?
    ensures HiddenInv(SaveXray(db.xray, UpdatedXray(db, x, env).value)) <==>
      XrayRow(db.xray, x.id).value.payloadBypass || !BringsTaken(db, x, x.id)
  {
    var v := UpdatedXray(db, x, env).value;
    var cur := XrayRow(db.xray, x.id).value;
    XrayRowIsIn(db.xray, x.id);
    var kept := x.payloadBypass && cur.payloadBypass && cur.payloadBackendPort > 0;
    var sent := if kept then x.(payloadBackendPort := cur.payloadBackendPort) else x;
    HiddenFitsIff(db, sent, v, env.offers, x.id);
    HiddenSavedIff(db.xray, v);
    assert HiddenOk(cur);
    if kept {
      forall y | y in db.xray && y.id != x.id
        ensures y.port != cur.payloadBackendPort && y.payloadBackendPort != cur.payloadBackendPort
      {
        assert HiddenApart(cur, y);
      }
    }
  }

  /** Such a request: a new row whose hidden port is another row's public port. */
  lemma SentHiddenPortConflicts()
    ensures exists db: Db, x: XrayInbound, env: Env ::
      Inv(db) && HiddenInv(db.xray) && NewIds(db, AddXray(x), env) && x.id == 0 && !HiddenInv(Apply(db, AddXray(x), env).xray)
  {
    var y := PayloadGateways.Inbound(1, true, false, "", 8443, 0, None);
    var x := PayloadGateways.Inbound(0, true, true, "", 443, 8443, Some(PayloadGateways.Stream("ws", false)));
    var db := Db([], [y], 0, 0);
    var env := Env(p => true, [], 2, true, true);
    assert Inv(db);
    assert AddedXray(db, x, env) == Some(x.(id := 2));
    assert y in db.xray;
    assert BringsTaken(db, x, 2);
    AddXrayKeepsHiddenIff(db, x, env);
    assert NewIds(db, AddXray(x), env);
    assert Apply(db, AddXray(x), env).xray == SaveXray(db.xray, x.(id := 2));
    assert HiddenInv(db.xray);
  }

  lemma EnableXrayKeepsInv(db: Db, id: int, enable: bool, env: Env)
    requires Inv(db)
    ensures Inv(Apply(db, EnableXray(id, enable), env))
    ensures HiddenInv(db.xray) ==> HiddenInv(Apply(db, EnableXray(id, enable), env).xray)
  {
    XrayRowIsIn(db.xray, id);
    if XrayRow(db.xray, id).Some? {
      var cur := XrayRow(db.xray, id).value;
      forall v: XrayInbound | v.id == cur.id && v.listen == cur.listen && v.port == cur.port ensures Inv(db.(xray := SaveXray(db.xray, v))) {
        SamePublicPort(db, cur, v);
      }
      if HiddenInv(db.xray) {
        assert HiddenOk(cur);
        forall v: XrayInbound | v == cur.(enable := v.enable) ensures HiddenInv(SaveXray(db.xray, v)) {
          SameHiddenPort(db, cur, v);
        }
      }
    }
  }

  lemma SamePublicPort(db: Db, cur: XrayInbound, v: XrayInbound)
    requires Inv(db) && cur in db.xray && v.id == cur.id && v.listen == cur.listen && v.port == cur.port
    ensures Inv(db.(xray := SaveXray(db.xray, v)))
  {
    forall y | y in db.xray && y.id != v.id ensures PublicApart(v, y) { assert PublicApart(cur, y); }
    XraySaved(db, v);
  }

  lemma SameHiddenPort(db: Db, cur: XrayInbound, v: XrayInbound)
    requires HiddenInv(db.xray) && cur in db.xray && v == cur.(enable := v.enable)
    ensures HiddenInv(SaveXray(db.xray, v))
  {
    forall y | y in db.xray && y.id != v.id ensures HiddenApart(v, y) { assert HiddenApart(cur, y); }
    HiddenSavedIff(db.xray, v);
  }

  lemma DeleteXrayKeepsInv(db: Db, id: int)
    ensures Inv(db) ==> Inv(db.(xray := WithoutXray(db.xray, id)))
    ensures HiddenInv(db.xray) ==> HiddenInv(WithoutXray(db.xray, id))
  {
    WithoutXrayKeeps(db.xray, id);
    if UniqueIds(db) { WithoutXrayStaysDistinct(db.xray, id); }
  }

  // ---------------------------------------------------------------- all changes, all runs

  /** If the SSH row of a request is stored, its gateway port is not reserved, and it shares no port with a
      stored row whose id an add request carries. Xray requests are always safe. */
  ghost predicate Safe(db: Db, c: Change, env: Env) {
    match c
    case AddSsh(r) =>
      (AddedSsh(db, r, env).Some? && (env.reconcileOk || !env.rollbackOk) ==>
        && !(r.mode in {TlsSni, TlsPayload} && r.gateway in Reserved(db, r.id))
        && forall cur :: cur in db.ssh && cur.id == r.id ==> Apart(AddedSsh(db, r, env).value, cur))
    case UpdateSsh(r) =>
      (UpdatedSsh(db, r, env).Some? && (env.reconcileOk || !env.rollbackOk) ==>
        !(r.mode == TlsPayload && r.gateway in Reserved(db, r.id)))
    case _ => true
  }

  /** A change, whether it is accepted, refused, rolled back, or left behind by a failed rollback, keeps
      the public ports apart exactly when it is safe. */
  lemma ChangeKeepsInvIff(db: Db, c: Change, env: Env)
    requires Inv(db) && NewIds(db, c, env)
    ensures Inv(Apply(db, c, env)) <==> Safe(db, c, env)
  {
    match c
    case AddSsh(r) => if AddedSsh(db, r, env).Some? { AddKeepsInvIff(db, r, env); }
    case UpdateSsh(r) => if UpdatedSsh(db, r, env).Some? { UpdateKeepsInvIff(db, r, env); }
    case DeleteSsh(id) =>
      RowIsIn(db.ssh, id);
      Removed(db, id);
      if Row(db.ssh, id).Some? { PutBack(db, Row(db.ssh, id).value); }
    case EnableSsh(id, enable) =>
      RowIsIn(db.ssh, id);
      if Row(db.ssh, id).Some? { ReEnabled(db, Row(db.ssh, id).value, enable); }
    case AddXray(x) => AddXrayKeepsInv(db, x, env);
    case UpdateXray(x) => UpdateXrayKeepsInv(db, x, env);
    case EnableXray(id, enable) => EnableXrayKeepsInv(db, id, enable, env);
    case DeleteXray(id) => DeleteXrayKeepsInv(db, id);
  }

  /** If the Xray row of a request is stored, it brings no hidden port that another row has, or the stored
      row's own is kept. */
  ghost predicate HiddenSafe(db: Db, c: Change, env: Env) {
    match c
    case AddXray(x) => AddedXray(db, x, env).Some? && env.reconcileOk ==> !BringsTaken(db, x, AddedXray(db, x, env).value.id)
    case UpdateXray(x) =>
      (UpdatedXray(db, x, env).Some? && env.reconcileOk ==>
        XrayRow(db.xray, x.id).value.payloadBypass || !BringsTaken(db, x, x.id))
    case _ => true
  }

  lemma ChangeKeepsHiddenIff(db: Db, c: Change, env: Env)
    requires Inv(db) && HiddenInv(db.xray)
    ensures HiddenInv(Apply(db, c, env).xray) <==> HiddenSafe(db, c, env)
  {
    match c
    case AddXray(x) => if AddedXray(db, x, env).Some? { AddXrayKeepsHiddenIff(db, x, env); }
    case UpdateXray(x) => if UpdatedXray(db, x, env).Some? { UpdateXrayKeepsHiddenIff(db, x, env); }
    case EnableXray(id, enable) => EnableXrayKeepsInv(db, id, enable, env);
    case DeleteXray(id) => DeleteXrayKeepsInv(db, id);
    case _ => assert Apply(db, c, env).xray == db.xray;
  }

  /** What the panel's own pages send is safe: an add request without the id of a row, and gateway and
      hidden ports left to the panel or sent back as stored. */
  predicate Usual(db: Db, c: Change) {
    match c
    case AddSsh(r) => Row(db.ssh, r.id).None? && r.gateway == 0
    case UpdateSsh(r) => r.gateway == 0 || (Row(db.ssh, r.id).Some? && Row(db.ssh, r.id).value.gateway == r.gateway)
    case AddXray(x) => x.payloadBackendPort == 0
    case UpdateXray(x) =>
      x.payloadBackendPort == 0 ||
      (XrayRow(db.xray, x.id).Some? && XrayRow(db.xray, x.id).value.payloadBackendPort == x.payloadBackendPort)
    case _ => true
  }

  lemma UsualIsSafe(db: Db, c: Change, env: Env)
    requires Inv(db) && Usual(db, c)
    ensures Safe(db, c, env)
    ensures HiddenInv(db.xray) ==> HiddenSafe(db, c, env)
  {
    match c
    case AddSsh(r) =>
      ReservedExactly(db, r.id, 0);
      RowIsIn(db.ssh, r.id);
    case UpdateSsh(r) =>
      ReservedExactly(db, r.id, 0);
      RowIsIn(db.ssh, r.id);
      if Row(db.ssh, r.id).Some? { OwnGatewayIsUnreserved(db, Row(db.ssh, r.id).value); }
    case UpdateXray(x) =>
      XrayRowIsIn(db.xray, x.id);
      if HiddenInv(db.xray) && XrayRow(db.xray, x.id).Some? { assert HiddenOk(XrayRow(db.xray, x.id).value); }
    case _ =>
  }

  function Run(db: Db, steps: seq<(Change, Env)>): Db
    decreases |steps|
  {
    if steps == [] then db else Run(Apply(db, steps[0].0, steps[0].1), steps[1..])
  }

  lemma {:induction false} RunOneMore(db: Db, steps: seq<(Change, Env)>, last: (Change, Env))
    ensures Run(db, steps + [last]) == Apply(Run(db, steps), last.0, last.1)
    decreases |steps|
  {
    if steps == [] {
      assert [last][1..] == [];
    } else {
      assert (steps + [last])[0] == steps[0] && (steps + [last])[1..] == steps[1..] + [last];
      RunOneMore(Apply(db, steps[0].0, steps[0].1), steps[1..], last);
    }
  }

  ghost predicate AllNewIds(db: Db, steps: seq<(Change, Env)>)
    decreases |steps|
  {
    steps == [] || (NewIds(db, steps[0].0, steps[0].1) && AllNewIds(Apply(db, steps[0].0, steps[0].1), steps[1..]))
  }

  ghost predicate AllSafe(db: Db, steps: seq<(Change, Env)>)
    decreases |steps|
  {
    steps == [] || (Safe(db, steps[0].0, steps[0].1) && AllSafe(Apply(db, steps[0].0, steps[0].1), steps[1..]))
  }

  ghost predicate AllHiddenSafe(db: Db, steps: seq<(Change, Env)>)
    decreases |steps|
  {
    steps == [] || (HiddenSafe(db, steps[0].0, steps[0].1) && AllHiddenSafe(Apply(db, steps[0].0, steps[0].1), steps[1..]))
  }

  /** The invariant holds before, between and after the changes. */
  ghost predicate InvThroughout(db: Db, steps: seq<(Change, Env)>)
    decreases |steps|
  {
    Inv(db) && (steps == [] || InvThroughout(Apply(db, steps[0].0, steps[0].1), steps[1..]))
  }

  ghost predicate HiddenThroughout(db: Db, steps: seq<(Change, Env)>)
    decreases |steps|
  {
    HiddenInv(db.xray) && (steps == [] || HiddenThroughout(Apply(db, steps[0].0, steps[0].1), steps[1..]))
  }

  /** A run keeps the public ports apart all the time exactly when each of its changes is safe. */
  lemma {:induction false} RunKeepsInvIff(db: Db, steps: seq<(Change, Env)>)
    requires Inv(db) && AllNewIds(db, steps)
    ensures InvThroughout(db, steps) <==> AllSafe(db, steps)
    ensures AllSafe(db, steps) ==> Inv(Run(db, steps))
    decreases |steps|
  {
    if steps != [] {
      var next := Apply(db, steps[0].0, steps[0].1);
      ChangeKeepsInvIff(db, steps[0].0, steps[0].1);
      if Inv(next) { RunKeepsInvIff(next, steps[1..]); }
    }
  }

  lemma {:induction false} RunKeepsHiddenIff(db: Db, steps: seq<(Change, Env)>)
    requires InvThroughout(db, steps) && HiddenInv(db.xray)
    ensures HiddenThroughout(db, steps) <==> AllHiddenSafe(db, steps)
    ensures AllHiddenSafe(db, steps) ==> HiddenInv(Run(db, steps).xray)
    decreases |steps|
  {
    if steps != [] {
      var next := Apply(db, steps[0].0, steps[0].1);
      ChangeKeepsHiddenIff(db, steps[0].0, steps[0].1);
      if HiddenInv(next.xray) { RunKeepsHiddenIff(next, steps[1..]); }
    }
  }

  /** Starting from empty tables, no sequence of safe changes gives two inbounds the same port: SSH rows
      share nothing but a common UDP relay, no SSH row uses a public Xray port or the panel's, and
      Xray rows on one port listen on different single addresses. */
  lemma PortsNeverConflict(panel: int, sub: int, steps: seq<(Change, Env)>, db: Db)
    requires AllNewIds(Db([], [], panel, sub), steps) && AllSafe(Db([], [], panel, sub), steps)
    requires db == Run(Db([], [], panel, sub), steps)
    ensures forall a, b, p :: a in db.ssh && b in db.ssh && a.id != b.id && Uses(a, p) && Uses(b, p) ==> p == a.udp == b.udp
    ensures forall a, x :: a in db.ssh && x in db.xray ==> !Uses(a, x.port)
    ensures forall a :: a in db.ssh ==> !Uses(a, db.panel) && !Uses(a, db.sub)
    ensures forall x, y :: x in db.xray && y in db.xray && x.id != y.id && x.port == y.port ==> !Overlap(x.listen, y.listen)
  {
    assert Inv(Db([], [], panel, sub));
    RunKeepsInvIff(Db([], [], panel, sub), steps);
    forall a, b, p | a in db.ssh && b in db.ssh && a.id != b.id && Uses(a, p) && Uses(b, p) ensures p == a.udp == b.udp {
      assert Apart(a, b);
    }
    forall x, y | x in db.xray && y in db.xray && x.id != y.id && x.port == y.port
      ensures !Overlap(x.listen, y.listen)
    {
      assert PublicApart(x, y);
    }
  }

  /** And if none brings a taken hidden port, hidden ports are no other Xray row's port of any kind. */
  lemma HiddenPortsNeverConflict(panel: int, sub: int, steps: seq<(Change, Env)>, db: Db)
    requires AllNewIds(Db([], [], panel, sub), steps) && AllSafe(Db([], [], panel, sub), steps)
    requires AllHiddenSafe(Db([], [], panel, sub), steps) && db == Run(Db([], [], panel, sub), steps)
    ensures forall x, y :: x in db.xray && y in db.xray && x.payloadBypass ==>
      x.payloadBackendPort != y.port && (x.id != y.id ==> x.payloadBackendPort != y.payloadBackendPort)
  {
    var start := Db([], [], panel, sub);
    assert Inv(start) && HiddenInv(start.xray);
    RunKeepsInvIff(start, steps);
    RunKeepsHiddenIff(start, steps);
    forall x, y | x in db.xray && y in db.xray && x.payloadBypass
      ensures x.payloadBackendPort != y.port && (x.id != y.id ==> x.payloadBackendPort != y.payloadBackendPort)
    {
      assert HiddenOk(x);
      if x.id != y.id {
        assert HiddenApart(x, y);
      } else {
        SameRow(db, x, y);
      }
    }
  }

  lemma SameRow(db: Db, x: XrayInbound, y: XrayInbound)
    requires UniqueIds(db) && x in db.xray && y in db.xray && x.id == y.id
    ensures x == y
  {
    var i :| 0 <= i < |db.xray| && db.xray[i] == x;
    var j :| 0 <= j < |db.xray| && db.xray[j] == y;
  }

  // ---------------------------------------------------------------- SSH rows and hidden ports

  predicate SamePorts(a: seq<XrayInbound>, b: seq<XrayInbound>) {
    |a| == |b| && forall i :: 0 <= i < |a| ==> a[i].port == b[i].port
  }

  lemma {:induction false} SameReservations(m: Reservations, a: seq<XrayInbound>, b: seq<XrayInbound>)
    requires SamePorts(a, b)
    ensures ReserveAllXray(m, a) == ReserveAllXray(m, b)
  {
    if a != [] { SameReservations(m, a[..|a| - 1], b[..|b| - 1]); }
  }

  /** The SSH side never looks at hidden ports: it accepts, refuses and completes a request the same way
      whatever they are. Only the live probe can keep a row off one. */
  lemma SshChecksIgnoreHiddenPorts(db: Db, xray: seq<XrayInbound>, r: SshInbound, env: Env)
    requires SamePorts(db.xray, xray)
    ensures AddedSsh(db.(xray := xray), r, env) == AddedSsh(db, r, env)
    ensures UpdatedSsh(db.(xray := xray), r, env) == UpdatedSsh(db, r, env)
  {
    var other := db.(xray := xray);
    SameReservations(ReserveAllSsh(db.ssh, r.id), db.xray, xray);
    assert Reserved(other, r.id) == Reserved(db, r.id);
    if Validated(r).Some? { ValidatedIsSound(r); }
  }

  // ---------------------------------------------------------------- what the changes achieve

  /** After a delete no row has the id and every other row is as it was; if the host refuses and the rollback
      succeeds, exactly the old rows are there. */
  lemma DeletedIsGone(db: Db, id: int, env: Env)
    requires Inv(db)
    ensures var after := Apply(db, DeleteSsh(id), env);
      && after.xray == db.xray && after.panel == db.panel && after.sub == db.sub
      && (env.reconcileOk || !env.rollbackOk ==> forall a :: a in after.ssh <==> a in db.ssh && a.id != id)
      && (!env.reconcileOk && env.rollbackOk ==> forall a :: a in after.ssh <==> a in db.ssh)
  {
    RowIsIn(db.ssh, id);
    WithoutKeeps(db.ssh, id);
    if Row(db.ssh, id).Some? {
      forall a | a in db.ssh && a.id == id ensures a == Row(db.ssh, id).value {
        SameSshRow(db, a, Row(db.ssh, id).value);
      }
    }
  }

  lemma SameSshRow(db: Db, a: SshInbound, b: SshInbound)
    requires UniqueIds(db) && a in db.ssh && b in db.ssh && a.id == b.id
    ensures a == b
  {
    var i :| 0 <= i < |db.ssh| && db.ssh[i] == a;
    var j :| 0 <= j < |db.ssh| && db.ssh[j] == b;
  }

  /** Deleting an Xray row, the same. */
  lemma DeletedXrayIsGone(db: Db, id: int, env: Env)
    ensures var after := Apply(db, DeleteXray(id), env);
      after.ssh == db.ssh && forall x :: x in after.xray <==> x in db.xray && x.id != id
  {
    WithoutXrayKeeps(db.xray, id);
  }

  /** Switching a row on or off changes that flag of that row, and nothing when the host refuses and the
      rollback succeeds. */
  lemma EnabledAlone(db: Db, id: int, enable: bool, env: Env)
    requires Inv(db)
    ensures var after := Apply(db, EnableSsh(id, enable), env);
      && after.xray == db.xray && |after.ssh| == |db.ssh|
      && forall i :: 0 <= i < |db.ssh| ==>
           after.ssh[i] == if db.ssh[i].id == id && (env.reconcileOk || !env.rollbackOk) then db.ssh[i].(enable := enable) else db.ssh[i]
  {
    RowIsIn(db.ssh, id);
    forall i | 0 <= i < |db.ssh| && db.ssh[i].id == id ensures Row(db.ssh, id) == Some(db.ssh[i]) {
      assert db.ssh[i] in db.ssh;
      SameSshRow(db, db.ssh[i], Row(db.ssh, id).value);
    }
  }

  /** A request that can be stored: the named ports exist and differ as its mode needs them to, and a TLS mode
      has its certificate. */
  predicate WellMeant(r: SshInbound) {
    && r.nameOk && r.mode != UnknownMode && 0 < r.listen < 65536
    && (r.mode != Normal ==> 0 < r.backend < 65536 && r.backend != r.listen)
    && (r.mode == TlsSni || r.mode == TlsPayload ==> r.certOk)
    && (r.udp > 0 ==> r.udp < 65536 && r.udp !in {r.listen, r.backend} && (r.gateway > 0 ==> r.udp != r.gateway))
  }

  lemma ValidatedIff(r: SshInbound)
    ensures Validated(r).Some? <==> WellMeant(r)
    ensures Validated(r).Some? ==>
      Validated(r).value == r.(backend := if r.mode == Normal then r.listen else r.backend,
                               gateway := if r.mode == Normal || r.mode == PayloadOnly then 0 else r.gateway)
  {
  }

  /** Somebody else's port: of an SSH row of another id, an Xray row, or the panel. */
  ghost predicate Claimed(db: Db, id: int, p: int) {
    p > 0 && ((exists o :: o in db.ssh && o.id != id && p in {o.listen, o.backend, o.gateway, o.udp})
              || (exists x :: x in db.xray && x.port == p) || p == db.panel || p == db.sub)
  }

  /** Whoever has the port has it as a relay. */
  ghost predicate OnlyRelay(db: Db, id: int, p: int) {
    && (forall o :: o in db.ssh && o.id != id && p in {o.listen, o.backend, o.gateway, o.udp} ==> p == o.udp)
    && (forall x :: x in db.xray ==> x.port != p) && p != db.panel && p != db.sub
  }

  lemma ClaimedIff(db: Db, id: int, p: int)
    ensures p in Reserved(db, id) <==> Claimed(db, id, p)
  {
    ReservedExactly(db, id, p);
    if SshUses(db.ssh, id, p) {
      var o :| o in db.ssh && o.id != id && Uses(o, p);
      assert p in {o.listen, o.backend, o.gateway, o.udp};
    }
    if o :| o in db.ssh && o.id != id && p > 0 && p in {o.listen, o.backend, o.gateway, o.udp} { assert Uses(o, p); }
  }

  lemma RelayIff(db: Db, id: int, p: int)
    requires Inv(db) && p in Reserved(db, id)
    ensures Reserved(db, id)[p] == UdpRelay <==> OnlyRelay(db, id, p)
  {
    ReservedExactly(db, id, p);
    XrayDomain(ReserveAllSsh(db.ssh, id), db.xray, p);
    if Reserved(db, id)[p] == UdpRelay {
      SharedRelayIsOnlyARelay(db, id, p);
    } else if OnlyRelay(db, id, p) {
      assert SshUses(db.ssh, id, p);
      assert forall o :: o in db.ssh && o.id != id && Uses(o, p) ==> p == o.udp;
      SshDomain(db.ssh, id, p);
      OnlyRelaysReserve(db.ssh, id, p);
    }
  }

  lemma {:induction false} OnlyRelaysReserve(ssh: seq<SshInbound>, id: int, p: int)
    requires p in ReserveAllSsh(ssh, id) && forall o :: o in ssh && o.id != id && Uses(o, p) ==> p == o.udp
    ensures ReserveAllSsh(ssh, id)[p] == UdpRelay
  {
    var prefix, last := ssh[..|ssh| - 1], ssh[|ssh| - 1];
    assert ssh == prefix + [last];
    assert last in ssh;
    if !(last.id != id && Uses(last, p)) { OnlyRelaysReserve(prefix, id, p); }
  }

  /** When the ports of a row are admitted: its listen port, and its backend port if it has one of its own, are
      nobody else's; its relay port is nobody else's but a relay; and on the host the listen port is free or
      the running row's own, the relay port free or some running row's relay already. */
  lemma PortsOkIff(db: Db, r: SshInbound, free: int -> bool)
    requires Inv(db)
    ensures PortsOk(db, r, free) <==>
      && !Claimed(db, r.id, r.listen)
      && (r.mode != Normal ==> !Claimed(db, r.id, r.backend))
      && (!Claimed(db, r.id, r.udp) || OnlyRelay(db, r.id, r.udp))
      && (free(r.listen) || exists o :: o in db.ssh && o.id == r.id && o.enable && o.listen == r.listen)
      && (r.udp > 0 ==> free(r.udp) || exists o :: o in db.ssh && o.enable && o.udp == r.udp)
  {
    ClaimedIff(db, r.id, r.listen);
    ClaimedIff(db, r.id, r.backend);
    ClaimedIff(db, r.id, r.udp);
    if r.udp in Reserved(db, r.id) { RelayIff(db, r.id, r.udp); }
    RowIsIn(db.ssh, r.id);
    forall o | o in db.ssh && o.id == r.id ensures Row(db.ssh, r.id) == Some(o) {
      SameSshRow(db, o, Row(db.ssh, r.id).value);
    }
  }

  /** The gateway port an update ends with: none outside the payload mode; in it the one sent, else the one
      stored if it is not the new relay port, else a new one; and the update is refused when there is none, or
      it is the relay port. */
  lemma UpdatedIff(db: Db, r: SshInbound, env: Env)
    requires Row(db.ssh, r.id).Some?
    ensures var cur, p := Row(db.ssh, r.id).value, Allocated(db, r, env.offers);
      var gateway := if r.mode != TlsPayload then Some(0) else if r.gateway != 0 then Some(r.gateway)
                     else if cur.gateway != 0 && cur.gateway != r.udp then Some(cur.gateway) else p;
      && (UpdatedSsh(db, r, env).Some? <==>
            && WellMeant(r) && PortsOk(db, r.(backend := if r.mode == Normal then r.listen else r.backend), env.free)
            && gateway.Some? && !(r.mode == TlsPayload && r.udp > 0 && gateway.value == r.udp))
      && (UpdatedSsh(db, r, env).Some? ==>
            UpdatedSsh(db, r, env).value ==
            r.(backend := if r.mode == Normal then r.listen else r.backend, gateway := gateway.value))
  {
    ValidatedIff(r);
  }

  /** The listen addresses overlap: they are equal, or one of them means all. */
  predicate Overlap(a: string, b: string) {
    a == b || a in {"", "0.0.0.0", "::", "::0"} || b in {"", "0.0.0.0", "::", "::0"}
  }

  /** Nobody has the port in the way of an Xray row: as hidden port, as public port on an overlapping address, as
      a port of an SSH row, or of the panel. */
  ghost predicate XrayPortFree(db: Db, listen: string, port: int, ignore: int) {
    && (forall x :: x in db.xray && !(ignore > 0 && x.id == ignore) ==>
          x.payloadBackendPort != port && !(x.port == port && Overlap(x.listen, listen)))
    && (port > 0 ==> port != db.panel && port != db.sub && forall o :: o in db.ssh ==> port !in {o.listen, o.backend, o.gateway, o.udp})
  }

  lemma XrayPortFreeIff(db: Db, listen: string, port: int, ignore: int)
    ensures XrayPortFree(db, listen, port, ignore) <==> !PortTaken(db, listen, port, ignore) && !ExternallyOwned(db, port)
  {
  }

  /** When an Xray row is accepted, and what is stored: all rows are in the way of a new one, all others of an
      updated one; an update keeps the hidden port the row has. */
  lemma AddedXrayIff(db: Db, x: XrayInbound, env: Env)
    ensures var row := PayloadGateways.Ensured(x, AllocatedHidden(db, x.port, env.offers, 0));
      && (AddedXray(db, x, env).Some? <==> XrayPortFree(db, x.listen, x.port, 0) && row.Some?)
      && (AddedXray(db, x, env).Some? ==> AddedXray(db, x, env).value == row.value.(id := if x.id != 0 then x.id else env.newId))
  {
    XrayPortFreeIff(db, x.listen, x.port, 0);
  }

  lemma UpdatedXrayIff(db: Db, x: XrayInbound, env: Env)
    requires HiddenInv(db.xray)
    ensures var cur := XrayRow(db.xray, x.id);
      var sent := if x.payloadBypass && cur.Some? && cur.value.payloadBypass
                  then x.(payloadBackendPort := cur.value.payloadBackendPort) else x;
      var row := PayloadGateways.Ensured(sent, AllocatedHidden(db, x.port, env.offers, 0));
      && (UpdatedXray(db, x, env).Some? <==> cur.Some? && XrayPortFree(db, x.listen, x.port, x.id) && row.Some?)
      && (UpdatedXray(db, x, env).Some? ==> UpdatedXray(db, x, env) == row)
  {
    XrayPortFreeIff(db, x.listen, x.port, x.id);
    XrayRowIsIn(db.xray, x.id);
    if XrayRow(db.xray, x.id).Some? { assert HiddenOk(XrayRow(db.xray, x.id).value); }
  }

  /** The hidden port drawn is the first of 32 offered that is not the public one and nobody's. */
  predicate UsableHidden(db: Db, publicPort: int, p: int) {
    && p != publicPort && (forall x :: x in db.xray ==> x.port != p && x.payloadBackendPort != p)
    && !ExternallyOwned(db, p)
  }

  predicate FirstUsableHidden(db: Db, publicPort: int, offers: seq<Option<int>>, i: nat, k: int, p: int) {
    && i <= k < 32 && k < |offers| && offers[k] == Some(p) && UsableHidden(db, publicPort, p)
    && forall j :: i <= j < k ==> offers[j].Some? && !UsableHidden(db, publicPort, offers[j].value)
  }

  lemma {:induction false} AllocatedHiddenIff(db: Db, publicPort: int, offers: seq<Option<int>>, i: nat, p: int)
    requires i <= 32
    ensures AllocatedHidden(db, publicPort, offers, i) == Some(p) <==> exists k :: FirstUsableHidden(db, publicPort, offers, i, k, p)
    decreases 32 - i
  {
    if i < 32 && i < |offers| && offers[i].Some? {
      if UsableHidden(db, publicPort, offers[i].value) {
        if AllocatedHidden(db, publicPort, offers, i) == Some(p) { assert FirstUsableHidden(db, publicPort, offers, i, i, p); }
      } else {
        AllocatedHiddenIff(db, publicPort, offers, i + 1, p);
        assert AllocatedHidden(db, publicPort, offers, i) == AllocatedHidden(db, publicPort, offers, i + 1);
        FirstHiddenIsLater(db, publicPort, offers, i, i + 1, p);
      }
    }
  }

  lemma FirstHiddenIsLater(db: Db, publicPort: int, offers: seq<Option<int>>, i: nat, next: nat, p: int)
    requires i < |offers| && next == i + 1 && offers[i].Some? && !UsableHidden(db, publicPort, offers[i].value)
    ensures (exists k :: FirstUsableHidden(db, publicPort, offers, i, k, p)) <==> exists k :: FirstUsableHidden(db, publicPort, offers, next, k, p)
  {
    if k :| FirstUsableHidden(db, publicPort, offers, i, k, p) { assert FirstUsableHidden(db, publicPort, offers, next, k, p); }
    if k :| FirstUsableHidden(db, publicPort, offers, next, k, p) { assert FirstUsableHidden(db, publicPort, offers, i, k, p); }
  }

  /** The flag of an Xray row after it was switched: on only if it passes the check and its listener comes up. */
  function FlagAfter(cur: XrayInbound, enable: bool, env: Env): bool {
    if enable && !cur.enable then env.reconcileOk && PayloadGateways.Ensured(cur, None).Some? else enable
  }

  lemma XrayFlagSaved(db: Db, id: int, enable: bool, env: Env)
    requires HiddenInv(db.xray) && XrayRow(db.xray, id).Some?
    ensures var cur, after := XrayRow(db.xray, id).value, Apply(db, EnableXray(id, enable), env);
      after == db.(xray := after.xray) &&
      ((after.xray == db.xray && FlagAfter(cur, enable, env) == cur.enable) ||
       after.xray == SaveXray(db.xray, cur.(enable := FlagAfter(cur, enable, env))))
  {
    XrayRowIsIn(db.xray, id);
    var cur := XrayRow(db.xray, id).value;
    assert HiddenOk(cur);
    if WithHidden(db, cur, env.offers).Some? && cur.payloadBypass { assert WithHidden(db, cur, env.offers).value == cur; }
  }

  /** Switching changes that flag of that row alone. */
  lemma XrayEnabledAlone(db: Db, id: int, enable: bool, env: Env, y: XrayInbound)
    requires Inv(db) && HiddenInv(db.xray) && XrayRow(db.xray, id).Some?
    ensures var cur, after := XrayRow(db.xray, id).value, Apply(db, EnableXray(id, enable), env);
      && after == db.(xray := after.xray)
      && (y in after.xray <==> ((y in db.xray && y.id != id) || y == cur.(enable := FlagAfter(cur, enable, env))))
  {
    var cur := XrayRow(db.xray, id).value;
    XrayRowIsIn(db.xray, id);
    XrayFlagSaved(db, id, enable, env);
    SavedMembers(db.xray, cur.(enable := FlagAfter(cur, enable, env)));
    if y in db.xray && y.id == id { SameRow(db, y, cur); }
  }

  /** When an add request is accepted: it is well meant, nobody's port is taken but a relay's for the relay, the
      ports can be had, and a gateway port is there if the mode needs one. The row stored is the one sent, with
      the backend of its mode, that gateway and the new id. */
  lemma AddedIff(db: Db, r: SshInbound, env: Env)
    ensures AddedSsh(db, r, env).Some? ==>
      && WellMeant(r) && PortsOk(db, Validated(r).value, env.free)
      && var v := AddedSsh(db, r, env).value;
         && v.id == env.newId && v.mode == r.mode && v.listen == r.listen && v.udp == r.udp && v.enable == r.enable
         && v.backend == (if r.mode == Normal then r.listen else r.backend)
         && (r.mode == Normal || r.mode == PayloadOnly ==> v.gateway == 0)
         && (r.mode == TlsSni || (r.mode == TlsPayload && r.gateway != 0) ==> v.gateway == r.gateway)
         && (r.mode == TlsPayload ==> v.gateway != 0 || Some(0) in env.offers)
    ensures AddedSsh(db, r, env).None? ==>
      || !WellMeant(r) || !PortsOk(db, Validated(r).value, env.free)
      || (r.mode == TlsPayload && r.gateway == 0 && Allocated(db, Validated(r).value, env.offers).None?)
  {
    ValidatedIff(r);
    if WellMeant(r) { AllocatedIsOffered(Reserved(db, r.id), Validated(r).value, env.offers, 0); }
  }

  lemma {:induction false} AllocatedIsOffered(reserved: Reservations, r: SshInbound, offers: seq<Option<int>>, i: nat)
    ensures AllocateFrom(reserved, r, offers, i).Some? ==> AllocateFrom(reserved, r, offers, i) in offers
    decreases GATEWAY_TRIES - i
  {
    if i < GATEWAY_TRIES && i < |offers| && offers[i].Some? { AllocatedIsOffered(reserved, r, offers, i + 1); }
  }

  /** Which ports are offered decides the gateway: the first of twenty that is reserved by nobody and is none of
      the row's own, unless the kernel gave up before. */
  lemma {:induction false} AllocatedIff(reserved: Reservations, r: SshInbound, offers: seq<Option<int>>, i: nat, p: int)
    requires i <= 20
    ensures AllocateFrom(reserved, r, offers, i) == Some(p) <==> exists k :: FirstUsable(reserved, r, offers, i, k, p)
    decreases 20 - i
  {
    if i < 20 && i < |offers| && offers[i].Some? {
      if Usable(reserved, r, offers[i].value) {
        if AllocateFrom(reserved, r, offers, i) == Some(p) { assert FirstUsable(reserved, r, offers, i, i, p); }
      } else {
        AllocatedIff(reserved, r, offers, i + 1, p);
        assert AllocateFrom(reserved, r, offers, i) == AllocateFrom(reserved, r, offers, i + 1);
        FirstIsLater(reserved, r, offers, i, i + 1, p);
      }
    }
  }

  lemma FirstIsLater(reserved: Reservations, r: SshInbound, offers: seq<Option<int>>, i: nat, next: nat, p: int)
    requires i < |offers| && next == i + 1 && offers[i].Some? && !Usable(reserved, r, offers[i].value)
    ensures (exists k :: FirstUsable(reserved, r, offers, i, k, p)) <==> exists k :: FirstUsable(reserved, r, offers, next, k, p)
  {
    if k :| FirstUsable(reserved, r, offers, i, k, p) { assert FirstUsable(reserved, r, offers, next, k, p); }
    if k :| FirstUsable(reserved, r, offers, next, k, p) { assert FirstUsable(reserved, r, offers, i, k, p); }
  }

  predicate Usable(reserved: Reservations, r: SshInbound, p: int) {
    p !in reserved && p != r.listen && p != r.backend && p != r.udp
  }

  predicate FirstUsable(reserved: Reservations, r: SshInbound, offers: seq<Option<int>>, i: nat, k: int, p: int) {
    && i <= k < 20 && k < |offers| && offers[k] == Some(p) && Usable(reserved, r, p)
    && forall j :: i <= j < k ==> offers[j].Some? && !Usable(reserved, r, offers[j].value)
  }

  // ---------------------------------------------------------------- the ports of one row

  predicate GatewayClashes(w: SshInbound) {
    w.gateway > 0 && w.gateway in {w.listen, w.backend}
  }

  /** The checks do not compare a row's gateway port with its own listen and backend ports. An added row
      clashes with itself exactly when it was sent that way. */
  lemma AddedGatewayClashesIff(db: Db, r: SshInbound, env: Env)
    requires AddedSsh(db, r, env).Some?
    ensures GatewayClashes(AddedSsh(db, r, env).value) <==> r.mode in {TlsSni, TlsPayload} && GatewayClashes(r)
  {
    if Validated(r).value.mode == TlsPayload && r.gateway == 0 {
      AllocatedAvoids(Reserved(db, r.id), Validated(r).value, env.offers, 0);
    }
  }

  /** An updated row clashes with itself exactly when it is in payload mode and either it was sent that
      way, or no gateway was sent and the stored one, which is kept, is the new listen or backend port. */
  lemma UpdatedGatewayClashesIff(db: Db, r: SshInbound, env: Env)
    requires UpdatedSsh(db, r, env).Some?
    ensures var stored := Row(db.ssh, r.id).value.gateway;
      GatewayClashes(UpdatedSsh(db, r, env).value) <==>
        r.mode == TlsPayload &&
        (if r.gateway != 0 then GatewayClashes(r) else stored != r.udp && GatewayClashes(r.(gateway := stored)))
  {
    var v := Validated(r).value;
    if Allocated(db, v, env.offers).Some? { AllocatedAvoids(Reserved(db, v.id), v, env.offers, 0); }
  }

  /** It happens to a stopped row: its old gateway port is free again and may be chosen as listen port. */
  lemma KeptGatewayCanMeetItsOwnListenPort()
    ensures exists db: Db, r: SshInbound, env: Env ::
      Inv(db) && UpdatedSsh(db, r, env).Some? && !Row(db.ssh, r.id).value.enable && r.gateway == 0 &&
      GatewayClashes(UpdatedSsh(db, r, env).value)
  {
    var cur := SshInbound(1, true, TlsPayload, 443, 2222, 9000, 0, false, true);
    var db := Db([cur], [], 0, 0);
    var r := cur.(listen := 9000, gateway := 0);
    var env := Env(p => p == 9000, [], 0, true, true);
    assert Inv(db);
    assert db.ssh[..0] == [];
    assert ReserveAllSsh([cur], 1) == map[];
    assert Reserved(db, 1) == map[];
    assert UpdatedSsh(db, r, env) == Some(r.(gateway := 9000));
  }

  // ---------------------------------------------------------------- the service's methods

  /** The two tables as the services change them: insert or save first, reconcile the host, and undo
      on failure. */
  class Tables {
    var db: Db

    constructor (panel: int, sub: int)
      ensures db == Db([], [], panel, sub) && Inv(db)
    {
      db := Db([], [], panel, sub);
    }

    /** `UpdateInbound`'s and `AddInbound`'s `validateInbound`, which overwrites fields of the row. */
    static method ValidateInbound(r: SshInbound) returns (v: SshInbound, ok: bool)
      ensures (if ok then Some(v) else None) == Validated(r)
    {
      v := r;
      ok := false;
      if !r.nameOk || r.mode == UnknownMode || !ValidPort(r.listen) { return; }
      if r.udp > 0 {
        if !ValidPort(r.udp) { return; }
        if r.udp == r.listen || r.udp == r.backend || (r.gateway > 0 && r.udp == r.gateway) { return; }
      }
      if r.mode == Normal {
        v := v.(backend := v.listen);
        v := v.(gateway := 0);
      } else {
        if !ValidPort(r.backend) || r.backend == r.listen { return; }
        if r.mode == PayloadOnly { v := v.(gateway := 0); }
        else if !r.certOk { return; }
      }
      ok := true;
    }

    method AddInbound(r: SshInbound, env: Env) returns (ok: bool)
      requires Row(db.ssh, env.newId).None?
      modifies this
      ensures db == Apply(old(db), AddSsh(r), env)
      ensures ok <==> AddedSsh(old(db), r, env).Some? && env.reconcileOk
    {
      var v;
      v, ok := ValidateInbound(r);
      if !ok { return; }
      ok := CheckInboundPorts(db, v, env.free);
      if !ok { return; }
      if v.mode == TlsPayload && v.gateway == 0 {
        var p := AllocateGatewayPort(db, v, env.offers);
        ok := p.Some?;
        if !ok { return; }
        v := v.(gateway := p.value);
      }
      v := v.(id := env.newId);
      RowIsIn(db.ssh, v.id);
      InsertedThenDeleted(db.ssh, v);
      db := db.(ssh := db.ssh + [v]);
      ok := env.reconcileOk;
      if !ok && env.rollbackOk { db := db.(ssh := Without(db.ssh, v.id)); }
    }

    method UpdateInbound(r: SshInbound, env: Env) returns (ok: bool)
      requires UniqueIds(db)
      modifies this
      ensures db == Apply(old(db), UpdateSsh(r), env)
      ensures ok <==> UpdatedSsh(old(db), r, env).Some? && env.reconcileOk
    {
      var found := Row(db.ssh, r.id);
      ok := found.Some?;
      if !ok { return; }
      var cur := found.value;
      var v;
      v, ok := ValidateInbound(r);
      if !ok { return; }
      ok := CheckInboundPorts(db, v, env.free);
      if !ok { return; }
      v, ok := ChooseGateway(v, cur, env.offers);
      if !ok { return; }
      ok := SaveAndReconcile(v, cur, env);
    }

    method ChooseGateway(r: SshInbound, cur: SshInbound, offers: seq<Option<int>>) returns (v: SshInbound, ok: bool)
      ensures (if ok then Some(v) else None) == WithGateway(db, r, cur, offers)
    {
      v := r;
      ok := true;
      if v.mode == TlsPayload {
        if v.gateway == 0 {
          if cur.gateway != 0 && cur.gateway != v.udp {
            v := v.(gateway := cur.gateway);
          } else {
            var p := AllocateGatewayPort(db, v, offers);
            ok := p.Some?;
            if !ok { return; }
            v := v.(gateway := p.value);
          }
        }
        if v.udp > 0 && v.gateway == v.udp { ok := false; }
      } else {
        v := v.(gateway := 0);
      }
    }

    method SaveAndReconcile(v: SshInbound, cur: SshInbound, env: Env) returns (ok: bool)
      requires UniqueIds(db) && Row(db.ssh, v.id) == Some(cur)
      modifies this
      ensures db == if env.reconcileOk || !env.rollbackOk then old(db).(ssh := Replace(old(db).ssh, v)) else old(db)
      ensures ok == env.reconcileOk
    {
      SavedThenRestored(db.ssh, v, cur);
      db := db.(ssh := Replace(db.ssh, v));
      ok := env.reconcileOk;
      if !ok && env.rollbackOk { db := db.(ssh := Replace(db.ssh, cur)); }
    }

    method DelInbound(id: int, env: Env) returns (ok: bool)
      modifies this
      ensures db == Apply(old(db), DeleteSsh(id), env)
      ensures Inv(old(db)) ==> Inv(db)
      ensures ok <==> Row(old(db).ssh, id).Some? && env.reconcileOk
    {
      if Inv(db) { ChangeKeepsInvIff(db, DeleteSsh(id), env); }
      var cur := Row(db.ssh, id);
      ok := cur.Some?;
      if !ok { return; }
      db := db.(ssh := Without(db.ssh, id));
      ok := env.reconcileOk;
      if !ok && env.rollbackOk { db := db.(ssh := db.ssh + [cur.value]); }
    }
  }

  lemma {:induction false} NothingToDelete(ssh: seq<SshInbound>, id: int)
    requires forall a :: a in ssh ==> a.id != id
    ensures Without(ssh, id) == ssh
  {
    if ssh != [] {
      assert ssh[0] in ssh;
      NothingToDelete(ssh[1..], id);
    }
  }

  lemma {:induction false} WithoutAppend(a: seq<SshInbound>, v: SshInbound)
    ensures Without(a + [v], v.id) == Without(a, v.id)
  {
    if a == [] {
      assert a + [v] == [v];
    } else {
      assert (a + [v])[1..] == a[1..] + [v];
      WithoutAppend(a[1..], v);
    }
  }

  /** Deleting the row just inserted gives back the old table. */
  lemma InsertedThenDeleted(ssh: seq<SshInbound>, v: SshInbound)
    requires forall a :: a in ssh ==> a.id != v.id
    ensures Without(ssh + [v], v.id) == ssh
  {
    WithoutAppend(ssh, v);
    NothingToDelete(ssh, v.id);
  }

  /** Saving the previous row over an update gives back the old table. */
  lemma SavedThenRestored(ssh: seq<SshInbound>, v: SshInbound, cur: SshInbound)
    requires Row(ssh, v.id) == Some(cur)
    requires forall i, j :: 0 <= i < j < |ssh| ==> ssh[i].id != ssh[j].id
    ensures Replace(Replace(ssh, v), cur) == ssh
  {
    RowIsIn(ssh, v.id);
    forall i | 0 <= i < |ssh| ensures Replace(Replace(ssh, v), cur)[i] == ssh[i] {
    }
  }
}
