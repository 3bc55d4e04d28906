/** Who owns which port: the SSH inbounds, the Xray inbounds, the panel and its subscription server,
    and the checks that every change of the two tables has to pass. */
module PortRegistry {
  import opened Wrappers
  import PayloadGateways

  type XrayInbound = PayloadGateways.Inbound

  datatype Mode = Normal | TlsSni | TlsPayload | PayloadOnly | UnknownMode

  /** `nameOk` and `certOk` stand for the checks on the name and the certificate paths. */
  datatype SshInbound = SshInbound(id: int, nameOk: bool, mode: Mode, listen: int, backend: int,
                                   gateway: int, udp: int, enable: bool, certOk: bool)

  /** The two tables, and the panel's ports (0 when a setting cannot be read). */
  datatype Db = Db(ssh: seq<SshInbound>, xray: seq<XrayInbound>, panel: int, sub: int)

  predicate ValidPort(p: int) {
    1 <= p <= 65535
  }

  // ---------------------------------------------------------------- reservations

  datatype Owner = SshPort | UdpRelay | XrayPort | Panel

  type Reservations = map<int, Owner>

  function Reserve(m: Reservations, p: int, o: Owner): Reservations {
    if p > 0 then m[p := o] else m
  }

  function ReserveSsh(m: Reservations, o: SshInbound): Reservations {
    Reserve(Reserve(Reserve(Reserve(m, o.listen, SshPort), o.backend, SshPort), o.gateway, SshPort), o.udp, UdpRelay)
  }

  function ReserveAllSsh(ssh: seq<SshInbound>, exclude: int): Reservations {
    if ssh == [] then map[]
    else
      var m := ReserveAllSsh(ssh[..|ssh| - 1], exclude);
      if ssh[|ssh| - 1].id == exclude then m else ReserveSsh(m, ssh[|ssh| - 1])
  }

  function ReserveAllXray(m: Reservations, xray: seq<XrayInbound>): Reservations {
    if xray == [] then m
    else Reserve(ReserveAllXray(m, xray[..|xray| - 1]), xray[|xray| - 1].port, XrayPort)
  }

  /** `collectReservedPorts`. Later entries overwrite the owner of earlier ones. */
  function Reserved(db: Db, exclude: int): Reservations {
    Reserve(Reserve(ReserveAllXray(ReserveAllSsh(db.ssh, exclude), db.xray), db.panel, Panel), db.sub, Panel)
  }

  method CollectReservedPorts(db: Db, exclude: int) returns (reserved: Reservations)
    ensures reserved == Reserved(db, exclude)
  {
    reserved := map[];
    for i := 0 to |db.ssh|
      invariant reserved == ReserveAllSsh(db.ssh[..i], exclude)
    {
      assert db.ssh[..i + 1][..i] == db.ssh[..i];
      var o := db.ssh[i];
      if o.id != exclude {
        if o.listen > 0 { reserved := reserved[o.listen := SshPort]; }
        if o.backend > 0 { reserved := reserved[o.backend := SshPort]; }
        if o.gateway > 0 { reserved := reserved[o.gateway := SshPort]; }
        if o.udp > 0 { reserved := reserved[o.udp := UdpRelay]; }
      }
    }
    assert db.ssh[..|db.ssh|] == db.ssh;
    for i := 0 to |db.xray|
      invariant reserved == ReserveAllXray(ReserveAllSsh(db.ssh, exclude), db.xray[..i])
    {
      assert db.xray[..i + 1][..i] == db.xray[..i];
      if db.xray[i].port > 0 { reserved := reserved[db.xray[i].port := XrayPort]; }
    }
    assert db.xray[..|db.xray|] == db.xray;
    if db.panel > 0 { reserved := reserved[db.panel := Panel]; }
    if db.sub > 0 { reserved := reserved[db.sub := Panel]; }
  }

  // ---------------------------------------------------------------- SSH side

  /** `validateInbound`, including the fields it overwrites. */
  function Validated(r: SshInbound): Option<SshInbound> {
    if !r.nameOk || r.mode.UnknownMode? || !ValidPort(r.listen) then None
    else if r.udp > 0 && (!ValidPort(r.udp) || r.udp == r.listen || r.udp == r.backend || (r.gateway > 0 && r.udp == r.gateway)) then None
    else match r.mode
      case Normal => Some(r.(backend := r.listen, gateway := 0))
      case PayloadOnly => if !ValidPort(r.backend) || r.backend == r.listen then None else Some(r.(gateway := 0))
      case _ => if !ValidPort(r.backend) || r.backend == r.listen || !r.certOk then None else Some(r)
  }

  predicate Admits(reserved: Reservations, p: int, allowShared: bool) {
    p <= 0 || p !in reserved || (allowShared && reserved[p] == UdpRelay)
  }

  function Row(ssh: seq<SshInbound>, id: int): Option<SshInbound> {
    if ssh == [] then None else if ssh[0].id == id then Some(ssh[0]) else Row(ssh[1..], id)
  }

  /** `checkInboundPorts`: the reservations, then a live probe of ports that are new to the row. */
  predicate PortsOk(db: Db, r: SshInbound, free: int -> bool) {
    var reserved := Reserved(db, r.id);
    var cur := if r.id > 0 then Row(db.ssh, r.id) else None;
    && Admits(reserved, r.listen, false)
    && (r.mode != Normal ==> Admits(reserved, r.backend, false))
    && Admits(reserved, r.udp, true)
    && ((cur.Some? && cur.value.enable && cur.value.listen == r.listen) || free(r.listen))
    && (r.udp > 0 ==>
          || (cur.Some? && cur.value.enable && cur.value.udp == r.udp)
          || (exists o :: o in db.ssh && o.id != r.id && o.udp == r.udp && o.enable)
          || free(r.udp))
  }

  method CheckInboundPorts(db: Db, r: SshInbound, free: int -> bool) returns (ok: bool)
    ensures ok == PortsOk(db, r, free)
  {
    var reserved := CollectReservedPorts(db, r.id);
    if r.listen > 0 && r.listen in reserved { return false; }
    if r.mode != Normal && r.backend > 0 && r.backend in reserved { return false; }
    if r.udp > 0 && r.udp in reserved && reserved[r.udp] != UdpRelay { return false; }
    var prevSamePublic, prevSameUdp := false, false;
    if r.id > 0 {
      var cur := Row(db.ssh, r.id);
      if cur.Some? && cur.value.enable {
        prevSamePublic := cur.value.listen == r.listen;
        prevSameUdp := r.udp > 0 && cur.value.udp == r.udp;
      }
    }
    if !prevSamePublic && !free(r.listen) { return false; }
    if r.udp > 0 && !prevSameUdp {
      var shared := false;
      var i := 0;
      while i < |db.ssh| && !shared
        invariant 0 <= i <= |db.ssh|
        invariant shared <==> exists k :: 0 <= k < i && db.ssh[k].id != r.id && db.ssh[k].udp == r.udp && db.ssh[k].enable
      {
        shared := db.ssh[i].id != r.id && db.ssh[i].udp == r.udp && db.ssh[i].enable;
        i := i + 1;
      }
      assert shared <==> exists o :: o in db.ssh && o.id != r.id && o.udp == r.udp && o.enable;
      if !shared && !free(r.udp) { return false; }
    }
    ok := true;
  }

  const GATEWAY_TRIES: nat := 20

  /** `allocateGatewayPort`: the first of the ports the kernel offers that nothing uses; an error
      from the kernel (None) ends the search. */
  function Allocated(db: Db, r: SshInbound, offers: seq<Option<int>>): Option<int> {
    AllocateFrom(Reserved(db, r.id), r, offers, 0)
  }

  function AllocateFrom(reserved: Reservations, r: SshInbound, offers: seq<Option<int>>, i: nat): Option<int>
    decreases GATEWAY_TRIES - i
  {
    if i >= GATEWAY_TRIES || i >= |offers| || offers[i].None? then None
    else
      var p := offers[i].value;
      if p == r.listen || p == r.backend || p == r.udp || p in reserved then AllocateFrom(reserved, r, offers, i + 1)
      else Some(p)
  }

  method AllocateGatewayPort(db: Db, r: SshInbound, offers: seq<Option<int>>) returns (p: Option<int>)
    ensures p == Allocated(db, r, offers)
  {
    var reserved := CollectReservedPorts(db, r.id);
    var i := 0;
    while i < GATEWAY_TRIES
      invariant AllocateFrom(reserved, r, offers, i) == Allocated(db, r, offers)
    {
      if i >= |offers| || offers[i].None? { return None; }
      var gp := offers[i].value;
      if !(gp == r.listen || gp == r.backend || gp == r.udp) && gp !in reserved { return Some(gp); }
      i := i + 1;
    }
    p := None;
  }

  /** What a change meets: which ports are free on the host, the ports the kernel offers, the id of a
      new row, and whether the host reconcile and the rollback succeed. */
  datatype Env = Env(free: int -> bool, offers: seq<Option<int>>, newId: int, reconcileOk: bool, rollbackOk: bool)

  /** The row `AddInbound` inserts. */
  function AddedSsh(db: Db, r: SshInbound, env: Env): Option<SshInbound> {
    match Validated(r)
    case None => None
    case Some(v) =>
      if !PortsOk(db, v, env.free) then None
      else if v.mode == TlsPayload && v.gateway == 0 then
        match Allocated(db, v, env.offers) { case None => None case Some(p) => Some(v.(gateway := p, id := env.newId)) }
      else Some(v.(id := env.newId))
  }

  /** The gateway port an update settles on: the one sent, the one stored, or a new one. */
  function WithGateway(db: Db, v: SshInbound, cur: SshInbound, offers: seq<Option<int>>): Option<SshInbound> {
    if v.mode != TlsPayload then Some(v.(gateway := 0))
    else
      var g := if v.gateway != 0 then Some(v.gateway)
               else if cur.gateway != 0 && cur.gateway != v.udp then Some(cur.gateway)
               else Allocated(db, v, offers);
      if g.None? || (v.udp > 0 && g.value == v.udp) then None else Some(v.(gateway := g.value))
  }

  /** The row `UpdateInbound` saves. */
  function UpdatedSsh(db: Db, r: SshInbound, env: Env): Option<SshInbound> {
    var cur := Row(db.ssh, r.id);
    if cur.None? then None
    else match Validated(r)
      case None => None
      case Some(v) =>
        if PortsOk(db, v, env.free) then WithGateway(db, v, cur.value, env.offers) else None
  }

  function Replace(ssh: seq<SshInbound>, r: SshInbound): (s: seq<SshInbound>)
    ensures |s| == |ssh|
    ensures forall i :: 0 <= i < |ssh| ==> s[i] == if ssh[i].id == r.id then r else ssh[i]
  {
    seq(|ssh|, i requires 0 <= i < |ssh| => if ssh[i].id == r.id then r else ssh[i])
  }

  function Without(ssh: seq<SshInbound>, id: int): seq<SshInbound> {
    if ssh == [] then [] else (if ssh[0].id == id then [] else [ssh[0]]) + Without(ssh[1..], id)
  }

  // ---------------------------------------------------------------- Xray side

  predicate Wildcard(listen: string) {
    listen == "" || listen == "0.0.0.0" || listen == "::" || listen == "::0"
  }

  /** `checkPortExist`; an id of 0 ignores no row. */
  predicate PortTaken(db: Db, listen: string, port: int, ignore: int) {
    || (exists x :: x in db.xray && x.payloadBackendPort == port && !(ignore > 0 && x.id == ignore))
    || (exists x :: x in db.xray && x.port == port && !(ignore > 0 && x.id == ignore) &&
          (Wildcard(listen) || x.listen == listen || Wildcard(x.listen)))
  }

  /** `externalPortOwner` finds an owner. */
  predicate ExternallyOwned(db: Db, port: int) {
    port > 0 &&
    ((exists o :: o in db.ssh && (port == o.listen || port == o.backend || port == o.gateway || port == o.udp)) ||
     port == db.panel || port == db.sub)
  }

  method ExternalPortOwner(db: Db, port: int) returns (owned: bool)
    ensures owned == ExternallyOwned(db, port)
  {
    if port <= 0 { return false; }
    for i := 0 to |db.ssh|
      invariant forall k :: 0 <= k < i ==>
        port != db.ssh[k].listen && port != db.ssh[k].backend && port != db.ssh[k].gateway && port != db.ssh[k].udp
    {
      var o := db.ssh[i];
      if port == o.listen || port == o.backend || port == o.gateway || port == o.udp { return true; }
    }
    owned := port == db.panel || port == db.sub;
  }

  /** `allocatePayloadBackendPort`: the first of up to 32 offered ports that is neither the public
      port nor used in either table. */
  function AllocatedHidden(db: Db, publicPort: int, offers: seq<Option<int>>, i: nat): Option<int>
    decreases 32 - i
  {
    if i >= 32 || i >= |offers| || offers[i].None? then None
    else
      var p := offers[i].value;
      if p == publicPort || (exists x :: x in db.xray && (x.port == p || x.payloadBackendPort == p)) || ExternallyOwned(db, p)
      then AllocatedHidden(db, publicPort, offers, i + 1)
      else Some(p)
  }

  function WithHidden(db: Db, x: XrayInbound, offers: seq<Option<int>>): Option<XrayInbound> {
    PayloadGateways.Ensured(x, AllocatedHidden(db, x.port, offers, 0))
  }

  function XrayRow(xray: seq<XrayInbound>, id: int): Option<XrayInbound> {
    if xray == [] then None else if xray[0].id == id then Some(xray[0]) else XrayRow(xray[1..], id)
  }

  /** The row `AddInbound` saves: under the id the request carries, if any. */
  function AddedXray(db: Db, x: XrayInbound, env: Env): Option<XrayInbound> {
    if PortTaken(db, x.listen, x.port, 0) || ExternallyOwned(db, x.port) then None
    else match WithHidden(db, x, env.offers)
      case None => None
      case Some(v) => Some(v.(id := if x.id != 0 then x.id else env.newId))
  }

  /** The row `UpdateInbound` saves. */
  function UpdatedXray(db: Db, x: XrayInbound, env: Env): Option<XrayInbound> {
    var cur := XrayRow(db.xray, x.id);
    if PortTaken(db, x.listen, x.port, x.id) || ExternallyOwned(db, x.port) || cur.None? then None
    else
      var kept := x.payloadBypass && cur.value.payloadBypass && cur.value.payloadBackendPort > 0;
      WithHidden(db, if kept then x.(payloadBackendPort := cur.value.payloadBackendPort) else x, env.offers)
  }

  function ReplaceXray(xray: seq<XrayInbound>, x: XrayInbound): (s: seq<XrayInbound>)
    ensures |s| == |xray|
    ensures forall i :: 0 <= i < |xray| ==> s[i] == if xray[i].id == x.id then x else xray[i]
  {
    seq(|xray|, i requires 0 <= i < |xray| => if xray[i].id == x.id then x else xray[i])
  }

  /** `Save` writes over the row of that id, or inserts one. */
  function SaveXray(xray: seq<XrayInbound>, x: XrayInbound): seq<XrayInbound> {
    if XrayRow(xray, x.id).Some? then ReplaceXray(xray, x) else xray + [x]
  }

  function WithoutXray(xray: seq<XrayInbound>, id: int): seq<XrayInbound> {
    if xray == [] then [] else (if xray[0].id == id then [] else [xray[0]]) + WithoutXray(xray[1..], id)
  }

  // ---------------------------------------------------------------- changes

  datatype Change =
    | AddSsh(r: SshInbound)
    | UpdateSsh(r: SshInbound)
    | DeleteSsh(id: int)
    | EnableSsh(id: int, enable: bool)
    | AddXray(x: XrayInbound)
    | UpdateXray(x: XrayInbound)
    | EnableXray(id: int, enable: bool)
    | DeleteXray(id: int)

  /** The tables after a change, accepted, refused or rolled back. */
  function Apply(db: Db, c: Change, env: Env): Db {
    match c
    case AddSsh(r) =>
      (match AddedSsh(db, r, env)
       case None => db
       case Some(v) => if env.reconcileOk || !env.rollbackOk then db.(ssh := db.ssh + [v]) else db)
    case UpdateSsh(r) =>
      (match UpdatedSsh(db, r, env)
       case None => db
       case Some(v) => if env.reconcileOk || !env.rollbackOk then db.(ssh := Replace(db.ssh, v)) else db)
    case DeleteSsh(id) =>
      (match Row(db.ssh, id)
       case None => db
       case Some(cur) =>
         if env.reconcileOk || !env.rollbackOk then db.(ssh := Without(db.ssh, id))
         else db.(ssh := Without(db.ssh, id) + [cur]))
    case EnableSsh(id, enable) =>
      (match Row(db.ssh, id)
       case None => db
       case Some(cur) => if env.reconcileOk || !env.rollbackOk then db.(ssh := Replace(db.ssh, cur.(enable := enable))) else db)
    case AddXray(x) =>
      (match AddedXray(db, x, env)
       case None => db
       case Some(v) => if env.reconcileOk then db.(xray := SaveXray(db.xray, v)) else db)
    case UpdateXray(x) =>
      (match UpdatedXray(db, x, env)
       case None => db
       case Some(v) => if env.reconcileOk then db.(xray := SaveXray(db.xray, v)) else db)
    case EnableXray(id, enable) =>
      (match XrayRow(db.xray, id)
       case None => db
       case Some(cur) =>
         if cur.enable == enable then db
         else if !enable then db.(xray := SaveXray(db.xray, cur.(enable := false)))
         else match WithHidden(db, cur, env.offers)
           case None => db
           case Some(v) => db.(xray := SaveXray(db.xray, (if cur.payloadBypass then v else cur).(enable := env.reconcileOk))))
    case DeleteXray(id) => db.(xray := WithoutXray(db.xray, id))
  }

  /** The database gives a new row an id of no row. */
  predicate NewIds(db: Db, c: Change, env: Env) {
    match c
    case AddSsh(_) => env.newId > 0 && Row(db.ssh, env.newId).None?
    case AddXray(x) => x.id == 0 ==> env.newId > 0 && XrayRow(db.xray, env.newId).None?
    case _ => true
  }
}
