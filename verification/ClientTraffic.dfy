/** The statistics rows of Xray clients and the matching entries of the inbounds' settings: the
    periodic tick (count traffic, start delayed expiries, renew, disable), resets and manual edits. */
module ClientTraffic {
  import opened Wrappers

  /** `expiry` is in milliseconds; 0 is never, and a negative value starts at the first traffic. */
  datatype Row = Row(email: string, inboundId: int, up: int, down: int, allTime: int, expiry: int,
                     total: int, reset: int, enable: bool, lastOnline: int)
  datatype Client = Client(email: string, expiry: int, enable: bool)
  datatype Inbound = Inbound(id: int, clients: seq<Client>)
  datatype Report = Report(email: string, up: int, down: int)
  datatype Db = Db(rows: seq<Row>, inbounds: seq<Inbound>)

  // ---------------------------------------------------------------- renewal dates

  const DAY: int := 86_400_000

  function Renewed(expiry: int, reset: int, now: int): int
    requires reset > 0
  {
    AdvanceTo(expiry, reset * DAY, now)
  }

  function AdvanceTo(expiry: int, period: int, now: int): int
    requires period > 0
  {
    if expiry >= now then expiry else expiry + (now - expiry + period - 1) / period * period
  }

  lemma Quotient(n: int, p: int, q: int, r: int)
    requires p > 0 && n == q * p + r && 0 <= r < p
    ensures n / p == q
  {
    var d := n / p;
    assert n == d * p + n % p;
    assert (d + 1) * p == d * p + p && (q + 1) * p == q * p + p;
    if d < q { Times(d + 1, q, p); }
    if d > q { Times(q + 1, d, p); }
  }

  lemma Times(a: int, b: int, p: int)
    requires a <= b && p > 0
    ensures a * p <= b * p
  {
  }

  lemma OnePeriod(expiry: int, period: int, now: int)
    requires period > 0 && expiry < now
    ensures AdvanceTo(expiry + period, period, now) == AdvanceTo(expiry, period, now)
  {
    var a := now - expiry - 1;
    var q := a / period;
    assert a == q * period + a % period;
    assert (q + 1) * period == q * period + period;
    Quotient(a + period, period, q + 1, a % period);
    assert now - expiry + period - 1 == a + period;
    if expiry + period >= now { Quotient(a, period, 0, a); }
  }

  method RenewExpiry(expiry: int, reset: int, now: int) returns (e: int)
    requires reset > 0
    ensures e == Renewed(expiry, reset, now)
  {
    e := expiry;
    while e < now
      invariant AdvanceTo(e, reset * DAY, now) == AdvanceTo(expiry, reset * DAY, now)
      decreases now - e
    {
      OnePeriod(e, reset * DAY, now);
      e := e + reset * DAY;
    }
  }

  /** The renewed date is the first of the client's own dates that is not in the past; a date equal to
      now is left alone. */
  lemma RenewedIsLeast(expiry: int, reset: int, now: int)
    requires reset > 0
    ensures exists k: nat :: Renewed(expiry, reset, now) == expiry + k * (reset * DAY)
    ensures Renewed(expiry, reset, now) >= now
    ensures forall j: nat :: expiry + j * (reset * DAY) >= now ==> Renewed(expiry, reset, now) <= expiry + j * (reset * DAY)
    ensures expiry < now ==> Renewed(expiry, reset, now) < now + reset * DAY
    ensures expiry >= now ==> Renewed(expiry, reset, now) == expiry
  {
    AdvanceIsLeast(expiry, reset * DAY, now);
  }

  lemma AdvanceIsLeast(expiry: int, period: int, now: int)
    requires period > 0
    ensures exists k: nat :: AdvanceTo(expiry, period, now) == expiry + k * period
    ensures AdvanceTo(expiry, period, now) >= now
    ensures forall j: nat :: expiry + j * period >= now ==> AdvanceTo(expiry, period, now) <= expiry + j * period
    ensures expiry < now ==> AdvanceTo(expiry, period, now) < now + period
  {
    var e := AdvanceTo(expiry, period, now);
    if expiry >= now {
      assert e == expiry + 0 * period;
      forall j: nat ensures e <= expiry + j * period { assert j * period >= 0; }
    } else {
      var x := now - expiry + period - 1;
      var k := x / period;
      assert x == k * period + x % period;
      assert e == expiry + k * period;
      forall j: nat | expiry + j * period >= now ensures e <= expiry + j * period {
        if j < k { assert j * period <= (k - 1) * period by { Times(j, k - 1, period); } }
        else { Times(k, j, period); }
      }
    }
  }

  // ---------------------------------------------------------------- the two passes over the settings

  /** Both passes walk the clients of some inbounds and, for each, look for the first row that applies
      to it: `adjustTraffics` starts delayed expiries, `autoRenewClients` renews. */
  datatype Pass = Adjust(now: int) | Renew(now: int)

  predicate Matches(p: Pass, sel: set<string>, row: Row) {
    row.email in sel && match p case Adjust(_) => row.expiry < 0 case Renew(_) => row.reset > 0
  }

  function NewExpiry(p: Pass, row: Row, c: Client): int
    requires p.Renew? ==> row.reset > 0
  {
    match p case Adjust(now) => now - c.expiry case Renew(now) => Renewed(row.expiry, row.reset, now)
  }

  function Updated(p: Pass, row: Row, e: int): Row {
    match p case Adjust(_) => row.(expiry := e) case Renew(_) => row.(expiry := e, up := 0, down := 0, enable := true)
  }

  /** The first matching row from index i on, or |rows|. */
  function FindRow(p: Pass, sel: set<string>, rows: seq<Row>, email: string, i: nat): (k: nat)
    requires i <= |rows|
    ensures i <= k <= |rows|
    ensures k < |rows| ==> rows[k].email == email && Matches(p, sel, rows[k])
    ensures forall j :: i <= j < k ==> !(rows[j].email == email && Matches(p, sel, rows[j]))
    decreases |rows| - i
  {
    if i == |rows| || (rows[i].email == email && Matches(p, sel, rows[i])) then i else FindRow(p, sel, rows, email, i + 1)
  }

  function Visit(p: Pass, sel: set<string>, rows: seq<Row>, c: Client): (seq<Row>, Client) {
    var i := FindRow(p, sel, rows, c.email, 0);
    if i == |rows| then (rows, c)
    else
      var e := NewExpiry(p, rows[i], c);
      (rows[i := Updated(p, rows[i], e)], c.(expiry := e))
  }

  function VisitClients(p: Pass, sel: set<string>, rows: seq<Row>, clients: seq<Client>): (seq<Row>, seq<Client>) {
    if clients == [] then (rows, [])
    else
      var q := VisitClients(p, sel, rows, clients[..|clients| - 1]);
      var v := Visit(p, sel, q.0, clients[|clients| - 1]);
      (v.0, q.1 + [v.1])
  }

  function VisitInbounds(p: Pass, sel: set<string>, rows: seq<Row>, inbounds: seq<Inbound>, ids: set<int>): (seq<Row>, seq<Inbound>) {
    if inbounds == [] then (rows, [])
    else
      var q := VisitInbounds(p, sel, rows, inbounds[..|inbounds| - 1], ids);
      var last := inbounds[|inbounds| - 1];
      if last.id in ids then
        var v := VisitClients(p, sel, q.0, last.clients);
        (v.0, q.1 + [last.(clients := v.1)])
      else (q.0, q.1 + [last])
  }

  // ---------------------------------------------------------------- the tick

  function LastReport(reports: seq<Report>, email: string): Option<Report> {
    if reports == [] then None
    else if reports[|reports| - 1].email == email then Some(reports[|reports| - 1])
    else LastReport(reports[..|reports| - 1], email)
  }

  function Credit(row: Row, t: Option<Report>, now: int): Row {
    match t
    case None => row
    case Some(t) =>
      row.(up := row.up + t.up, down := row.down + t.down, allTime := row.allTime + t.up + t.down,
           lastOnline := if t.up + t.down > 0 then now else row.lastOnline)
  }

  function Merge(rows: seq<Row>, reports: seq<Report>, now: int): (s: seq<Row>)
    ensures |s| == |rows|
    ensures forall i :: 0 <= i < |rows| ==> s[i] == Credit(rows[i], LastReport(reports, rows[i].email), now)
  {
    seq(|rows|, i requires 0 <= i < |rows| => Credit(rows[i], LastReport(reports, rows[i].email), now))
  }

  function Reported(reports: seq<Report>): set<string> {
    set r | r in reports :: r.email
  }

  /** The clock is read once per part of the tick. */
  datatype Clock = Clock(adjust: int, online: int, renew: int, disable: int)

  function AdjustIds(db: Db, sel: set<string>): set<int> {
    set r | r in db.rows && r.email in sel && r.expiry < 0 :: r.inboundId
  }

  function Adjusted(db: Db, reports: seq<Report>, now: int): Db {
    var v := VisitInbounds(Adjust(now), Reported(reports), db.rows, db.inbounds, AdjustIds(db, Reported(reports)));
    Db(v.0, v.1)
  }

  /** `addClientTraffic`. */
  function Counted(db: Db, reports: seq<Report>, clock: Clock): Db {
    var a := Adjusted(db, reports, clock.adjust);
    a.(rows := Merge(a.rows, reports, clock.online))
  }

  predicate Due(r: Row, now: int) {
    r.reset > 0 && 0 < r.expiry <= now
  }

  function DueEmails(db: Db, now: int): set<string> {
    set r | r in db.rows && Due(r, now) :: r.email
  }

  function DueIds(db: Db, now: int): set<int> {
    set r | r in db.rows && Due(r, now) :: r.inboundId
  }

  /** `autoRenewClients`. */
  function RenewedDb(db: Db, now: int): Db {
    var v := VisitInbounds(Renew(now), DueEmails(db, now), db.rows, db.inbounds, DueIds(db, now));
    Db(v.0, v.1)
  }

  predicate Exhausted(r: Row, now: int) {
    (r.total > 0 && r.up + r.down >= r.total) || 0 < r.expiry <= now
  }

  function DisableRow(r: Row, now: int): Row {
    if Exhausted(r, now) && r.enable then r.(enable := false) else r
  }

  function ToDisable(db: Db, id: int, now: int): set<string> {
    set r | r in db.rows && r.inboundId == id && r.enable && Exhausted(r, now) :: r.email
  }

  function DisableClient(c: Client, emails: set<string>): Client {
    if c.email in emails then c.(enable := false) else c
  }

  function DisableClients(clients: seq<Client>, emails: set<string>): (s: seq<Client>)
    ensures |s| == |clients| && forall i :: 0 <= i < |s| ==> s[i] == DisableClient(clients[i], emails)
  {
    seq(|clients|, i requires 0 <= i < |clients| => DisableClient(clients[i], emails))
  }

  function DisableRows(rows: seq<Row>, now: int): (s: seq<Row>)
    ensures |s| == |rows| && forall i :: 0 <= i < |s| ==> s[i] == DisableRow(rows[i], now)
  {
    seq(|rows|, i requires 0 <= i < |rows| => DisableRow(rows[i], now))
  }

  function DisableInbounds(db: Db, now: int): (s: seq<Inbound>)
    ensures |s| == |db.inbounds|
    ensures forall i :: 0 <= i < |s| ==>
      s[i] == Inbound(db.inbounds[i].id, DisableClients(db.inbounds[i].clients, ToDisable(db, db.inbounds[i].id, now)))
  {
    seq(|db.inbounds|, i requires 0 <= i < |db.inbounds| =>
      Inbound(db.inbounds[i].id, DisableClients(db.inbounds[i].clients, ToDisable(db, db.inbounds[i].id, now))))
  }

  /** `disableInvalidClients`. */
  function Disabled(db: Db, now: int): Db {
    Db(DisableRows(db.rows, now), DisableInbounds(db, now))
  }

  /** The client part of `AddTraffic`. */
  function Tick(db: Db, reports: seq<Report>, clock: Clock): Db {
    Disabled(RenewedDb(Counted(db, reports, clock), clock.renew), clock.disable)
  }

  // ---------------------------------------------------------------- resets and edits

  function ResetRow(r: Row): Row {
    r.(up := 0, down := 0, enable := true)
  }

  function EditRow(r: Row, up: int, down: int): Row {
    r.(up := up, down := down, allTime := if r.allTime < up + down then up + down else r.allTime)
  }

  datatype Event =
    | Ticked(reports: seq<Report>, clock: Clock)
    | ResetOne(email: string)
    | ResetInbound(id: int)
    | Edit(email: string, up: int, down: int)

  function ChangeRow(r: Row, e: Event): Row {
    match e
    case Ticked(_, _) => r
    case ResetOne(email) => if r.email == email then ResetRow(r) else r
    case ResetInbound(id) => if (if id == -1 then r.inboundId > -1 else r.inboundId == id) then ResetRow(r) else r
    case Edit(email, up, down) => if r.email == email then EditRow(r, up, down) else r
  }

  function ChangeRows(rows: seq<Row>, e: Event): (s: seq<Row>)
    ensures |s| == |rows| && forall i :: 0 <= i < |s| ==> s[i] == ChangeRow(rows[i], e)
  {
    seq(|rows|, i requires 0 <= i < |rows| => ChangeRow(rows[i], e))
  }

  function Step(db: Db, e: Event): Db {
    match e
    case Ticked(reports, clock) => Tick(db, reports, clock)
    case _ => db.(rows := ChangeRows(db.rows, e))
  }

  function Run(db: Db, events: seq<Event>): Db
    decreases |events|
  {
    if events == [] then db else Run(Step(db, events[0]), events[1..])
  }

  // ---------------------------------------------------------------- the service

  class Store {
    var rows: seq<Row>
    var inbounds: seq<Inbound>

    ghost function State(): Db
      reads this
    {
      Db(rows, inbounds)
    }

    constructor (db: Db)
      ensures State() == db
    {
      rows := db.rows;
      inbounds := db.inbounds;
    }

    /** One client against the rows: the inner loop of both passes. */
    method VisitOne(p: Pass, sel: set<string>, c: Client) returns (c': Client)
      modifies this`rows
      ensures (rows, c') == Visit(p, sel, old(rows), c)
    {
      c' := c;
      var i := 0;
      while i < |rows|
        invariant 0 <= i <= |rows| && rows == old(rows) && c' == c
        invariant FindRow(p, sel, rows, c.email, 0) == FindRow(p, sel, rows, c.email, i)
      {
        if rows[i].email == c.email && Matches(p, sel, rows[i]) {
          var e: int;
          match p {
            case Adjust(now) => e := now - c.expiry;
            case Renew(now) => e := RenewExpiry(rows[i].expiry, rows[i].reset, now);
          }
          c' := c'.(expiry := e);
          rows := rows[i := rows[i].(expiry := e)];
          if p.Renew? {
            rows := rows[i := rows[i].(down := 0)];
            rows := rows[i := rows[i].(up := 0)];
            if !rows[i].enable { rows := rows[i := rows[i].(enable := true)]; }
          }
          assert rows == old(rows)[i := Updated(p, old(rows)[i], e)];
          return;
        }
        i := i + 1;
      }
    }

    method VisitSettings(p: Pass, sel: set<string>, clients: seq<Client>) returns (out: seq<Client>)
      modifies this`rows
      ensures (rows, out) == VisitClients(p, sel, old(rows), clients)
    {
      out := [];
      for k := 0 to |clients|
        invariant (rows, out) == VisitClients(p, sel, old(rows), clients[..k])
      {
        assert clients[..k + 1][..k] == clients[..k];
        var c := VisitOne(p, sel, clients[k]);
        out := out + [c];
      }
      assert clients[..|clients|] == clients;
    }

    method VisitAll(p: Pass, sel: set<string>, ids: set<int>)
      modifies this
      ensures (rows, inbounds) == VisitInbounds(p, sel, old(rows), old(inbounds), ids)
    {
      ghost var was := inbounds;
      for k := 0 to |inbounds|
        invariant |inbounds| == |was| && forall j :: k <= j < |was| ==> inbounds[j] == was[j]
        invariant (rows, inbounds[..k]) == VisitInbounds(p, sel, old(rows), was[..k], ids)
      {
        assert was[..k + 1][..k] == was[..k];
        ghost var before := inbounds;
        if inbounds[k].id in ids {
          var clients := VisitSettings(p, sel, inbounds[k].clients);
          inbounds := inbounds[k := inbounds[k].(clients := clients)];
        }
        assert inbounds[..k + 1] == before[..k] + [inbounds[k]];
      }
      assert was[..|was|] == was && inbounds[..|was|] == inbounds;
    }

    static method IndexReports(reports: seq<Report>) returns (byEmail: map<string, Report>)
      ensures forall e :: e in byEmail <==> LastReport(reports, e).Some?
      ensures forall e :: e in byEmail ==> LastReport(reports, e) == Some(byEmail[e])
    {
      byEmail := map[];
      for i := 0 to |reports|
        invariant forall e :: e in byEmail <==> LastReport(reports[..i], e).Some?
        invariant forall e :: e in byEmail ==> LastReport(reports[..i], e) == Some(byEmail[e])
      {
        assert reports[..i + 1][..i] == reports[..i];
        byEmail := byEmail[reports[i].email := reports[i]];
      }
      assert reports[..|reports|] == reports;
    }

    method MergeReports(reports: seq<Report>, now: int)
      modifies this`rows
      ensures rows == Merge(old(rows), reports, now)
    {
      var byEmail := IndexReports(reports);
      ghost var want := Merge(rows, reports, now);
      for i := 0 to |rows|
        invariant |rows| == |want| == |old(rows)|
        invariant forall k :: 0 <= k < i ==> rows[k] == want[k]
        invariant forall k :: i <= k < |rows| ==> rows[k] == old(rows)[k]
      {
        if rows[i].email in byEmail {
          var t := byEmail[rows[i].email];
          rows := rows[i := rows[i].(up := rows[i].up + t.up)];
          rows := rows[i := rows[i].(down := rows[i].down + t.down)];
          rows := rows[i := rows[i].(allTime := rows[i].allTime + t.up + t.down)];
          if t.up + t.down > 0 { rows := rows[i := rows[i].(lastOnline := now)]; }
        }
      }
    }

    method AddClientTraffic(reports: seq<Report>, clock: Clock)
      modifies this
      ensures State() == Counted(old(State()), reports, clock)
    {
      VisitAll(Adjust(clock.adjust), Reported(reports), AdjustIds(Db(rows, inbounds), Reported(reports)));
      MergeReports(reports, clock.online);
    }

    method AutoRenewClients(now: int)
      modifies this
      ensures State() == RenewedDb(old(State()), now)
    {
      VisitAll(Renew(now), DueEmails(Db(rows, inbounds), now), DueIds(Db(rows, inbounds), now));
    }

    method DisableInvalidClients(now: int)
      modifies this
      ensures State() == Disabled(old(State()), now)
    {
      var db := Db(rows, inbounds);
      for i := 0 to |rows|
        invariant |rows| == |db.rows|
        invariant forall k :: 0 <= k < i ==> rows[k] == DisableRow(db.rows[k], now)
        invariant forall k :: i <= k < |rows| ==> rows[k] == db.rows[k]
        invariant inbounds == db.inbounds
      {
        if Exhausted(rows[i], now) && rows[i].enable { rows := rows[i := rows[i].(enable := false)]; }
      }
      for i := 0 to |inbounds|
        invariant |inbounds| == |db.inbounds|
        invariant forall k :: 0 <= k < i ==> inbounds[k] == DisableInbounds(db, now)[k]
        invariant forall k :: i <= k < |inbounds| ==> inbounds[k] == db.inbounds[k]
        invariant rows == DisableRows(db.rows, now)
      {
        var clients := DisableSettings(inbounds[i].clients, ToDisable(db, inbounds[i].id, now));
        inbounds := inbounds[i := inbounds[i].(clients := clients)];
      }
    }

    static method DisableSettings(clients: seq<Client>, emails: set<string>) returns (out: seq<Client>)
      ensures out == DisableClients(clients, emails)
    {
      out := clients;
      for k := 0 to |clients|
        invariant |out| == |clients|
        invariant forall j :: 0 <= j < k ==> out[j] == DisableClient(clients[j], emails)
        invariant forall j :: k <= j < |out| ==> out[j] == clients[j]
      {
        if out[k].email in emails { out := out[k := out[k].(enable := false)]; }
      }
    }

    method AddTraffic(reports: seq<Report>, clock: Clock)
      modifies this
      ensures State() == Tick(old(State()), reports, clock)
    {
      AddClientTraffic(reports, clock);
      AutoRenewClients(clock.renew);
      DisableInvalidClients(clock.disable);
    }

    /** `ResetClientTrafficByEmail`. */
    method ResetOneClient(email: string)
      modifies this`rows
      ensures State() == Step(old(State()), ResetOne(email))
    {
      for i := 0 to |rows|
        invariant |rows| == |old(rows)|
        invariant forall k :: 0 <= k < i ==> rows[k] == ChangeRow(old(rows)[k], ResetOne(email))
        invariant forall k :: i <= k < |rows| ==> rows[k] == old(rows)[k]
      {
        if rows[i].email == email { rows := rows[i := rows[i].(enable := true, up := 0, down := 0)]; }
      }
    }

    /** `ResetAllClientTraffics`: one inbound, or all of them for -1. */
    method ResetAllClients(id: int)
      modifies this`rows
      ensures State() == Step(old(State()), ResetInbound(id))
    {
      for i := 0 to |rows|
        invariant |rows| == |old(rows)|
        invariant forall k :: 0 <= k < i ==> rows[k] == ChangeRow(old(rows)[k], ResetInbound(id))
        invariant forall k :: i <= k < |rows| ==> rows[k] == old(rows)[k]
      {
        if (id == -1 && rows[i].inboundId > -1) || (id != -1 && rows[i].inboundId == id) {
          rows := rows[i := rows[i].(enable := true, up := 0, down := 0)];
        }
      }
    }

    /** `UpdateClientTrafficByEmail`. */
    method EditClient(email: string, upload: int, download: int)
      modifies this`rows
      ensures State() == Step(old(State()), Edit(email, upload, download))
    {
      for i := 0 to |rows|
        invariant |rows| == |old(rows)|
        invariant forall k :: 0 <= k < i ==> rows[k] == ChangeRow(old(rows)[k], Edit(email, upload, download))
        invariant forall k :: i <= k < |rows| ==> rows[k] == old(rows)[k]
      {
        if rows[i].email == email {
          if rows[i].allTime < upload + download { rows := rows[i := rows[i].(allTime := upload + download)]; }
          rows := rows[i := rows[i].(up := upload, down := download)];
        }
      }
    }
  }
}
