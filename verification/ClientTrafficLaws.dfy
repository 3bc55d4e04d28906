/** What the traffic tick guarantees: the nested passes are independent updates, bytes are conserved,
    counters never run ahead of the total, and rows and settings agree on every expiry. */
module ClientTrafficLaws {
  import opened Wrappers
  import opened ClientTraffic

  predicate UniqueRows(rows: seq<Row>) {
    forall i, j :: 0 <= i < j < |rows| ==> rows[i].email != rows[j].email
  }

  predicate UniqueClients(clients: seq<Client>) {
    forall i, j :: 0 <= i < j < |clients| ==> clients[i].email != clients[j].email
  }

  function Emails(clients: seq<Client>): set<string> {
    set c | c in clients :: c.email
  }

  /** No email occurs twice in the settings of all inbounds. */
  predicate UniqueSettings(inbounds: seq<Inbound>) {
    && (forall i :: 0 <= i < |inbounds| ==> UniqueClients(inbounds[i].clients))
    && (forall i, j :: 0 <= i < j < |inbounds| ==> Emails(inbounds[i].clients) !! Emails(inbounds[j].clients))
  }

  ghost predicate Agrees(rows: seq<Row>, c: Client) {
    forall r :: r in rows && r.email == c.email ==> r.expiry == c.expiry
  }

  /** Each statistics row and its client in the settings show the same expiry. */
  ghost predicate Agreement(db: Db) {
    forall i, k :: 0 <= i < |db.inbounds| && 0 <= k < |db.inbounds[i].clients| ==> Agrees(db.rows, db.inbounds[i].clients[k])
  }

  ghost predicate WellFormed(db: Db) {
    UniqueRows(db.rows) && UniqueSettings(db.inbounds) && Agreement(db)
  }

  // ---------------------------------------------------------------- the passes, pointwise

  /** What a pass does to a row whose client it meets. */
  function Touched(p: Pass, row: Row): Row
    requires p.Renew? ==> row.reset > 0
  {
    match p
    case Adjust(now) => row.(expiry := now - row.expiry)
    case Renew(now) => row.(expiry := Renewed(row.expiry, row.reset, now), up := 0, down := 0, enable := true)
  }

  function TouchedRows(p: Pass, sel: set<string>, rows: seq<Row>, met: set<string>): (s: seq<Row>)
    ensures |s| == |rows|
    ensures forall i :: 0 <= i < |s| ==>
      s[i] == if rows[i].email in met && Matches(p, sel, rows[i]) then Touched(p, rows[i]) else rows[i]
  {
    seq(|rows|, i requires 0 <= i < |rows| =>
      if rows[i].email in met && Matches(p, sel, rows[i]) then Touched(p, rows[i]) else rows[i])
  }

  function TouchedClient(p: Pass, sel: set<string>, rows: seq<Row>, c: Client): Client {
    var i := FindRow(p, sel, rows, c.email, 0);
    if i < |rows| then c.(expiry := Touched(p, rows[i]).expiry) else c
  }

  function TouchedClients(p: Pass, sel: set<string>, rows: seq<Row>, clients: seq<Client>): (s: seq<Client>)
    ensures |s| == |clients| && forall i :: 0 <= i < |s| ==> s[i] == TouchedClient(p, sel, rows, clients[i])
  {
    seq(|clients|, i requires 0 <= i < |clients| => TouchedClient(p, sel, rows, clients[i]))
  }

  function TouchedInbound(p: Pass, sel: set<string>, rows: seq<Row>, ids: set<int>, ib: Inbound): Inbound {
    if ib.id in ids then ib.(clients := TouchedClients(p, sel, rows, ib.clients)) else ib
  }

  function TouchedInbounds(p: Pass, sel: set<string>, rows: seq<Row>, ids: set<int>, inbounds: seq<Inbound>): (s: seq<Inbound>)
    ensures |s| == |inbounds| && forall i :: 0 <= i < |s| ==> s[i] == TouchedInbound(p, sel, rows, ids, inbounds[i])
  {
    seq(|inbounds|, i requires 0 <= i < |inbounds| => TouchedInbound(p, sel, rows, ids, inbounds[i]))
  }

  /** The emails in the settings of the inbounds the pass loads. */
  function Met(inbounds: seq<Inbound>, ids: set<int>): set<string> {
    if inbounds == [] then {}
    else Met(inbounds[..|inbounds| - 1], ids) +
         (if inbounds[|inbounds| - 1].id in ids then Emails(inbounds[|inbounds| - 1].clients) else {})
  }

  lemma {:induction false} FindSame(p: Pass, sel: set<string>, a: seq<Row>, b: seq<Row>, email: string, i: nat)
    requires |a| == |b| && i <= |a|
    requires forall j :: 0 <= j < |a| ==> a[j].email == b[j].email && (a[j].email == email ==> a[j] == b[j])
    ensures FindRow(p, sel, a, email, i) == FindRow(p, sel, b, email, i)
    decreases |a| - i
  {
    if i < |a| { FindSame(p, sel, a, b, email, i + 1); }
  }

  lemma VisitPointwise(p: Pass, sel: set<string>, rows: seq<Row>, met: set<string>, c: Client)
    requires UniqueRows(rows) && c.email !in met && Agrees(rows, c)
    ensures Visit(p, sel, TouchedRows(p, sel, rows, met), c) ==
      (TouchedRows(p, sel, rows, met + {c.email}), TouchedClient(p, sel, rows, c))
  {
    var now := TouchedRows(p, sel, rows, met);
    FindSame(p, sel, rows, now, c.email, 0);
    var i := FindRow(p, sel, rows, c.email, 0);
    if i < |rows| {
      assert rows[i] in rows;
      assert TouchedRows(p, sel, rows, met + {c.email}) == now[i := Touched(p, rows[i])];
    } else {
      assert TouchedRows(p, sel, rows, met + {c.email}) == now;
    }
  }

  lemma {:induction false} VisitClientsPointwise(p: Pass, sel: set<string>, rows: seq<Row>, met: set<string>, clients: seq<Client>)
    requires UniqueRows(rows) && UniqueClients(clients) && met !! Emails(clients)
    requires forall c :: c in clients ==> Agrees(rows, c)
    ensures VisitClients(p, sel, TouchedRows(p, sel, rows, met), clients) ==
      (TouchedRows(p, sel, rows, met + Emails(clients)), TouchedClients(p, sel, rows, clients))
  {
    if clients == [] {
      assert met + Emails(clients) == met;
    } else {
      var prefix, c := clients[..|clients| - 1], clients[|clients| - 1];
      assert clients == prefix + [c];
      EmailsAppend(prefix, c);
      VisitClientsPointwise(p, sel, rows, met, prefix);
      VisitPointwise(p, sel, rows, met + Emails(prefix), c);
      assert met + Emails(clients) == met + Emails(prefix) + {c.email};
      assert TouchedClients(p, sel, rows, clients) == TouchedClients(p, sel, rows, prefix) + [TouchedClient(p, sel, rows, c)];
    }
  }

  lemma EmailsAppend(prefix: seq<Client>, c: Client)
    ensures Emails(prefix + [c]) == Emails(prefix) + {c.email}
    ensures UniqueClients(prefix + [c]) ==> UniqueClients(prefix) && c.email !in Emails(prefix)
  {
    var clients := prefix + [c];
    assert c in clients && forall d :: d in prefix ==> d in clients;
    if UniqueClients(clients) {
      assert UniqueClients(prefix) by {
        forall i, j | 0 <= i < j < |prefix| ensures prefix[i].email != prefix[j].email {
          assert clients[i] == prefix[i] && clients[j] == prefix[j];
        }
      }
      forall d | d in prefix ensures d.email != c.email {
        var i :| 0 <= i < |prefix| && prefix[i] == d;
        assert clients[i] == d && clients[|prefix|] == c;
      }
    }
  }

  lemma {:induction false} MetIff(inbounds: seq<Inbound>, ids: set<int>, email: string)
    ensures email in Met(inbounds, ids) <==>
      exists i :: 0 <= i < |inbounds| && inbounds[i].id in ids && email in Emails(inbounds[i].clients)
  {
    if inbounds != [] {
      var prefix := inbounds[..|inbounds| - 1];
      MetIff(prefix, ids, email);
      if i :| 0 <= i < |prefix| && prefix[i].id in ids && email in Emails(prefix[i].clients) {
        assert inbounds[i] == prefix[i];
      }
    }
  }

  lemma MetIsDisjoint(inbounds: seq<Inbound>, ids: set<int>)
    requires inbounds != [] && UniqueSettings(inbounds)
    ensures Met(inbounds[..|inbounds| - 1], ids) !! Emails(inbounds[|inbounds| - 1].clients)
  {
    var prefix := inbounds[..|inbounds| - 1];
    forall e | e in Met(prefix, ids) ensures e !in Emails(inbounds[|inbounds| - 1].clients) {
      MetIff(prefix, ids, e);
      var i :| 0 <= i < |prefix| && prefix[i].id in ids && e in Emails(prefix[i].clients);
      assert Emails(inbounds[i].clients) !! Emails(inbounds[|inbounds| - 1].clients);
    }
  }

  /** The nested loops over inbounds, clients and rows, each changing what later iterations read, amount
      to one independent update of every row and every client. */
  lemma {:induction false} PassIsPointwise(p: Pass, sel: set<string>, rows: seq<Row>, inbounds: seq<Inbound>, ids: set<int>)
    requires WellFormed(Db(rows, inbounds))
    ensures VisitInbounds(p, sel, rows, inbounds, ids) ==
      (TouchedRows(p, sel, rows, Met(inbounds, ids)), TouchedInbounds(p, sel, rows, ids, inbounds))
  {
    if inbounds == [] {
      assert TouchedRows(p, sel, rows, {}) == rows;
    } else {
      var prefix, last := inbounds[..|inbounds| - 1], inbounds[|inbounds| - 1];
      assert inbounds == prefix + [last];
      PrefixWellFormed(rows, inbounds);
      PassIsPointwise(p, sel, rows, prefix, ids);
      OneMoreInbound(p, sel, rows, prefix, last, ids);
    }
  }

  lemma OneMoreInbound(p: Pass, sel: set<string>, rows: seq<Row>, prefix: seq<Inbound>, last: Inbound, ids: set<int>)
    requires WellFormed(Db(rows, prefix + [last]))
    requires VisitInbounds(p, sel, rows, prefix, ids) ==
      (TouchedRows(p, sel, rows, Met(prefix, ids)), TouchedInbounds(p, sel, rows, ids, prefix))
    ensures VisitInbounds(p, sel, rows, prefix + [last], ids) ==
      (TouchedRows(p, sel, rows, Met(prefix + [last], ids)), TouchedInbounds(p, sel, rows, ids, prefix + [last]))
  {
    var inbounds := prefix + [last];
    assert inbounds[..|inbounds| - 1] == prefix && inbounds[|inbounds| - 1] == last;
    if last.id in ids { LastInbound(p, sel, rows, inbounds, ids); } else { assert Met(inbounds, ids) == Met(prefix, ids); }
    assert TouchedInbounds(p, sel, rows, ids, inbounds) ==
      TouchedInbounds(p, sel, rows, ids, prefix) + [TouchedInbound(p, sel, rows, ids, last)];
  }

  lemma PrefixWellFormed(rows: seq<Row>, inbounds: seq<Inbound>)
    requires inbounds != [] && WellFormed(Db(rows, inbounds))
    ensures WellFormed(Db(rows, inbounds[..|inbounds| - 1]))
  {
    var prefix := inbounds[..|inbounds| - 1];
    forall i, k | 0 <= i < |prefix| && 0 <= k < |prefix[i].clients| ensures Agrees(rows, prefix[i].clients[k]) {
      assert prefix[i] == inbounds[i];
    }
  }

  lemma LastInbound(p: Pass, sel: set<string>, rows: seq<Row>, inbounds: seq<Inbound>, ids: set<int>)
    requires inbounds != [] && WellFormed(Db(rows, inbounds)) && inbounds[|inbounds| - 1].id in ids
    ensures VisitClients(p, sel, TouchedRows(p, sel, rows, Met(inbounds[..|inbounds| - 1], ids)), inbounds[|inbounds| - 1].clients) ==
      (TouchedRows(p, sel, rows, Met(inbounds, ids)), TouchedClients(p, sel, rows, inbounds[|inbounds| - 1].clients))
  {
    var last := inbounds[|inbounds| - 1];
    forall c | c in last.clients ensures Agrees(rows, c) {
      var k :| 0 <= k < |last.clients| && last.clients[k] == c;
      assert Agrees(rows, inbounds[|inbounds| - 1].clients[k]);
    }
    MetIsDisjoint(inbounds, ids);
    VisitClientsPointwise(p, sel, rows, Met(inbounds[..|inbounds| - 1], ids), last.clients);
  }

  // ---------------------------------------------------------------- one expiry for row and client

  lemma ClientFindsItsRow(p: Pass, sel: set<string>, rows: seq<Row>, c: Client, j: nat)
    requires UniqueRows(rows) && j < |rows| && rows[j].email == c.email
    ensures TouchedClient(p, sel, rows, c) == if Matches(p, sel, rows[j]) then c.(expiry := Touched(p, rows[j]).expiry) else c
  {
  }

  lemma PassKeepsWellFormed(p: Pass, sel: set<string>, rows: seq<Row>, inbounds: seq<Inbound>, ids: set<int>)
    requires WellFormed(Db(rows, inbounds))
    ensures WellFormed(Db(VisitInbounds(p, sel, rows, inbounds, ids).0, VisitInbounds(p, sel, rows, inbounds, ids).1))
  {
    PassIsPointwise(p, sel, rows, inbounds, ids);
    var after := TouchedRows(p, sel, rows, Met(inbounds, ids));
    var ibs := TouchedInbounds(p, sel, rows, ids, inbounds);
    SettingsKeepEmails(inbounds, ibs);
    forall i, k | 0 <= i < |ibs| && 0 <= k < |ibs[i].clients| ensures Agrees(after, ibs[i].clients[k]) {
      forall r | r in after && r.email == ibs[i].clients[k].email ensures r.expiry == ibs[i].clients[k].expiry {
        var j :| 0 <= j < |after| && after[j] == r;
        RowAndClientAgree(p, sel, rows, inbounds, ids, i, k, j);
      }
    }
  }

  lemma RowAndClientAgree(p: Pass, sel: set<string>, rows: seq<Row>, inbounds: seq<Inbound>, ids: set<int>, i: nat, k: nat, j: nat)
    requires WellFormed(Db(rows, inbounds))
    requires i < |inbounds| && k < |inbounds[i].clients| && j < |rows| && rows[j].email == inbounds[i].clients[k].email
    ensures TouchedRows(p, sel, rows, Met(inbounds, ids))[j].expiry == TouchedInbounds(p, sel, rows, ids, inbounds)[i].clients[k].expiry
  {
    var c := inbounds[i].clients[k];
    assert c in inbounds[i].clients;
    assert c.email in Emails(inbounds[i].clients);
    assert rows[j] in rows;
    assert Agrees(Db(rows, inbounds).rows, Db(rows, inbounds).inbounds[i].clients[k]);
    ClientFindsItsRow(p, sel, rows, c, j);
    MetIff(inbounds, ids, c.email);
    if inbounds[i].id !in ids {
      forall n | 0 <= n < |inbounds| && inbounds[n].id in ids ensures c.email !in Emails(inbounds[n].clients) {
        if n < i { assert Emails(inbounds[n].clients) !! Emails(inbounds[i].clients); }
        if n > i { assert Emails(inbounds[i].clients) !! Emails(inbounds[n].clients); }
      }
    }
  }

  /** Settings that keep every email in its place stay free of duplicates. */
  lemma SettingsKeepEmails(a: seq<Inbound>, b: seq<Inbound>)
    requires UniqueSettings(a) && |a| == |b|
    requires forall i :: 0 <= i < |a| ==> |a[i].clients| == |b[i].clients|
    requires forall i, k :: 0 <= i < |a| && 0 <= k < |a[i].clients| ==> b[i].clients[k].email == a[i].clients[k].email
    ensures UniqueSettings(b)
  {
    forall i | 0 <= i < |b| ensures UniqueClients(b[i].clients) && Emails(b[i].clients) == Emails(a[i].clients) {
      assert UniqueClients(a[i].clients);
      SameEmails(a[i].clients, b[i].clients);
    }
  }

  lemma SameEmails(a: seq<Client>, b: seq<Client>)
    requires |a| == |b| && forall k :: 0 <= k < |a| ==> b[k].email == a[k].email
    ensures Emails(b) == Emails(a)
  {
    forall e | e in Emails(a) ensures e in Emails(b) {
      var k :| 0 <= k < |a| && a[k].email == e;
      assert b[k] in b;
    }
    forall e | e in Emails(b) ensures e in Emails(a) {
      var k :| 0 <= k < |b| && b[k].email == e;
      assert a[k] in a;
    }
  }

  lemma SameDatesKeepWellFormed(db: Db, after: Db)
    requires WellFormed(db) && |after.rows| == |db.rows| && |after.inbounds| == |db.inbounds|
    requires forall j :: 0 <= j < |db.rows| ==> after.rows[j].email == db.rows[j].email && after.rows[j].expiry == db.rows[j].expiry
    requires forall i :: 0 <= i < |db.inbounds| ==> |after.inbounds[i].clients| == |db.inbounds[i].clients|
    requires forall i, k :: 0 <= i < |db.inbounds| && 0 <= k < |db.inbounds[i].clients| ==>
      after.inbounds[i].clients[k].email == db.inbounds[i].clients[k].email && after.inbounds[i].clients[k].expiry == db.inbounds[i].clients[k].expiry
    ensures WellFormed(after)
  {
    SettingsKeepEmails(db.inbounds, after.inbounds);
    forall i, k | 0 <= i < |after.inbounds| && 0 <= k < |after.inbounds[i].clients| ensures Agrees(after.rows, after.inbounds[i].clients[k]) {
      forall r | r in after.rows && r.email == after.inbounds[i].clients[k].email ensures r.expiry == after.inbounds[i].clients[k].expiry {
        var j :| 0 <= j < |after.rows| && after.rows[j] == r;
        assert Agrees(db.rows, db.inbounds[i].clients[k]);
        assert db.rows[j] in db.rows;
      }
    }
  }

  /** The whole tick, a reset and a manual edit keep rows and settings on one expiry. */
  lemma StepKeepsAgreement(db: Db, e: Event)
    requires WellFormed(db)
    ensures WellFormed(Step(db, e))
  {
    match e
    case Ticked(reports, clock) =>
      var sel := Reported(reports);
      PassKeepsWellFormed(Adjust(clock.adjust), sel, db.rows, db.inbounds, AdjustIds(db, sel));
      var a := Adjusted(db, reports, clock.adjust);
      var counted := Counted(db, reports, clock);
      SameDatesKeepWellFormed(a, counted);
      PassKeepsWellFormed(Renew(clock.renew), DueEmails(counted, clock.renew), counted.rows, counted.inbounds, DueIds(counted, clock.renew));
      SameDatesKeepWellFormed(RenewedDb(counted, clock.renew), Tick(db, reports, clock));
    case _ => SameDatesKeepWellFormed(db, Step(db, e));
  }

  // ---------------------------------------------------------------- the life of an expiry

  predicate HasClient(ib: Inbound, email: string) {
    exists k :: 0 <= k < |ib.clients| && ib.clients[k].email == email
  }

  /** A settings client with this email is in an inbound that some row names, one of those rows. */
  ghost predicate Loaded(db: Db, email: string, of: Row -> bool) {
    exists i, n :: LoadedFrom(db, email, of, i, n)
  }

  predicate LoadedFrom(db: Db, email: string, of: Row -> bool, i: int, n: int) {
    && 0 <= i < |db.inbounds| && 0 <= n < |db.rows| && of(db.rows[n])
    && db.rows[n].inboundId == db.inbounds[i].id && HasClient(db.inbounds[i], email)
  }

  lemma MetIsLoaded(db: Db, email: string, of: Row -> bool)
    ensures email in Met(db.inbounds, set r | r in db.rows && of(r) :: r.inboundId) <==> Loaded(db, email, of)
  {
    var ids := set r | r in db.rows && of(r) :: r.inboundId;
    MetIff(db.inbounds, ids, email);
    forall ib: Inbound ensures email in Emails(ib.clients) <==> HasClient(ib, email) {
      ClientHasEmail(ib, email);
    }
    if email in Met(db.inbounds, ids) {
      var i :| 0 <= i < |db.inbounds| && db.inbounds[i].id in ids && email in Emails(db.inbounds[i].clients);
      var r :| r in db.rows && of(r) && r.inboundId == db.inbounds[i].id;
      var n :| 0 <= n < |db.rows| && db.rows[n] == r;
      assert LoadedFrom(db, email, of, i, n);
    }
  }

  lemma ClientHasEmail(ib: Inbound, email: string)
    ensures email in Emails(ib.clients) <==> HasClient(ib, email)
  {
    if email in Emails(ib.clients) {
      var c :| c in ib.clients && c.email == email;
      var k :| 0 <= k < |ib.clients| && ib.clients[k] == c;
    }
  }

  /** The row has a delayed expiry, and its client a report. */
  function Starting(reports: seq<Report>): Row -> bool {
    (r: Row) => r.expiry < 0 && exists t :: t in reports && t.email == r.email
  }

  lemma AdjustIdsAre(db: Db, reports: seq<Report>)
    ensures AdjustIds(db, Reported(reports)) == set r | r in db.rows && Starting(reports)(r) :: r.inboundId
  {
  }

  /** A delayed expiry -d becomes now + d, in the row and for the client, exactly when the client has a
      report and its settings are loaded; every other expiry is left alone. */
  lemma DelayedExpiryStarts(db: Db, reports: seq<Report>, now: int, j: nat)
    requires WellFormed(db) && j < |db.rows|
    ensures |Adjusted(db, reports, now).rows| == |db.rows|
    ensures Adjusted(db, reports, now).rows[j] ==
      if Starting(reports)(db.rows[j]) && Loaded(db, db.rows[j].email, Starting(reports))
      then db.rows[j].(expiry := now + -db.rows[j].expiry) else db.rows[j]
  {
    PassIsPointwise(Adjust(now), Reported(reports), db.rows, db.inbounds, AdjustIds(db, Reported(reports)));
    AdjustIdsAre(db, reports);
    MetIsLoaded(db, db.rows[j].email, Starting(reports));
  }

  /** They are, when the client is in the settings of the inbound its row names. */
  lemma OwnInboundIsLoaded(db: Db, of: Row -> bool, j: nat, i: nat)
    requires j < |db.rows| && of(db.rows[j])
    requires i < |db.inbounds| && db.inbounds[i].id == db.rows[j].inboundId && HasClient(db.inbounds[i], db.rows[j].email)
    ensures Loaded(db, db.rows[j].email, of)
  {
    assert LoadedFrom(db, db.rows[j].email, of, i, j);
  }

  function DueAt(now: int): Row -> bool {
    (r: Row) => r.reset > 0 && 0 < r.expiry <= now
  }

  lemma DueIdsAre(db: Db, now: int)
    ensures DueIds(db, now) == set r | r in db.rows && DueAt(now)(r) :: r.inboundId
  {
  }

  /** Renewal changes exactly the due rows whose client it meets. */
  lemma RenewalIsExact(db: Db, now: int, j: nat)
    requires WellFormed(db) && j < |db.rows|
    ensures |RenewedDb(db, now).rows| == |db.rows|
    ensures RenewedDb(db, now).rows[j] ==
      if db.rows[j].reset > 0 && 0 < db.rows[j].expiry <= now && Loaded(db, db.rows[j].email, DueAt(now))
      then db.rows[j].(expiry := Renewed(db.rows[j].expiry, db.rows[j].reset, now), up := 0, down := 0, enable := true)
      else db.rows[j]
  {
    PassIsPointwise(Renew(now), DueEmails(db, now), db.rows, db.inbounds, DueIds(db, now));
    DueIdsAre(db, now);
    MetIsLoaded(db, db.rows[j].email, DueAt(now));
    if db.rows[j].email in DueEmails(db, now) {
      var r :| r in db.rows && Due(r, now) && r.email == db.rows[j].email;
      var n :| 0 <= n < |db.rows| && db.rows[n] == r;
      assert n == j;
    } else {
      assert db.rows[j] in db.rows;
    }
  }

  /** What a tick counts: each row gets the bytes reported for its email, and none without a report. */
  lemma ReportsAreCounted(db: Db, reports: seq<Report>, clock: Clock, j: nat)
    requires WellFormed(db) && DistinctReports(reports) && j < |db.rows|
    ensures |Counted(db, reports, clock).rows| == |db.rows|
    ensures forall t :: t in reports && t.email == db.rows[j].email ==>
      && var r := Counted(db, reports, clock).rows[j];
         && r.up == db.rows[j].up + t.up && r.down == db.rows[j].down + t.down
         && r.allTime == db.rows[j].allTime + t.up + t.down
         && r.lastOnline == if t.up + t.down > 0 then clock.online else db.rows[j].lastOnline
    ensures (forall t :: t in reports ==> t.email != db.rows[j].email) ==>
      Counted(db, reports, clock).rows[j] == db.rows[j]
  {
    DelayedExpiryStarts(db, reports, clock.adjust, j);
    LastReportIsIn(reports, db.rows[j].email);
    forall t | t in reports && t.email == db.rows[j].email ensures LastReport(reports, t.email) == Some(t) {
      var x := LastReport(reports, t.email).value;
      var a :| 0 <= a < |reports| && reports[a] == t;
      var b :| 0 <= b < |reports| && reports[b] == x;
    }
  }

  lemma {:induction false} RunOneMore(db: Db, events: seq<Event>, last: Event)
    ensures Run(db, events + [last]) == Step(Run(db, events), last)
    decreases |events|
  {
    if events == [] {
      assert [last][1..] == [];
    } else {
      assert (events + [last])[0] == events[0] && (events + [last])[1..] == events[1..] + [last];
      RunOneMore(Step(db, events[0]), events[1..], last);
    }
  }

  /** How an expiry may move: a date only forward, "never" not at all, a delay only into a date. */
  predicate Forward(before: int, after: int) {
    if before > 0 then after >= before else if before == 0 then after == 0 else after == before || after > 0
  }

  lemma StepMovesForward(db: Db, e: Event, j: nat)
    requires WellFormed(db) && j < |db.rows|
    requires e.Ticked? ==> e.clock.adjust >= 0
    ensures |Step(db, e).rows| == |db.rows| && Step(db, e).rows[j].email == db.rows[j].email
    ensures Forward(db.rows[j].expiry, Step(db, e).rows[j].expiry)
  {
    match e
    case Ticked(reports, clock) =>
      DelayedExpiryStarts(db, reports, clock.adjust, j);
      PassKeepsWellFormed(Adjust(clock.adjust), Reported(reports), db.rows, db.inbounds, AdjustIds(db, Reported(reports)));
      var a := Adjusted(db, reports, clock.adjust);
      var counted := Counted(db, reports, clock);
      SameDatesKeepWellFormed(a, counted);
      RenewalIsExact(counted, clock.renew, j);
      var r := counted.rows[j];
      if Due(r, clock.renew) { RenewedIsLeast(r.expiry, r.reset, clock.renew); }
    case _ =>
  }

  /** Over every run, a started expiry stays positive and only moves forward. */
  lemma {:induction false} ExpiryMovesForward(db: Db, events: seq<Event>, j: nat)
    requires WellFormed(db) && j < |db.rows|
    requires forall e :: e in events && e.Ticked? ==> e.clock.adjust >= 0
    ensures WellFormed(Run(db, events))
    ensures |Run(db, events).rows| == |db.rows| && Run(db, events).rows[j].email == db.rows[j].email
    ensures Forward(db.rows[j].expiry, Run(db, events).rows[j].expiry)
    decreases |events|
  {
    if events != [] {
      StepKeepsAgreement(db, events[0]);
      StepMovesForward(db, events[0], j);
      ExpiryMovesForward(Step(db, events[0]), events[1..], j);
    }
  }

  // ---------------------------------------------------------------- the enable flags

  predicate SameFlags(a: seq<Client>, b: seq<Client>) {
    |a| == |b| && forall k :: 0 <= k < |a| ==> b[k].email == a[k].email && b[k].enable == a[k].enable
  }

  ghost predicate SameFlagsEverywhere(a: seq<Inbound>, b: seq<Inbound>) {
    |a| == |b| && forall i :: 0 <= i < |a| ==> b[i].id == a[i].id && SameFlags(a[i].clients, b[i].clients)
  }

  lemma {:induction false} ClientsKeepFlags(p: Pass, sel: set<string>, rows: seq<Row>, clients: seq<Client>)
    ensures SameFlags(clients, VisitClients(p, sel, rows, clients).1)
  {
    if clients != [] { ClientsKeepFlags(p, sel, rows, clients[..|clients| - 1]); }
  }

  lemma {:induction false} PassKeepsFlags(p: Pass, sel: set<string>, rows: seq<Row>, inbounds: seq<Inbound>, ids: set<int>)
    ensures SameFlagsEverywhere(inbounds, VisitInbounds(p, sel, rows, inbounds, ids).1)
  {
    if inbounds != [] {
      var prefix, last := inbounds[..|inbounds| - 1], inbounds[|inbounds| - 1];
      PassKeepsFlags(p, sel, rows, prefix, ids);
      ClientsKeepFlags(p, sel, VisitInbounds(p, sel, rows, prefix, ids).0, last.clients);
    }
  }

  /** Renewal leaves the enable flag of every settings client as it was, in any database. */
  lemma RenewalKeepsClientFlags(db: Db, now: int)
    ensures SameFlagsEverywhere(db.inbounds, RenewedDb(db, now).inbounds)
  {
    PassKeepsFlags(Renew(now), DueEmails(db, now), db.rows, db.inbounds, DueIds(db, now));
  }

  /** It switches on every row it renews. So a renewed row and its client agree on the flag afterwards
      exactly when the client was on before. */
  lemma RenewedFlagsAgreeIff(db: Db, now: int, j: nat, i: nat, k: nat)
    requires WellFormed(db) && j < |db.rows| && i < |db.inbounds| && k < |db.inbounds[i].clients|
    requires Due(db.rows[j], now) && db.inbounds[i].id in DueIds(db, now) && db.inbounds[i].clients[k].email == db.rows[j].email
    ensures |RenewedDb(db, now).rows| == |db.rows| && SameFlagsEverywhere(db.inbounds, RenewedDb(db, now).inbounds)
    ensures RenewedDb(db, now).rows[j].enable == RenewedDb(db, now).inbounds[i].clients[k].enable <==> db.inbounds[i].clients[k].enable
  {
    RenewalKeepsClientFlags(db, now);
    RenewalIsExact(db, now, j);
    DueIdsAre(db, now);
    MetIsLoaded(db, db.rows[j].email, DueAt(now));
    MetIff(db.inbounds, DueIds(db, now), db.rows[j].email);
    assert db.inbounds[i].clients[k] in db.inbounds[i].clients;
    assert db.rows[j].email in Emails(db.inbounds[i].clients);
    assert SameFlags(db.inbounds[i].clients, RenewedDb(db, now).inbounds[i].clients);
  }

  /** Such a client: off together with its row, which the renewal switches on alone. */
  lemma RenewalLeavesTheClientOff()
    ensures exists db: Db, now: int, r: Row, c: Client ::
      WellFormed(db) && RenewedDb(db, now) == Db([r], [Inbound(r.inboundId, [c])]) && c.email == r.email && r.enable && !c.enable
  {
    var row := Row("a", 1, 5, 5, 10, 1, 10, 30, false, 0);
    var c := Client("a", 1, false);
    var db := Db([row], [Inbound(1, [c])]);
    assert row in db.rows && c in db.inbounds[0].clients;
    assert "a" in Emails(db.inbounds[0].clients);
    assert WellFormed(db);
    RenewalIsExact(db, 1, 0);
    MetIff(db.inbounds, DueIds(db, 1), "a");
    PassIsPointwise(Renew(1), DueEmails(db, 1), db.rows, db.inbounds, DueIds(db, 1));
    var after := RenewedDb(db, 1);
    var row' := row.(up := 0, down := 0, enable := true);
    assert after.rows == [row'];
    ClientFindsItsRow(Renew(1), DueEmails(db, 1), db.rows, c, 0);
    assert after.inbounds[0].clients == [c];
    assert after.inbounds == [Inbound(1, [c])];
    assert after == Db([row'], [Inbound(row'.inboundId, [c])]);
  }

  // ---------------------------------------------------------------- counters

  function Total(rows: seq<Row>): int {
    if rows == [] then 0 else Total(rows[..|rows| - 1]) + rows[|rows| - 1].allTime
  }

  predicate HasRow(rows: seq<Row>, email: string) {
    exists r :: r in rows && r.email == email
  }

  /** The reported bytes whose client has a row. */
  function ReportedBytes(rows: seq<Row>, reports: seq<Report>): int {
    if reports == [] then 0
    else
      var t := reports[|reports| - 1];
      ReportedBytes(rows, reports[..|reports| - 1]) + (if HasRow(rows, t.email) then t.up + t.down else 0)
  }

  predicate DistinctReports(reports: seq<Report>) {
    forall i, j :: 0 <= i < j < |reports| ==> reports[i].email != reports[j].email
  }

  function Bytes(t: Option<Report>): int {
    match t case None => 0 case Some(t) => t.up + t.down
  }

  lemma {:induction false} LastReportIsIn(reports: seq<Report>, email: string)
    ensures LastReport(reports, email).Some? <==> exists t :: t in reports && t.email == email
    ensures LastReport(reports, email).Some? ==> LastReport(reports, email).value in reports && LastReport(reports, email).value.email == email
  {
    if reports != [] {
      assert reports == reports[..|reports| - 1] + [reports[|reports| - 1]];
      LastReportIsIn(reports[..|reports| - 1], email);
    }
  }

  lemma {:induction false} OneMoreRow(rows: seq<Row>, row: Row, reports: seq<Report>)
    requires DistinctReports(reports) && !HasRow(rows, row.email)
    ensures ReportedBytes(rows + [row], reports) == ReportedBytes(rows, reports) + Bytes(LastReport(reports, row.email))
  {
    if reports != [] {
      var prefix, t := reports[..|reports| - 1], reports[|reports| - 1];
      OneMoreRow(rows, row, prefix);
      LastReportIsIn(prefix, row.email);
      assert row in rows + [row];
      assert HasRow(rows + [row], t.email) <==> HasRow(rows, t.email) || t.email == row.email by {
        if HasRow(rows, t.email) {
          var r :| r in rows && r.email == t.email;
          assert r in rows + [row];
        }
      }
    }
  }

  lemma {:induction false} NoRowsNoBytes(reports: seq<Report>)
    ensures ReportedBytes([], reports) == 0
  {
    if reports != [] { NoRowsNoBytes(reports[..|reports| - 1]); }
  }

  lemma {:induction false} MergeConserves(rows: seq<Row>, reports: seq<Report>, now: int)
    requires UniqueRows(rows) && DistinctReports(reports)
    ensures Total(Merge(rows, reports, now)) == Total(rows) + ReportedBytes(rows, reports)
  {
    if rows == [] {
      NoRowsNoBytes(reports);
    } else {
      var prefix, row := rows[..|rows| - 1], rows[|rows| - 1];
      assert rows == prefix + [row];
      MergeConserves(prefix, reports, now);
      OneMoreRow(prefix, row, reports);
      assert Merge(rows, reports, now)[..|rows| - 1] == Merge(prefix, reports, now);
    }
  }

  /** What the passes and the disabling never change in a row. */
  predicate SameAccount(r: Row, s: Row) {
    s.email == r.email && s.inboundId == r.inboundId && s.allTime == r.allTime && s.total == r.total && s.reset == r.reset
    && ((s.up == r.up && s.down == r.down) || (s.up == 0 && s.down == 0))
  }

  ghost predicate SameAccounts(a: seq<Row>, b: seq<Row>) {
    |a| == |b| && forall j :: 0 <= j < |a| ==> SameAccount(a[j], b[j])
  }

  lemma {:induction false} ClientsKeepAccounts(p: Pass, sel: set<string>, rows: seq<Row>, clients: seq<Client>)
    ensures SameAccounts(rows, VisitClients(p, sel, rows, clients).0)
  {
    if clients != [] { ClientsKeepAccounts(p, sel, rows, clients[..|clients| - 1]); }
  }

  lemma {:induction false} PassKeepsAccounts(p: Pass, sel: set<string>, rows: seq<Row>, inbounds: seq<Inbound>, ids: set<int>)
    ensures SameAccounts(rows, VisitInbounds(p, sel, rows, inbounds, ids).0)
  {
    if inbounds != [] {
      var prefix, last := inbounds[..|inbounds| - 1], inbounds[|inbounds| - 1];
      PassKeepsAccounts(p, sel, rows, prefix, ids);
      ClientsKeepAccounts(p, sel, VisitInbounds(p, sel, rows, prefix, ids).0, last.clients);
    }
  }

  lemma {:induction false} SameTotal(a: seq<Row>, b: seq<Row>)
    requires SameAccounts(a, b)
    ensures Total(a) == Total(b)
  {
    if a != [] { SameTotal(a[..|a| - 1], b[..|b| - 1]); }
  }

  lemma {:induction false} SameReportedBytes(a: seq<Row>, b: seq<Row>, reports: seq<Report>)
    requires SameAccounts(a, b)
    ensures ReportedBytes(a, reports) == ReportedBytes(b, reports)
  {
    if reports != [] {
      SameReportedBytes(a, b, reports[..|reports| - 1]);
      var e := reports[|reports| - 1].email;
      if r :| r in a && r.email == e {
        var j :| 0 <= j < |a| && a[j] == r;
        assert b[j] in b;
      }
      if r :| r in b && r.email == e {
        var j :| 0 <= j < |b| && b[j] == r;
        assert a[j] in a;
      }
    }
  }

  /** The parts of a tick: passes around one merge. */
  lemma TickParts(db: Db, reports: seq<Report>, clock: Clock)
    ensures SameAccounts(db.rows, Adjusted(db, reports, clock.adjust).rows)
    ensures Counted(db, reports, clock).rows == Merge(Adjusted(db, reports, clock.adjust).rows, reports, clock.online)
    ensures SameAccounts(Counted(db, reports, clock).rows, Tick(db, reports, clock).rows)
  {
    PassKeepsAccounts(Adjust(clock.adjust), Reported(reports), db.rows, db.inbounds, AdjustIds(db, Reported(reports)));
    var c := Counted(db, reports, clock);
    PassKeepsAccounts(Renew(clock.renew), DueEmails(c, clock.renew), c.rows, c.inbounds, DueIds(c, clock.renew));
  }

  /** One tick adds to the all-time totals exactly the reported bytes that have a row; starting,
      renewing and disabling clients move no bytes. */
  lemma TickConserves(db: Db, reports: seq<Report>, clock: Clock)
    requires UniqueRows(db.rows) && DistinctReports(reports)
    ensures Total(Tick(db, reports, clock).rows) == Total(db.rows) + ReportedBytes(db.rows, reports)
  {
    TickParts(db, reports, clock);
    var a := Adjusted(db, reports, clock.adjust);
    SameTotal(db.rows, a.rows);
    SameReportedBytes(db.rows, a.rows, reports);
    MergeConserves(a.rows, reports, clock.online);
    SameTotal(Counted(db, reports, clock).rows, Tick(db, reports, clock).rows);
  }

  // ---------------------------------------------------------------- who is switched off

  predicate NoneSwitchedOff(a: seq<Row>, b: seq<Row>) {
    |a| == |b| && forall j :: 0 <= j < |a| ==> b[j].email == a[j].email && (a[j].enable ==> b[j].enable)
  }

  lemma {:induction false} ClientsSwitchNoneOff(p: Pass, sel: set<string>, rows: seq<Row>, clients: seq<Client>)
    ensures NoneSwitchedOff(rows, VisitClients(p, sel, rows, clients).0)
  {
    if clients != [] { ClientsSwitchNoneOff(p, sel, rows, clients[..|clients| - 1]); }
  }

  lemma {:induction false} PassSwitchesNoneOff(p: Pass, sel: set<string>, rows: seq<Row>, inbounds: seq<Inbound>, ids: set<int>)
    ensures NoneSwitchedOff(rows, VisitInbounds(p, sel, rows, inbounds, ids).0)
  {
    if inbounds != [] {
      var prefix, last := inbounds[..|inbounds| - 1], inbounds[|inbounds| - 1];
      PassSwitchesNoneOff(p, sel, rows, prefix, ids);
      ClientsSwitchNoneOff(p, sel, VisitInbounds(p, sel, rows, prefix, ids).0, last.clients);
    }
  }

  /** The rows and settings of a tick before its last part, which switches clients off. */
  function BeforeDisabling(db: Db, reports: seq<Report>, clock: Clock): Db {
    RenewedDb(Counted(db, reports, clock), clock.renew)
  }

  lemma NobodyOffBeforeDisabling(db: Db, reports: seq<Report>, clock: Clock)
    ensures NoneSwitchedOff(db.rows, BeforeDisabling(db, reports, clock).rows)
    ensures SameFlagsEverywhere(db.inbounds, BeforeDisabling(db, reports, clock).inbounds)
  {
    var sel, c := Reported(reports), Counted(db, reports, clock);
    PassSwitchesNoneOff(Adjust(clock.adjust), sel, db.rows, db.inbounds, AdjustIds(db, sel));
    PassSwitchesNoneOff(Renew(clock.renew), DueEmails(c, clock.renew), c.rows, c.inbounds, DueIds(c, clock.renew));
    PassKeepsFlags(Adjust(clock.adjust), sel, db.rows, db.inbounds, AdjustIds(db, sel));
    PassKeepsFlags(Renew(clock.renew), DueEmails(c, clock.renew), c.rows, c.inbounds, DueIds(c, clock.renew));
    forall i | 0 <= i < |db.inbounds|
      ensures SameFlags(db.inbounds[i].clients, BeforeDisabling(db, reports, clock).inbounds[i].clients)
    {
      assert SameFlags(db.inbounds[i].clients, Adjusted(db, reports, clock.adjust).inbounds[i].clients);
      assert SameFlags(c.inbounds[i].clients, RenewedDb(c, clock.renew).inbounds[i].clients);
    }
  }

  /** The row shows its total used up, or a date of expiry that has come. */
  predicate UsedUp(r: Row, now: int) {
    (r.total > 0 && r.up + r.down >= r.total) || (r.expiry > 0 && r.expiry <= now)
  }

  /** After a tick no row is on with its total used up or its date past, and a row that was on is off exactly
      for one of these reasons. */
  lemma TickSwitchesOffIff(db: Db, reports: seq<Report>, clock: Clock, j: nat)
    requires j < |db.rows|
    ensures |Tick(db, reports, clock).rows| == |db.rows|
    ensures Tick(db, reports, clock).rows[j].enable ==> !UsedUp(Tick(db, reports, clock).rows[j], clock.disable)
    ensures db.rows[j].enable ==>
      (Tick(db, reports, clock).rows[j].enable <==> !UsedUp(Tick(db, reports, clock).rows[j], clock.disable))
  {
    NobodyOffBeforeDisabling(db, reports, clock);
  }

  /** The row's last part of the tick switched it off. */
  predicate WentOff(before: Db, after: Db, j: nat)
    requires j < |before.rows| == |after.rows|
  {
    before.rows[j].enable && !after.rows[j].enable
  }

  /** A client in the settings is off after a tick exactly when it was off before, or the tick switched off a
      row of its inbound and email. */
  lemma TickSwitchesClientOffIff(db: Db, reports: seq<Report>, clock: Clock, i: nat, k: nat)
    requires i < |db.inbounds| && k < |db.inbounds[i].clients|
    ensures var before, after := BeforeDisabling(db, reports, clock), Tick(db, reports, clock);
      && |before.rows| == |after.rows| && |after.inbounds| == |db.inbounds|
      && |after.inbounds[i].clients| == |db.inbounds[i].clients|
      && (!after.inbounds[i].clients[k].enable <==>
            || !db.inbounds[i].clients[k].enable
            || exists j :: 0 <= j < |after.rows| && WentOff(before, after, j) &&
                 after.rows[j].inboundId == db.inbounds[i].id && after.rows[j].email == db.inbounds[i].clients[k].email)
  {
    NobodyOffBeforeDisabling(db, reports, clock);
    var before, after := BeforeDisabling(db, reports, clock), Tick(db, reports, clock);
    assert SameFlags(db.inbounds[i].clients, before.inbounds[i].clients);
    var c := before.inbounds[i].clients[k];
    if c.email in ToDisable(before, before.inbounds[i].id, clock.disable) {
      var r :| r in before.rows && r.inboundId == before.inbounds[i].id && r.enable && Exhausted(r, clock.disable) && r.email == c.email;
      var j :| 0 <= j < |before.rows| && before.rows[j] == r;
      assert WentOff(before, after, j);
    } else {
      forall j | 0 <= j < |after.rows| && WentOff(before, after, j)
        ensures !(after.rows[j].inboundId == before.inbounds[i].id && after.rows[j].email == c.email)
      {
        assert before.rows[j] in before.rows;
      }
    }
  }

  // ---------------------------------------------------------------- resets and edits

  /** A reset gives the rows of an email, of one inbound, or with -1 of all inbounds, their traffic back and
      switches them on; totals, dates and all-time counters stay. An edit sets the counters of an email and
      never lowers the all-time counter. Nothing else changes. */
  lemma ChangesAreExact(db: Db, e: Event, j: nat)
    requires !e.Ticked? && j < |db.rows|
    ensures |Step(db, e).rows| == |db.rows| && Step(db, e).inbounds == db.inbounds
    ensures var r, after := db.rows[j], Step(db, e).rows[j];
      && (e.ResetOne? ==> after == if r.email == e.email then r.(up := 0, down := 0, enable := true) else r)
      && (e.ResetInbound? && e.id != -1 ==> after == if r.inboundId == e.id then r.(up := 0, down := 0, enable := true) else r)
      && (e.ResetInbound? && e.id == -1 ==> after == if r.inboundId >= 0 then r.(up := 0, down := 0, enable := true) else r)
      && (e.Edit? && r.email != e.email ==> after == r)
      && (e.Edit? && r.email == e.email ==>
            after.up == e.up && after.down == e.down && after.allTime >= r.allTime && after.allTime >= e.up + e.down
            && (after.allTime == r.allTime || after.allTime == e.up + e.down)
            && after == r.(up := e.up, down := e.down, allTime := after.allTime))
  {
  }

  // ---------------------------------------------------------------- the merge as nested loops

  /** The merge by nested loops: each row takes the first report with its email. */
  function FirstReport(reports: seq<Report>, email: string): Option<Report> {
    if reports == [] then None else if reports[0].email == email then Some(reports[0]) else FirstReport(reports[1..], email)
  }

  lemma {:induction false} FirstReportIsIn(reports: seq<Report>, email: string)
    ensures FirstReport(reports, email).Some? <==> exists t :: t in reports && t.email == email
    ensures FirstReport(reports, email).Some? ==> FirstReport(reports, email).value in reports && FirstReport(reports, email).value.email == email
  {
    if reports != [] {
      assert reports == [reports[0]] + reports[1..];
      FirstReportIsIn(reports[1..], email);
    }
  }

  function NestedMerge(rows: seq<Row>, reports: seq<Report>, now: int): (s: seq<Row>)
    ensures |s| == |rows|
  {
    seq(|rows|, i requires 0 <= i < |rows| => Credit(rows[i], FirstReport(reports, rows[i].email), now))
  }

  /** The map-based merge is the nested loop when every email is reported once. */
  lemma MergeIsNestedLoop(rows: seq<Row>, reports: seq<Report>, now: int)
    requires DistinctReports(reports)
    ensures Merge(rows, reports, now) == NestedMerge(rows, reports, now)
  {
    forall i | 0 <= i < |rows| ensures FirstReport(reports, rows[i].email) == LastReport(reports, rows[i].email) {
      FirstReportIsIn(reports, rows[i].email);
      LastReportIsIn(reports, rows[i].email);
    }
  }

  /** The all-time total covers the current counters. */
  predicate Covered(r: Row) {
    r.allTime >= 0 && r.allTime >= r.up + r.down
  }

  ghost predicate AllCovered(rows: seq<Row>) {
    forall r :: r in rows ==> Covered(r)
  }

  /** Xray never reports negative traffic. */
  predicate Plausible(e: Event) {
    e.Ticked? ==> forall t :: t in e.reports ==> t.up + t.down >= 0
  }

  lemma StepKeepsCovered(db: Db, e: Event)
    requires AllCovered(db.rows) && Plausible(e)
    ensures AllCovered(Step(db, e).rows) && |Step(db, e).rows| == |db.rows|
    ensures forall j :: 0 <= j < |db.rows| ==> Step(db, e).rows[j].allTime >= db.rows[j].allTime
  {
    match e
    case Ticked(reports, clock) =>
      TickParts(db, reports, clock);
      forall email ensures Bytes(LastReport(reports, email)) >= 0 {
        LastReportIsIn(reports, email);
      }
      var a := Adjusted(db, reports, clock.adjust);
      forall j | 0 <= j < |db.rows|
        ensures Covered(Step(db, e).rows[j]) && Step(db, e).rows[j].allTime >= db.rows[j].allTime
      {
        assert db.rows[j] in db.rows;
        assert SameAccount(db.rows[j], a.rows[j]);
        assert Bytes(LastReport(reports, a.rows[j].email)) >= 0;
        assert SameAccount(Counted(db, reports, clock).rows[j], Tick(db, reports, clock).rows[j]);
      }
    case _ =>
      forall j | 0 <= j < |db.rows| ensures Covered(Step(db, e).rows[j]) {
        assert db.rows[j] in db.rows;
      }
  }

  /** Over every run of ticks, resets and edits of any values, `allTime` covers the counters of every
      row and never decreases. */
  lemma {:induction false} RunKeepsCovered(db: Db, events: seq<Event>)
    requires AllCovered(db.rows) && forall e :: e in events ==> Plausible(e)
    ensures AllCovered(Run(db, events).rows) && |Run(db, events).rows| == |db.rows|
    ensures forall j :: 0 <= j < |db.rows| ==> Run(db, events).rows[j].allTime >= db.rows[j].allTime
    decreases |events|
  {
    if events != [] {
      StepKeepsCovered(db, events[0]);
      RunKeepsCovered(Step(db, events[0]), events[1..]);
    }
  }
}
