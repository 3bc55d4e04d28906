/** The per-client IP limit: merging what was stored with what was just seen, and choosing which
    addresses to ban, for any order in which the map is walked and any sort of equal timestamps. */
module IpLimiter {
  import opened Wrappers

  datatype Seen = Seen(ip: string, at: int)

  predicate DistinctIps(s: seq<Seen>) {
    forall i, j :: 0 <= i < j < |s| ==> s[i].ip != s[j].ip
  }

  // ---------------------------------------------------------------- merging

  type Times = map<string, int>

  function AddOld(stored: seq<Seen>, cutoff: int): Times {
    if stored == [] then map[]
    else
      var m, e := AddOld(stored[..|stored| - 1], cutoff), stored[|stored| - 1];
      if e.at < cutoff then m else m[e.ip := e.at]
  }

  function AddNew(m: Times, recent: seq<Seen>, cutoff: int): Times {
    if recent == [] then m
    else
      var m, e := AddNew(m, recent[..|recent| - 1], cutoff), recent[|recent| - 1];
      if e.at < cutoff || (e.ip in m && e.at <= m[e.ip]) then m else m[e.ip := e.at]
  }

  function Merged(stored: seq<Seen>, recent: seq<Seen>, cutoff: int): Times {
    AddNew(AddOld(stored, cutoff), recent, cutoff)
  }

  method MergeClientIps(stored: seq<Seen>, recent: seq<Seen>, cutoff: int) returns (m: Times)
    ensures m == Merged(stored, recent, cutoff)
  {
    m := map[];
    for i := 0 to |stored|
      invariant m == AddOld(stored[..i], cutoff)
    {
      assert stored[..i + 1][..i] == stored[..i];
      if stored[i].at < cutoff { continue; }
      m := m[stored[i].ip := stored[i].at];
    }
    assert stored[..|stored|] == stored;
    for i := 0 to |recent|
      invariant m == AddNew(AddOld(stored, cutoff), recent[..i], cutoff)
    {
      assert recent[..i + 1][..i] == recent[..i];
      if recent[i].at < cutoff { continue; }
      if recent[i].ip !in m || recent[i].at > m[recent[i].ip] { m := m[recent[i].ip := recent[i].at]; }
    }
    assert recent[..|recent|] == recent;
  }

  /** An entry of the address that is not stale. */
  predicate Fresh(s: seq<Seen>, ip: string, cutoff: int, e: Seen) {
    e in s && e.ip == ip && e.at >= cutoff
  }

  /** The map holds the latest fresh time of the address in the list, if there is one. */
  ghost predicate Latest(m: Times, s: seq<Seen>, ip: string, cutoff: int) {
    && (ip in m <==> exists e :: Fresh(s, ip, cutoff, e))
    && (ip in m ==> Fresh(s, ip, cutoff, Seen(ip, m[ip])) && forall e :: Fresh(s, ip, cutoff, e) ==> e.at <= m[ip])
  }

  lemma {:induction false} OldIsLatest(stored: seq<Seen>, ip: string, cutoff: int)
    requires DistinctIps(stored)
    ensures Latest(AddOld(stored, cutoff), stored, ip, cutoff)
  {
    if stored != [] {
      var prefix, last := stored[..|stored| - 1], stored[|stored| - 1];
      OldIsLatest(prefix, ip, cutoff);
      assert stored == prefix + [last];
      assert forall e :: e in prefix ==> e.ip != last.ip;
      OneMore(AddOld(prefix, cutoff), prefix, last, ip, cutoff);
    }
  }

  /** Adding one entry keeps the latest time, when a present time is only replaced by a later one. */
  lemma OneMore(m: Times, s: seq<Seen>, e: Seen, ip: string, cutoff: int)
    requires Latest(m, s, ip, cutoff)
    ensures Latest(if e.at < cutoff || (e.ip in m && e.at <= m[e.ip]) then m else m[e.ip := e.at], s + [e], ip, cutoff)
  {
    forall x ensures Fresh(s + [e], ip, cutoff, x) <==> Fresh(s, ip, cutoff, x) || (x == e && e.ip == ip && e.at >= cutoff) {
    }
    if ip in m { assert Fresh(s + [e], ip, cutoff, Seen(ip, m[ip])); }
    if e.ip == ip && e.at >= cutoff { assert Fresh(s + [e], ip, cutoff, e); }
  }

  lemma {:induction false} NewIsLatest(m: Times, stored: seq<Seen>, recent: seq<Seen>, ip: string, cutoff: int)
    requires Latest(m, stored, ip, cutoff)
    ensures Latest(AddNew(m, recent, cutoff), stored + recent, ip, cutoff)
  {
    if recent == [] {
      assert stored + recent == stored;
    } else {
      var prefix, last := recent[..|recent| - 1], recent[|recent| - 1];
      NewIsLatest(m, stored, prefix, ip, cutoff);
      assert stored + recent == stored + prefix + [last];
      OneMore(AddNew(m, prefix, cutoff), stored + prefix, last, ip, cutoff);
    }
  }

  /** With no address stored twice, the merge is for every address the latest of its fresh times. */
  lemma MergeIsLatest(stored: seq<Seen>, recent: seq<Seen>, cutoff: int, ip: string)
    requires DistinctIps(stored)
    ensures Latest(Merged(stored, recent, cutoff), stored + recent, ip, cutoff)
  {
    OldIsLatest(stored, ip, cutoff);
    NewIsLatest(AddOld(stored, cutoff), stored, recent, ip, cutoff);
  }

  /** With one stored twice it need not be: the later entry of the list wins, not the later time. */
  lemma StoredTwiceIsNotLatest()
    ensures exists stored, recent, cutoff, ip :: !Latest(Merged(stored, recent, cutoff), stored + recent, ip, cutoff)
  {
    var stored := [Seen("a", 2), Seen("a", 1)];
    assert stored[..1] == [Seen("a", 2)] && stored[..1][..0] == [];
    assert AddOld([Seen("a", 2)], 0) == map["a" := 2];
    assert Merged(stored, [], 0) == map["a" := 1];
    assert Fresh(stored + [], "a", 0, stored[0]);
    assert !Latest(Merged(stored, [], 0), stored + [], "a", 0);
  }

  // ---------------------------------------------------------------- partition and selection

  predicate ByTime(s: seq<Seen>) {
    forall i, j :: 0 <= i < j < |s| ==> s[i].at <= s[j].at
  }

  ghost predicate Holds(m: Times, e: Seen) {
    e.ip in m && m[e.ip] == e.at
  }

  /** The two lists split the map by whether the address was seen in this scan, oldest first. */
  ghost predicate Partition(m: Times, observed: set<string>, live: seq<Seen>, historical: seq<Seen>) {
    && ByTime(live) && ByTime(historical) && DistinctIps(live) && DistinctIps(historical)
    && (forall e :: e in live <==> Holds(m, e) && e.ip in observed)
    && (forall e :: e in historical <==> Holds(m, e) && e.ip !in observed)
  }

  function Inserted(s: seq<Seen>, e: Seen, k: nat): (r: seq<Seen>)
    requires k <= |s|
    ensures |r| == |s| + 1 && r[k] == e
    ensures forall i :: 0 <= i < k ==> r[i] == s[i]
    ensures forall i :: k < i < |r| ==> r[i] == s[i - 1]
    ensures forall x :: x in r <==> x in s || x == e
  {
    assert s == s[..k] + s[k..];
    s[..k] + [e] + s[k..]
  }

  lemma InsertedFits(s: seq<Seen>, e: Seen, k: nat)
    requires k <= |s| && ByTime(s) && DistinctIps(s) && forall x :: x in s ==> x.ip != e.ip
    requires (k == 0 || s[k - 1].at <= e.at) && (k == |s| || e.at <= s[k].at)
    ensures ByTime(Inserted(s, e, k)) && DistinctIps(Inserted(s, e, k))
  {
    var r := Inserted(s, e, k);
    forall i, j | 0 <= i < j < |r| ensures r[i].at <= r[j].at && r[i].ip != r[j].ip {
      if i == k { assert r[j] == s[j - 1]; }
      if j == k { assert r[i] == s[i]; }
    }
  }

  /** The place of an entry after the ones that are not later. */
  method Place(r: seq<Seen>, e: Seen) returns (k: nat)
    requires ByTime(r)
    ensures k <= |r| && (k == 0 || r[k - 1].at <= e.at) && (k == |r| || e.at <= r[k].at)
  {
    k := |r|;
    while k > 0 && e.at < r[k - 1].at
      invariant k <= |r| && (k == |r| || e.at <= r[k].at)
    {
      k := k - 1;
    }
  }

  /** Any sort by time will do; this one inserts. */
  method SortByTime(s: seq<Seen>) returns (r: seq<Seen>)
    requires DistinctIps(s)
    ensures ByTime(r) && DistinctIps(r) && |r| == |s| && forall e :: e in r <==> e in s
  {
    r := [];
    for i := 0 to |s|
      invariant ByTime(r) && DistinctIps(r) && |r| == i && forall e :: e in r <==> e in s[..i]
    {
      var k := Place(r, s[i]);
      assert s[..i + 1] == s[..i] + [s[i]];
      InsertedFits(r, s[i], k);
      r := Inserted(r, s[i], k);
    }
    assert s[..|s|] == s;
  }

  method PartitionLiveIps(m: Times, observed: set<string>) returns (live: seq<Seen>, historical: seq<Seen>)
    ensures Partition(m, observed, live, historical)
  {
    live, historical := [], [];
    var rest := m.Keys;
    while rest != {}
      invariant rest <= m.Keys
      invariant DistinctIps(live) && DistinctIps(historical)
      invariant forall e :: e in live <==> Holds(m, e) && e.ip in observed && e.ip !in rest
      invariant forall e :: e in historical <==> Holds(m, e) && e.ip !in observed && e.ip !in rest
      decreases |rest|
    {
      ghost var one := SomeMember(rest);
      assert exists ip :: ip in rest && ip == one;
      var ip :| ip in rest;
      var e := Seen(ip, m[ip]);
      if ip in observed {
        live := live + [e];
      } else {
        historical := historical + [e];
      }
      rest := rest - {ip};
    }
    live := SortByTime(live);
    historical := SortByTime(historical);
  }

  function Min(a: int, b: int): int {
    if a <= b then a else b
  }

  function Ips(s: seq<Seen>): set<string> {
    set e | e in s :: e.ip
  }

  function IpList(s: seq<Seen>): (r: seq<string>)
    ensures |r| == |s| && forall i :: 0 <= i < |s| ==> r[i] == s[i].ip
  {
    seq(|s|, i requires 0 <= i < |s| => s[i].ip)
  }

  /** The addresses of the merge that count against the limit. */
  function LiveIps(m: Times, observed: set<string>): set<string> {
    set ip | ip in m && ip in observed
  }

  lemma {:induction false} DistinctCount(s: seq<Seen>)
    requires DistinctIps(s)
    ensures |Ips(s)| == |s|
  {
    if s != [] {
      var prefix, last := s[..|s| - 1], s[|s| - 1];
      DistinctCount(prefix);
      assert s == prefix + [last];
      assert Ips(s) == Ips(prefix) + {last.ip};
      assert last.ip !in Ips(prefix);
    }
  }

  // ---------------------------------------------------------------- one scan

  /** What a scan brings. `limit` is 0 when the client is unknown or unlimited or its inbound is off. */
  datatype Scan = Scan(recent: seq<Seen>, cutoff: int, limit: int, inboundOk: bool, logOk: bool, saveOk: bool)

  /** The addresses stored for a client and the list of banned ones, before and after a scan. */
  datatype Record = Record(stored: seq<Seen>, banned: seq<string>)

  ghost predicate Splits(r: Record, scan: Scan, live: seq<Seen>, historical: seq<Seen>) {
    Partition(Merged(r.stored, scan.recent, scan.cutoff), Ips(scan.recent), live, historical)
  }

  /** `updateInboundClientIps`: the limited clients keep their oldest live addresses. */
  ghost predicate Next(r: Record, scan: Scan, after: Record) {
    if !scan.inboundOk then after == r
    else if scan.limit <= 0 then after == Record(if scan.saveOk then scan.recent else r.stored, r.banned)
    else if !scan.logOk then after == Record(r.stored, [])
    else exists live, historical :: Splits(r, scan, live, historical) && after == Selected(r, scan, live, historical)
  }

  function Selected(r: Record, scan: Scan, live: seq<Seen>, historical: seq<Seen>): Record
    requires scan.limit > 0
  {
    var k := Min(scan.limit, |live|);
    Record(if scan.saveOk then live[..k] + historical else r.stored, IpList(live[k..]))
  }

  class Limiter {
    var stored: seq<Seen>
    var banned: seq<string>

    constructor (stored: seq<Seen>)
      ensures this.stored == stored && banned == []
    {
      this.stored := stored;
      banned := [];
    }

    method Update(scan: Scan) returns (cleanLog: bool)
      modifies this
      ensures Next(Record(old(stored), old(banned)), scan, Record(stored, banned))
      ensures cleanLog <==> scan.inboundOk && scan.limit > 0 && scan.logOk && scan.saveOk && banned != []
    {
      if !scan.inboundOk { return false; }
      if scan.limit <= 0 {
        if scan.saveOk { stored := scan.recent; }
        return false;
      }
      ghost var r := Record(stored, banned);
      var m := MergeClientIps(stored, scan.recent, scan.cutoff);
      var live, historical := PartitionLiveIps(m, Ips(scan.recent));
      banned := [];
      if !scan.logOk { return false; }
      assert Splits(r, scan, live, historical);
      cleanLog := false;
      var kept := live;
      if |live| > scan.limit {
        cleanLog := true;
        kept := live[..scan.limit];
        var excess := live[scan.limit..];
        for i := 0 to |excess|
          invariant banned == IpList(excess[..i]) && stored == r.stored
        {
          banned := banned + [excess[i].ip];
        }
        assert excess[..|excess|] == excess;
      } else {
        assert live[..|live|] == live && live[|live|..] == [];
      }
      if scan.saveOk { stored := kept + historical; } else { cleanLog := false; }
      assert Record(stored, banned) == Selected(r, scan, live, historical);
    }
  }

  // ---------------------------------------------------------------- what a scan guarantees

  /** Whatever the order in the map and among equal times: exactly the excess over the limit is banned,
      only addresses seen in this scan, none older than one that is kept; and the rest of the merge is
      what is stored. */
  lemma ScanBansTheExcess(r: Record, scan: Scan, after: Record)
    requires scan.inboundOk && scan.limit > 0 && scan.logOk && Next(r, scan, after)
    ensures var m := Merged(r.stored, scan.recent, scan.cutoff);
      && |after.banned| == (if |LiveIps(m, Ips(scan.recent))| > scan.limit then |LiveIps(m, Ips(scan.recent))| - scan.limit else 0)
      && (forall i, j :: 0 <= i < j < |after.banned| ==> after.banned[i] != after.banned[j])
      && (forall ip :: ip in after.banned ==> ip in LiveIps(m, Ips(scan.recent)))
    ensures var m := Merged(r.stored, scan.recent, scan.cutoff);
      forall k, b :: k in LiveIps(m, Ips(scan.recent)) && k !in after.banned && b in after.banned && b in m ==> m[k] <= m[b]
    ensures var m := Merged(r.stored, scan.recent, scan.cutoff);
      scan.saveOk ==> DistinctIps(after.stored) && forall e :: e in after.stored <==> Holds(m, e) && e.ip !in after.banned
    ensures !scan.saveOk ==> after.stored == r.stored
  {
    var live, historical :| Splits(r, scan, live, historical) && after == Selected(r, scan, live, historical);
    var m := Merged(r.stored, scan.recent, scan.cutoff);
    var observed := Ips(scan.recent);
    LiveCount(m, observed, live, historical);
    var k := Min(scan.limit, |live|);
    TailIsLive(m, observed, live, historical, k);
    forall a, b | a in LiveIps(m, observed) && a !in after.banned && b in after.banned ensures b in m && m[a] <= m[b] {
      OlderIsKept(m, observed, live, historical, k, a, b);
    }
    if scan.saveOk { SavedIsTheRest(m, observed, live, historical, k); }
  }

  /** Any other scan bans nobody: one of an unknown inbound changes nothing, one without a limit stores what it
      saw, and one that cannot open the log forgets the bans. */
  lemma OtherScansBanNobody(r: Record, scan: Scan, after: Record)
    requires !(scan.inboundOk && scan.limit > 0 && scan.logOk) && Next(r, scan, after)
    ensures forall ip :: ip in after.banned ==> ip in r.banned
    ensures !scan.inboundOk ==> after == r
    ensures scan.inboundOk && scan.limit <= 0 ==> after.banned == r.banned && after.stored == if scan.saveOk then scan.recent else r.stored
    ensures scan.inboundOk && scan.limit > 0 ==> after.stored == r.stored && after.banned == []
  {
  }

  lemma LiveCount(m: Times, observed: set<string>, live: seq<Seen>, historical: seq<Seen>)
    requires Partition(m, observed, live, historical)
    ensures |live| == |LiveIps(m, observed)|
  {
    DistinctCount(live);
    forall ip | ip in LiveIps(m, observed) ensures ip in Ips(live) {
      assert Holds(m, Seen(ip, m[ip]));
      assert Seen(ip, m[ip]) in live;
    }
    assert Ips(live) == LiveIps(m, observed);
  }

  lemma TailIsLive(m: Times, observed: set<string>, live: seq<Seen>, historical: seq<Seen>, k: nat)
    requires Partition(m, observed, live, historical) && k <= |live|
    ensures forall ip :: ip in IpList(live[k..]) ==> ip in LiveIps(m, observed)
  {
    forall ip | ip in IpList(live[k..]) ensures ip in LiveIps(m, observed) {
      var i :| 0 <= i < |live[k..]| && IpList(live[k..])[i] == ip;
      assert live[k + i] in live;
    }
  }

  lemma TailIsListed(live: seq<Seen>, k: nat, i: nat)
    requires k <= |live| && i < |live|
    ensures i >= k ==> live[i].ip in IpList(live[k..])
  {
    if i >= k { assert IpList(live[k..])[i - k] == live[i].ip; }
  }

  lemma OlderIsKept(m: Times, observed: set<string>, live: seq<Seen>, historical: seq<Seen>, k: nat, a: string, b: string)
    requires Partition(m, observed, live, historical) && k <= |live|
    requires a in LiveIps(m, observed) && a !in IpList(live[k..]) && b in IpList(live[k..])
    ensures b in m && m[a] <= m[b]
  {
    assert Holds(m, Seen(a, m[a]));
    assert Seen(a, m[a]) in live;
    var i :| 0 <= i < |live| && live[i] == Seen(a, m[a]);
    TailIsListed(live, k, i);
    var j :| 0 <= j < |live[k..]| && IpList(live[k..])[j] == b;
    assert live[k + j] in live;
  }

  lemma SavedIsTheRest(m: Times, observed: set<string>, live: seq<Seen>, historical: seq<Seen>, k: nat)
    requires Partition(m, observed, live, historical) && k <= |live|
    ensures DistinctIps(live[..k] + historical)
    ensures forall e :: e in live[..k] + historical <==> Holds(m, e) && e.ip !in IpList(live[k..])
  {
    var saved := live[..k] + historical;
    forall i, j | 0 <= i < j < |saved| ensures saved[i].ip != saved[j].ip {
      if i < k <= j { assert live[i] in live && historical[j - k] in historical; }
    }
    forall e | e in saved ensures Holds(m, e) && e.ip !in IpList(live[k..]) {
      if e in live[..k] {
        var i :| 0 <= i < k && live[i] == e;
        assert e in live;
      }
      forall j | 0 <= j < |live[k..]| ensures IpList(live[k..])[j] != e.ip {
        assert live[k + j] in live;
      }
    }
    forall e | Holds(m, e) && e.ip !in IpList(live[k..]) ensures e in saved {
      if e.ip in observed {
        var i :| 0 <= i < |live| && live[i] == e;
        TailIsListed(live, k, i);
        assert live[..k][i] == e;
      }
    }
  }

  /** The stored list never holds an address twice, over any number of scans, limited or not: so the
      merge of every scan is exact. */
  lemma {:induction false} StoredStaysDistinct(records: seq<Record>, scans: seq<Scan>)
    requires |records| == |scans| + 1 && DistinctIps(records[0].stored)
    requires forall i :: 0 <= i < |scans| ==> DistinctIps(scans[i].recent) && Next(records[i], scans[i], records[i + 1])
    ensures forall i :: 0 <= i < |records| ==> DistinctIps(records[i].stored)
    ensures forall i, ip :: 0 <= i < |scans| ==>
      Latest(Merged(records[i].stored, scans[i].recent, scans[i].cutoff), records[i].stored + scans[i].recent, ip, scans[i].cutoff)
  {
    var n := |scans|;
    if n > 0 {
      StoredStaysDistinct(records[..n], scans[..n - 1]);
      assert records[..n][n - 1] == records[n - 1];
      if scans[n - 1].inboundOk && scans[n - 1].limit > 0 && scans[n - 1].logOk { ScanBansTheExcess(records[n - 1], scans[n - 1], records[n]); }
    }
    forall i, ip | 0 <= i < |scans|
      ensures Latest(Merged(records[i].stored, scans[i].recent, scans[i].cutoff), records[i].stored + scans[i].recent, ip, scans[i].cutoff)
    {
      MergeIsLatest(records[i].stored, scans[i].recent, scans[i].cutoff, ip);
    }
  }
}
