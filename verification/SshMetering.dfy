/** Metering of SSH users from kernel counters that can be reset behind the panel's back. A baseline
    per user turns counter readings into increments; what really reached the chains is tracked beside it. */
module SshMetering {

  // ---------------------------------------------------------------- periodic resets

  /** The calendar fields of a moment. */
  datatype Civil = Civil(year: int, yearDay: int, month: int, isoYear: int, isoWeek: int)

  datatype User = User(used: int, limit: int, enable: bool, expiry: int, resetFlow: string, lastReset: int)

  predicate ShouldReset(u: User, now: int, civil: int -> Civil) {
    if u.resetFlow == "" || u.resetFlow == "never" then false
    else if u.lastReset == 0 then true
    else
      var n, l := civil(now), civil(u.lastReset);
      if u.resetFlow == "daily" then n.yearDay != l.yearDay || n.year != l.year
      else if u.resetFlow == "weekly" then n.isoYear != l.isoYear || n.isoWeek != l.isoWeek
      else if u.resetFlow == "monthly" then n.year != l.year || n.month != l.month
      else false
  }

  /** The day, week or month a moment falls in. */
  function Period(flow: string, c: Civil): (int, int) {
    if flow == "daily" then (c.year, c.yearDay)
    else if flow == "weekly" then (c.isoYear, c.isoWeek)
    else (c.year, c.month)
  }

  // ---------------------------------------------------------------- the machine

  /** `users` is the database table, `last` the baselines, `counters` the bytes the kernel shows
      (nothing reads as 0), `sent` the bytes of each user that reached the chains since its last reset, and
      `nextId` the next auto-increment id. */
  datatype Meter = Meter(users: map<int, User>, last: map<int, int>, counters: map<int, int>, sent: map<int, int>, nextId: int)

  datatype PolicyOutcome = Kept | Replaced | TableLost

  /** Everything a poll meets outside the panel: the clock, which database updates and account locks
      succeed, what happens to the table, and whether the counters can be read. */
  datatype Env = Env(now: int, civil: int -> Civil, resetOk: set<int>, policy: PolicyOutcome,
                     readOk: bool, saveOk: set<int>, lockOk: set<int>)

  function Total(m: Meter, id: int): int {
    if id in m.counters then m.counters[id] else 0
  }

  predicate Due(m: Meter, env: Env, id: int)
    requires id in m.users
  {
    ShouldReset(m.users[id], env.now, env.civil)
  }

  predicate ResetNow(m: Meter, env: Env, id: int) {
    id in m.users && Due(m, env, id) && id in env.resetOk
  }

  function Zeroed(u: User, now: int): User {
    u.(used := 0, lastReset := now)
  }

  /** The due resets: row, baseline and the true count start over where the update succeeds. */
  function AfterResets(m: Meter, env: Env): Meter {
    m.(users := map id | id in m.users :: if ResetNow(m, env, id) then Zeroed(m.users[id], env.now) else m.users[id],
       last := map id | id in m.last && !ResetNow(m, env, id) :: m.last[id],
       sent := map id | id in m.sent :: if ResetNow(m, env, id) then 0 else m.sent[id])
  }

  function AfterPolicy(m: Meter, env: Env): Meter {
    match env.policy
    case Kept => m
    case Replaced => m.(counters := map[], last := map[])
    case TableLost => m.(counters := map[])
  }

  /** What a successful reading adds for one user. */
  function Delta(m: Meter, env: Env, id: int): int {
    if env.readOk && id in m.last && Total(m, id) >= m.last[id] then Total(m, id) - m.last[id] else 0
  }

  /** The usage the poll decides on: the row as loaded (0 if a reset was due) plus the increment. */
  function Seen(loaded: User, due: bool, delta: int): int {
    (if due then 0 else loaded.used) + delta
  }

  predicate OverTraffic(u: User, seen: int) {
    u.enable && u.limit > 0 && seen >= u.limit
  }

  predicate Expired(u: User, now: int) {
    u.enable && u.expiry > 0 && now >= u.expiry
  }

  /** The row after metering and the two checks. */
  function Checked(u: User, id: int, delta: int, seen: int, env: Env): User {
    var metered := if id in env.saveOk then u.(used := u.used + delta) else u;
    if (OverTraffic(u, seen) || Expired(u, env.now)) && id in env.lockOk then metered.(enable := false) else metered
  }

  /** `before` is the state the users were loaded from. */
  function AfterRead(before: Meter, m: Meter, env: Env): Meter
    requires m.users.Keys == before.users.Keys
  {
    m.(users := map id | id in m.users ::
         Checked(m.users[id], id, Delta(m, env, id), Seen(before.users[id], Due(before, env, id), Delta(m, env, id)), env),
       last := if env.readOk then m.last + (map id | id in m.users :: Total(m, id)) else m.last)
  }

  /** One poll, `reconcileUserLimits`. */
  function Poll(m: Meter, env: Env): Meter {
    AfterRead(m, AfterPolicy(AfterResets(m, env), env), env)
  }

  datatype Event =
    | Traffic(id: int, bytes: int, counted: int)   // the kernel may miss some of the bytes
    | OutsideReset                                 // nft flush, reload, reboot
    | Restart                                      // of the panel: baselines are lost
    | UserReset(id: int, now: int, ok: bool)
    | AddUser(u: User)
    | EditUser(id: int, u: User)
    | DeleteUser(id: int)
    | PollEvent(env: Env)

  predicate Legal(m: Meter, e: Event) {
    match e
    case Traffic(id, bytes, counted) => id in m.users && id in m.sent && 0 <= counted <= bytes
    case AddUser(u) => u.used == 0
    case EditUser(id, _) => id in m.users
    case _ => true
  }

  function Next(m: Meter, e: Event): Meter
    requires Legal(m, e)
  {
    match e
    case Traffic(id, bytes, counted) =>
      m.(counters := m.counters[id := Total(m, id) + counted], sent := m.sent[id := m.sent[id] + bytes])
    case OutsideReset => m.(counters := map[])
    case Restart => m.(last := map[])
    case UserReset(id, now, ok) =>
      if !ok then m
      else m.(users := if id in m.users then m.users[id := Zeroed(m.users[id], now)] else m.users,
              last := m.last - {id},
              sent := if id in m.users && id in m.sent then m.sent[id := 0] else m.sent)
    case AddUser(u) => m.(users := m.users[m.nextId := u], sent := m.sent[m.nextId := 0], nextId := m.nextId + 1)
    case EditUser(id, u) => m.(users := m.users[id := u.(used := m.users[id].used, lastReset := m.users[id].lastReset)])
    case DeleteUser(id) => m.(users := m.users - {id})
    case PollEvent(env) => Poll(m, env)
  }

  // ---------------------------------------------------------------- the imperative form

  class SshMeter {
    var users: map<int, User>
    var lastBytes: map<int, int>
    var counters: map<int, int>
    ghost var sent: map<int, int>
    ghost var nextId: int

    ghost function Abs(): Meter
      reads this
    {
      Meter(users, lastBytes, counters, sent, nextId)
    }

    /** `ResetUserTraffic`: nothing happens when the row cannot be updated. */
    method ResetUserTraffic(id: int, now: int, ok: bool)
      modifies this`users, this`lastBytes, this`sent
      ensures Abs() == Next(old(Abs()), UserReset(id, now, ok))
    {
      if !ok { return; }
      if id in users {
        users := users[id := Zeroed(users[id], now)];
        if id in sent { sent := sent[id := 0]; }
      }
      lastBytes := lastBytes - {id};
    }

    /** The loop of the reset pass; `steps` are the states it goes through. */
    method ResetLoop(ids: seq<int>, env: Env, ghost steps: seq<Meter>) returns (due: set<int>)
      requires |steps| == |ids| + 1 && Abs() == steps[0]
      requires forall i :: 0 <= i < |ids| ==> ResetTransition(steps[0], steps[i], steps[i + 1], env, ids[i])
      modifies this`users, this`lastBytes, this`sent
      ensures Abs() == steps[|ids|]
      ensures due == DueAmong(steps[0], env, ids)
    {
      due := {};
      for i := 0 to |ids|
        invariant due == DueAmong(steps[0], env, ids[..i])
        invariant Abs() == steps[i]
      {
        assert ResetTransition(steps[0], steps[i], steps[i + 1], env, ids[i]);
        assert ids[..i + 1] == ids[..i] + [ids[i]];
        if ShouldReset(users[ids[i]], env.now, env.civil) {
          ResetUserTraffic(ids[i], env.now, ids[i] in env.resetOk);
          due := due + {ids[i]};
        }
      }
      assert ids[..|ids|] == ids;
    }

    /** The reset pass of a poll. */
    method ResetDue(ids: seq<int>, env: Env) returns (due: set<int>)
      requires Enumerates(ids, Abs())
      modifies this`users, this`lastBytes, this`sent
      ensures Abs() == AfterResets(old(Abs()), env)
      ensures due == DueAmong(old(Abs()), env, ids)
    {
      ghost var steps := ResetSteps(Abs(), env, ids);
      due := ResetLoop(ids, env, steps);
    }

    /** The outcome of `ensureSSHPolicy`: a loaded table starts with empty counters and clears the
        baselines; a failed load may still have deleted the old table. */
    method EnsurePolicy(outcome: PolicyOutcome)
      modifies this`counters, this`lastBytes
      ensures forall env: Env :: env.policy == outcome ==> Abs() == AfterPolicy(old(Abs()), env)
    {
      match outcome {
        case Kept =>
        case Replaced => counters := map[]; lastBytes := map[];
        case TableLost => counters := map[];
      }
    }

    /** One user's turn in the metering pass. */
    method MeterUser(id: int, loaded: User, due: bool, env: Env, ghost before: Meter, ghost mid: Meter)
      requires id in users && id in before.users && id in mid.users && loaded == before.users[id] && due == Due(before, env, id)
      requires users[id] == mid.users[id] && counters == mid.counters
      requires (id in lastBytes <==> id in mid.last) && (id in lastBytes ==> lastBytes[id] == mid.last[id])
      modifies this`users, this`lastBytes
      ensures users == old(users)[id := FinalRow(before, mid, env, id)]
      ensures lastBytes == if env.readOk then old(lastBytes)[id := Total(mid, id)] else old(lastBytes)
    {
      var u := users[id];
      var seen := if due then 0 else loaded.used;
      if env.readOk {
        var total := if id in counters then counters[id] else 0;
        if id in lastBytes && total >= lastBytes[id] {
          var delta := total - lastBytes[id];
          if delta > 0 && id in env.saveOk {
            users := users[id := u.(used := u.used + delta)];
          }
          seen := seen + delta;
        }
        lastBytes := lastBytes[id := total];
      }
      if u.enable && u.limit > 0 && seen >= u.limit {
        if id in env.lockOk { users := users[id := users[id].(enable := false)]; }
      } else if u.enable && u.expiry > 0 && env.now >= u.expiry {
        if id in env.lockOk { users := users[id := users[id].(enable := false)]; }
      }
    }

    /** The metering pass; `want` are the rows it is to end with. */
    method MeterLoop(ids: seq<int>, loaded: map<int, User>, due: set<int>, env: Env,
                     ghost before: Meter, ghost mid: Meter, ghost want: map<int, User>)
      requires Enumerates(ids, before) && Abs() == mid && loaded == before.users && due == DueAmong(before, env, ids)
      requires mid.users.Keys == before.users.Keys == want.Keys
      requires forall id :: id in want ==> want[id] == FinalRow(before, mid, env, id)
      modifies this`users, this`lastBytes
      ensures users == want
      ensures lastBytes == if env.readOk then mid.last + Totals(mid, ids) else mid.last
    {
      for i := 0 to |ids|
        invariant users == Patched(mid.users, want, ids[..i])
        invariant lastBytes == if env.readOk then mid.last + Totals(mid, ids[..i]) else mid.last
      {
        Extend(ids, before, i);
        PatchedStep(mid.users, want, ids[..i], ids[i]);
        TotalsStep(mid, ids[..i], ids[i]);
        assert ids[i] in want && users[ids[i]] == mid.users[ids[i]];
        MeterUser(ids[i], loaded[ids[i]], ids[i] in due, env, before, mid);
      }
      assert ids[..|ids|] == ids;
      PatchedAll(mid.users, want, ids);
    }

    method ReconcileUserLimits(ids: seq<int>, env: Env)
      requires Enumerates(ids, Abs())
      modifies this
      ensures Abs() == Poll(old(Abs()), env)
    {
      ghost var before := Abs();
      var loaded := users;
      var due := ResetDue(ids, env);
      EnsurePolicy(env.policy);
      ghost var mid := Abs();
      assert mid == AfterPolicy(AfterResets(before, env), env);
      MeterLoop(ids, loaded, due, env, before, mid, AfterRead(before, mid, env).users);
      TotalsAll(mid, ids);
    }
  }

  /** The ids of the user rows, each once, as the database returns them. */
  ghost predicate Enumerates(ids: seq<int>, m: Meter) {
    && (forall id :: id in m.users <==> id in ids)
    && (forall i, j :: 0 <= i < j < |ids| ==> ids[i] != ids[j])
    && (forall id :: id in m.users ==> id in m.sent)
  }

  ghost function DueAmong(m: Meter, env: Env, ids: seq<int>): set<int> {
    set id | id in ids && id in m.users && Due(m, env, id)
  }

  lemma Extend(ids: seq<int>, m: Meter, i: nat)
    requires Enumerates(ids, m) && i < |ids|
    ensures ids[..i + 1] == ids[..i] + [ids[i]]
    ensures ids[i] !in ids[..i] && ids[i] in m.users && ids[i] in m.sent
  {
    assert ids[i] in ids;
  }

  // ---------------------------------------------------------------- the passes, user by user

  ghost function ResetsSoFar(m: Meter, env: Env, done: seq<int>): Meter {
    m.(users := map id | id in m.users :: if id in done && ResetNow(m, env, id) then Zeroed(m.users[id], env.now) else m.users[id],
       last := map id | id in m.last && !(id in done && ResetNow(m, env, id)) :: m.last[id],
       sent := map id | id in m.sent :: if id in done && ResetNow(m, env, id) then 0 else m.sent[id])
  }

  lemma ResetStep(m: Meter, env: Env, done: seq<int>, id: int)
    requires id in m.users && id in m.sent && id !in done
    ensures var s := ResetsSoFar(m, env, done);
      s.users[id] == m.users[id] &&
      ResetsSoFar(m, env, done + [id]) == Next(s, UserReset(id, env.now, ResetNow(m, env, id)))
  {
    var s := ResetsSoFar(m, env, done);
    var t := Next(s, UserReset(id, env.now, ResetNow(m, env, id)));
    var r := ResetsSoFar(m, env, done + [id]);
    assert r.users == t.users;
    assert r.last == t.last;
    assert r.sent == t.sent;
  }

  ghost predicate ResetTransition(m: Meter, s: Meter, t: Meter, env: Env, id: int) {
    id in m.users && id in s.users && s.users[id] == m.users[id] && t == Next(s, UserReset(id, env.now, ResetNow(m, env, id)))
  }

  ghost function ResetSteps(m: Meter, env: Env, ids: seq<int>): (steps: seq<Meter>)
    requires Enumerates(ids, m)
    ensures |steps| == |ids| + 1 && steps[0] == m && steps[|ids|] == AfterResets(m, env)
    ensures forall i :: 0 <= i < |ids| ==> ResetTransition(m, steps[i], steps[i + 1], env, ids[i])
  {
    var steps := seq(|ids| + 1, i requires 0 <= i <= |ids| => ResetsSoFar(m, env, ids[..i]));
    assert steps[0] == m by { NoneReset(m, env); }
    assert steps[|ids|] == AfterResets(m, env) by { assert ids[..|ids|] == ids; AllReset(m, env, ids); }
    assert forall i :: 0 <= i < |ids| ==> ResetTransition(m, steps[i], steps[i + 1], env, ids[i]) by {
      forall i | 0 <= i < |ids| ensures ResetTransition(m, steps[i], steps[i + 1], env, ids[i]) {
        Extend(ids, m, i);
        ResetStep(m, env, ids[..i], ids[i]);
      }
    }
    steps
  }

  lemma NoneReset(m: Meter, env: Env)
    ensures ResetsSoFar(m, env, []) == m
  {
    var r := ResetsSoFar(m, env, []);
    assert r.users == m.users && r.last == m.last && r.sent == m.sent;
  }

  lemma AllReset(m: Meter, env: Env, ids: seq<int>)
    requires forall id :: id in m.users ==> id in ids
    ensures ResetsSoFar(m, env, ids) == AfterResets(m, env)
  {
    var r, t := ResetsSoFar(m, env, ids), AfterResets(m, env);
    assert r.users == t.users && r.last == t.last && r.sent == t.sent;
  }

  ghost function FinalRow(before: Meter, mid: Meter, env: Env, id: int): User
    requires id in before.users && id in mid.users
  {
    Checked(mid.users[id], id, Delta(mid, env, id), Seen(before.users[id], Due(before, env, id), Delta(mid, env, id)), env)
  }

  /** `base` with the values of `final` for the keys already handled. */
  ghost function Patched<V>(base: map<int, V>, final: map<int, V>, done: seq<int>): map<int, V>
    requires base.Keys == final.Keys
  {
    map id | id in base :: if id in done then final[id] else base[id]
  }

  lemma PatchedStep<V>(base: map<int, V>, final: map<int, V>, done: seq<int>, id: int)
    requires base.Keys == final.Keys && id in base && id !in done
    ensures Patched(base, final, done)[id] == base[id]
    ensures Patched(base, final, done + [id]) == Patched(base, final, done)[id := final[id]]
  {
  }

  ghost function Totals(m: Meter, ids: seq<int>): map<int, int> {
    map id | id in ids :: Total(m, id)
  }

  lemma PatchedAll<V>(base: map<int, V>, final: map<int, V>, ids: seq<int>)
    requires base.Keys == final.Keys && forall id :: id in base ==> id in ids
    ensures Patched(base, final, ids) == final
  {
    forall id | id in final ensures Patched(base, final, ids)[id] == final[id] {
      assert id in base.Keys;
    }
  }

  lemma TotalsStep(m: Meter, done: seq<int>, id: int)
    requires id !in done
    ensures m.last + Totals(m, done + [id]) == (m.last + Totals(m, done))[id := Total(m, id)]
    ensures id in m.last + Totals(m, done) <==> id in m.last
    ensures id in m.last ==> (m.last + Totals(m, done))[id] == m.last[id]
  {
    assert Totals(m, done + [id]) == Totals(m, done)[id := Total(m, id)];
  }

  lemma TotalsAll(m: Meter, ids: seq<int>)
    requires forall id :: id in m.users <==> id in ids
    ensures Totals(m, ids) == map id | id in m.users :: Total(m, id)
  {
  }

  // ---------------------------------------------------------------- never over-counting

  function Max(a: int, b: int): int {
    if a >= b then a else b
  }

  /** Recorded usage plus what the next reading would add never exceeds what was really sent. */
  ghost predicate Inv(m: Meter) {
    && (forall id :: id in m.users ==> id in m.sent && 0 <= m.users[id].used <= m.sent[id] && id < m.nextId)
    && (forall id :: id in m.counters ==> m.counters[id] >= 0 && id < m.nextId)
    && (forall id :: id in m.last ==> id < m.nextId)
    && (forall id :: id in m.users && id in m.last ==> m.users[id].used + Max(0, Total(m, id) - m.last[id]) <= m.sent[id])
  }

  lemma ResetsKeepInv(m: Meter, env: Env)
    requires Inv(m)
    ensures Inv(AfterResets(m, env))
  {
    var r := AfterResets(m, env);
    forall id | id in r.users && id in r.last ensures r.users[id].used + Max(0, Total(r, id) - r.last[id]) <= r.sent[id] {
      assert !ResetNow(m, env, id);
    }
  }

  lemma DeltaBounded(m: Meter, env: Env, id: int)
    requires Inv(m) && id in m.users
    ensures 0 <= Delta(m, env, id)
    ensures m.users[id].used + Delta(m, env, id) <= m.sent[id]
  {
  }

  lemma ReadKeepsInv(before: Meter, m: Meter, env: Env)
    requires Inv(m) && m.users.Keys == before.users.Keys
    ensures Inv(AfterRead(before, m, env))
  {
    var r := AfterRead(before, m, env);
    forall id | id in r.users
      ensures 0 <= r.users[id].used <= r.sent[id]
      ensures id in r.last ==> r.users[id].used + Max(0, Total(r, id) - r.last[id]) <= r.sent[id]
    {
      DeltaBounded(m, env, id);
    }
  }

  lemma PolicyKeepsInv(m: Meter, env: Env)
    requires Inv(m)
    ensures Inv(AfterPolicy(m, env))
  {
    var r := AfterPolicy(m, env);
    assert forall id :: Total(r, id) == if env.policy == Kept then Total(m, id) else 0;
  }

  lemma PollKeepsInv(m: Meter, env: Env)
    requires Inv(m)
    ensures Inv(AfterPolicy(AfterResets(m, env), env))
    ensures Inv(Poll(m, env))
  {
    ResetsKeepInv(m, env);
    PolicyKeepsInv(AfterResets(m, env), env);
    ReadKeepsInv(m, AfterPolicy(AfterResets(m, env), env), env);
  }

  lemma TrafficKeepsInv(m: Meter, id: int, bytes: int, counted: int)
    requires Inv(m) && Legal(m, Traffic(id, bytes, counted))
    ensures Inv(Next(m, Traffic(id, bytes, counted)))
  {
    var r := Next(m, Traffic(id, bytes, counted));
    forall k | k in r.users && k in r.last ensures r.users[k].used + Max(0, Total(r, k) - r.last[k]) <= r.sent[k] {
      if k == id { assert Total(r, k) == Total(m, k) + counted; } else { assert Total(r, k) == Total(m, k); }
    }
  }

  lemma UserResetKeepsInv(m: Meter, id: int, now: int, ok: bool)
    requires Inv(m)
    ensures Inv(Next(m, UserReset(id, now, ok)))
  {
  }

  lemma AddUserKeepsInv(m: Meter, u: User)
    requires Inv(m) && u.used == 0
    ensures Inv(Next(m, AddUser(u)))
  {
  }

  lemma EditUserKeepsInv(m: Meter, id: int, u: User)
    requires Inv(m) && id in m.users
    ensures Inv(Next(m, EditUser(id, u)))
  {
  }

  lemma StepKeepsInv(m: Meter, e: Event)
    requires Inv(m) && Legal(m, e)
    ensures Inv(Next(m, e))
  {
    match e {
      case PollEvent(env) => PollKeepsInv(m, env);
      case Traffic(id, bytes, counted) => TrafficKeepsInv(m, id, bytes, counted);
      case UserReset(id, now, ok) => UserResetKeepsInv(m, id, now, ok);
      case AddUser(u) => AddUserKeepsInv(m, u);
      case EditUser(id, u) => EditUserKeepsInv(m, id, u);
      case OutsideReset =>
      case Restart =>
      case DeleteUser(_) =>
    }
  }

  function Run(m: Meter, events: seq<Event>): Meter
    requires LegalRun(m, events)
    decreases |events|
  {
    if events == [] then m else Run(Next(m, events[0]), events[1..])
  }

  predicate LegalRun(m: Meter, events: seq<Event>)
    decreases |events|
  {
    events != [] ==> Legal(m, events[0]) && LegalRun(Next(m, events[0]), events[1..])
  }

  lemma {:induction false} RunKeepsInv(m: Meter, events: seq<Event>)
    requires Inv(m) && LegalRun(m, events)
    ensures Inv(Run(m, events))
    decreases |events|
  {
    if events != [] {
      StepKeepsInv(m, events[0]);
      RunKeepsInv(Next(m, events[0]), events[1..]);
    }
  }

  const EMPTY := Meter(map[], map[], map[], map[], 1)

  /** In every run from the empty database, whatever fails or is reset in between, recorded usage is
      at most what was sent since the last reset. */
  lemma NeverOverCounts(events: seq<Event>, id: int)
    requires LegalRun(EMPTY, events)
    requires id in Run(EMPTY, events).users
    ensures id in Run(EMPTY, events).sent
    ensures 0 <= Run(EMPTY, events).users[id].used <= Run(EMPTY, events).sent[id]
  {
    RunKeepsInv(EMPTY, events);
  }

  /** A poll that disables a user has a reason: the user really sent its limit since the last reset,
      or its account expired. */
  lemma DisabledForAReason(events: seq<Event>, env: Env, id: int)
    requires LegalRun(EMPTY, events)
    requires id in Run(EMPTY, events).users
    requires Run(EMPTY, events).users[id].enable && !Poll(Run(EMPTY, events), env).users[id].enable
    ensures Justified(Poll(Run(EMPTY, events), env), env.now, id)
  {
    RunKeepsInv(EMPTY, events);
    DisablingIsJustified(Run(EMPTY, events), env, id);
  }

  ghost predicate Justified(after: Meter, now: int, id: int)
    requires id in after.users
  {
    || (after.users[id].limit > 0 && id in after.sent && after.sent[id] >= after.users[id].limit)
    || (after.users[id].expiry > 0 && now >= after.users[id].expiry)
  }

  lemma DisablingIsJustified(m: Meter, env: Env, id: int)
    requires Inv(m) && id in m.users && m.users[id].enable && !Poll(m, env).users[id].enable
    ensures Justified(Poll(m, env), env.now, id)
  {
    PollKeepsInv(m, env);
    PolledRow(m, env, id);
    var mid := AfterPolicy(AfterResets(m, env), env);
    DeltaBounded(mid, env, id);
    var seen := Seen(m.users[id], Due(m, env, id), Delta(mid, env, id));
    assert seen <= mid.sent[id];
    assert OverTraffic(mid.users[id], seen) || Expired(mid.users[id], env.now);
  }

  /** One user's row through the passes of a poll. */
  lemma PolledRow(m: Meter, env: Env, id: int)
    requires id in m.users
    ensures var mid := AfterPolicy(AfterResets(m, env), env);
      && id in mid.users
      && mid.users[id] == (if ResetNow(m, env, id) then Zeroed(m.users[id], env.now) else m.users[id])
      && Poll(m, env).users[id] == FinalRow(m, mid, env, id)
      && Poll(m, env).sent == mid.sent
  {
  }

  // ---------------------------------------------------------------- exactness between resets

  /** Events between two counter resets, as far as one user is concerned; readings may fail. */
  predicate Quiet(m: Meter, e: Event, id: int)
    requires id in m.users
  {
    match e
    case Traffic(_, _, _) => true
    case AddUser(_) => id != m.nextId
    case EditUser(_, _) => true
    case UserReset(k, _, _) => k != id
    case DeleteUser(k) => k != id
    case PollEvent(env) => env.policy == Kept && !Due(m, env, id) && (id in env.saveOk || !env.readOk)
    case _ => false
  }

  predicate QuietRun(m: Meter, events: seq<Event>, id: int)
    requires LegalRun(m, events)
    decreases |events|
  {
    events != [] ==>
      id in m.users && Quiet(m, events[0], id) && QuietRun(Next(m, events[0]), events[1..], id)
  }

  ghost predicate Metered(m: Meter, id: int) {
    id in m.users && id in m.last && m.last[id] <= Total(m, id)
  }

  lemma QuietStep(m: Meter, e: Event, id: int)
    requires Legal(m, e) && Metered(m, id) && Quiet(m, e, id)
    ensures Metered(Next(m, e), id)
    ensures Next(m, e).users[id].used - m.users[id].used == Next(m, e).last[id] - m.last[id]
    ensures Total(Next(m, e), id) == Total(m, id) + (if e.Traffic? && e.id == id then e.counted else 0)
  {
  }

  /** Everything the kernel counted for the user during the events. */
  function Counted(events: seq<Event>, id: int): int {
    if events == [] then 0
    else (if events[0].Traffic? && events[0].id == id then events[0].counted else 0) + Counted(events[1..], id)
  }

  /** Increments telescope: however many readings failed, recorded usage grew by exactly the
      difference of the baselines, and the counter by exactly what was counted. */
  lemma {:induction false} IncrementsTelescope(m: Meter, events: seq<Event>, id: int)
    requires LegalRun(m, events) && Metered(m, id) && QuietRun(m, events, id)
    ensures Metered(Run(m, events), id)
    ensures Run(m, events).users[id].used - m.users[id].used == Run(m, events).last[id] - m.last[id]
    ensures Total(Run(m, events), id) == Total(m, id) + Counted(events, id)
    decreases |events|
  {
    if events != [] {
      QuietStep(m, events[0], id);
      IncrementsTelescope(Next(m, events[0]), events[1..], id);
    }
  }

  /** So after a successful poll nothing counted since the old baseline is missing or doubled. */
  lemma NothingMissed(m: Meter, events: seq<Event>, env: Env, id: int)
    requires LegalRun(m, events) && Metered(m, id) && QuietRun(m, events, id)
    requires env.readOk && id in Run(m, events).users && Quiet(Run(m, events), PollEvent(env), id)
    ensures var after := Poll(Run(m, events), env);
      id in after.users &&
      after.users[id].used == m.users[id].used + (Total(m, id) - m.last[id]) + Counted(events, id)
  {
    IncrementsTelescope(m, events, id);
    QuietStep(Run(m, events), PollEvent(env), id);
  }

  /** A reset happens at most once per day, week or month: after it succeeded, no poll in the same
      period finds it due again. */
  lemma ResetOncePerPeriod(m: Meter, first: Env, second: Env, id: int)
    requires id in m.users && ResetNow(m, first, id) && first.now != 0 && first.civil == second.civil
    requires Period(m.users[id].resetFlow, first.civil(first.now)) == Period(m.users[id].resetFlow, second.civil(second.now))
    ensures !Due(Poll(m, first), second, id)
  {
    PolledRow(m, first, id);
    var u := Poll(m, first).users[id];
    assert u.lastReset == first.now && u.resetFlow == m.users[id].resetFlow;
  }
}
