/** Whom a poll of the SSH users switches off, and when a periodic reset is due. */
module SshMeteringLaws {
  import opened SshMetering

  /** What a poll's reading adds for a user: nothing when it fails, when there is no baseline, or when the
      counter shows less. The policy may have been replaced, which clears both, or the table lost. */
  function NewBytes(m: Meter, env: Env, id: int): int
    requires id in m.users
  {
    var shown := if env.policy.Kept? && id in m.counters then m.counters[id] else 0;
    var restarted := ShouldReset(m.users[id], env.now, env.civil) && id in env.resetOk;
    if env.readOk && id in m.last && !restarted && !env.policy.Replaced? && shown >= m.last[id] then shown - m.last[id] else 0
  }

  lemma DeltaIsNewBytes(m: Meter, env: Env, id: int)
    requires id in m.users
    ensures Delta(AfterPolicy(AfterResets(m, env), env), env, id) == NewBytes(m, env, id) >= 0
  {
  }

  /** A user is on after a poll exactly when it was on before, and the account could not be locked or there
      was no reason: neither did the usage as loaded, 0 if a reset was due, and the new bytes reach a
      positive limit, nor had a date of expiry come. */
  lemma EnabledAfterPollIff(m: Meter, env: Env, id: int)
    requires id in m.users
    ensures var u := m.users[id];
      var loaded := if ShouldReset(u, env.now, env.civil) then 0 else u.used;
      id in Poll(m, env).users &&
      (Poll(m, env).users[id].enable <==>
        u.enable && !(id in env.lockOk &&
                      ((u.limit > 0 && loaded + NewBytes(m, env, id) >= u.limit) || 0 < u.expiry <= env.now)))
  {
    PolledRow(m, env, id);
    DeltaIsNewBytes(m, env, id);
  }

  /** The stored usage after a poll. */
  lemma UsedAfterPoll(m: Meter, env: Env, id: int)
    requires id in m.users
    ensures var u := m.users[id];
      id in Poll(m, env).users &&
      Poll(m, env).users[id].used ==
        (if ShouldReset(u, env.now, env.civil) && id in env.resetOk then 0 else u.used) +
        (if id in env.saveOk then NewBytes(m, env, id) else 0)
    ensures Poll(m, env).users[id].limit == m.users[id].limit && Poll(m, env).users[id].expiry == m.users[id].expiry
  {
    PolledRow(m, env, id);
    DeltaIsNewBytes(m, env, id);
  }

  /** After a poll that can lock the account, a user is on with its limit reached in exactly one case: a reset
      was due and failed, so the old usage stays in the row while the poll decides on the new bytes alone. */
  lemma OverLimitStaysOnIff(m: Meter, env: Env, id: int)
    requires id in m.users && id in env.lockOk
    ensures var u, after := m.users[id], Poll(m, env).users[id];
      (after.enable && after.limit > 0 && after.used >= after.limit) <==>
        && u.enable && u.limit > 0 && !(0 < u.expiry <= env.now)
        && ShouldReset(u, env.now, env.civil) && id !in env.resetOk
        && NewBytes(m, env, id) < u.limit <= u.used + (if id in env.saveOk then NewBytes(m, env, id) else 0)
  {
    EnabledAfterPollIff(m, env, id);
    UsedAfterPoll(m, env, id);
    DeltaIsNewBytes(m, env, id);
  }

  /** So where no reset is due or it succeeds, nobody with the limit reached or the date past stays on. */
  lemma PollEnforcesLimits(m: Meter, env: Env, id: int)
    requires id in m.users && id in env.lockOk && (ShouldReset(m.users[id], env.now, env.civil) ==> id in env.resetOk)
    ensures var after := Poll(m, env).users[id];
      after.enable ==> (after.limit > 0 ==> after.used < after.limit) && !(0 < after.expiry <= env.now)
  {
    EnabledAfterPollIff(m, env, id);
    OverLimitStaysOnIff(m, env, id);
    UsedAfterPoll(m, env, id);
  }

  /** A poll that meets the failing case: the limit is used up, and the due reset does not get through. */
  lemma FailedResetKeepsTheUserOn(u: User, id: int, env: Env, last: map<int, int>)
    requires u.enable && 0 < u.limit <= u.used && u.expiry == 0 && ShouldReset(u, env.now, env.civil)
    requires env.resetOk == {} && !env.readOk && env.lockOk == {id}
    ensures var after := Poll(Meter(map[id := u], last, map[], map[], id + 1), env).users[id];
      after.enable && after.used >= after.limit
  {
    OverLimitStaysOnIff(Meter(map[id := u], last, map[], map[], id + 1), env, id);
  }

  /** When a reset is due: never without one of the known rhythms, except that any other text counts as due
      once; else when the last one was in another day, week or month, or there was none. */
  lemma ResetDueIff(u: User, now: int, civil: int -> Civil)
    ensures ShouldReset(u, now, civil) <==>
      && u.resetFlow != "" && u.resetFlow != "never"
      && (u.lastReset == 0 ||
          (u.resetFlow in {"daily", "weekly", "monthly"} && Period(u.resetFlow, civil(now)) != Period(u.resetFlow, civil(u.lastReset))))
  {
  }
}
