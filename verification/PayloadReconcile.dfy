/** The full reconcile of the payload listeners: one locked step per row, with anything other
    goroutines do in between, and a last step that retires what no row wants. */
module PayloadReconcile {
  import opened Wrappers
  import opened Text
  import opened PayloadGateways

  /** What a full pass meets: port backend ports, row updates, and listens, per inbound. */
  datatype Env = Env(allocate: Inbound -> Option<int>, saveOk: int -> bool, listenOk: int -> bool)

  /** A handle that is not in use. */
  function Unused(used: set<Handle>): (h: Handle)
    ensures h !in used
  {
    Above(used, 0)
  }

  function Above(used: set<Handle>, h: Handle): (r: Handle)
    ensures r !in used
    decreases set u | u in used && u >= h
  {
    if h !in used then h
    else
      assert h in (set u | u in used && u >= h) - (set u | u in used && u >= h + 1);
      Above(used, h + 1)
  }

  datatype Status = Skipped | Done | Failed

  datatype RowResult = RowResult(s: State, status: Status, stored: seq<Inbound>)

  function PassRow(s: State, row: Inbound, env: Env): RowResult {
    if !row.enable || !row.payloadBypass then RowResult(s, Skipped, [])
    else match Ensured(row, env.allocate(row))
      case None => RowResult(s, Failed, [])
      case Some(r) =>
        if !env.saveOk(row.id) then RowResult(s, Failed, [])
        else
          var (t, ok) := Reconciled(s, r, env.listenOk(row.id), Unused(s.all.Keys));
          RowResult(t, if ok then Done else Failed, [r])
  }

  /** The state before the last step, whether every row succeeded, and the rows written back. */
  datatype PassResult = PassResult(s: State, ok: bool, stored: seq<Inbound>)

  function Prefixed(stored: seq<Inbound>, p: PassResult): PassResult {
    p.(stored := stored + p.stored)
  }

  /** `gaps` are the steps of others before each row, and before the last step; they can happen. */
  ghost predicate Interleaved(s: State, rows: seq<Inbound>, gaps: seq<seq<Action>>, env: Env)
    decreases |rows|
  {
    && |gaps| == |rows| + 1 && Schedule(s, gaps[0])
    && (rows != [] ==>
          var first := PassRow(Run(s, gaps[0]), rows[0], env);
          first.status != Failed ==> Interleaved(first.s, rows[1..], gaps[1..], env))
  }

  ghost function Pass(s: State, rows: seq<Inbound>, gaps: seq<seq<Action>>, env: Env): PassResult
    requires Interleaved(s, rows, gaps, env)
    decreases |rows|
  {
    var t := Run(s, gaps[0]);
    if rows == [] then PassResult(t, true, [])
    else
      var first := PassRow(t, rows[0], env);
      if first.status == Failed then PassResult(first.s, false, first.stored)
      else Prefixed(first.stored, Pass(first.s, rows[1..], gaps[1..], env))
  }

  lemma RowKeepsInv(s: State, row: Inbound, env: Env)
    requires Inv(s)
    ensures Inv(PassRow(s, row, env).s)
  {
    if row.enable && row.payloadBypass && Ensured(row, env.allocate(row)).Some? {
      StepKeepsInv(s, Reconcile(Ensured(row, env.allocate(row)).value, env.listenOk(row.id), Unused(s.all.Keys)));
    }
  }

  function Wanted(rows: seq<Inbound>): set<int> {
    set r | r in rows && r.enable && r.payloadBypass :: r.id
  }

  lemma WantedStep(rows: seq<Inbound>, i: nat)
    requires i < |rows|
    ensures Wanted(rows[..i + 1]) == Wanted(rows[..i]) + (if rows[i].enable && rows[i].payloadBypass then {rows[i].id} else {})
  {
    assert rows[..i + 1] == rows[..i] + [rows[i]];
  }

  ghost predicate DistinctIds(rows: seq<Inbound>) {
    forall i, j :: 0 <= i < j < |rows| ==> rows[i].id != rows[j].id
  }

  /** One row of the full reconcile. */
  method ReconcileRow(m: Manager, row: Inbound, env: Env) returns (r: Status, stored: seq<Inbound>)
    requires Inv(m.Abs())
    modifies m
    ensures Inv(m.Abs())
    ensures RowResult(m.Abs(), r, stored) == PassRow(old(m.Abs()), row, env)
  {
    RowKeepsInv(m.Abs(), row, env);
    if !row.enable || !row.payloadBypass { return Skipped, []; }
    var ensured := Ensured(row, env.allocate(row));
    if ensured.None? || !env.saveOk(row.id) { return Failed, []; }
    var ok := m.ReconcileOne(ensured.value, env.listenOk(row.id), Unused(m.all.Keys));
    r := if ok then Done else Failed;
    stored := [ensured.value];
  }

  lemma PassStep(s: State, rows: seq<Inbound>, gaps: seq<seq<Action>>, i: nat, env: Env, stored: seq<Inbound>)
    requires i < |rows| && |gaps| == |rows| + 1 && Interleaved(s, rows[i..], gaps[i..], env)
    ensures Schedule(s, gaps[i])
    ensures var first := PassRow(Run(s, gaps[i]), rows[i], env);
      if first.status == Failed
      then Prefixed(stored, Pass(s, rows[i..], gaps[i..], env)) == PassResult(first.s, false, stored + first.stored)
      else Interleaved(first.s, rows[i + 1..], gaps[i + 1..], env) &&
           Prefixed(stored, Pass(s, rows[i..], gaps[i..], env)) ==
           Prefixed(stored + first.stored, Pass(first.s, rows[i + 1..], gaps[i + 1..], env))
  {
    assert rows[i..][0] == rows[i] && rows[i..][1..] == rows[i + 1..];
    assert gaps[i..][0] == gaps[i] && gaps[i..][1..] == gaps[i + 1..];
    PassUnfolds(s, rows[i..], gaps[i..], env, stored);
  }

  lemma PassUnfolds(s: State, rows: seq<Inbound>, gaps: seq<seq<Action>>, env: Env, stored: seq<Inbound>)
    requires rows != [] && Interleaved(s, rows, gaps, env)
    ensures var first := PassRow(Run(s, gaps[0]), rows[0], env);
      Prefixed(stored, Pass(s, rows, gaps, env)) ==
      if first.status == Failed then PassResult(first.s, false, stored + first.stored)
      else Prefixed(stored + first.stored, Pass(first.s, rows[1..], gaps[1..], env))
  {
    var first := PassRow(Run(s, gaps[0]), rows[0], env);
    if first.status != Failed {
      var rest := Pass(first.s, rows[1..], gaps[1..], env).stored;
      assert stored + (first.stored + rest) == stored + first.stored + rest;
    }
  }

  /** `ReconcilePayloadBypasses`: brings up every enabled row, then retires the rest. On an error
      nothing is retired. `stored` are the rows with the ports written back. */
  method ReconcileAll(m: Manager, rows: seq<Inbound>, gaps: seq<seq<Action>>, env: Env) returns (ok: bool, stored: seq<Inbound>)
    requires Inv(m.Abs()) && Interleaved(m.Abs(), rows, gaps, env)
    modifies m
    ensures var p := Pass(old(m.Abs()), rows, gaps, env);
      ok == p.ok && stored == p.stored && m.Abs() == if ok then Final(p, rows) else p.s
  {
    ghost var pass := Pass(m.Abs(), rows, gaps, env);
    stored := [];
    var keep: set<int> := {};
    assert rows[0..] == rows && gaps[0..] == gaps;
    for i := 0 to |rows|
      invariant Inv(m.Abs()) && Interleaved(m.Abs(), rows[i..], gaps[i..], env)
      invariant keep == Wanted(rows[..i])
      invariant pass == Prefixed(stored, Pass(m.Abs(), rows[i..], gaps[i..], env))
    {
      PassStep(m.Abs(), rows, gaps, i, env, stored);
      WantedStep(rows, i);
      m.Interfere(gaps[i]);
      var status, more := ReconcileRow(m, rows[i], env);
      stored := stored + more;
      if status == Failed { return false, stored; }
      if status == Done { keep := keep + {rows[i].id}; }
    }
    assert rows[..|rows|] == rows && rows[|rows|..] == [];
    m.Interfere(gaps[|rows|]);
    m.StopAllExcept(keep);
    ok := true;
  }

  function Final(p: PassResult, rows: seq<Inbound>): State {
    Close(p.s, p.s.gateways.Keys - Wanted(rows))
  }

  // ---------------------------------------------------------------- what a pass achieves

  /** An entry serves a stored row. */
  predicate Serves(s: State, row: Inbound) {
    Current(s, ConfigFor(row)) && s.all[s.gateways[row.id]].open
  }

  /** The addresses and ports a listener is for: the row's, with one spelling for all addresses of each
      family and for the local one. */
  lemma ConfigIsTheRows(row: Inbound)
    ensures var c, host := ConfigFor(row), TrimSpace(row.listen);
      && c.inboundId == row.id && c.publicPort == row.port && c.backendPort == row.payloadBackendPort
      && (host in {"", "0.0.0.0"} ==> c.listenHost == "0.0.0.0")
      && (host in {"::", "::0"} ==> c.listenHost == "::")
      && (host in {"localhost", "127.0.0.1"} ==> c.listenHost == "127.0.0.1")
      && (host !in {"", "0.0.0.0", "::", "::0", "localhost", "127.0.0.1"} ==> c.listenHost == host)
  {
  }

  /** The row can be served: a WebSocket stream without proxy protocol, and two different ports in range. */
  predicate Servable(row: Inbound, hidden: int) {
    && row.stream.Some? && row.stream.value.network == "ws" && !row.stream.value.acceptProxyProtocol
    && 0 < row.port < 65536 && 0 < hidden < 65536 && hidden != row.port
  }

  /** When a row passes the check before it is stored, and with which hidden port: none without a payload bypass,
      else the one it has, or the one drawn for it. */
  lemma EnsuredIff(row: Inbound, drawn: Option<int>)
    ensures var hidden := if row.payloadBackendPort != 0 then Some(row.payloadBackendPort) else drawn;
      && (Ensured(row, drawn).Some? <==> !row.payloadBypass || (hidden.Some? && Servable(row, hidden.value)))
      && (Ensured(row, drawn).Some? ==>
            Ensured(row, drawn).value == row.(payloadBackendPort := if row.payloadBypass then hidden.value else 0))
  {
  }

  /** What becomes of one row: it is left out when it is off or no payload bypass; it is done when it passes the
      check, can be stored, and its listener is there or can be opened. */
  lemma RowIsDoneIff(s: State, row: Inbound, env: Env)
    requires Inv(s)
    ensures PassRow(s, row, env).status == Skipped <==> !(row.enable && row.payloadBypass)
    ensures PassRow(s, row, env).status == Done <==>
      && row.enable && row.payloadBypass && Ensured(row, env.allocate(row)).Some? && env.saveOk(row.id)
      && (env.listenOk(row.id) || Current(s, ConfigFor(Ensured(row, env.allocate(row)).value)))
  {
  }

  predicate CanBeDone(row: Inbound, env: Env) {
    row.enable && row.payloadBypass ==> Ensured(row, env.allocate(row)).Some? && env.saveOk(row.id) && env.listenOk(row.id)
  }

  /** A full pass succeeds, under any interference, when every wanted row passes the check and can be stored and
      listened for; and it does not when some row does not pass or cannot be stored. */
  lemma {:induction false} PassSucceeds(s: State, rows: seq<Inbound>, gaps: seq<seq<Action>>, env: Env)
    requires Inv(s) && Interleaved(s, rows, gaps, env)
    ensures (forall r :: r in rows ==> CanBeDone(r, env)) ==> Pass(s, rows, gaps, env).ok
    ensures Pass(s, rows, gaps, env).ok ==>
      forall r :: r in rows && r.enable && r.payloadBypass ==> Ensured(r, env.allocate(r)).Some? && env.saveOk(r.id)
    decreases |rows|
  {
    RunKeepsInv(s, gaps[0]);
    if rows != [] {
      var t := Run(s, gaps[0]);
      RowIsDoneIff(t, rows[0], env);
      RowKeepsInv(t, rows[0], env);
      assert rows == [rows[0]] + rows[1..] && rows[0] in rows;
      assert CanBeDone(rows[0], env) ==> PassRow(t, rows[0], env).status != Failed;
      if PassRow(t, rows[0], env).status != Failed { PassSucceeds(PassRow(t, rows[0], env).s, rows[1..], gaps[1..], env); }
    }
  }

  /** What one reconcile achieves. A row that is off, or no payload bypass, ends without an entry, and what it
      had is closed. Another succeeds exactly when it is valid and its listener is there with this
      configuration, or can be opened; it then has an open listener with this configuration, a new one unless
      it was current, and an old one is closed. An invalid row changes nothing; one that cannot listen ends
      without an entry. No other inbound is touched. */
  lemma ReconciledAchieves(s: State, row: Inbound, listenOk: bool, handle: Handle)
    requires Inv(s) && handle !in s.all && row.id > 0
    ensures var (t, ok) := Reconciled(s, row, listenOk, handle);
      && (forall k :: k != row.id ==> (k in t.gateways <==> k in s.gateways) && (k in s.gateways ==> t.gateways[k] == s.gateways[k]))
      && (forall g :: g in s.all && s.all[g].cfg.inboundId != row.id ==> g in t.all && t.all[g] == s.all[g])
      && (!(row.enable && row.payloadBypass) ==>
            ok && row.id !in t.gateways && (row.id in s.gateways ==> !t.all[s.gateways[row.id]].open))
      && (row.enable && row.payloadBypass ==>
            && (ok <==> Valid(row) && (Current(s, ConfigFor(row)) || listenOk))
            && (ok ==> Serves(t, row))
            && (!Valid(row) || Current(s, ConfigFor(row)) ==> t == s)
            && (Valid(row) && !Current(s, ConfigFor(row)) ==>
                  && (row.id in s.gateways ==> s.gateways[row.id] in t.all && !t.all[s.gateways[row.id]].open)
                  && (if listenOk then row.id in t.gateways && t.gateways[row.id] == handle else row.id !in t.gateways)))
  {
  }

  lemma RowServes(s: State, row: Inbound, env: Env)
    requires Inv(s) && PassRow(s, row, env).status == Done
    ensures var r := PassRow(s, row, env);
      |r.stored| == 1 && r.stored[0].id == row.id && Serves(r.s, r.stored[0])
  {
    RowKeepsInv(s, row, env);
  }

  lemma RowKeepsOthers(s: State, row: Inbound, env: Env, other: Inbound)
    requires Inv(s) && Serves(s, other) && other.id != row.id
    ensures Serves(PassRow(s, row, env).s, other)
  {
    if row.enable && row.payloadBypass && Ensured(row, env.allocate(row)).Some? {
      ReconciledKeepsOthers(s, Ensured(row, env.allocate(row)).value, env.listenOk(row.id), Unused(s.all.Keys), other);
    }
  }

  lemma ReconciledKeepsOthers(s: State, row: Inbound, listenOk: bool, handle: Handle, other: Inbound)
    requires Inv(s) && Serves(s, other) && other.id != row.id && row.enable && row.payloadBypass && handle !in s.all
    ensures Serves(Reconciled(s, row, listenOk, handle).0, other)
  {
    if Valid(row) && !Current(s, ConfigFor(row)) {
      CloseOthers(s, {row.id}, other);
      ListenKeepsOthers(s, ConfigFor(row), listenOk, handle, other);
    } else {
      assert Reconciled(s, row, listenOk, handle).0 == s;
    }
  }

  lemma ListenKeepsOthers(s: State, cfg: Config, listenOk: bool, handle: Handle, other: Inbound)
    requires Serves(Close(s, {cfg.inboundId}), other) && other.id != cfg.inboundId && handle !in s.all
    ensures Serves(Listen(s, cfg, listenOk, handle), other)
  {
  }

  /** A step of another goroutine that concerns an inbound: its own reconcile or stop, a stop of all but
      others, or the end of the accept loop of its entry. */
  predicate Touches(s: State, a: Action, id: int) {
    match a
    case Reconcile(row, _, _) => row.id == id
    case Stop(k) => k == id
    case StopExcept(keep) => id !in keep
    case AcceptError(_) => false
    case LoopEnds(g) => id in s.gateways && s.gateways[id] == g
  }

  ghost predicate GapTouches(s: State, actions: seq<Action>, id: int)
    requires Schedule(s, actions)
    decreases |actions|
  {
    actions != [] && (Touches(s, actions[0], id) || GapTouches(Next(s, actions[0]), actions[1..], id))
  }

  /** The inbound is touched in one of the gaps. */
  ghost predicate PassTouches(s: State, rows: seq<Inbound>, gaps: seq<seq<Action>>, env: Env, id: int)
    requires Interleaved(s, rows, gaps, env)
    decreases |rows|
  {
    || GapTouches(s, gaps[0], id)
    || (rows != [] &&
        var first := PassRow(Run(s, gaps[0]), rows[0], env);
        first.status != Failed && PassTouches(first.s, rows[1..], gaps[1..], env, id))
  }

  /** The inbound is touched in one of the gaps after its own row was done. */
  ghost predicate TouchedAfterwards(s: State, rows: seq<Inbound>, gaps: seq<seq<Action>>, env: Env, id: int)
    requires Interleaved(s, rows, gaps, env)
    decreases |rows|
  {
    rows != [] &&
    var first := PassRow(Run(s, gaps[0]), rows[0], env);
    first.status != Failed &&
    if rows[0].id == id then PassTouches(first.s, rows[1..], gaps[1..], env, id)
    else TouchedAfterwards(first.s, rows[1..], gaps[1..], env, id)
  }

  lemma StepKeepsServing(s: State, a: Action, row: Inbound)
    requires Inv(s) && Enabled(s, a) && Serves(s, row) && !Touches(s, a, row.id)
    ensures Serves(Next(s, a), row)
  {
    match a {
      case Reconcile(other, ok, handle) =>
        if other.enable && other.payloadBypass {
          ReconciledKeepsOthers(s, other, ok, handle, row);
        } else if other.id > 0 {
          CloseOthers(s, {other.id}, row);
        }
      case Stop(id) => if id > 0 { CloseOthers(s, {id}, row); }
      case StopExcept(keep) => CloseOthers(s, s.gateways.Keys - keep, row);
      case AcceptError(g) =>
      case LoopEnds(g) =>
    }
  }

  lemma {:induction false} GapKeepsServing(s: State, actions: seq<Action>, row: Inbound)
    requires Inv(s) && Schedule(s, actions) && Serves(s, row) && !GapTouches(s, actions, row.id)
    ensures Serves(Run(s, actions), row)
    decreases |actions|
  {
    if actions != [] {
      StepKeepsServing(s, actions[0], row);
      StepKeepsInv(s, actions[0]);
      GapKeepsServing(Next(s, actions[0]), actions[1..], row);
    }
  }

  lemma {:induction false} PassKeepsServing(s: State, rows: seq<Inbound>, gaps: seq<seq<Action>>, env: Env, row: Inbound)
    requires Inv(s) && Interleaved(s, rows, gaps, env) && Pass(s, rows, gaps, env).ok
    requires Serves(s, row) && (forall r :: r in rows ==> r.id != row.id) && !PassTouches(s, rows, gaps, env, row.id)
    ensures Serves(Pass(s, rows, gaps, env).s, row)
    decreases |rows|
  {
    GapKeepsServing(s, gaps[0], row);
    RunKeepsInv(s, gaps[0]);
    if rows != [] {
      var t := Run(s, gaps[0]);
      assert rows[0] in rows;
      RowKeepsOthers(t, rows[0], env, row);
      RowKeepsInv(t, rows[0], env);
      PassKeepsServing(PassRow(t, rows[0], env).s, rows[1..], gaps[1..], env, row);
    }
  }

  // ---------------------------------------------------------------- entries whose accept loop failed

  /** The accept loop of the entry has ended on an error, and has not removed the entry yet. */
  predicate FailedEntry(s: State, id: int) {
    id in s.gateways && s.gateways[id] in s.all && s.all[s.gateways[id]].failed
  }

  predicate Fails(s: State, a: Action, id: int) {
    id in s.gateways && a == AcceptError(s.gateways[id])
  }

  ghost predicate GapFails(s: State, actions: seq<Action>, id: int)
    requires Schedule(s, actions)
    decreases |actions|
  {
    actions != [] && (Fails(s, actions[0], id) || GapFails(Next(s, actions[0]), actions[1..], id))
  }

  ghost predicate PassFails(s: State, rows: seq<Inbound>, gaps: seq<seq<Action>>, env: Env, id: int)
    requires Interleaved(s, rows, gaps, env)
    decreases |rows|
  {
    || GapFails(s, gaps[0], id)
    || (rows != [] &&
        var first := PassRow(Run(s, gaps[0]), rows[0], env);
        first.status != Failed && PassFails(first.s, rows[1..], gaps[1..], env, id))
  }

  /** The accept loop had failed when the inbound's own row was done, or fails in a gap after that. */
  ghost predicate FailsAfterwards(s: State, rows: seq<Inbound>, gaps: seq<seq<Action>>, env: Env, id: int)
    requires Interleaved(s, rows, gaps, env)
    decreases |rows|
  {
    rows != [] &&
    var first := PassRow(Run(s, gaps[0]), rows[0], env);
    first.status != Failed &&
    if rows[0].id == id then FailedEntry(first.s, id) || PassFails(first.s, rows[1..], gaps[1..], env, id)
    else FailsAfterwards(first.s, rows[1..], gaps[1..], env, id)
  }

  lemma CloseFailsIff(s: State, ids: set<int>, id: int)
    requires Inv(s) && id in s.gateways && id !in ids
    ensures FailedEntry(Close(s, ids), id) <==> FailedEntry(s, id)
  {
  }

  lemma StepFailsIff(s: State, a: Action, row: Inbound)
    requires Inv(s) && Enabled(s, a) && Serves(s, row) && !Touches(s, a, row.id)
    ensures FailedEntry(Next(s, a), row.id) <==> FailedEntry(s, row.id) || Fails(s, a, row.id)
  {
    match a {
      case Reconcile(other, ok, handle) => OtherRowFails(s, other, ok, handle, row.id);
      case Stop(id) => if id > 0 { CloseFailsIff(s, {id}, row.id); }
      case StopExcept(keep) => CloseFailsIff(s, s.gateways.Keys - keep, row.id);
      case AcceptError(g) => AcceptErrorFails(s, g, row.id);
      case LoopEnds(g) =>
    }
  }

  lemma AcceptErrorFails(s: State, g: Handle, id: int)
    requires Inv(s) && id in s.gateways && Enabled(s, AcceptError(g))
    ensures FailedEntry(Next(s, AcceptError(g)), id) <==> FailedEntry(s, id) || g == s.gateways[id]
  {
  }

  lemma OtherRowFails(s: State, other: Inbound, listenOk: bool, handle: Handle, id: int)
    requires Inv(s) && id in s.gateways && other.id != id && handle !in s.all
    ensures FailedEntry(Reconciled(s, other, listenOk, handle).0, id) <==> FailedEntry(s, id)
  {
  }

  lemma {:induction false} GapFailsIff(s: State, actions: seq<Action>, row: Inbound)
    requires Inv(s) && Schedule(s, actions) && Serves(s, row) && !GapTouches(s, actions, row.id)
    ensures FailedEntry(Run(s, actions), row.id) <==> FailedEntry(s, row.id) || GapFails(s, actions, row.id)
    decreases |actions|
  {
    if actions != [] {
      StepFailsIff(s, actions[0], row);
      StepKeepsServing(s, actions[0], row);
      StepKeepsInv(s, actions[0]);
      GapFailsIff(Next(s, actions[0]), actions[1..], row);
    }
  }

  lemma RowFailsIff(s: State, other: Inbound, env: Env, row: Inbound)
    requires Inv(s) && Serves(s, row) && other.id != row.id
    ensures FailedEntry(PassRow(s, other, env).s, row.id) <==> FailedEntry(s, row.id)
  {
    if other.enable && other.payloadBypass && Ensured(other, env.allocate(other)).Some? {
      OtherRowFails(s, Ensured(other, env.allocate(other)).value, env.listenOk(other.id), Unused(s.all.Keys), row.id);
    }
  }

  lemma {:induction false} PassFailsIff(s: State, rows: seq<Inbound>, gaps: seq<seq<Action>>, env: Env, row: Inbound)
    requires Inv(s) && Interleaved(s, rows, gaps, env) && Pass(s, rows, gaps, env).ok
    requires Serves(s, row) && (forall r :: r in rows ==> r.id != row.id) && !PassTouches(s, rows, gaps, env, row.id)
    ensures FailedEntry(Pass(s, rows, gaps, env).s, row.id) <==> FailedEntry(s, row.id) || PassFails(s, rows, gaps, env, row.id)
    decreases |rows|
  {
    GapFailsIff(s, gaps[0], row);
    GapKeepsServing(s, gaps[0], row);
    RunKeepsInv(s, gaps[0]);
    if rows != [] {
      var t := Run(s, gaps[0]);
      assert rows[0] in rows;
      RowFailsIff(t, rows[0], env, row);
      RowKeepsOthers(t, rows[0], env, row);
      RowKeepsInv(t, rows[0], env);
      PassFailsIff(PassRow(t, rows[0], env).s, rows[1..], gaps[1..], env, row);
    }
  }

  // ---------------------------------------------------------------- the rows stored

  function IdsOf(rows: seq<Inbound>): set<int> {
    set r | r in rows :: r.id
  }

  lemma HeadApart(rows: seq<Inbound>)
    requires rows != []
    ensures DistinctIds(rows) ==> forall r :: r in rows[1..] ==> r.id != rows[0].id
    ensures Wanted(rows) == (if rows[0].enable && rows[0].payloadBypass then {rows[0].id} else {}) + Wanted(rows[1..])
  {
    assert rows == [rows[0]] + rows[1..];
    forall r | r in rows[1..] && DistinctIds(rows) ensures r.id != rows[0].id {
      var k :| 0 <= k < |rows[1..]| && rows[1..][k] == r;
      assert rows[k + 1] == r;
    }
  }

  lemma {:induction false} PassKeepsInv(s: State, rows: seq<Inbound>, gaps: seq<seq<Action>>, env: Env)
    requires Inv(s) && Interleaved(s, rows, gaps, env)
    ensures Inv(Pass(s, rows, gaps, env).s)
    decreases |rows|
  {
    RunKeepsInv(s, gaps[0]);
    if rows != [] {
      var first := PassRow(Run(s, gaps[0]), rows[0], env);
      RowKeepsInv(Run(s, gaps[0]), rows[0], env);
      if first.status != Failed { PassKeepsInv(first.s, rows[1..], gaps[1..], env); }
    }
  }

  lemma StoredRow(s: State, row: Inbound, env: Env)
    requires Inv(s) && PassRow(s, row, env).status != Failed
    ensures IdsOf(PassRow(s, row, env).stored) == if row.enable && row.payloadBypass then {row.id} else {}
  {
    if PassRow(s, row, env).status == Done { RowServes(s, row, env); }
  }

  lemma IdsAppend(a: seq<Inbound>, b: seq<Inbound>)
    ensures IdsOf(a + b) == IdsOf(a) + IdsOf(b)
  {
  }

  lemma {:induction false} PassStores(s: State, rows: seq<Inbound>, gaps: seq<seq<Action>>, env: Env)
    requires Inv(s) && Interleaved(s, rows, gaps, env) && Pass(s, rows, gaps, env).ok
    ensures Wanted(rows) == IdsOf(Pass(s, rows, gaps, env).stored)
    decreases |rows|
  {
    RunKeepsInv(s, gaps[0]);
    if rows != [] {
      var t := Run(s, gaps[0]);
      var first := PassRow(t, rows[0], env);
      RowKeepsInv(t, rows[0], env);
      StoredRow(t, rows[0], env);
      HeadApart(rows);
      PassStores(first.s, rows[1..], gaps[1..], env);
      IdsAppend(first.stored, Pass(first.s, rows[1..], gaps[1..], env).stored);
    }
  }

  lemma {:induction false} PassServes(s: State, rows: seq<Inbound>, gaps: seq<seq<Action>>, env: Env, row: Inbound)
    requires Inv(s) && DistinctIds(rows) && Interleaved(s, rows, gaps, env) && Pass(s, rows, gaps, env).ok
    requires row in Pass(s, rows, gaps, env).stored && !TouchedAfterwards(s, rows, gaps, env, row.id)
    ensures Serves(Pass(s, rows, gaps, env).s, row)
    decreases |rows|
  {
    RunKeepsInv(s, gaps[0]);
    var t := Run(s, gaps[0]);
    var first := PassRow(t, rows[0], env);
    var rest := Pass(first.s, rows[1..], gaps[1..], env);
    RowKeepsInv(t, rows[0], env);
    HeadApart(rows);
    PassStores(first.s, rows[1..], gaps[1..], env);
    assert Pass(s, rows, gaps, env).stored == first.stored + rest.stored;
    if row in rest.stored {
      assert row.id in IdsOf(rest.stored);
      assert row.id != rows[0].id;
      PassServes(first.s, rows[1..], gaps[1..], env, row);
    } else {
      RowServes(t, rows[0], env);
      assert first.stored == [row];
      PassKeepsServing(first.s, rows[1..], gaps[1..], env, row);
    }
  }

  lemma {:induction false} ServedFailsIff(s: State, rows: seq<Inbound>, gaps: seq<seq<Action>>, env: Env, row: Inbound)
    requires Inv(s) && DistinctIds(rows) && Interleaved(s, rows, gaps, env) && Pass(s, rows, gaps, env).ok
    requires row in Pass(s, rows, gaps, env).stored && !TouchedAfterwards(s, rows, gaps, env, row.id)
    ensures FailedEntry(Pass(s, rows, gaps, env).s, row.id) <==> FailsAfterwards(s, rows, gaps, env, row.id)
    decreases |rows|
  {
    RunKeepsInv(s, gaps[0]);
    var t := Run(s, gaps[0]);
    var first := PassRow(t, rows[0], env);
    var rest := Pass(first.s, rows[1..], gaps[1..], env);
    RowKeepsInv(t, rows[0], env);
    HeadApart(rows);
    PassStores(first.s, rows[1..], gaps[1..], env);
    assert Pass(s, rows, gaps, env).stored == first.stored + rest.stored;
    if row in rest.stored {
      assert row.id in IdsOf(rest.stored);
      assert row.id != rows[0].id;
      ServedFailsIff(first.s, rows[1..], gaps[1..], env, row);
    } else {
      RowServes(t, rows[0], env);
      assert first.stored == [row];
      PassFailsIff(first.s, rows[1..], gaps[1..], env, row);
    }
  }

  lemma CloseOthers(s: State, ids: set<int>, row: Inbound)
    requires Inv(s) && Serves(s, row) && row.id !in ids
    ensures Serves(Close(s, ids), row)
  {
  }

  lemma FinalFailsIff(p: PassResult, rows: seq<Inbound>, id: int)
    requires Inv(p.s) && id in Wanted(rows)
    ensures FailedEntry(Final(p, rows), id) <==> FailedEntry(p.s, id)
  {
  }

  /** After a successful full reconcile, whatever other goroutines did in between: the table holds
      wanted inbounds only, and each stored row has an open listener with its configuration unless the
      inbound was touched after its row was done. The accept loop of that listener has ended exactly when
      it failed at some time after its row was done, or had when it was found current. */
  lemma FullReconcile(s: State, rows: seq<Inbound>, gaps: seq<seq<Action>>, env: Env)
    requires Inv(s) && DistinctIds(rows) && Interleaved(s, rows, gaps, env) && Pass(s, rows, gaps, env).ok
    ensures Final(Pass(s, rows, gaps, env), rows).gateways.Keys <= Wanted(rows) == IdsOf(Pass(s, rows, gaps, env).stored)
    ensures forall row :: row in Pass(s, rows, gaps, env).stored && !TouchedAfterwards(s, rows, gaps, env, row.id) ==>
      && Serves(Final(Pass(s, rows, gaps, env), rows), row)
      && (FailedEntry(Final(Pass(s, rows, gaps, env), rows), row.id) <==> FailsAfterwards(s, rows, gaps, env, row.id))
  {
    PassKeepsInv(s, rows, gaps, env);
    PassStores(s, rows, gaps, env);
    var p := Pass(s, rows, gaps, env);
    forall row | row in p.stored && !TouchedAfterwards(s, rows, gaps, env, row.id)
      ensures Serves(Final(p, rows), row) && (FailedEntry(Final(p, rows), row.id) <==> FailsAfterwards(s, rows, gaps, env, row.id))
    {
      PassServes(s, rows, gaps, env, row);
      ServedFailsIff(s, rows, gaps, env, row);
      assert row.id in Wanted(rows);
      CloseOthers(p.s, p.s.gateways.Keys - Wanted(rows), row);
      FinalFailsIff(p, rows, row.id);
    }
  }

  /** So a wanted inbound is missing at the end only if it was touched after its row was done: with nothing
      but failing accept loops and stops in between, if its own gateway failed or was stopped. */
  lemma MissingOnlyIfTouched(s: State, rows: seq<Inbound>, gaps: seq<seq<Action>>, env: Env, id: int)
    requires Inv(s) && DistinctIds(rows) && Interleaved(s, rows, gaps, env) && Pass(s, rows, gaps, env).ok
    requires id in Wanted(rows) && id !in Final(Pass(s, rows, gaps, env), rows).gateways
    ensures TouchedAfterwards(s, rows, gaps, env, id)
  {
    FullReconcile(s, rows, gaps, env);
    var row :| row in Pass(s, rows, gaps, env).stored && row.id == id;
  }

  predicate Undisturbed(gaps: seq<seq<Action>>) {
    forall g :: g in gaps ==> g == []
  }

  lemma {:induction false} NothingTouches(s: State, rows: seq<Inbound>, gaps: seq<seq<Action>>, env: Env, id: int)
    requires Interleaved(s, rows, gaps, env) && Undisturbed(gaps)
    ensures !PassTouches(s, rows, gaps, env, id) && !TouchedAfterwards(s, rows, gaps, env, id)
    decreases |rows|
  {
    assert gaps[0] in gaps;
    if rows != [] && PassRow(Run(s, gaps[0]), rows[0], env).status != Failed {
      assert forall g :: g in gaps[1..] ==> g in gaps;
      NothingTouches(PassRow(Run(s, gaps[0]), rows[0], env).s, rows[1..], gaps[1..], env, id);
    }
  }

  lemma NoneFailedAfterRow(s: State, row: Inbound, env: Env)
    requires Inv(s) && forall id :: !FailedEntry(s, id)
    ensures forall id :: !FailedEntry(PassRow(s, row, env).s, id)
  {
    if row.enable && row.payloadBypass && Ensured(row, env.allocate(row)).Some? {
      NoneFailedAfterReconcile(s, Ensured(row, env.allocate(row)).value, env.listenOk(row.id), Unused(s.all.Keys));
    }
  }

  lemma NoneFailedAfterReconcile(s: State, row: Inbound, listenOk: bool, handle: Handle)
    requires Inv(s) && handle !in s.all && forall id :: !FailedEntry(s, id)
    ensures forall id :: !FailedEntry(Reconciled(s, row, listenOk, handle).0, id)
  {
    forall id ensures !FailedEntry(Reconciled(s, row, listenOk, handle).0, id) {
      assert !FailedEntry(s, id);
    }
  }

  lemma {:induction false} NothingFails(s: State, rows: seq<Inbound>, gaps: seq<seq<Action>>, env: Env, id: int)
    requires Inv(s) && Interleaved(s, rows, gaps, env) && Undisturbed(gaps) && forall k :: !FailedEntry(s, k)
    ensures !PassFails(s, rows, gaps, env, id) && !FailsAfterwards(s, rows, gaps, env, id)
    decreases |rows|
  {
    assert gaps[0] in gaps;
    if rows != [] && PassRow(Run(s, gaps[0]), rows[0], env).status != Failed {
      assert forall g :: g in gaps[1..] ==> g in gaps;
      NoneFailedAfterRow(s, rows[0], env);
      RowKeepsInv(s, rows[0], env);
      NothingFails(PassRow(s, rows[0], env).s, rows[1..], gaps[1..], env, id);
    }
  }

  /** Undisturbed, the table holds exactly the enabled payload-bypass inbounds, each with an open listener
      and the configuration that was stored; and if no entry's accept loop had failed before, none has. */
  lemma FullReconcileIsExact(s: State, rows: seq<Inbound>, gaps: seq<seq<Action>>, env: Env)
    requires Inv(s) && DistinctIds(rows) && Interleaved(s, rows, gaps, env) && Undisturbed(gaps) && Pass(s, rows, gaps, env).ok
    ensures Final(Pass(s, rows, gaps, env), rows).gateways.Keys == Wanted(rows)
    ensures forall row :: row in Pass(s, rows, gaps, env).stored ==> Serves(Final(Pass(s, rows, gaps, env), rows), row)
    ensures (forall id :: !FailedEntry(s, id)) ==>
      forall row :: row in Pass(s, rows, gaps, env).stored ==> !FailedEntry(Final(Pass(s, rows, gaps, env), rows), row.id)
  {
    FullReconcile(s, rows, gaps, env);
    forall id ensures !TouchedAfterwards(s, rows, gaps, env, id) {
      NothingTouches(s, rows, gaps, env, id);
    }
    forall id | id in Wanted(rows) ensures id in Final(Pass(s, rows, gaps, env), rows).gateways {
      if id !in Final(Pass(s, rows, gaps, env), rows).gateways { MissingOnlyIfTouched(s, rows, gaps, env, id); }
    }
    if forall id :: !FailedEntry(s, id) {
      forall id ensures !FailsAfterwards(s, rows, gaps, env, id) {
        NothingFails(s, rows, gaps, env, id);
      }
    }
  }
}
