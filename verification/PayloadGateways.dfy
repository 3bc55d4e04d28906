/** The table of native payload listeners: one per enabled payload-bypass inbound, replaced when its
    configuration changes, and cleaned up by accept loops that end later. */
module PayloadGateways {
  import opened Wrappers
  import opened Text

  datatype Config = Config(inboundId: int, listenHost: string, publicPort: int, backendPort: int)

  /** `stream` is None when the stream settings are missing or do not parse. */
  datatype Stream = Stream(network: string, acceptProxyProtocol: bool)
  datatype Inbound = Inbound(id: int, enable: bool, payloadBypass: bool, listen: string, port: int,
                             payloadBackendPort: int, stream: Option<Stream>)

  function NormalizeHost(host: string): string {
    var h := TrimSpace(host);
    if h == "" || h == "0.0.0.0" then "0.0.0.0"
    else if h == "::0" then "::"
    else if h == "localhost" then "127.0.0.1"
    else h
  }

  function ConfigFor(row: Inbound): Config {
    Config(row.id, NormalizeHost(row.listen), row.port, row.payloadBackendPort)
  }

  predicate PortOk(p: int) {
    0 < p <= 65535
  }

  predicate StreamOk(row: Inbound) {
    row.stream.Some? && row.stream.value.network == "ws" && !row.stream.value.acceptProxyProtocol
  }

  /** `validatePayloadBypassInbound` accepts. */
  predicate Valid(row: Inbound) {
    row.payloadBypass ==>
      StreamOk(row) && PortOk(row.port) && PortOk(row.payloadBackendPort) && row.payloadBackendPort != row.port
  }

  /** `ensurePayloadBypassConfig`; `port` is what the port allocation yields. */
  function Ensured(row: Inbound, port: Option<int>): Option<Inbound> {
    if !row.payloadBypass then Some(row.(payloadBackendPort := 0))
    else if !StreamOk(row) then None
    else if row.payloadBackendPort == 0 && port.None? then None
    else
      var r := if row.payloadBackendPort == 0 then row.(payloadBackendPort := port.value) else row;
      if Valid(r) then Some(r) else None
  }

  lemma EnsuredIsStable(row: Inbound, a: Option<int>, b: Option<int>)
    requires Ensured(row, a).Some?
    ensures Valid(Ensured(row, a).value) && Ensured(Ensured(row, a).value, b) == Ensured(row, a)
  {
  }

  // ---------------------------------------------------------------- the table

  /** A gateway is named by a handle. `failed` is set when its accept loop ended on an error other
      than "closed". */
  type Handle = nat
  datatype Gateway = Gateway(cfg: Config, open: bool, failed: bool)
  datatype State = State(gateways: map<int, Handle>, all: map<Handle, Gateway>)

  datatype Action =
    | Reconcile(row: Inbound, listenOk: bool, handle: Handle)
    | Stop(id: int)
    | StopExcept(keep: set<int>)
    | AcceptError(g: Handle)
    | LoopEnds(g: Handle)

  predicate Enabled(s: State, a: Action) {
    match a
    case Reconcile(_, _, handle) => handle !in s.all
    case Stop(_) => true
    case StopExcept(_) => true
    case AcceptError(g) => g in s.all && s.all[g].open
    case LoopEnds(g) => g in s.all && (!s.all[g].open || s.all[g].failed)
  }

  /** The gateway is what the table holds for its inbound. */
  predicate IsEntry(s: State, g: Handle)
    requires g in s.all
  {
    s.all[g].cfg.inboundId in s.gateways && s.gateways[s.all[g].cfg.inboundId] == g
  }

  /** Close the listeners of some entries and forget the entries. */
  function Close(s: State, ids: set<int>): State {
    State(s.gateways - ids,
          map g | g in s.all ::
            if s.all[g].cfg.inboundId in ids && IsEntry(s, g) then s.all[g].(open := false) else s.all[g])
  }

  function StopOne(s: State, id: int): State {
    if id <= 0 then s else Close(s, {id})
  }

  predicate Current(s: State, cfg: Config) {
    cfg.inboundId in s.gateways && s.gateways[cfg.inboundId] in s.all && s.all[s.gateways[cfg.inboundId]].cfg == cfg
  }

  function Listen(s: State, cfg: Config, listenOk: bool, handle: Handle): State {
    var t := Close(s, {cfg.inboundId});
    if listenOk then State(t.gateways[cfg.inboundId := handle], t.all[handle := Gateway(cfg, true, false)]) else t
  }

  /** `Reconcile` and whether it succeeds. */
  function Reconciled(s: State, row: Inbound, listenOk: bool, handle: Handle): (State, bool) {
    if !row.enable || !row.payloadBypass then (StopOne(s, row.id), true)
    else if !Valid(row) then (s, false)
    else if Current(s, ConfigFor(row)) then (s, true)
    else (Listen(s, ConfigFor(row), listenOk, handle), listenOk)
  }

  /** `removeIfCurrent`. */
  function RemoveIfCurrent(s: State, g: Handle): State
    requires g in s.all
  {
    var id := s.all[g].cfg.inboundId;
    if id in s.gateways && s.gateways[id] == g then s.(gateways := s.gateways - {id}) else s
  }

  function Next(s: State, a: Action): State
    requires Enabled(s, a)
  {
    match a
    case Reconcile(row, ok, handle) => Reconciled(s, row, ok, handle).0
    case Stop(id) => StopOne(s, id)
    case StopExcept(keep) => Close(s, s.gateways.Keys - keep)
    case AcceptError(g) => s.(all := s.all[g := s.all[g].(failed := true)])
    case LoopEnds(g) => RemoveIfCurrent(s, g)
  }

  class Manager {
    var gateways: map<int, Handle>
    var all: map<Handle, Gateway>

    ghost function Abs(): State
      reads this
    {
      State(gateways, all)
    }

    method CloseEntry(id: int)
      requires Inv(Abs()) && id in gateways
      modifies this
      ensures Abs() == Close(old(Abs()), {id})
    {
      ghost var before := Abs();
      var g := gateways[id];
      all := all[g := all[g].(open := false)];
      gateways := gateways - {id};
      assert all == Close(before, {id}).all;
    }

    method StopGateway(id: int)
      requires Inv(Abs())
      modifies this
      ensures Abs() == StopOne(old(Abs()), id)
    {
      if id <= 0 { return; }
      if id !in gateways {
        CloseAbsent(Abs(), id);
        return;
      }
      CloseEntry(id);
    }

    /** `StopExcept` visits the entries in any order. */
    method StopAllExcept(keep: set<int>)
      requires Inv(Abs())
      modifies this
      ensures Abs() == Close(old(Abs()), old(gateways).Keys - keep)
    {
      ghost var before := Abs();
      var todo := gateways.Keys - keep;
      ghost var done: set<int> := {};
      CloseNothing(before);
      while todo != {}
        invariant done !! todo && done + todo == before.gateways.Keys - keep
        invariant Abs() == Close(before, done) && Inv(Abs())
        decreases todo
      {
        ghost var one := SomeMember(todo);
        assert exists id :: id in todo && id == one;
        var id :| id in todo;
        CloseOneMore(before, done, id);
        CloseKeepsInv(Abs(), {id});
        CloseEntry(id);
        todo := todo - {id};
        done := done + {id};
      }
      assert done == before.gateways.Keys - keep;
    }

    method ReconcileOne(row: Inbound, listenOk: bool, handle: Handle) returns (ok: bool)
      requires Inv(Abs()) && handle !in all
      modifies this
      ensures (Abs(), ok) == Reconciled(old(Abs()), row, listenOk, handle)
    {
      if !row.enable || !row.payloadBypass {
        StopGateway(row.id);
        return true;
      }
      if !Valid(row) { return false; }
      var cfg := ConfigFor(row);
      if row.id in gateways {
        if all[gateways[row.id]].cfg == cfg { return true; }
        CloseEntry(row.id);
      } else {
        CloseAbsent(Abs(), row.id);
      }
      if !listenOk { return false; }
      all := all[handle := Gateway(cfg, true, false)];
      gateways := gateways[row.id := handle];
      ok := true;
    }

    /** The deferred cleanup of an accept loop. */
    method RemoveEntryIfCurrent(g: Handle)
      requires g in all
      modifies this
      ensures Abs() == RemoveIfCurrent(old(Abs()), g)
    {
      var id := all[g].cfg.inboundId;
      if id in gateways && gateways[id] == g { gateways := gateways - {id}; }
    }

    /** Any one step, by whatever goroutine takes it. */
    method Perform(a: Action)
      requires Inv(Abs()) && Enabled(Abs(), a)
      modifies this
      ensures Abs() == Next(old(Abs()), a) && Inv(Abs())
    {
      StepKeepsInv(Abs(), a);
      match a {
        case Reconcile(row, listenOk, handle) => var ok := ReconcileOne(row, listenOk, handle);
        case Stop(id) => StopGateway(id);
        case StopExcept(keep) => StopAllExcept(keep);
        case AcceptError(g) => all := all[g := all[g].(failed := true)];
        case LoopEnds(g) => RemoveEntryIfCurrent(g);
      }
    }

    /** What other goroutines do while a longer operation does not hold the lock. */
    method Interfere(actions: seq<Action>)
      requires Inv(Abs()) && Schedule(Abs(), actions)
      modifies this
      ensures Abs() == Run(old(Abs()), actions) && Inv(Abs())
    {
      ghost var final := Run(Abs(), actions);
      for i := 0 to |actions|
        invariant Inv(Abs()) && Schedule(Abs(), actions[i..]) && Run(Abs(), actions[i..]) == final
      {
        assert actions[i..][0] == actions[i] && actions[i..][1..] == actions[i + 1..];
        Perform(actions[i]);
      }
    }
  }

  lemma CloseAbsent(s: State, id: int)
    requires id !in s.gateways
    ensures Close(s, {id}) == s
  {
    assert Close(s, {id}).gateways == s.gateways && Close(s, {id}).all == s.all;
  }

  lemma CloseNothing(s: State)
    ensures Close(s, {}) == s
  {
    assert Close(s, {}).gateways == s.gateways && Close(s, {}).all == s.all;
  }

  lemma CloseOneMore(s: State, done: set<int>, id: int)
    requires Inv(s) && id in s.gateways && id !in done
    ensures id in Close(s, done).gateways
    ensures Close(s, done + {id}) == Close(Close(s, done), {id})
  {
    var a, b := Close(s, done + {id}), Close(Close(s, done), {id});
    assert a.gateways == b.gateways;
    assert a.all == b.all;
  }

  // ---------------------------------------------------------------- every interleaving

  /** Every entry has an open listener for its own inbound, and an open listener is in the table
      unless its accept loop failed. */
  ghost predicate Inv(s: State) {
    && (forall id :: id in s.gateways ==> s.gateways[id] in s.all && s.all[s.gateways[id]].cfg.inboundId == id && s.all[s.gateways[id]].open)
    && (forall g :: g in s.all && s.all[g].open && !s.all[g].failed ==> IsEntry(s, g))
  }

  lemma CloseKeepsInv(s: State, ids: set<int>)
    requires Inv(s)
    ensures Inv(Close(s, ids))
  {
    var t := Close(s, ids);
    forall g | g in t.all && t.all[g].open && !t.all[g].failed ensures IsEntry(t, g) {
      assert IsEntry(s, g);
    }
  }

  lemma StepKeepsInv(s: State, a: Action)
    requires Inv(s) && Enabled(s, a)
    ensures Inv(Next(s, a))
  {
    match a {
      case Reconcile(row, ok, handle) => CloseKeepsInv(s, {row.id});
      case Stop(id) => CloseKeepsInv(s, {id});
      case StopExcept(keep) => CloseKeepsInv(s, s.gateways.Keys - keep);
      case AcceptError(g) =>
      case LoopEnds(g) =>
    }
  }

  predicate Schedule(s: State, actions: seq<Action>)
    decreases |actions|
  {
    actions != [] ==> Enabled(s, actions[0]) && Schedule(Next(s, actions[0]), actions[1..])
  }

  function Run(s: State, actions: seq<Action>): State
    requires Schedule(s, actions)
    decreases |actions|
  {
    if actions == [] then s else Run(Next(s, actions[0]), actions[1..])
  }

  lemma {:induction false} RunKeepsInv(s: State, actions: seq<Action>)
    requires Inv(s) && Schedule(s, actions)
    ensures Inv(Run(s, actions))
    decreases |actions|
  {
    if actions != [] {
      StepKeepsInv(s, actions[0]);
      RunKeepsInv(Next(s, actions[0]), actions[1..]);
    }
  }

  const START := State(map[], map[])

  /** Whatever is interleaved, every entry of the table has an open listener for its own inbound, and
      a listener that is open without an entry belongs to an accept loop that failed. */
  lemma EntriesAreOpen(actions: seq<Action>)
    requires Schedule(START, actions)
    ensures var s := Run(START, actions);
      && (forall id :: id in s.gateways ==>
            s.gateways[id] in s.all && s.all[s.gateways[id]].open && s.all[s.gateways[id]].cfg.inboundId == id)
      && (forall g :: g in s.all && s.all[g].open && g !in s.gateways.Values ==> s.all[g].failed)
  {
    RunKeepsInv(START, actions);
  }

  /** An accept loop that ends because its listener was closed finds itself replaced or gone: it
      changes nothing, so it never removes its successor. */
  lemma ClosedLoopRemovesNothing(actions: seq<Action>, g: Handle)
    requires Schedule(START, actions) && g in Run(START, actions).all && !Run(START, actions).all[g].open
    ensures Next(Run(START, actions), LoopEnds(g)) == Run(START, actions)
  {
    RunKeepsInv(START, actions);
  }

  /** A loop that ends on another error removes at most its own entry, and leaves its listener open
      without an entry. */
  lemma FailedLoopLeaksItsListener(actions: seq<Action>, id: int)
    requires Schedule(START, actions) && id in Run(START, actions).gateways
    ensures var s := Run(START, actions);
      var g := s.gateways[id];
      && Schedule(s, [AcceptError(g), LoopEnds(g)])
      && var t := Run(s, [AcceptError(g), LoopEnds(g)]);
         t.gateways == s.gateways - {id} && g in t.all && t.all[g].open && g !in t.gateways.Values
  {
    RunKeepsInv(START, actions);
    var s := Run(START, actions);
    var g := s.gateways[id];
    var t1 := Next(s, AcceptError(g));
    var t2 := Next(t1, LoopEnds(g));
    var as_ := [AcceptError(g), LoopEnds(g)];
    assert as_[1..] == [LoopEnds(g)] && as_[1..][1..] == [];
    assert Schedule(t1, [LoopEnds(g)]) && Run(t1, [LoopEnds(g)]) == t2;
    assert forall k :: k in t2.gateways ==> s.all[s.gateways[k]].cfg.inboundId == k;
  }
}
