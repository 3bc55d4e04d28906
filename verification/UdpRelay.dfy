/** The UDP relay services: bringing up every desired port before retiring old ones, and the file that
    records which services the panel owns. */
module UdpRelay {
  import opened Wrappers
  import opened UdpState

  datatype Command = Enable(port: int) | Start(port: int) | Restart(port: int) | Disable(port: int)

  /** What the host answers during one reconcile; each set holds the ports with a positive answer. */
  datatype Host = Host(systemd: bool, templateOk: bool, changed: bool, healthy: set<int>, enableOk: set<int>,
                       active: set<int>, startOk: set<int>, ready: set<int>, stopOk: set<int>,
                       readable: bool, write: WriteOutcome)

  // ---------------------------------------------------------------- bringing one port up

  /** The commands for a desired port, and whether it ends up listening. */
  datatype Outcome = Outcome(commands: seq<Command>, ok: bool)

  function StartCommand(h: Host, p: int): seq<Command> {
    if p in h.active && (h.changed || p !in h.healthy) then [Restart(p)] else if p !in h.active then [Start(p)] else []
  }

  predicate Started(h: Host, p: int) {
    StartCommand(h, p) == [] || p in h.startOk
  }

  function BringUp(h: Host, owned: set<int>, p: int): Outcome {
    if p in owned && !h.changed && p in h.healthy then Outcome([], true)
    else if p !in h.enableOk then Outcome([Enable(p)], false)
    else
      var start := [Enable(p)] + StartCommand(h, p);
      if Started(h, p) && p in h.ready then Outcome(start, true)
      else Outcome(start + (if p in owned then [] else [Disable(p)]), false)
  }

  /** The ports in turn, up to the first failure. */
  function BringUpAll(h: Host, owned: set<int>, ports: seq<int>): Outcome {
    if ports == [] then Outcome([], true)
    else
      var before := BringUpAll(h, owned, ports[..|ports| - 1]);
      if !before.ok then before
      else
        var o := BringUp(h, owned, ports[|ports| - 1]);
        Outcome(before.commands + o.commands, o.ok)
  }

  function DisableAll(ports: seq<int>): (r: seq<Command>)
    ensures |r| == |ports| && forall i :: 0 <= i < |r| ==> r[i] == Disable(ports[i])
  {
    seq(|ports|, i requires 0 <= i < |ports| => Disable(ports[i]))
  }

  function NotIn(ports: seq<int>, s: set<int>): seq<int> {
    if ports == [] then []
    else
      var r, p := NotIn(ports[..|ports| - 1], s), ports[|ports| - 1];
      if p in s then r else r + [p]
  }

  lemma {:induction false} NotInMembers(ports: seq<int>, s: set<int>, p: int)
    ensures p in NotIn(ports, s) <==> p in ports && p !in s
  {
    if ports != [] {
      assert ports == ports[..|ports| - 1] + [ports[|ports| - 1]];
      NotInMembers(ports[..|ports| - 1], s, p);
    }
  }

  // ---------------------------------------------------------------- a whole reconcile

  /** The state file, the commands run, and whether the call succeeds. */
  datatype Result = Result(file: string, commands: seq<Command>, ok: bool)

  /** The ports the panel takes for its own: a file that cannot be read counts as empty. */
  function Seen(h: Host, file: string): (r: set<int>)
    ensures ValidPorts(r)
  {
    if h.readable then Read(file) else {}
  }

  function Stale(owned: set<int>, desired: set<int>): seq<int> {
    NotIn(SortedPorts(owned), desired)
  }

  function NewPorts(owned: set<int>, desired: set<int>): seq<int> {
    NotIn(SortedPorts(desired), owned)
  }

  /** The ports nobody wants that do not stop. */
  function Stuck(h: Host, ports: seq<int>, desired: set<int>): set<int> {
    if ports == [] then {}
    else
      var r, p := Stuck(h, ports[..|ports| - 1], desired), ports[|ports| - 1];
      if p !in desired && p !in h.stopOk then r + {p} else r
  }

  lemma {:induction false} StuckMembers(h: Host, ports: seq<int>, desired: set<int>, p: int)
    ensures p in Stuck(h, ports, desired) <==> p in ports && p !in desired && p !in h.stopOk
  {
    if ports != [] {
      assert ports == ports[..|ports| - 1] + [ports[|ports| - 1]];
      StuckMembers(h, ports[..|ports| - 1], desired, p);
    }
  }

  lemma StuckInAll(h: Host, owned: set<int>, desired: set<int>)
    requires ValidPorts(owned)
    ensures desired + Stuck(h, SortedPorts(owned), desired) == StillOwned(h, owned, desired)
  {
    forall p ensures p in Stuck(h, SortedPorts(owned), desired) <==> p in owned && p !in desired && p !in h.stopOk {
      StuckMembers(h, SortedPorts(owned), desired, p);
    }
  }

  lemma DisableOneMore(ports: seq<int>, p: int)
    ensures DisableAll(ports + [p]) == DisableAll(ports) + [Disable(p)]
  {
  }

  function StillOwned(h: Host, owned: set<int>, desired: set<int>): set<int> {
    desired + set p | p in owned && p !in desired && p !in h.stopOk
  }

  /** Retiring the old ports and saving, once every desired port is up. */
  function Retired(h: Host, file: string, desired: set<int>): Result {
    var owned := Seen(h, file);
    var state := StillOwned(h, owned, desired);
    var down := DisableAll(Stale(owned, desired));
    var ok := WriteOk(h.write, state);
    Result(Write(h.write, file, state), down + (if ok then [] else DisableAll(NewPorts(owned, desired))), ok)
  }

  function After(up: Outcome, file: string, rest: Result): Result {
    if up.ok then rest.(commands := up.commands + rest.commands) else Result(file, up.commands, false)
  }

  /** `reconcileSystemdUdpRelays`. */
  function Reconciled(h: Host, file: string, desired: set<int>): Result {
    if !h.templateOk then Result(file, [], false)
    else After(BringUpAll(h, Seen(h, file), SortedPorts(desired)), file, Retired(h, file, desired))
  }

  /** `stopSystemdUdpRelays`. */
  function Stopped(h: Host, file: string): Result {
    var owned := Seen(h, file);
    if owned == {} then Result(file, [], true)
    else
      var remaining := StillOwned(h, owned, {});
      Result(Write(h.write, file, remaining), DisableAll(SortedPorts(owned)), WriteOk(h.write, remaining) && remaining == {})
  }

  /** The wanted ports of all inbounds, out of range ones dropped. */
  function Desired(byInbound: map<int, int>): set<int> {
    set id | id in byInbound && 1 <= byInbound[id] <= MAX_PORT :: byInbound[id]
  }

  // ---------------------------------------------------------------- without systemd

  /** The relay processes of the panel, by port, after the missing ones were started in turn, up to the
      first that does not answer. */
  datatype Processes = Processes(procs: set<int>, ok: bool)

  function StartProcesses(h: Host, procs: set<int>, ports: seq<int>): Processes {
    if ports == [] then Processes(procs, true)
    else
      var before, p := StartProcesses(h, procs, ports[..|ports| - 1]), ports[|ports| - 1];
      if !before.ok then before else Processes(before.procs + {p}, p in h.ready)
  }

  /** `reconcileFallbackUdpRelays`: unwanted processes are stopped first. */
  function FallenBack(h: Host, procs: set<int>, desired: set<int>): Processes {
    StartProcesses(h, procs * desired, NotIn(SortedPorts(desired), procs))
  }

  // ---------------------------------------------------------------- either way

  /** `reconcileUdpRelays`; `toolOk` is false when the relay program cannot be installed. */
  function Reconcile(h: Host, file: string, byInbound: map<int, int>, toolOk: bool): Result {
    if Desired(byInbound) == {} then Stopped(h, file)
    else if !toolOk then Result(file, [], false)
    else Reconciled(h, file, Desired(byInbound))
  }

  function ReconcileProcesses(h: Host, procs: set<int>, byInbound: map<int, int>, toolOk: bool): Processes {
    if Desired(byInbound) != {} && !toolOk then Processes(procs, false)
    else FallenBack(h, procs, Desired(byInbound))
  }

  lemma Associative(a: seq<Command>, b: seq<Command>, c: seq<Command>)
    ensures a + b + c == a + (b + c)
  {
  }

  // ---------------------------------------------------------------- the service

  class Relays {
    var file: string
    var procs: set<int>
    var commands: seq<Command>

    constructor (file: string)
      ensures this.file == file && procs == {} && commands == []
    {
      this.file := file;
      procs := {};
      commands := [];
    }

    method Perform(c: Command)
      modifies this`commands
      ensures commands == old(commands) + [c]
    {
      commands := commands + [c];
    }

    /** `systemctl restart` or `start` where the unit needs it. */
    method StartUnit(h: Host, p: int, active: bool, healthy: bool) returns (started: bool)
      requires active == (p in h.active) && healthy == (p in h.healthy)
      modifies this`commands
      ensures commands == old(commands) + StartCommand(h, p) && started == Started(h, p)
    {
      started := true;
      if h.changed && active {
        Perform(Restart(p));
        started := p in h.startOk;
      } else if active && !healthy {
        Perform(Restart(p));
        started := p in h.startOk;
      } else if !active {
        Perform(Start(p));
        started := p in h.startOk;
      }
    }

    method GiveUp(p: int, wasOld: bool)
      modifies this`commands
      ensures commands == old(commands) + if wasOld then [] else [Disable(p)]
    {
      if !wasOld { Perform(Disable(p)); }
    }

    method StartOne(h: Host, owned: set<int>, p: int) returns (ok: bool)
      modifies this`commands
      ensures commands == old(commands) + BringUp(h, owned, p).commands && ok == BringUp(h, owned, p).ok
    {
      var wasOld := p in owned;
      var healthy := p in h.healthy;
      if wasOld && !h.changed && healthy { return true; }
      Perform(Enable(p));
      if p !in h.enableOk { return false; }
      ok := StartUnit(h, p, p in h.active, healthy);
      Associative(old(commands), [Enable(p)], StartCommand(h, p));
      if !ok || p !in h.ready {
        GiveUp(p, wasOld);
        Associative(old(commands), [Enable(p)] + StartCommand(h, p), if wasOld then [] else [Disable(p)]);
        ok := false;
      }
    }

    method DisableEach(ports: seq<int>)
      modifies this`commands
      ensures commands == old(commands) + DisableAll(ports)
    {
      for i := 0 to |ports|
        invariant commands == old(commands) + DisableAll(ports[..i])
      {
        Perform(Disable(ports[i]));
        assert ports[..i + 1] == ports[..i] + [ports[i]];
        DisableOneMore(ports[..i], ports[i]);
      }
      assert ports[..|ports|] == ports;
    }

    /** Starts the ports in turn; collects the ones that were not owned before. */
    method StartEach(h: Host, owned: set<int>, ports: seq<int>) returns (ok: bool, startedNew: seq<int>)
      modifies this`commands
      ensures commands == old(commands) + BringUpAll(h, owned, ports).commands && ok == BringUpAll(h, owned, ports).ok
      ensures ok ==> startedNew == NotIn(ports, owned)
    {
      startedNew := [];
      for i := 0 to |ports|
        invariant commands == old(commands) + BringUpAll(h, owned, ports[..i]).commands && BringUpAll(h, owned, ports[..i]).ok
        invariant startedNew == NotIn(ports[..i], owned)
      {
        assert ports[..i + 1][..i] == ports[..i];
        ok := StartOne(h, owned, ports[i]);
        Associative(old(commands), BringUpAll(h, owned, ports[..i]).commands, BringUp(h, owned, ports[i]).commands);
        if !ok {
          FailureEnds(h, owned, ports, i + 1);
          return;
        }
        if ports[i] !in owned { startedNew := startedNew + [ports[i]]; }
      }
      assert ports[..|ports|] == ports;
      ok := true;
    }

    /** Retires the old ports nobody wants; the ones that do not stop remain owned. */
    method StopEach(h: Host, ports: seq<int>, desired: set<int>) returns (state: set<int>)
      modifies this`commands
      ensures commands == old(commands) + DisableAll(NotIn(ports, desired))
      ensures state == desired + Stuck(h, ports, desired)
    {
      state := desired;
      for i := 0 to |ports|
        invariant commands == old(commands) + DisableAll(NotIn(ports[..i], desired))
        invariant state == desired + Stuck(h, ports[..i], desired)
      {
        assert ports[..i + 1][..i] == ports[..i];
        if ports[i] !in desired {
          Perform(Disable(ports[i]));
          DisableOneMore(NotIn(ports[..i], desired), ports[i]);
          if ports[i] !in h.stopOk { state := state + {ports[i]}; }
        }
      }
      assert ports[..|ports|] == ports;
    }

    method StopStale(h: Host, owned: set<int>, desired: set<int>) returns (state: set<int>)
      requires ValidPorts(owned)
      modifies this`commands
      ensures commands == old(commands) + DisableAll(Stale(owned, desired))
      ensures state == StillOwned(h, owned, desired)
    {
      StuckInAll(h, owned, desired);
      state := StopEach(h, SortedPorts(owned), desired);
    }

    method ReadOwned(h: Host) returns (owned: set<int>)
      ensures owned == Seen(h, file)
    {
      owned := {};
      if h.readable { owned := ReadState(file); }
    }

    /** The second half: every desired port is up. */
    method RetireAndSave(h: Host, owned: set<int>, desired: set<int>, startedNew: seq<int>) returns (ok: bool)
      requires owned == Seen(h, file) && startedNew == NewPorts(owned, desired)
      modifies this
      ensures file == Retired(h, old(file), desired).file && procs == old(procs)
      ensures commands == old(commands) + Retired(h, old(file), desired).commands
      ensures ok == Retired(h, old(file), desired).ok
    {
      var state := StopStale(h, owned, desired);
      file, ok := WriteState(h.write, file, state);
      if !ok {
        DisableEach(startedNew);
        Associative(old(commands), DisableAll(Stale(owned, desired)), DisableAll(startedNew));
      }
    }

    method ReconcileSystemd(h: Host, desired: set<int>) returns (ok: bool)
      modifies this
      ensures file == Reconciled(h, old(file), desired).file && procs == old(procs)
      ensures commands == old(commands) + Reconciled(h, old(file), desired).commands
      ensures ok == Reconciled(h, old(file), desired).ok
    {
      if !h.templateOk { return false; }
      var owned := ReadOwned(h);
      ghost var up := BringUpAll(h, owned, SortedPorts(desired));
      ghost var rest := Retired(h, file, desired);
      assert Reconciled(h, file, desired) == After(up, file, rest);
      var startedNew;
      ok, startedNew := StartEach(h, owned, SortedPorts(desired));
      if !ok { return; }
      ok := RetireAndSave(h, owned, desired, startedNew);
      Associative(old(commands), up.commands, rest.commands);
    }

    method StopOwned(h: Host, owned: set<int>) returns (remaining: set<int>)
      requires ValidPorts(owned)
      modifies this`commands
      ensures commands == old(commands) + DisableAll(SortedPorts(owned))
      ensures remaining == StillOwned(h, owned, {})
    {
      AllAreStale(SortedPorts(owned));
      remaining := StopStale(h, owned, {});
    }

    method StopSystemd(h: Host) returns (ok: bool)
      modifies this
      ensures file == Stopped(h, old(file)).file && procs == old(procs)
      ensures commands == old(commands) + Stopped(h, old(file)).commands
      ensures ok == Stopped(h, old(file)).ok
    {
      var owned := ReadOwned(h);
      if owned == {} { return true; }
      var remaining := StopOwned(h, owned);
      file, ok := WriteState(h.write, file, remaining);
      ok := ok && remaining == {};
    }

    /** The relay processes: unwanted ones are stopped, then missing ones started. */
    method ReconcileFallback(h: Host, desired: set<int>) returns (ok: bool)
      modifies this`procs
      ensures Processes(procs, ok) == FallenBack(h, old(procs), desired)
    {
      var toStart := NotIn(SortedPorts(desired), procs);
      procs := procs * desired;
      for i := 0 to |toStart|
        invariant Processes(procs, true) == StartProcesses(h, old(procs) * desired, toStart[..i])
      {
        assert toStart[..i + 1][..i] == toStart[..i];
        procs := procs + {toStart[i]};
        if toStart[i] !in h.ready {
          FirstSilence(h, old(procs) * desired, toStart, i + 1);
          return false;
        }
      }
      assert toStart[..|toStart|] == toStart;
      ok := true;
    }

    method ReconcileAll(h: Host, byInbound: map<int, int>, toolOk: bool) returns (ok: bool)
      modifies this
      ensures h.systemd ==>
        && file == Reconcile(h, old(file), byInbound, toolOk).file && procs == old(procs)
        && commands == old(commands) + Reconcile(h, old(file), byInbound, toolOk).commands
        && ok == Reconcile(h, old(file), byInbound, toolOk).ok
      ensures !h.systemd ==>
        && Processes(procs, ok) == ReconcileProcesses(h, old(procs), byInbound, toolOk)
        && file == old(file) && commands == old(commands)
    {
      var desired := DesiredPorts(byInbound);
      if desired == {} {
        if h.systemd { ok := StopSystemd(h); } else { ok := ReconcileFallback(h, desired); }
        return;
      }
      if !toolOk { return false; }
      if h.systemd { ok := ReconcileSystemd(h, desired); } else { ok := ReconcileFallback(h, desired); }
    }
  }

  lemma {:induction false} FirstSilence(h: Host, procs: set<int>, ports: seq<int>, n: nat)
    requires n <= |ports| && !StartProcesses(h, procs, ports[..n]).ok
    ensures StartProcesses(h, procs, ports) == StartProcesses(h, procs, ports[..n])
  {
    if n < |ports| {
      assert ports[..|ports| - 1][..n] == ports[..n];
      FirstSilence(h, procs, ports[..|ports| - 1], n);
    } else {
      assert ports[..n] == ports;
    }
  }

  method DesiredPorts(byInbound: map<int, int>) returns (desired: set<int>)
    ensures desired == Desired(byInbound)
  {
    desired := {};
    var rest := byInbound.Keys;
    while rest != {}
      invariant rest <= byInbound.Keys
      invariant desired == set id | id in byInbound && id !in rest && 1 <= byInbound[id] <= MAX_PORT :: byInbound[id]
      decreases |rest|
    {
      ghost var one := SomeMember(rest);
      assert exists id :: id in rest && id == one;
      var id :| id in rest;
      if 0 < byInbound[id] <= MAX_PORT { desired := desired + {byInbound[id]}; }
      rest := rest - {id};
    }
  }

  lemma {:induction false} FailureEnds(h: Host, owned: set<int>, ports: seq<int>, n: nat)
    requires n <= |ports| && !BringUpAll(h, owned, ports[..n]).ok
    ensures BringUpAll(h, owned, ports) == BringUpAll(h, owned, ports[..n])
  {
    if n < |ports| {
      var prefix := ports[..|ports| - 1];
      assert prefix[..n] == ports[..n];
      FailureEnds(h, owned, prefix, n);
    } else {
      assert ports[..n] == ports;
    }
  }

  lemma {:induction false} AllAreStale(ports: seq<int>)
    ensures NotIn(ports, {}) == ports
  {
    if ports != [] {
      AllAreStale(ports[..|ports| - 1]);
      assert ports == ports[..|ports| - 1] + [ports[|ports| - 1]];
    }
  }
}
