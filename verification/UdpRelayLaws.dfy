/** Make before break: what a reconcile of the relay services never does to a port that works. */
module UdpRelayLaws {
  import opened UdpState
  import opened UdpRelay

  /** The desired port is known to listen when its turn is over. */
  predicate Listens(h: Host, owned: set<int>, p: int) {
    BringUp(h, owned, p).ok
  }

  /** A port only counts as up when its socket was found healthy or answered after the start. */
  lemma ListensMeansReady(h: Host, owned: set<int>, p: int)
    requires Listens(h, owned, p)
    ensures (p in owned && !h.changed && p in h.healthy) || p in h.ready
  {
  }

  /** When a desired port ends up listening. One that is the panel's, was not reconfigured and is healthy needs
      nothing; any other is enabled, started if it is not active, restarted if it is but was reconfigured or
      does not answer, and then has to answer. */
  lemma ListensIff(h: Host, owned: set<int>, p: int)
    ensures Listens(h, owned, p) <==>
      || (p in owned && p in h.healthy && !h.changed)
      || (&& p in h.enableOk && p in h.ready
          && ((p in h.active && p in h.healthy && !h.changed) || p in h.startOk))
  {
  }

  lemma StartIsIssued(h: Host, owned: set<int>, p: int)
    ensures Disable(p) in BringUp(h, owned, p).commands ==> p !in owned && !Listens(h, owned, p)
    ensures var cs := BringUp(h, owned, p).commands;
      if p in owned && p in h.healthy && !h.changed then cs == []
      else
        && cs != [] && cs[0] == Enable(p)
        && (Start(p) in cs <==> p in h.enableOk && p !in h.active)
        && (Restart(p) in cs <==> p in h.enableOk && p in h.active && (h.changed || p !in h.healthy))
        && (Disable(p) in cs <==> p !in owned && p in h.enableOk && !Listens(h, owned, p))
  {
  }

  lemma {:induction false} AllListen(h: Host, owned: set<int>, ports: seq<int>)
    ensures BringUpAll(h, owned, ports).ok <==> forall p :: p in ports ==> Listens(h, owned, p)
  {
    if ports != [] {
      var prefix, last := ports[..|ports| - 1], ports[|ports| - 1];
      AllListen(h, owned, prefix);
      assert ports == prefix + [last];
      assert last in ports && forall p :: p in ports <==> p in prefix || p == last;
    }
  }

  /** While ports are brought up, the only unit ever disabled is a new one that failed. */
  lemma {:induction false} OnlyFailuresAreDisabled(h: Host, owned: set<int>, ports: seq<int>, p: int)
    requires Disable(p) in BringUpAll(h, owned, ports).commands
    ensures p !in owned && p in ports && !Listens(h, owned, p)
  {
    var prefix, last := ports[..|ports| - 1], ports[|ports| - 1];
    assert ports == prefix + [last];
    if Disable(p) in BringUpAll(h, owned, prefix).commands { OnlyFailuresAreDisabled(h, owned, prefix, p); }
  }

  /** An error while starting the desired ports retires no port the panel knows as its own, and leaves
      the state file as it was. */
  lemma StartErrorRetiresNothing(h: Host, file: string, desired: set<int>)
    requires ValidPorts(desired) && exists p :: p in desired && !Listens(h, Seen(h, file), p)
    ensures !Reconciled(h, file, desired).ok && Reconciled(h, file, desired).file == file
    ensures forall p :: p in Seen(h, file) ==> Disable(p) !in Reconciled(h, file, desired).commands
  {
    var ports := SortedPorts(desired);
    var owned := Seen(h, file);
    AllListen(h, owned, ports);
    forall p | p in owned ensures Disable(p) !in BringUpAll(h, owned, ports).commands {
      if Disable(p) in BringUpAll(h, owned, ports).commands { OnlyFailuresAreDisabled(h, owned, ports, p); }
    }
  }

  /** A reconcile succeeds exactly when every desired port listens and the new state is written; the
      panel then owns the desired ports and the old ones that did not stop. Otherwise the file is as it
      was, or holds what a cut write of that state left. */
  lemma SucceedsIff(h: Host, file: string, desired: set<int>)
    requires ValidPorts(desired) && desired != {}
    ensures Reconciled(h, file, desired).ok <==>
      h.templateOk && h.write.Written? && forall p :: p in desired ==> Listens(h, Seen(h, file), p)
    ensures Reconciled(h, file, desired).ok ==>
      Read(Reconciled(h, file, desired).file) == desired + set p | p in Seen(h, file) && p !in desired && p !in h.stopOk
    ensures !Reconciled(h, file, desired).ok ==>
      Reconciled(h, file, desired).file == file ||
      (h.write.Cut? && Reconciled(h, file, desired).file == Write(h.write, file, StillOwned(h, Seen(h, file), desired)))
  {
    var state := StillOwned(h, Seen(h, file), desired);
    AllListen(h, Seen(h, file), SortedPorts(desired));
    assert state != {} by { NonEmpty(desired, state); }
    WriteIsRead(file, state);
  }

  lemma NonEmpty(a: set<int>, b: set<int>)
    requires a != {} && a <= b
    ensures b != {}
  {
  }

  lemma DisableIsListed(ports: seq<int>, p: int)
    ensures Disable(p) in DisableAll(ports) <==> p in ports
  {
    if p in ports {
      var i :| 0 <= i < |ports| && ports[i] == p;
      assert DisableAll(ports)[i] == Disable(p);
    }
  }

  lemma StaleMembers(owned: set<int>, desired: set<int>, p: int)
    requires ValidPorts(owned)
    ensures p in Stale(owned, desired) <==> p in owned && p !in desired
  {
    NotInMembers(SortedPorts(owned), desired, p);
  }

  lemma NewPortsMembers(owned: set<int>, desired: set<int>, p: int)
    requires ValidPorts(desired)
    ensures p in NewPorts(owned, desired) <==> p in desired && p !in owned
  {
    NotInMembers(SortedPorts(desired), owned, p);
  }

  /** A port that is both known as owned and desired is never disabled, however the call ends. */
  lemma WantedPortsSurvive(h: Host, file: string, desired: set<int>, p: int)
    requires ValidPorts(desired) && p in Seen(h, file) && p in desired
    ensures Disable(p) !in Reconciled(h, file, desired).commands
  {
    var owned := Seen(h, file);
    var ports := SortedPorts(desired);
    if Disable(p) in BringUpAll(h, owned, ports).commands { OnlyFailuresAreDisabled(h, owned, ports, p); }
    DisableIsListed(Stale(owned, desired), p);
    DisableIsListed(NewPorts(owned, desired), p);
    StaleMembers(owned, desired, p);
    NewPortsMembers(owned, desired, p);
  }

  /** By the time an owned port is disabled, every desired port listens and no start is still to come. */
  lemma MakeBeforeBreak(h: Host, file: string, desired: set<int>, k: nat)
    requires ValidPorts(desired) && k < |Reconciled(h, file, desired).commands|
    requires Reconciled(h, file, desired).commands[k].Disable? && Reconciled(h, file, desired).commands[k].port in Seen(h, file)
    ensures Reconciled(h, file, desired).commands[k].port !in desired
    ensures forall p :: p in desired ==> Listens(h, Seen(h, file), p)
    ensures forall j :: k <= j < |Reconciled(h, file, desired).commands| ==> Reconciled(h, file, desired).commands[j].Disable?
  {
    var r := Reconciled(h, file, desired);
    var owned := Seen(h, file);
    var p := r.commands[k].port;
    assert Disable(p) in r.commands;
    if p in desired { WantedPortsSurvive(h, file, desired, p); }
    NotWhileStarting(h, file, desired, k);
    AllListen(h, owned, SortedPorts(desired));
  }

  /** The command comes after the ports were brought up. */
  lemma NotWhileStarting(h: Host, file: string, desired: set<int>, k: nat)
    requires ValidPorts(desired) && k < |Reconciled(h, file, desired).commands|
    requires Reconciled(h, file, desired).commands[k].Disable? && Reconciled(h, file, desired).commands[k].port in Seen(h, file)
    ensures k >= |BringUpAll(h, Seen(h, file), SortedPorts(desired)).commands| && BringUpAll(h, Seen(h, file), SortedPorts(desired)).ok
  {
    var owned, ports := Seen(h, file), SortedPorts(desired);
    var up := BringUpAll(h, owned, ports).commands;
    if k < |up| {
      assert up[k] in up;
      OnlyFailuresAreDisabled(h, owned, ports, up[k].port);
    }
  }

  /** When the state is not written completely, the new ports are disabled again. */
  lemma WriteFailureUndoesTheNew(h: Host, file: string, desired: set<int>, p: int)
    requires ValidPorts(desired) && h.templateOk && !h.write.Written? && (forall q :: q in desired ==> Listens(h, Seen(h, file), q))
    requires p in desired && p !in Seen(h, file)
    ensures Disable(p) in Reconciled(h, file, desired).commands
  {
    var owned := Seen(h, file);
    AllListen(h, owned, SortedPorts(desired));
    NewPortsMembers(owned, desired, p);
    DisableIsListed(NewPorts(owned, desired), p);
    NonEmpty({p}, StillOwned(h, owned, desired));
  }

  /** After a success no wanted port was disabled. */
  lemma SuccessDisablesNoneWanted(h: Host, file: string, desired: set<int>, p: int)
    requires ValidPorts(desired) && Reconciled(h, file, desired).ok && p in desired
    ensures Disable(p) !in Reconciled(h, file, desired).commands
  {
    var owned := Seen(h, file);
    var ports := SortedPorts(desired);
    AllListen(h, owned, ports);
    if Disable(p) in BringUpAll(h, owned, ports).commands { OnlyFailuresAreDisabled(h, owned, ports, p); }
    DisableIsListed(Stale(owned, desired), p);
    StaleMembers(owned, desired, p);
  }

  /** Which ports are wanted: the ones in range that some inbound names. When there are any and the relay program
      cannot be had, nothing is done. */
  lemma WantedIff(byInbound: map<int, int>, p: int)
    ensures p in Desired(byInbound) <==> 0 < p < 65536 && exists id :: id in byInbound && byInbound[id] == p
  {
  }

  /** A stop disables every recorded port, and succeeds exactly when all of them stop. */
  lemma StopSucceedsIff(h: Host, file: string)
    ensures Stopped(h, file).ok <==> forall p :: p in Seen(h, file) ==> p in h.stopOk
    ensures forall p :: p in Seen(h, file) ==> Disable(p) in Stopped(h, file).commands
    ensures forall c :: c in Stopped(h, file).commands ==> c.Disable? && c.port in Seen(h, file)
  {
    var owned := Seen(h, file);
    if owned != {} {
      forall p | p in owned ensures Disable(p) in Stopped(h, file).commands { DisableIsListed(SortedPorts(owned), p); }
      forall c | c in Stopped(h, file).commands ensures c.Disable? && c.port in owned {
        var i :| 0 <= i < |DisableAll(SortedPorts(owned))| && DisableAll(SortedPorts(owned))[i] == c;
      }
      if StillOwned(h, owned, {}) == {} {
        forall p | p in owned ensures p in h.stopOk { assert p !in StillOwned(h, owned, {}); }
      }
    }
  }

  lemma NoToolNoChange(h: Host, file: string, procs: set<int>, byInbound: map<int, int>)
    requires Desired(byInbound) != {}
    ensures Reconcile(h, file, byInbound, false) == Result(file, [], false)
    ensures ReconcileProcesses(h, procs, byInbound, false) == Processes(procs, false)
  {
  }

  /** When nothing is wanted the tool is not needed: without systemd every process is stopped. */
  lemma NothingWantedNeedsNoTool(h: Host, procs: set<int>, byInbound: map<int, int>, toolOk: bool)
    requires Desired(byInbound) == {}
    ensures ReconcileProcesses(h, procs, byInbound, toolOk) == Processes({}, true)
  {
    FallbackRunsTheDesired(h, procs, {});
  }

  // ---------------------------------------------------------------- what a failed start leaves behind

  /** A unit that was enabled by the commands and not disabled again. */
  predicate LeftOn(h: Host, commands: seq<Command>, p: int) {
    Enable(p) in commands && p in h.enableOk && Disable(p) !in commands
  }

  lemma {:induction false} CommandsAreForPorts(h: Host, owned: set<int>, ports: seq<int>, c: Command)
    requires c in BringUpAll(h, owned, ports).commands
    ensures c.port in ports
  {
    var prefix, last := ports[..|ports| - 1], ports[|ports| - 1];
    assert ports == prefix + [last];
    if c in BringUpAll(h, owned, prefix).commands { CommandsAreForPorts(h, owned, prefix, c); }
  }

  lemma NotBefore(h: Host, owned: set<int>, ports: seq<int>, p: int)
    requires p !in ports
    ensures Enable(p) !in BringUpAll(h, owned, ports).commands && Disable(p) !in BringUpAll(h, owned, ports).commands
  {
    if Enable(p) in BringUpAll(h, owned, ports).commands { CommandsAreForPorts(h, owned, ports, Enable(p)); }
    if Disable(p) in BringUpAll(h, owned, ports).commands { CommandsAreForPorts(h, owned, ports, Disable(p)); }
  }

  /** The port's turn came and every port up to it listened. */
  ghost predicate CameUp(h: Host, owned: set<int>, ports: seq<int>, p: int) {
    exists i :: 0 <= i < |ports| && ports[i] == p && forall j :: 0 <= j <= i ==> Listens(h, owned, ports[j])
  }

  lemma CameUpStep(h: Host, owned: set<int>, prefix: seq<int>, last: int, p: int)
    ensures CameUp(h, owned, prefix + [last], p) <==>
      || CameUp(h, owned, prefix, p)
      || (p == last && Listens(h, owned, last) && forall q :: q in prefix ==> Listens(h, owned, q))
  {
    var ports := prefix + [last];
    if CameUp(h, owned, prefix, p) {
      var i :| 0 <= i < |prefix| && prefix[i] == p && forall j :: 0 <= j <= i ==> Listens(h, owned, prefix[j]);
      assert ports[i] == p && forall j :: 0 <= j <= i ==> ports[j] == prefix[j];
    }
    if CameUp(h, owned, ports, p) {
      var i :| 0 <= i < |ports| && ports[i] == p && forall j :: 0 <= j <= i ==> Listens(h, owned, ports[j]);
      if i < |prefix| {
        assert prefix[i] == p && forall j :: 0 <= j <= i ==> ports[j] == prefix[j];
      } else {
        assert forall j :: 0 <= j < |prefix| ==> ports[j] == prefix[j];
      }
    }
    if p == last && Listens(h, owned, last) && forall q :: q in prefix ==> Listens(h, owned, q) {
      assert ports[|prefix|] == p && forall j :: 0 <= j < |prefix| ==> ports[j] == prefix[j] && prefix[j] in prefix;
    }
  }

  /** A failed start leaves an unrecorded unit on exactly when some new port came up before the one that
      failed: the earlier ones are not undone. */
  lemma {:induction false} FailedStartLeavesOn(h: Host, owned: set<int>, ports: seq<int>, p: int)
    requires forall i, j :: 0 <= i < j < |ports| ==> ports[i] != ports[j]
    requires p !in owned
    ensures LeftOn(h, BringUpAll(h, owned, ports).commands, p) <==> CameUp(h, owned, ports, p)
  {
    if ports != [] {
      var prefix, last := ports[..|ports| - 1], ports[|ports| - 1];
      assert ports == prefix + [last];
      FailedStartLeavesOn(h, owned, prefix, p);
      AllListen(h, owned, prefix);
      CameUpStep(h, owned, prefix, last, p);
      if BringUpAll(h, owned, prefix).ok {
        if p == last {
          NotBefore(h, owned, prefix, p);
          LastOn(h, owned, p);
        } else {
          OthersOnly(h, owned, last);
        }
      }
    }
  }

  lemma LastOn(h: Host, owned: set<int>, p: int)
    requires p !in owned
    ensures LeftOn(h, BringUp(h, owned, p).commands, p) <==> Listens(h, owned, p)
  {
  }

  lemma OthersOnly(h: Host, owned: set<int>, p: int)
    ensures forall c :: c in BringUp(h, owned, p).commands ==> c.port == p
  {
  }

  // ---------------------------------------------------------------- ownership over many calls

  /** The call disabled the port, the port stopped, and no inbound wants it. */
  predicate Retires(h: Host, file: string, byInbound: map<int, int>, toolOk: bool, p: int) {
    p !in Desired(byInbound) && p in h.stopOk && Disable(p) in Reconcile(h, file, byInbound, toolOk).commands
  }

  /** What a call writes if it gets that far. */
  function NewState(h: Host, file: string, desired: set<int>): (r: set<int>)
    ensures ValidPorts(desired) ==> ValidPorts(r)
  {
    StillOwned(h, Seen(h, file), desired)
  }

  /** The call gets as far as writing the file. */
  predicate Saves(h: Host, file: string, byInbound: map<int, int>, toolOk: bool) {
    if Desired(byInbound) == {} then Seen(h, file) != {}
    else toolOk && h.templateOk && forall p :: p in Desired(byInbound) ==> Listens(h, Seen(h, file), p)
  }

  lemma FileAfterCall(h: Host, file: string, byInbound: map<int, int>, toolOk: bool)
    ensures Reconcile(h, file, byInbound, toolOk).file ==
      if Saves(h, file, byInbound, toolOk) then Write(h.write, file, NewState(h, file, Desired(byInbound))) else file
  {
    AllListen(h, Seen(h, file), SortedPorts(Desired(byInbound)));
  }

  /** A write of the ports to a file that names `p` leaves it unnamed: it completed without the port; or it
      was cut before the end of the port's number; or it was cut, the port is not among those written, and
      the cut does not spell it either. */
  ghost predicate LosesIt(o: WriteOutcome, ports: set<int>, p: int) {
    match o
    case Written => p !in ports
    case NotOpened => false
    case Cut(n) => CutBefore(ports, n, p) || (ports != {} && p !in ports && !Renames(SortedPorts(ports), n, p))
  }

  /** The cut comes before the end of the port's number. */
  ghost predicate CutBefore(ports: set<int>, n: nat, p: int) {
    exists i :: 0 <= i < |SortedPorts(ports)| && SortedPorts(ports)[i] == p && n < Position(SortedPorts(ports), i)
  }

  lemma WholeText(ports: seq<int>, n: nat, p: int)
    requires n > |StateText(ports)|
    ensures !Renames(ports, n, p)
    ensures forall i :: 0 <= i < |ports| ==> Position(ports, i) <= n
  {
    assert ports[..|ports|] == ports;
    EndIsLength(ports, |ports|);
    forall k: nat, j: nat ensures !RenamesAt(ports, n, p, k, j) {
      if k < |ports| { TextGrows(ports, k, |ports|); }
    }
    forall i | 0 <= i < |ports| ensures Position(ports, i) <= n { TextGrows(ports, i, |ports|); }
  }

  lemma CutLosesIff(ports: set<int>, n: nat, p: int)
    requires ValidPorts(ports) && ValidPort(p)
    ensures p !in Read(Prefix(StateText(SortedPorts(ports)), n)) <==>
      CutBefore(ports, n, p) || (p !in ports && !Renames(SortedPorts(ports), n, p))
  {
    var sorted := SortedPorts(ports);
    if n > |StateText(sorted)| {
      WholeText(sorted, n, p);
      WrittenIsRead(sorted);
    } else if p in ports {
      var i :| 0 <= i < |sorted| && sorted[i] == p;
      CutKeepsIff(sorted, n, i);
    } else {
      CutReadsIff(sorted, n, p);
    }
  }

  lemma NotWrittenNotCut(ports: set<int>, n: nat, p: int)
    requires ValidPorts(ports) && p !in ports
    ensures !CutBefore(ports, n, p)
  {
    var sorted := SortedPorts(ports);
    assert forall i :: 0 <= i < |sorted| ==> sorted[i] in sorted;
  }

  lemma LosesItIff(o: WriteOutcome, file: string, ports: set<int>, p: int)
    requires ValidPorts(ports) && p in Read(file)
    ensures p !in Read(Write(o, file, ports)) <==> LosesIt(o, ports, p)
  {
    if o.Written? {
      WriteIsRead(file, ports);
    } else if o.Cut? && ports != {} {
      CutLosesIff(ports, o.n, p);
    } else if o.Cut? {
      NotWrittenNotCut(ports, o.n, p);
    }
  }

  /** The call makes the file lose a port it names. */
  ghost predicate Drops(h: Host, file: string, byInbound: map<int, int>, toolOk: bool, p: int) {
    Saves(h, file, byInbound, toolOk) && LosesIt(h.write, NewState(h, file, Desired(byInbound)), p)
  }

  /** One call: exactly when a recorded port is not recorded any more, by what the call meets. */
  lemma DroppedIff(h: Host, file: string, byInbound: map<int, int>, toolOk: bool, p: int)
    requires p in Read(file)
    ensures p !in Read(Reconcile(h, file, byInbound, toolOk).file) <==> Drops(h, file, byInbound, toolOk, p)
  {
    FileAfterCall(h, file, byInbound, toolOk);
    LosesItIff(h.write, file, NewState(h, file, Desired(byInbound)), p);
  }

  /** The write is cut before the end of the port's number, although the port is to stay on record. */
  ghost predicate CutsOff(h: Host, file: string, byInbound: map<int, int>, toolOk: bool, p: int) {
    Saves(h, file, byInbound, toolOk) && h.write.Cut? && CutBefore(NewState(h, file, Desired(byInbound)), h.write.n, p)
  }

  /** The file cannot be read, so the port is taken for nobody's and left out. */
  ghost predicate Overlooked(h: Host, file: string, byInbound: map<int, int>, toolOk: bool, p: int) {
    !h.readable && p !in Desired(byInbound) && Drops(h, file, byInbound, toolOk, p)
  }

  /** So a recorded port is lost without having been stopped exactly when a cut write takes it, wanted or
      stuck, on either path, or it was overlooked. */
  lemma LostUnstoppedIff(h: Host, file: string, byInbound: map<int, int>, toolOk: bool, p: int)
    requires p in Read(file)
    ensures p !in Read(Reconcile(h, file, byInbound, toolOk).file) && !Retires(h, file, byInbound, toolOk, p) <==>
      CutsOff(h, file, byInbound, toolOk, p) || Overlooked(h, file, byInbound, toolOk, p)
  {
    DroppedIff(h, file, byInbound, toolOk, p);
    if Drops(h, file, byInbound, toolOk, p) {
      if p in NewState(h, file, Desired(byInbound)) {
        assert !Retires(h, file, byInbound, toolOk, p) by { KeptIsNotRetired(h, file, byInbound, toolOk, p); }
      } else if h.readable {
        LeftOutIsRetired(h, file, byInbound, toolOk, p);
      } else {
        OverlookedIsLeftAlone(h, file, byInbound, toolOk, p);
      }
    }
  }

  lemma KeptIsNotRetired(h: Host, file: string, byInbound: map<int, int>, toolOk: bool, p: int)
    requires p in NewState(h, file, Desired(byInbound))
    ensures !Retires(h, file, byInbound, toolOk, p)
  {
  }

  lemma LeftOutIsRetired(h: Host, file: string, byInbound: map<int, int>, toolOk: bool, p: int)
    requires h.readable && p in Read(file) && p !in NewState(h, file, Desired(byInbound)) && Saves(h, file, byInbound, toolOk)
    ensures Retires(h, file, byInbound, toolOk, p)
  {
    var desired := Desired(byInbound);
    if desired == {} {
      DisableIsListed(SortedPorts(Read(file)), p);
    } else {
      AllListen(h, Seen(h, file), SortedPorts(desired));
      StaleMembers(Read(file), desired, p);
      DisableIsListed(Stale(Read(file), desired), p);
    }
  }

  lemma NotSeenNotDisabled(h: Host, file: string, desired: set<int>, p: int)
    requires ValidPorts(desired) && p !in Seen(h, file) && p !in desired
    ensures Disable(p) !in Reconciled(h, file, desired).commands
  {
    var owned := Seen(h, file);
    var ports := SortedPorts(desired);
    if Disable(p) in BringUpAll(h, owned, ports).commands { OnlyFailuresAreDisabled(h, owned, ports, p); }
    DisableIsListed(Stale(owned, desired), p);
    StaleMembers(owned, desired, p);
    DisableIsListed(NewPorts(owned, desired), p);
    NewPortsMembers(owned, desired, p);
  }

  /** Nothing is done to the service of such a port: it runs on, unrecorded. */
  lemma OverlookedIsLeftAlone(h: Host, file: string, byInbound: map<int, int>, toolOk: bool, p: int)
    requires !h.readable && p !in Desired(byInbound)
    ensures Disable(p) !in Reconcile(h, file, byInbound, toolOk).commands
  {
    NotSeenNotDisabled(h, file, Desired(byInbound), p);
  }

  /** Such an input: two owned and wanted ports, and a write that ends after the first line. The second
      is forgotten, although it is never disabled. */
  lemma CutWriteForgets(h: Host, file: string, byInbound: map<int, int>, a: int, b: int)
    requires 1 <= a < b <= MAX_PORT && Read(file) == {a, b} && Desired(byInbound) == {a, b}
    requires h.readable && h.templateOk && !h.changed && h.healthy == {a, b} && h.write == Cut(|StateText([a])|)
    ensures b !in Read(Reconcile(h, file, byInbound, true).file)
    ensures Disable(b) !in Reconcile(h, file, byInbound, true).commands
  {
    var two := {a, b};
    SortedPair(a, b);
    assert NewState(h, file, two) == two;
    assert [a, b][..1] == [a];
    EndIsLength([a, b], 1);
    assert h.write.n < Position(SortedPorts(two), 1);
    DroppedIff(h, file, byInbound, true, b);
    WantedPortsSurvive(h, file, two, b);
  }

  lemma SortedPair(a: int, b: int)
    requires 1 <= a < b <= MAX_PORT
    ensures SortedPorts({a, b}) == [a, b]
  {
    PairIsSorted(SortedPorts({a, b}), a, b);
  }

  lemma PairIsSorted(r: seq<int>, a: int, b: int)
    requires a < b && (forall p :: p in r <==> p == a || p == b) && forall i, j :: 0 <= i < j < |r| ==> r[i] < r[j]
    ensures r == [a, b]
  {
    assert a in r && b in r;
    var i :| 0 <= i < |r| && r[i] == a;
    var j :| 0 <= j < |r| && r[j] == b;
    assert r[0] in r && r[1] in r && r[|r| - 1] in r;
    assert i == 0;
    assert j == 1;
    assert j == |r| - 1;
  }

  /** One call on a host with what the inbounds want. */
  datatype Round = Round(h: Host, byInbound: map<int, int>, toolOk: bool)

  function Call(r: Round, before: string): string {
    Reconcile(r.h, before, r.byInbound, r.toolOk).file
  }

  /** The file after the first `k` calls. */
  function FileAfter(file: string, rounds: seq<Round>, k: nat): string
    requires k <= |rounds|
  {
    if k == 0 then file else Call(rounds[k - 1], FileAfter(file, rounds, k - 1))
  }

  ghost predicate RoundDrops(r: Round, before: string, p: int) {
    Drops(r.h, before, r.byInbound, r.toolOk, p)
  }

  function Recorded(file: string, rounds: seq<Round>, p: int): (r: seq<bool>)
    ensures |r| == |rounds| + 1 && forall k :: 0 <= k < |r| ==> r[k] == (p in Read(FileAfter(file, rounds, k)))
  {
    seq(|rounds| + 1, k requires 0 <= k <= |rounds| => p in Read(FileAfter(file, rounds, k)))
  }

  ghost function Dropped(file: string, rounds: seq<Round>, p: int): (r: seq<bool>)
    ensures |r| == |rounds| && forall i :: 0 <= i < |r| ==> r[i] == RoundDrops(rounds[i], FileAfter(file, rounds, i), p)
  {
    seq(|rounds|, i requires 0 <= i < |rounds| => RoundDrops(rounds[i], FileAfter(file, rounds, i), p))
  }

  ghost function GivenUp(file: string, rounds: seq<Round>, p: int): (r: seq<bool>)
    ensures |r| == |rounds| && forall i :: 0 <= i < |r| ==> r[i] == GivesUp(rounds[i], FileAfter(file, rounds, i), p)
  {
    seq(|rounds|, i requires 0 <= i < |rounds| => GivesUp(rounds[i], FileAfter(file, rounds, i), p))
  }

  lemma CallDropsIff(r: Round, before: string, p: int)
    requires p in Read(before)
    ensures p !in Read(Call(r, before)) <==> RoundDrops(r, before, p)
  {
    DroppedIff(r.h, before, r.byInbound, r.toolOk, p);
  }

  predicate AllOf(s: seq<bool>) {
    forall i :: 0 <= i < |s| ==> s[i]
  }

  predicate NoneOf(s: seq<bool>) {
    forall i :: 0 <= i < |s| ==> !s[i]
  }

  /** The port is on record after each number of calls. */
  predicate RecordedThroughout(file: string, rounds: seq<Round>, p: int) {
    AllOf(Recorded(file, rounds, p))
  }

  ghost predicate NeverDropped(file: string, rounds: seq<Round>, p: int) {
    NoneOf(Dropped(file, rounds, p))
  }

  /** `on` says whether the port is on record, and `lost` whether a call takes it off. */
  lemma {:induction false} StaysOn(on: seq<bool>, lost: seq<bool>, k: nat)
    requires |on| == |lost| + 1 && on[0] && forall i :: 0 <= i < |lost| && on[i] && !on[i + 1] ==> lost[i]
    requires k < |on|
    ensures on[k] || exists i :: 0 <= i < k && lost[i]
  {
    if k > 0 { StaysOn(on, lost, k - 1); }
  }

  lemma StaysOnIff(on: seq<bool>, lost: seq<bool>)
    requires |on| == |lost| + 1 && on[0] && forall i :: 0 <= i < |lost| && on[i] ==> (on[i + 1] <==> !lost[i])
    ensures AllOf(on) <==> NoneOf(lost)
  {
    if NoneOf(lost) {
      forall k | 0 <= k < |on| ensures on[k] { StaysOn(on, lost, k); }
    } else {
      var i :| 0 <= i < |lost| && lost[i];
      assert !on[i] || !on[i + 1];
    }
  }

  /** Over any number of calls, with any failures: a recorded port stays recorded all the time exactly when
      no call drops it. */
  lemma RecordedThroughoutIff(file: string, rounds: seq<Round>, p: int)
    requires p in Read(file)
    ensures RecordedThroughout(file, rounds, p) <==> NeverDropped(file, rounds, p)
  {
    var on, lost := Recorded(file, rounds, p), Dropped(file, rounds, p);
    forall i | 0 <= i < |lost| && on[i] ensures on[i + 1] <==> !lost[i] {
      CallDropsIff(rounds[i], FileAfter(file, rounds, i), p);
    }
    StaysOnIff(on, lost);
  }

  /** The call stopped the port when no inbound wanted it, cut it off, or overlooked it. */
  ghost predicate GivesUp(r: Round, before: string, p: int) {
    || Retires(r.h, before, r.byInbound, r.toolOk, p)
    || CutsOff(r.h, before, r.byInbound, r.toolOk, p)
    || Overlooked(r.h, before, r.byInbound, r.toolOk, p)
  }

  lemma DroppedIsGivenUp(r: Round, before: string, p: int)
    requires p in Read(before)
    ensures p in Read(Call(r, before)) || GivesUp(r, before, p)
  {
    LostUnstoppedIff(r.h, before, r.byInbound, r.toolOk, p);
  }

  /** So a service that is not recorded any more was given up by some call in one of the three ways. */
  lemma ForgottenOnlyBy(file: string, rounds: seq<Round>, p: int, k: nat)
    requires k <= |rounds| && p in Read(file)
    ensures p in Read(FileAfter(file, rounds, k)) || exists i :: 0 <= i < k && GivesUp(rounds[i], FileAfter(file, rounds, i), p)
  {
    var on, lost := Recorded(file, rounds, p), GivenUp(file, rounds, p);
    forall i | 0 <= i < |rounds| && on[i] ensures on[i + 1] || lost[i] {
      DroppedIsGivenUp(rounds[i], FileAfter(file, rounds, i), p);
    }
    StaysOn(on, lost, k);
    assert on[k] == (p in Read(FileAfter(file, rounds, k)));
    if i :| 0 <= i < k && lost[i] { assert GivesUp(rounds[i], FileAfter(file, rounds, i), p); }
  }

  // ---------------------------------------------------------------- without systemd

  lemma {:induction false} StartedProcesses(h: Host, procs: set<int>, ports: seq<int>)
    ensures procs <= StartProcesses(h, procs, ports).procs <= procs + Members(ports)
    ensures StartProcesses(h, procs, ports).ok ==> StartProcesses(h, procs, ports).procs == procs + Members(ports)
    ensures StartProcesses(h, procs, ports).ok <==> forall p :: p in ports ==> p in h.ready
  {
    if ports != [] {
      var prefix, p := ports[..|ports| - 1], ports[|ports| - 1];
      StartedProcesses(h, procs, prefix);
      assert ports == prefix + [p];
      assert Members(ports) == Members(prefix) + {p};
    }
  }

  /** Without systemd the call succeeds exactly when every missing port answers, and then exactly the
      desired ports run. A wanted process is never stopped; an unwanted one is gone even when a start
      fails, so here nothing is made before the old is broken. */
  lemma FallbackRunsTheDesired(h: Host, procs: set<int>, desired: set<int>)
    requires ValidPorts(desired)
    ensures FallenBack(h, procs, desired).ok <==> forall p :: p in desired && p !in procs ==> p in h.ready
    ensures FallenBack(h, procs, desired).ok ==> FallenBack(h, procs, desired).procs == desired
    ensures procs * desired <= FallenBack(h, procs, desired).procs <= desired
  {
    var ports := NotIn(SortedPorts(desired), procs);
    StartedProcesses(h, procs * desired, ports);
    forall p ensures p in ports <==> p in desired && p !in procs {
      NotInMembers(SortedPorts(desired), procs, p);
    }
    assert procs * desired + Members(ports) == desired;
  }
}
