/** What the generated chains do to a packet: which counters they touch, which rate rules they
    consult, and which mark they leave behind. */
module NftPackets {
  import opened Text
  import opened XrayMarks
  import opened XrayRoutingLaws
  import opened NftPolicy

  datatype Packet = Packet(mark: int, ctMark: int, socketMark: int, uid: int)

  /** `counted` and `policed` list the counters incremented and the rate rules consulted so far. */
  datatype Trace = Trace(p: Packet, counted: seq<string>, policed: seq<NftRule>, dropped: bool)

  /** Whether a rate rule is over its limit when a packet reaches it. */
  type Meter = NftRule -> bool

  predicate Applies(r: NftRule, p: Packet) {
    match r
    case MarkFromConntrack => p.ctMark != 0
    case MarkFromSocket => p.socketMark != 0
    case MarkByUid(uid, _) => p.uid == uid
    case CountAndSave(mark, _) => p.mark == mark
    case Count(mark, _) => p.mark == mark
    case Police(mark, _, _) => p.mark == mark
  }

  function Step(r: NftRule, t: Trace, over: Meter): Trace {
    if t.dropped || !Applies(r, t.p) then t
    else match r
      case MarkFromConntrack => t.(p := t.p.(mark := t.p.ctMark))
      case MarkFromSocket => t.(p := t.p.(mark := t.p.socketMark))
      case MarkByUid(_, mark) => t.(p := t.p.(mark := mark))
      case CountAndSave(_, c) => t.(p := t.p.(ctMark := t.p.mark), counted := t.counted + [c])
      case Count(_, c) => t.(counted := t.counted + [c])
      case Police(_, _, _) => t.(policed := t.policed + [r], dropped := over(r))
  }

  function Run(rules: seq<NftRule>, t: Trace, over: Meter): Trace {
    if rules == [] then t else Run(rules[1..], Step(rules[0], t, over), over)
  }

  function Arrive(p: Packet): Trace {
    Trace(p, [], [], false)
  }

  lemma {:induction false} RunAppend(a: seq<NftRule>, b: seq<NftRule>, t: Trace, over: Meter)
    ensures Run(a + b, t, over) == Run(b, Run(a, t, over), over)
  {
    if a == [] {
      assert a + b == b;
    } else {
      assert (a + b)[1..] == a[1..] + b;
      RunAppend(a[1..], b, Step(a[0], t, over), over);
    }
  }

  /** No rule of these clients has an effect on the packet any more. */
  ghost predicate Settled(cs: seq<Client>, chain: Chain, t: Trace) {
    t.dropped || forall i, r :: 0 <= i < |cs| && r in cs[i].Rules(chain) ==> !Applies(r, t.p)
  }

  lemma {:induction false} RunSettled(rules: seq<NftRule>, t: Trace, over: Meter)
    requires t.dropped || forall r :: r in rules ==> !Applies(r, t.p)
    ensures Run(rules, t, over) == t
  {
    if rules != [] { RunSettled(rules[1..], t, over); }
  }

  lemma SettledTail(cs: seq<Client>, chain: Chain, t: Trace)
    requires cs != [] && Settled(cs, chain, t)
    ensures Settled(cs[1..], chain, t)
  {
    forall i, r | 0 <= i < |cs[1..]| && r in cs[1..][i].Rules(chain) ensures t.dropped || !Applies(r, t.p) {
      assert cs[1..][i] == cs[i + 1];
    }
  }

  lemma {:induction false} ChainSettled(cs: seq<Client>, chain: Chain, t: Trace, over: Meter)
    requires Settled(cs, chain, t)
    ensures Run(ChainRules(cs, chain), t, over) == t
  {
    if cs != [] {
      RunSettled(cs[0].Rules(chain), t, over);
      SettledTail(cs, chain, t);
      ChainSettled(cs[1..], chain, t, over);
      RunAppend(cs[0].Rules(chain), ChainRules(cs[1..], chain), t, over);
    }
  }

  /** If only the i-th client's rules concern the packet, the whole chain does what they do. */
  lemma {:induction false} OnlyOwnRules(cs: seq<Client>, chain: Chain, i: nat, t: Trace, over: Meter)
    requires i < |cs|
    requires Settled(cs[..i], chain, t)
    requires Settled(cs[i + 1..], chain, Run(cs[i].Rules(chain), t, over))
    ensures Run(ChainRules(cs, chain), t, over) == Run(cs[i].Rules(chain), t, over)
    decreases i
  {
    RunAppend(cs[0].Rules(chain), ChainRules(cs[1..], chain), t, over);
    if i == 0 {
      ChainSettled(cs[1..], chain, Run(cs[0].Rules(chain), t, over), over);
    } else {
      assert cs[..i][0] == cs[0];
      RunSettled(cs[0].Rules(chain), t, over);
      SettledTail(cs[..i], chain, t);
      assert cs[1..][..i - 1] == cs[..i][1..] && cs[1..][i..] == cs[i + 1..];
      OnlyOwnRules(cs[1..], chain, i - 1, t, over);
    }
  }

  lemma RunRateRules(mark: int, mbps: int, t: Trace, over: Meter)
    requires t.p.mark == mark && !t.dropped
    ensures var r := Run(RateRules(mark, mbps), t, over);
      r == t.(policed := t.policed + RateRules(mark, mbps), dropped := Exceeds(mark, mbps, over))
  {
    if mbps > 0 {
      var rules := RateRules(mark, mbps);
      assert Run(rules, t, over) == Run(rules[1..], Step(rules[0], t, over), over);
    }
  }

  /** The client's own rate rule, if it has one, is over its limit. */
  predicate Exceeds(mark: int, mbps: int, over: Meter) {
    mbps > 0 && over(RateRules(mark, mbps)[0])
  }

  /** What a limit of so many megabits per second means to the kernel: no rule when it is not positive, else
      one that drops what exceeds an eighth of the bits, with a burst of one second, but not less than 256
      KiB or more than 8 MiB. */
  lemma RateIsEnforced(mark: int, mbps: int)
    ensures mbps <= 0 ==> RateRules(mark, mbps) == []
    ensures mbps > 0 ==> exists rate, burst ::
      && RateRules(mark, mbps) == [Police(mark, rate, burst)]
      && rate * 8 == mbps * 1_000_000 && 262_144 <= burst <= 8_388_608
      && (burst < rate ==> burst == 8_388_608) && (burst > rate ==> burst == 262_144)
  {
    if mbps > 0 {
      var rate := BytesPerSecond(mbps);
      assert RateRules(mark, mbps) == [Police(mark, rate, Burst(rate))];
    }
  }

  /** The two tables never replace each other. */
  lemma TablesAreApart(limits: seq<Limit>, users: seq<SshUser>)
    ensures XrayScript(limits).table == "fourxui_xray" && SshScript(users).table == "fourxui_ssh"
  {
  }

  /** The counters a rule needs are declared. */
  ghost predicate Declared(counters: seq<string>, rules: seq<NftRule>) {
    forall r :: r in rules ==> (r.CountAndSave? || r.Count? ==> r.counter in counters)
  }

  lemma {:induction false} ClientsDeclare(cs: seq<Client>, chain: Chain)
    requires forall i :: 0 <= i < |cs| ==> Declared(cs[i].counters, cs[i].Rules(chain))
    ensures Declared(Counters(cs), ChainRules(cs, chain))
  {
    if cs != [] { ClientsDeclare(cs[1..], chain); }
  }

  lemma XrayClientDeclares(l: Limit, chain: Chain)
    ensures Declared(XrayClient(l).counters, XrayClient(l).Rules(chain))
  {
    assert forall r :: r in RateRules(l.mark, l.uploadMbps) + RateRules(l.mark, l.downloadMbps) ==> r.Police?;
  }

  lemma SshClientDeclares(u: SshUser, chain: Chain)
    ensures Declared(SshClient(u).counters, SshClient(u).Rules(chain))
  {
  }

  /** Every counter that a rule names is declared in its program, which the kernel would refuse otherwise. */
  lemma XrayCountersAreDeclared(limits: seq<Limit>)
    ensures Declared(XrayScript(limits).counters, XrayScript(limits).output) && Declared(XrayScript(limits).counters, XrayScript(limits).prerouting)
  {
    var cs := XrayClients(limits);
    forall i, chain | 0 <= i < |cs| ensures Declared(cs[i].counters, cs[i].Rules(chain)) { XrayClientDeclares(limits[i], chain); }
    ClientsDeclare(cs, Output);
    ClientsDeclare(cs, Prerouting);
  }

  lemma SshCountersAreDeclared(users: seq<SshUser>)
    ensures Declared(SshScript(users).counters, SshScript(users).output) && Declared(SshScript(users).counters, SshScript(users).prerouting)
  {
    var cs := SshClients(users);
    forall i, chain | 0 <= i < |cs| ensures Declared(cs[i].counters, cs[i].Rules(chain)) { SshClientDeclares(users[i], chain); }
    ClientsDeclare(cs, Output);
    ClientsDeclare(cs, Prerouting);
  }

  // ---------------------------------------------------------------- Xray clients

  lemma XrayRulesNeedTheMark(l: Limit, chain: Chain, p: Packet)
    requires p.mark != l.mark
    ensures forall r :: r in XrayClient(l).Rules(chain) ==> !Applies(r, p)
  {
  }

  lemma OthersSettled(limits: seq<Limit>, chain: Chain, lo: nat, hi: nat, t: Trace)
    requires lo <= hi <= |limits|
    requires forall j :: lo <= j < hi ==> limits[j].mark != t.p.mark
    ensures Settled(XrayClients(limits)[lo..hi], chain, t)
  {
    forall i, r | 0 <= i < hi - lo && r in XrayClients(limits)[lo..hi][i].Rules(chain) ensures !Applies(r, t.p) {
      XrayRulesNeedTheMark(limits[lo + i], chain, t.p);
    }
  }

  /** An outgoing packet whose socket, or without a socket mark the packet itself, carries the i-th
      client's mark counts once, in that client's upload counter, and is policed by that client's upload rate alone. The connection
      remembers the mark for the way back. */
  lemma XrayUpload(limits: seq<Limit>, i: nat, p: Packet, over: Meter)
    requires DistinctMarks(limits) && i < |limits|
    requires (if p.socketMark != 0 then p.socketMark else p.mark) == limits[i].mark
    ensures var l := limits[i];
      Run(XrayScript(limits).output, Arrive(p), over) ==
      Trace(p.(mark := l.mark, ctMark := l.mark), [XrayCounter(l.mark, "up")], RateRules(l.mark, l.uploadMbps),
            Exceeds(l.mark, l.uploadMbps, over))
  {
    var l := limits[i];
    var cs := XrayClients(limits);
    var t := Arrive(p.(mark := l.mark));
    RunAppend([MarkFromSocket], ChainRules(cs, Output), Arrive(p), over);
    var counted := Step(CountAndSave(l.mark, XrayCounter(l.mark, "up")), t, over);
    var own := XrayClient(l).output;
    assert own[1..] == RateRules(l.mark, l.uploadMbps);
    RunRateRules(l.mark, l.uploadMbps, counted, over);
    assert Run(own, t, over) == Run(own[1..], counted, over);
    OthersSettled(limits, Output, 0, i, t);
    OthersSettled(limits, Output, i + 1, |limits|, Run(own, t, over));
    assert cs[0..i] == cs[..i] && cs[i + 1..|limits|] == cs[i + 1..];
    OnlyOwnRules(cs, Output, i, t, over);
  }

  /** A packet coming back on such a connection, or with such a mark on an unmarked one, is policed by the client's download rate and counts
      in its download counter unless it is dropped. */
  lemma XrayDownload(limits: seq<Limit>, i: nat, p: Packet, over: Meter)
    requires DistinctMarks(limits) && i < |limits|
    requires (if p.ctMark != 0 then p.ctMark else p.mark) == limits[i].mark
    ensures var l := limits[i];
      var dropped := Exceeds(l.mark, l.downloadMbps, over);
      Run(XrayScript(limits).prerouting, Arrive(p), over) ==
      Trace(p.(mark := l.mark), if dropped then [] else [XrayCounter(l.mark, "down")], RateRules(l.mark, l.downloadMbps), dropped)
  {
    var l := limits[i];
    var cs := XrayClients(limits);
    var t := Arrive(p.(mark := l.mark));
    RunAppend([MarkFromConntrack], ChainRules(cs, Prerouting), Arrive(p), over);
    var own := XrayClient(l).prerouting;
    var count := [Count(l.mark, XrayCounter(l.mark, "down"))];
    RunAppend(RateRules(l.mark, l.downloadMbps), count, t, over);
    RunRateRules(l.mark, l.downloadMbps, t, over);
    var policed := Run(RateRules(l.mark, l.downloadMbps), t, over);
    assert Run(count, policed, over) == Step(count[0], policed, over);
    OthersSettled(limits, Prerouting, 0, i, t);
    OthersSettled(limits, Prerouting, i + 1, |limits|, Run(own, t, over));
    assert cs[0..i] == cs[..i] && cs[i + 1..|limits|] == cs[i + 1..];
    OnlyOwnRules(cs, Prerouting, i, t, over);
  }

  /** A packet whose mark belongs to no client is neither counted nor policed. */
  lemma XrayStranger(limits: seq<Limit>, p: Packet, over: Meter)
    requires forall i :: 0 <= i < |limits| ==>
      limits[i].mark != (if p.socketMark != 0 then p.socketMark else p.mark)
      && limits[i].mark != (if p.ctMark != 0 then p.ctMark else p.mark)
    requires limits != []
    ensures var out := Run(XrayScript(limits).output, Arrive(p), over);
      out.counted == [] && out.policed == [] && !out.dropped && out.p.ctMark == p.ctMark
    ensures var back := Run(XrayScript(limits).prerouting, Arrive(p), over);
      back.counted == [] && back.policed == [] && !back.dropped
  {
    var cs := XrayClients(limits);
    assert cs[0..|limits|] == cs;
    var out := Step(MarkFromSocket, Arrive(p), over);
    RunAppend([MarkFromSocket], ChainRules(cs, Output), Arrive(p), over);
    OthersSettled(limits, Output, 0, |limits|, out);
    ChainSettled(cs, Output, out, over);
    var back := Step(MarkFromConntrack, Arrive(p), over);
    RunAppend([MarkFromConntrack], ChainRules(cs, Prerouting), Arrive(p), over);
    OthersSettled(limits, Prerouting, 0, |limits|, back);
    ChainSettled(cs, Prerouting, back, over);
  }

  lemma {:induction false} NoSocketRestore(cs: seq<Client>)
    requires forall i :: 0 <= i < |cs| ==> MarkFromSocket !in cs[i].output
    ensures MarkFromSocket !in ChainRules(cs, Output)
  {
    if cs != [] { NoSocketRestore(cs[1..]); }
  }

  lemma {:induction false} NothingToLeaveOut(rules: seq<NftRule>)
    requires MarkFromSocket !in rules
    ensures WithoutSocketRestore(rules) == rules
  {
    if rules != [] { NothingToLeaveOut(rules[1..]); }
  }

  /** The legacy program only lacks the restore of the socket mark: it does to a packet what the full
      program does when the packet has its socket's mark already, as the kernel arranges, or the socket
      has none. */
  lemma LegacyAgrees(limits: seq<Limit>, p: Packet, over: Meter)
    requires p.socketMark == 0 || p.mark == p.socketMark
    ensures Run(Legacy(XrayScript(limits)).output, Arrive(p), over) == Run(XrayScript(limits).output, Arrive(p), over)
    ensures Legacy(XrayScript(limits)).prerouting == XrayScript(limits).prerouting
  {
    var cs := XrayClients(limits);
    var rules := ChainRules(cs, Output);
    NoSocketRestore(cs);
    NothingToLeaveOut(rules);
    var output := XrayScript(limits).output;
    if limits != [] {
      assert output == [MarkFromSocket] + rules && output[1..] == rules;
      assert WithoutSocketRestore(output) == [] + WithoutSocketRestore(rules) == rules;
      assert Step(MarkFromSocket, Arrive(p), over) == Arrive(p);
      assert Run(output, Arrive(p), over) == Run(rules, Arrive(p), over);
    } else {
      assert output == rules;
    }
  }

  /** Different clients, and the two directions of one client, have different counters. */
  lemma CountersDiffer(m: nat, n: nat, d: string, e: string)
    requires d in ["up", "down"] && e in ["up", "down"]
    requires XrayCounter(m, d) == XrayCounter(n, e)
    ensures m == n && d == e
  {
    var s, t := Hex(m) + "_" + d, Hex(n) + "_" + e;
    assert XrayCounter(m, d)[5..] == s && XrayCounter(n, e)[5..] == t;
    SplitFirst(Hex(m), d, Hex(n), e, '_');
    HexInjective(m, n);
  }

  // ---------------------------------------------------------------- SSH users

  ghost predicate DistinctUsers(users: seq<SshUser>) {
    forall i, j :: 0 <= i < j < |users| ==> users[i].id != users[j].id && users[i].uid != users[j].uid
  }

  lemma SshOthersSettled(users: seq<SshUser>, chain: Chain, lo: nat, hi: nat, t: Trace)
    requires lo <= hi <= |users|
    requires forall j :: lo <= j < hi ==>
      SshMark(users[j].id) != t.p.mark && (chain == Output ==> users[j].uid != t.p.uid)
    ensures Settled(SshClients(users)[lo..hi], chain, t)
  {
    forall i, r | 0 <= i < hi - lo && r in SshClients(users)[lo..hi][i].Rules(chain) ensures !Applies(r, t.p) {
      SshRulesNeedTheUser(users[lo + i], chain, t.p);
    }
  }

  lemma SshRulesNeedTheUser(u: SshUser, chain: Chain, p: Packet)
    requires p.mark != SshMark(u.id) && (chain == Output ==> p.uid != u.uid)
    ensures forall r :: r in SshClient(u).Rules(chain) ==> !Applies(r, p)
  {
  }

  function Effective(u: SshUser, mbps: int): int {
    if u.speedLimit then mbps else 0
  }

  /** A packet sent by the i-th user's processes that does not already carry another user's mark
      counts once in that user's upload counter and meets only that user's rate rule. */
  lemma SshUpload(users: seq<SshUser>, i: nat, p: Packet, over: Meter)
    requires DistinctUsers(users) && i < |users|
    requires p.uid == users[i].uid
    requires forall j :: 0 <= j < |users| ==> p.mark != SshMark(users[j].id)
    ensures var u := users[i];
      var mark := SshMark(u.id);
      Run(SshScript(users).output, Arrive(p), over) ==
      Trace(p.(mark := mark, ctMark := mark), [SshCounter(u.id, "up")], RateRules(mark, Effective(u, u.uploadMbps)),
            Exceeds(mark, Effective(u, u.uploadMbps), over))
  {
    var u := users[i];
    var mark := SshMark(u.id);
    var cs := SshClients(users);
    var t := Arrive(p);
    var own := SshClient(u).output;
    var rates := RateRules(mark, Effective(u, u.uploadMbps));
    assert own == [MarkByUid(u.uid, mark), CountAndSave(mark, SshCounter(u.id, "up"))] + rates;
    var t1 := Step(own[0], t, over);
    var t2 := Step(own[1], t1, over);
    assert own[1..][1..] == rates;
    assert Run(own, t, over) == Run(own[1..], t1, over) == Run(rates, t2, over);
    RunRateRules(mark, Effective(u, u.uploadMbps), t2, over);
    SshOthersSettled(users, Output, 0, i, t);
    SshOthersSettled(users, Output, i + 1, |users|, Run(own, t, over));
    assert cs[0..i] == cs[..i] && cs[i + 1..|users|] == cs[i + 1..];
    OnlyOwnRules(cs, Output, i, t, over);
  }

  /** Coming back, the packet counts in the download counter before it is policed, so dropped
      packets are counted too. */
  lemma SshDownload(users: seq<SshUser>, i: nat, p: Packet, over: Meter)
    requires DistinctUsers(users) && i < |users|
    requires (if p.ctMark != 0 then p.ctMark else p.mark) == SshMark(users[i].id)
    ensures var u := users[i];
      var mark := SshMark(u.id);
      Run(SshScript(users).prerouting, Arrive(p), over) ==
      Trace(p.(mark := mark), [SshCounter(u.id, "down")], RateRules(mark, Effective(u, u.downloadMbps)),
            Exceeds(mark, Effective(u, u.downloadMbps), over))
  {
    var u := users[i];
    var mark := SshMark(u.id);
    var cs := SshClients(users);
    var t := Arrive(p.(mark := mark));
    RunAppend([MarkFromConntrack], ChainRules(cs, Prerouting), Arrive(p), over);
    var own := SshClient(u).prerouting;
    var rates := RateRules(mark, Effective(u, u.downloadMbps));
    assert own == [Count(mark, SshCounter(u.id, "down"))] + rates;
    var t1 := Step(own[0], t, over);
    assert own[1..] == rates;
    assert Run(own, t, over) == Run(rates, t1, over);
    RunRateRules(mark, Effective(u, u.downloadMbps), t1, over);
    SshOthersSettled(users, Prerouting, 0, i, t);
    SshOthersSettled(users, Prerouting, i + 1, |users|, Run(own, t, over));
    assert cs[0..i] == cs[..i] && cs[i + 1..|users|] == cs[i + 1..];
    OnlyOwnRules(cs, Prerouting, i, t, over);
  }

  /** The two tables do not interfere: a packet with an Xray client's mark, sent by a process that
      is no managed user, passes the SSH chains untouched as long as user ids stay below 0x100000. */
  lemma SshIgnoresXray(users: seq<SshUser>, limits: seq<Limit>, h: Hash, i: nat, p: Packet, over: Meter)
    requires i < |limits|
    requires p.mark == Assigned(limits, h)[i].mark && (p.ctMark == 0 || p.ctMark == p.mark)
    requires forall j :: 0 <= j < |users| ==> 0 <= users[j].id < 0x100000 && users[j].uid != p.uid
    ensures Run(SshScript(users).output, Arrive(p), over) == Arrive(p)
    ensures Run(SshScript(users).prerouting, Arrive(p), over) == Arrive(p)
  {
    AssignedTable(limits, h);
    var cs := SshClients(users);
    assert cs[0..|users|] == cs;
    SshOthersSettled(users, Output, 0, |users|, Arrive(p));
    ChainSettled(cs, Output, Arrive(p), over);
    RunAppend([MarkFromConntrack], ChainRules(cs, Prerouting), Arrive(p), over);
    SshOthersSettled(users, Prerouting, 0, |users|, Arrive(p));
    ChainSettled(cs, Prerouting, Arrive(p), over);
  }
}
