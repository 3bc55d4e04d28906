/** The WebSocket hub as atomic steps: one event loop that registers, unregisters and fans out, other
    goroutines that remove clients directly at any moment, and write pumps that drain queues. */
module WebSocketHub {
  import opened Wrappers

  type Id = nat
  type Msg = string

  const CLIENT_SEND_QUEUE := 512

  /** A client's send channel. `taken` is what its write pump has received, `closes` how often the
      channel was closed; nothing here keeps a second close from happening. */
  datatype Channel = Channel(queue: seq<Msg>, open: bool, taken: seq<Msg>, closes: nat) {
    /** Everything ever put into the channel. */
    function Put(): seq<Msg> {
      taken + queue
    }

    function Closed(): Channel {
      this.(open := false, closes := closes + 1)
    }

    predicate Accepts() {
      open && |queue| < CLIENT_SEND_QUEUE
    }
  }

  /** A fan-out under way: the targets still to be served and those that could not be. */
  datatype Fan = Fan(msg: Msg, rest: seq<Id>, dead: seq<Id>)

  /** `log` lists the fan-outs so far and `since` the length of the log when a client registered. */
  datatype State = State(clients: set<Id>, chans: map<Id, Channel>, fan: Option<Fan>, stopped: bool,
                         log: seq<Msg>, since: map<Id, nat>)

  datatype Action =
    | NewClient(id: Id)
    | Register(id: Id)
    | Unregister(id: Id)          // by the event loop
    | DirectRemove(id: Id)        // by any goroutine, when the control queue is full
    | Snapshot(msg: Msg, order: seq<Id>)
    | Send
    | Evict
    | Receive(id: Id)
    | Shutdown

  ghost predicate Enumerates(order: seq<Id>, ids: set<Id>) {
    && (forall i, j :: 0 <= i < j < |order| ==> order[i] != order[j])
    && (forall id :: id in ids <==> id in order)
  }

  /** When a step can happen. The event loop handles one thing at a time; a client is registered
      once; the snapshot visits the clients in any order. */
  ghost predicate Enabled(s: State, a: Action) {
    match a
    case NewClient(id) => id !in s.chans
    case Register(id) => s.fan.None? && !s.stopped && id in s.chans && id !in s.since
    case Unregister(_) => s.fan.None? && !s.stopped
    case DirectRemove(_) => true
    case Snapshot(_, order) => s.fan.None? && !s.stopped && Enumerates(order, s.clients)
    case Send => s.fan.Some? && s.fan.value.rest != [] && s.fan.value.rest[0] in s.chans
    case Evict => s.fan.Some? && s.fan.value.rest == []
    case Receive(id) => id in s.chans && s.chans[id].queue != []
    case Shutdown => s.fan.None? && !s.stopped
  }

  /** Close the channels of a set of clients and forget them. */
  function Drop(s: State, ids: set<Id>): State {
    s.(clients := s.clients - ids,
       chans := map id | id in s.chans :: if id in ids then s.chans[id].Closed() else s.chans[id])
  }

  function Remove(s: State, id: Id): State {
    if id in s.clients then Drop(s, {id}) else s
  }

  function TrySend(c: Channel, msg: Msg): (Channel, bool) {
    if c.Accepts() then (c.(queue := c.queue + [msg]), true) else (c, false)
  }

  function SendNext(s: State): State
    requires s.fan.Some? && s.fan.value.rest != [] && s.fan.value.rest[0] in s.chans
  {
    var f := s.fan.value;
    var id := f.rest[0];
    var (c, ok) := TrySend(s.chans[id], f.msg);
    s.(chans := s.chans[id := c], fan := Some(Fan(f.msg, f.rest[1..], if ok then f.dead else f.dead + [id])))
  }

  function Next(s: State, a: Action): State
    requires Enabled(s, a)
  {
    match a
    case NewClient(id) => s.(chans := s.chans[id := Channel([], true, [], 0)])
    case Register(id) => s.(clients := s.clients + {id}, since := s.since[id := |s.log|])
    case Unregister(id) => Remove(s, id)
    case DirectRemove(id) => Remove(s, id)
    case Snapshot(msg, order) =>
      s.(log := s.log + [msg], fan := if s.clients == {} then None else Some(Fan(msg, order, [])))
    case Send => SendNext(s)
    case Evict => Drop(s, set id | id in s.fan.value.dead && id in s.clients).(fan := None)
    case Receive(id) =>
      var c := s.chans[id];
      s.(chans := s.chans[id := c.(queue := c.queue[1..], taken := c.taken + [c.queue[0]])])
    case Shutdown => Drop(s, s.clients).(stopped := true)
  }

  const START := State({}, map[], None, false, [], map[])

  // ---------------------------------------------------------------- the imperative form

  class Hub {
    var clients: set<Id>
    var chans: map<Id, Channel>
    ghost var stopped: bool
    ghost var log: seq<Msg>
    ghost var since: map<Id, nat>

    ghost function Abs(fan: Option<Fan>): State
      reads this
    {
      State(clients, chans, fan, stopped, log, since)
    }

    method RegisterClient(c: Id)
      requires Enabled(Abs(None), Register(c))
      modifies this`clients, this`since
      ensures Abs(None) == Next(old(Abs(None)), Register(c))
    {
      clients := clients + {c};
      since := since[c := |log|];
    }

    /** `removeClient`, with whatever fan-out is under way. */
    method RemoveClient(c: Id, ghost fan: Option<Fan>)
      requires clients <= chans.Keys
      modifies this`clients, this`chans
      ensures Abs(fan) == Next(old(Abs(fan)), DirectRemove(c))
    {
      if c in clients {
        ghost var before := Abs(fan);
        clients := clients - {c};
        chans := chans[c := chans[c].Closed()];
        assert chans == Drop(before, {c}).chans;
      }
    }

    method TrySendTo(c: Id, msg: Msg) returns (ok: bool)
      requires c in chans
      modifies this`chans
      ensures chans == old(chans)[c := TrySend(old(chans)[c], msg).0] && ok == TrySend(old(chans)[c], msg).1
    {
      ok := chans[c].open && |chans[c].queue| < CLIENT_SEND_QUEUE;
      if ok { chans := chans[c := chans[c].(queue := chans[c].queue + [msg])]; }
    }

    method SendOne(c: Id, msg: Msg, ghost rest: seq<Id>, dead: seq<Id>) returns (dead': seq<Id>)
      requires rest != [] && rest[0] == c && c in chans
      modifies this`chans
      ensures Abs(Some(Fan(msg, rest[1..], dead'))) == SendNext(old(Abs(Some(Fan(msg, rest, dead)))))
      ensures chans.Keys == old(chans.Keys)
    {
      dead' := dead;
      var ok := TrySendTo(c, msg);
      if !ok { dead' := dead + [c]; }
    }

    /** The loop of `fanout`: one send per target of the snapshot; returns the targets that failed. */
    method SendEach(order: seq<Id>, msg: Msg) returns (dead: seq<Id>)
      requires forall id :: id in order ==> id in chans
      modifies this`chans
      ensures Abs(Some(Fan(msg, [], dead))) == SendAll(old(Abs(Some(Fan(msg, order, [])))))
      ensures chans.Keys == old(chans.Keys)
    {
      ghost var first := Abs(Some(Fan(msg, order, [])));
      dead := [];
      for i := 0 to |order|
        invariant clients == first.clients && log == first.log && since == first.since && stopped == first.stopped
        invariant chans.Keys == first.chans.Keys
        invariant SendAll(Abs(Some(Fan(msg, order[i..], dead)))) == SendAll(first)
      {
        ghost var here := Abs(Some(Fan(msg, order[i..], dead)));
        assert order[i..][0] == order[i] && order[i..][1..] == order[i + 1..];
        assert order[i] in order;
        dead := SendOne(order[i], msg, order[i..], dead);
        SendAllStep(here);
      }
    }

    /** `fanout` without interference: the snapshot, one send per target, the eviction. */
    method Fanout(msg: Msg, order: seq<Id>)
      requires Enabled(Abs(None), Snapshot(msg, order)) && clients <= chans.Keys
      modifies this`clients, this`chans, this`log
      ensures Abs(None) == FanoutWhole(old(Abs(None)), msg, order)
    {
      log := log + [msg];
      if clients == {} { return; }
      var dead := SendEach(order, msg);
      EvictDead(dead, msg);
    }

    /** The second lock of `fanout`: clients whose send failed, unless somebody removed them already. */
    method EvictDead(dead: seq<Id>, ghost msg: Msg)
      requires clients <= chans.Keys
      modifies this`clients, this`chans
      ensures Abs(None) == Next(old(Abs(Some(Fan(msg, [], dead)))), Evict)
    {
      var gone := set id | id in dead && id in clients;
      clients := clients - gone;
      chans := map id | id in chans :: if id in gone then chans[id].Closed() else chans[id];
    }

    method ShutdownAll()
      requires Enabled(Abs(None), Shutdown)
      modifies this`clients, this`chans, this`stopped
      ensures Abs(None) == Next(old(Abs(None)), Shutdown)
    {
      chans := map id | id in chans :: if id in clients then chans[id].Closed() else chans[id];
      clients := {};
      stopped := true;
    }
  }

  ghost function SendAll(s: State): State
    decreases if s.fan.Some? then |s.fan.value.rest| else 0
  {
    if s.fan.Some? && s.fan.value.rest != [] && s.fan.value.rest[0] in s.chans then SendAll(SendNext(s)) else s
  }

  lemma SendAllStep(s: State)
    requires s.fan.Some? && s.fan.value.rest != [] && s.fan.value.rest[0] in s.chans
    ensures SendAll(s) == SendAll(SendNext(s))
  {
  }

  ghost function FanoutWhole(s: State, msg: Msg, order: seq<Id>): State
    requires Enabled(s, Snapshot(msg, order))
  {
    var served := SendAll(Next(s, Snapshot(msg, order)));
    if Enabled(served, Evict) then Next(served, Evict) else served
  }

  // ---------------------------------------------------------------- every interleaving

  /** Whether the fan-out under way still owes this client its message, or failed to deliver it. */
  ghost predicate Owed(fan: Option<Fan>, id: Id) {
    fan.Some? && (id in fan.value.rest || id in fan.value.dead)
  }

  ghost predicate ChannelOk(c: Channel, registered: bool, known: bool) {
    && c.closes == (if c.open then 0 else 1)
    && |c.queue| <= CLIENT_SEND_QUEUE
    && (registered ==> c.open)
    && (known && c.open ==> registered)
    && (!known ==> c.open && c.Put() == [])
  }

  /** The messages put into the channel are a run of the log that starts at the registration. */
  ghost predicate Contiguous(c: Channel, from: nat, log: seq<Msg>) {
    from + |c.Put()| <= |log| && c.Put() == log[from..from + |c.Put()|]
  }

  ghost predicate FanOk(s: State) {
    s.fan.Some? ==>
      var f := s.fan.value;
      && !s.stopped
      && s.log != [] && s.log[|s.log| - 1] == f.msg
      && (forall i, j :: 0 <= i < j < |f.rest| ==> f.rest[i] != f.rest[j])
      && (forall id :: id in f.rest ==> id !in f.dead)
      && (forall id :: id in f.rest || id in f.dead ==> id in s.since && s.since[id] < |s.log|)
  }

  ghost predicate Inv(s: State) {
    && s.clients <= s.since.Keys <= s.chans.Keys
    && (forall id :: id in s.chans ==> ChannelOk(s.chans[id], id in s.clients, id in s.since))
    && (forall id :: id in s.since ==> Contiguous(s.chans[id], s.since[id], s.log))
    && (forall id :: id in s.clients ==>
          s.since[id] + |s.chans[id].Put()| == |s.log| - (if Owed(s.fan, id) then 1 else 0))
    && FanOk(s)
  }

  lemma DropKeepsInv(s: State, ids: set<Id>)
    requires Inv(s) && ids <= s.clients
    ensures Inv(Drop(s, ids))
  {
    var t := Drop(s, ids);
    forall id | id in t.chans ensures t.chans[id].Put() == s.chans[id].Put() {}
  }

  lemma EvictKeepsInv(s: State)
    requires Inv(s) && Enabled(s, Evict)
    ensures Inv(Next(s, Evict))
  {
    var gone := set id | id in s.fan.value.dead && id in s.clients;
    DropKeepsInv(s, gone);
    assert forall id :: id in Drop(s, gone).clients ==> !Owed(s.fan, id);
  }

  lemma SnapshotKeepsInv(s: State, msg: Msg, order: seq<Id>)
    requires Inv(s) && Enabled(s, Snapshot(msg, order))
    ensures Inv(Next(s, Snapshot(msg, order)))
  {
    var t := Next(s, Snapshot(msg, order));
    forall id | id in t.since ensures Contiguous(t.chans[id], t.since[id], t.log) {
      var n := s.since[id] + |s.chans[id].Put()|;
      assert t.log[s.since[id]..n] == s.log[s.since[id]..n];
    }
  }

  /** One send to a client that is owed the last message of the log. */
  lemma SentChannel(c: Channel, registered: bool, from: nat, log: seq<Msg>)
    requires log != [] && ChannelOk(c, registered, true) && Contiguous(c, from, log)
    requires registered ==> from + |c.Put()| == |log| - 1
    ensures var (d, ok) := TrySend(c, log[|log| - 1]);
      && ok == c.Accepts()
      && ChannelOk(d, registered, true) && Contiguous(d, from, log)
      && (registered ==> from + |d.Put()| == |log| - (if ok then 0 else 1))
  {
    if c.Accepts() {
      var last := [log[|log| - 1]];
      assert c.(queue := c.queue + last).Put() == c.Put() + last;
      assert log[from..] == log[from..|log| - 1] + last;
      assert log[from..|log|] == log[from..];
    }
  }

  lemma SendMovesOn(s: State)
    requires FanOk(s) && s.since.Keys <= s.chans.Keys && Enabled(s, Send)
    ensures FanOk(s.(fan := Next(s, Send).fan))
    ensures forall k :: k != s.fan.value.rest[0] ==> (Owed(Next(s, Send).fan, k) <==> Owed(s.fan, k))
    ensures Owed(Next(s, Send).fan, s.fan.value.rest[0]) <==> !s.chans[s.fan.value.rest[0]].Accepts()
  {
    var f := s.fan.value;
    assert f.rest[0] in f.rest && f.rest[0] !in f.rest[1..];
    assert forall k :: k != f.rest[0] ==> (k in f.rest <==> k in f.rest[1..]);
  }

  /** Replacing one client's channel and moving the fan-out on. */
  lemma OneChannelChanges(s: State, id: Id, c: Channel, fan: Option<Fan>)
    requires Inv(s) && id in s.since
    requires ChannelOk(c, id in s.clients, true) && Contiguous(c, s.since[id], s.log)
    requires id in s.clients ==> s.since[id] + |c.Put()| == |s.log| - (if Owed(fan, id) then 1 else 0)
    requires forall k :: k != id ==> (Owed(fan, k) <==> Owed(s.fan, k))
    requires FanOk(s.(fan := fan))
    ensures Inv(s.(chans := s.chans[id := c], fan := fan))
  {
  }

  lemma SendKeepsInv(s: State)
    requires Inv(s) && Enabled(s, Send)
    ensures Inv(Next(s, Send))
  {
    var f := s.fan.value;
    var id := f.rest[0];
    SendMovesOn(s);
    assert id in f.rest && Owed(s.fan, id);
    SentChannel(s.chans[id], id in s.clients, s.since[id], s.log);
    OneChannelChanges(s, id, TrySend(s.chans[id], f.msg).0, Next(s, Send).fan);
  }

  lemma ReceiveKeepsInv(s: State, id: Id)
    requires Inv(s) && Enabled(s, Receive(id))
    ensures Inv(Next(s, Receive(id)))
  {
    var c := Next(s, Receive(id)).chans[id];
    assert c.Put() == s.chans[id].Put();
    OneChannelChanges(s, id, c, s.fan);
  }

  lemma RegisterKeepsInv(s: State, id: Id)
    requires Inv(s) && Enabled(s, Register(id))
    ensures Inv(Next(s, Register(id)))
  {
  }

  lemma NewClientKeepsInv(s: State, id: Id)
    requires Inv(s) && Enabled(s, NewClient(id))
    ensures Inv(Next(s, NewClient(id)))
  {
  }

  lemma StepKeepsInv(s: State, a: Action)
    requires Inv(s) && Enabled(s, a)
    ensures Inv(Next(s, a))
  {
    match a {
      case Register(id) => RegisterKeepsInv(s, id);
      case Unregister(id) => if id in s.clients { DropKeepsInv(s, {id}); }
      case DirectRemove(id) => if id in s.clients { DropKeepsInv(s, {id}); }
      case Snapshot(msg, order) => SnapshotKeepsInv(s, msg, order);
      case Send => SendKeepsInv(s);
      case Evict => EvictKeepsInv(s);
      case Shutdown => DropKeepsInv(s, s.clients);
      case Receive(id) => ReceiveKeepsInv(s, id);
      case NewClient(id) => NewClientKeepsInv(s, id);
    }
  }

  ghost predicate Schedule(s: State, actions: seq<Action>)
    decreases |actions|
  {
    actions != [] ==> Enabled(s, actions[0]) && Schedule(Next(s, actions[0]), actions[1..])
  }

  ghost function Run(s: State, actions: seq<Action>): State
    requires Schedule(s, actions)
    decreases |actions|
  {
    if actions == [] then s else Run(Next(s, actions[0]), actions[1..])
  }

  lemma {:induction false} RunKeepsInv(s: State, actions: seq<Action>)
    requires Inv(s) && Schedule(s, actions)
    ensures Inv(Run(s, actions))
    decreases |actions|
  {
    if actions != [] {
      StepKeepsInv(s, actions[0]);
      RunKeepsInv(Next(s, actions[0]), actions[1..]);
    }
  }

  /** Under every interleaving: what a client was ever sent is a run of the fan-out log without gaps,
      starting at the first fan-out after its registration. */
  lemma DeliveryHasNoGaps(actions: seq<Action>, id: Id)
    requires Schedule(START, actions) && id in Run(START, actions).since
    ensures var s := Run(START, actions);
      && id in s.chans
      && s.since[id] + |s.chans[id].Put()| <= |s.log|
      && s.chans[id].Put() == s.log[s.since[id]..s.since[id] + |s.chans[id].Put()|]
  {
    RunKeepsInv(START, actions);
  }

  /** And while it stays registered it is behind by nothing once no fan-out is under way. */
  lemma RegisteredClientsGetEverything(actions: seq<Action>, id: Id)
    requires Schedule(START, actions) && id in Run(START, actions).clients && Run(START, actions).fan.None?
    ensures var s := Run(START, actions);
      id in s.since && id in s.chans && s.since[id] <= |s.log| && s.chans[id].Put() == s.log[s.since[id]..]
  {
    RunKeepsInv(START, actions);
  }

  /** A registered client's channel is open, and no channel is ever closed twice, although every
      close in this model is unconditional. */
  lemma ChannelsCloseOnce(actions: seq<Action>, id: Id)
    requires Schedule(START, actions) && id in Run(START, actions).chans
    ensures var s := Run(START, actions);
      s.chans[id].closes <= 1 && (id in s.clients ==> s.chans[id].open) && |s.chans[id].queue| <= CLIENT_SEND_QUEUE
  {
    RunKeepsInv(START, actions);
  }

  /** A fan-out can always go on: whatever was removed meanwhile, its next send has a channel. */
  lemma SendNeverStuck(actions: seq<Action>)
    requires Schedule(START, actions)
    ensures var s := Run(START, actions);
      s.fan.Some? ==> Enabled(s, Send) || Enabled(s, Evict)
  {
    RunKeepsInv(START, actions);
    var s := Run(START, actions);
    if s.fan.Some? && s.fan.value.rest != [] {
      assert s.fan.value.rest[0] in s.fan.value.rest;
    }
  }

  /** A removed client is gone and its channel closed, by whomever it is removed and whatever goes on; nobody
      else notices, and what it was sent stays readable. */
  lemma RemovedIsGone(s: State, id: Id, a: Action)
    requires Inv(s) && Enabled(s, a) && (a == Unregister(id) || a == DirectRemove(id))
    ensures var t := Next(s, a);
      && t.clients == s.clients - {id} && t.chans.Keys == s.chans.Keys
      && (id in t.since ==> !t.chans[id].open)
      && (forall k :: k in t.chans && k != id ==> t.chans[k] == s.chans[k])
      && (id in t.chans ==> t.chans[id].queue == s.chans[id].queue && t.chans[id].taken == s.chans[id].taken)
      && t.fan == s.fan && t.log == s.log && t.since == s.since && t.stopped == s.stopped
  {
  }

  /** The next target gets the message at the end of its queue when its channel is open and holds less than
      512 messages, and is marked for eviction otherwise. */
  lemma SendDelivers(s: State)
    requires Enabled(s, Send)
    ensures var t, f := Next(s, Send), s.fan.value;
      var id, c := f.rest[0], s.chans[f.rest[0]];
      && t.chans.Keys == s.chans.Keys && (forall k :: k in t.chans && k != id ==> t.chans[k] == s.chans[k])
      && t.clients == s.clients && t.fan.Some? && t.fan.value.rest == f.rest[1..] && t.fan.value.msg == f.msg
      && (if c.open && |c.queue| < 512
          then t.chans[id] == c.(queue := c.queue + [f.msg]) && t.fan.value.dead == f.dead
          else t.chans[id] == c && t.fan.value.dead == f.dead + [id])
  {
  }

  /** Exactly the marked clients are evicted, and their channels closed; when the hub stops, all are. */
  lemma EvictedAreGone(s: State, a: Action)
    requires Inv(s) && Enabled(s, a) && (a.Evict? || a.Shutdown?)
    ensures var t := Next(s, a);
      && (forall id :: id in t.clients <==> id in s.clients && a.Evict? && id !in s.fan.value.dead)
      && (forall id :: id in t.since && id !in t.clients ==> !t.chans[id].open)
      && (forall id :: id in t.clients ==> t.chans[id] == s.chans[id])
      && t.fan.None? && t.stopped == (s.stopped || a.Shutdown?)
  {
  }

  predicate HasRoom(c: Channel) {
    c.open && |c.queue| < 512
  }

  ghost predicate Serves(s: State, t: State) {
    && s.fan.Some? && t.fan.Some? && t == s.(chans := t.chans, fan := t.fan) && t.chans.Keys == s.chans.Keys
    && t.fan.value.msg == s.fan.value.msg && t.fan.value.rest == []
    && (forall id :: id in s.chans ==>
          t.chans[id] == if id in s.fan.value.rest && HasRoom(s.chans[id]) then s.chans[id].(queue := s.chans[id].queue + [s.fan.value.msg])
                         else s.chans[id])
    && (forall id :: id in t.fan.value.dead <==>
          id in s.fan.value.dead || (id in s.fan.value.rest && id in s.chans && !HasRoom(s.chans[id])))
  }

  lemma ServesOneMore(s: State, t: State)
    requires Enabled(s, Send) && Serves(Next(s, Send), t)
    requires s.fan.value.rest[0] !in s.fan.value.rest[1..]
    ensures Serves(s, t)
  {
    var f := s.fan.value;
    SendDelivers(s);
    assert forall id :: id in f.rest <==> id == f.rest[0] || id in f.rest[1..];
  }

  lemma {:induction false} AllAreServed(s: State)
    requires s.fan.Some? && (forall id :: id in s.fan.value.rest ==> id in s.chans)
    requires forall i, j :: 0 <= i < j < |s.fan.value.rest| ==> s.fan.value.rest[i] != s.fan.value.rest[j]
    ensures Serves(s, SendAll(s))
    decreases |s.fan.value.rest|
  {
    var f := s.fan.value;
    if f.rest != [] {
      assert f.rest[0] in f.rest && forall id :: id in f.rest[1..] ==> id in f.rest;
      SendDelivers(s);
      AllAreServed(Next(s, Send));
      SendAllStep(s);
      ServesOneMore(s, SendAll(s));
    }
  }

  /** A fan-out without interference: every client with room has the message at the end of its queue and stays,
      every other one is gone and closed, in whatever order they are visited. */
  lemma FanoutAchieves(s: State, msg: Msg, order: seq<Id>)
    requires Inv(s) && Enabled(s, Snapshot(msg, order))
    ensures var t := FanoutWhole(s, msg, order);
      && t.log == s.log + [msg] && t.fan.None? && t.since == s.since && t.chans.Keys == s.chans.Keys
      && (forall id :: id in t.clients <==> id in s.clients && HasRoom(s.chans[id]))
      && (forall id :: id in t.clients ==> t.chans[id] == s.chans[id].(queue := s.chans[id].queue + [msg]))
      && (forall id :: id in s.clients && id !in t.clients ==> !t.chans[id].open && t.chans[id].queue == s.chans[id].queue)
      && (forall id :: id in s.chans && id !in s.clients ==> t.chans[id] == s.chans[id])
  {
    var start := Next(s, Snapshot(msg, order));
    if s.clients != {} {
      AllAreServed(start);
      assert Enabled(SendAll(start), Evict);
    } else {
      assert SendAll(start) == start;
    }
  }

  /** The steps of an undisturbed fan-out from the point where `n` targets are left. */
  function Sends(n: nat): seq<Action> {
    if n == 0 then [Evict] else [Send] + Sends(n - 1)
  }

  lemma {:induction false} SendsAreARun(s: State)
    requires s.fan.Some? && (forall id :: id in s.fan.value.rest ==> id in s.chans)
    ensures Schedule(s, Sends(|s.fan.value.rest|))
    ensures Enabled(SendAll(s), Evict) && Run(s, Sends(|s.fan.value.rest|)) == Next(SendAll(s), Evict)
    decreases |s.fan.value.rest|
  {
    var f := s.fan.value;
    if f.rest == [] {
      assert Sends(0)[1..] == [];
      assert Run(s, Sends(0)) == Run(Next(s, Evict), []);
    } else {
      assert f.rest[0] in f.rest && forall id :: id in f.rest[1..] ==> id in f.rest;
      SendDelivers(s);
      SendsAreARun(Next(s, Send));
      SendAllStep(s);
      assert Sends(|f.rest|)[0] == Send && Sends(|f.rest|)[1..] == Sends(|f.rest| - 1);
    }
  }

  /** An undisturbed fan-out is one of the runs: a snapshot, a send for each target, an eviction. */
  lemma FanoutIsARun(s: State, msg: Msg, order: seq<Id>)
    requires Inv(s) && Enabled(s, Snapshot(msg, order)) && s.clients != {}
    ensures Schedule(s, [Snapshot(msg, order)] + Sends(|order|))
    ensures Run(s, [Snapshot(msg, order)] + Sends(|order|)) == FanoutWhole(s, msg, order)
  {
    var start := Next(s, Snapshot(msg, order));
    SendsAreARun(start);
    var actions := [Snapshot(msg, order)] + Sends(|order|);
    assert actions[1..] == Sends(|order|);
  }

  /** The register-once condition is needed: a client that comes back after its removal is closed a
      second time when the hub stops. */
  lemma ReturningClientIsClosedTwice(s: State, id: Id)
    requires Inv(s) && id in s.since && id !in s.clients
    ensures Drop(s.(clients := s.clients + {id}), s.clients + {id}).chans[id].closes == 2
  {
  }

  // ---------------------------------------------------------------- throttling

  const MIN_INTERVAL := 250
  const THROTTLED := {"inbounds", "outbounds"}

  class Throttle {
    var lastBroadcast: map<string, int>

    method ShouldThrottle(msgType: string, now: int) returns (r: bool)
      modifies this
      ensures r == Throttled(old(lastBroadcast), msgType, now)
      ensures lastBroadcast == AfterBroadcast(old(lastBroadcast), msgType, now)
    {
      if msgType !in THROTTLED { return false; }
      if msgType in lastBroadcast && now - lastBroadcast[msgType] < MIN_INTERVAL { return true; }
      lastBroadcast := lastBroadcast[msgType := now];
      r := false;
    }
  }

  predicate Throttled(last: map<string, int>, msgType: string, now: int) {
    msgType in THROTTLED && msgType in last && now - last[msgType] < MIN_INTERVAL
  }

  function AfterBroadcast(last: map<string, int>, msgType: string, now: int): map<string, int> {
    if msgType in THROTTLED && !Throttled(last, msgType, now) then last[msgType := now] else last
  }

  datatype Attempt = Attempt(msgType: string, now: int)

  function LastAfter(attempts: seq<Attempt>): map<string, int> {
    if attempts == [] then map[]
    else
      var a := attempts[|attempts| - 1];
      AfterBroadcast(LastAfter(attempts[..|attempts| - 1]), a.msgType, a.now)
  }

  predicate Passed(attempts: seq<Attempt>, i: nat)
    requires i < |attempts|
  {
    !Throttled(LastAfter(attempts[..i]), attempts[i].msgType, attempts[i].now)
  }

  lemma {:induction false} LastIsTheLatestPassed(attempts: seq<Attempt>, i: nat)
    requires forall a, b :: 0 <= a <= b < |attempts| ==> attempts[a].now <= attempts[b].now
    requires i < |attempts| && Passed(attempts, i) && attempts[i].msgType in THROTTLED
    ensures attempts[i].msgType in LastAfter(attempts) && LastAfter(attempts)[attempts[i].msgType] >= attempts[i].now
    decreases |attempts|
  {
    var front := attempts[..|attempts| - 1];
    if i < |attempts| - 1 {
      assert front[..i] == attempts[..i];
      LastIsTheLatestPassed(front, i);
    }
  }

  lemma {:induction false} LastHasPassed(attempts: seq<Attempt>, msgType: string) returns (i: nat)
    requires msgType in LastAfter(attempts)
    ensures i < |attempts| && attempts[i].msgType == msgType && msgType in THROTTLED && Passed(attempts, i)
    ensures LastAfter(attempts)[msgType] == attempts[i].now
  {
    var n := |attempts| - 1;
    var front := attempts[..n];
    if attempts[n].msgType == msgType && msgType in THROTTLED && Passed(attempts, n) {
      i := n;
    } else {
      i := LastHasPassed(front, msgType);
      assert front[..i] == attempts[..i];
    }
  }

  /** Under a clock that does not go back, a broadcast passes exactly when it is of another type than the two
      gated ones, or none of its type that passed is less than 250 ms ago. */
  lemma PassesIff(attempts: seq<Attempt>, j: nat)
    requires forall a, b :: 0 <= a <= b < |attempts| ==> attempts[a].now <= attempts[b].now
    requires j < |attempts|
    ensures Passed(attempts, j) <==>
      || (attempts[j].msgType != "inbounds" && attempts[j].msgType != "outbounds")
      || forall i :: 0 <= i < j && attempts[i].msgType == attempts[j].msgType && Passed(attempts, i) ==>
           attempts[j].now - attempts[i].now >= 250
  {
    var t, before := attempts[j].msgType, attempts[..j];
    if t in THROTTLED {
      if t in LastAfter(before) {
        var i := LastHasPassed(before, t);
        assert before[..i] == attempts[..i];
      }
      forall i | 0 <= i < j && attempts[i].msgType == t && Passed(attempts, i)
        ensures t in LastAfter(before) && LastAfter(before)[t] >= attempts[i].now
      {
        assert before[..i] == attempts[..i];
        LastIsTheLatestPassed(before, i);
      }
    }
  }

  /** Under a clock that does not go back, two broadcasts of one throttled type that both pass are at
      least 250 ms apart; other types always pass. */
  lemma ThrottleSpacing(attempts: seq<Attempt>, i: nat, j: nat)
    requires forall a, b :: 0 <= a <= b < |attempts| ==> attempts[a].now <= attempts[b].now
    requires i < j < |attempts| && attempts[i].msgType == attempts[j].msgType
    ensures attempts[i].msgType in THROTTLED && Passed(attempts, i) && Passed(attempts, j) ==>
      attempts[j].now - attempts[i].now >= MIN_INTERVAL
    ensures attempts[i].msgType !in THROTTLED ==> Passed(attempts, i)
  {
    if attempts[i].msgType in THROTTLED && Passed(attempts, i) && Passed(attempts, j) {
      assert attempts[..j][..i] == attempts[..i];
      LastIsTheLatestPassed(attempts[..j], i);
    }
  }
}
