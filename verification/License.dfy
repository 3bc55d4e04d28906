/** The license client: what the panel may do after activations, verifications, refusals, outages of the
    license server and restarts. */
module License {
  import opened Wrappers
  import opened Text

  const GRACE: int := 172_800

  datatype Claims = Claims(status: string, deviceId: string, issuedAt: int, expiresAt: int)

  datatype State = State(licenseKey: string, token: string, claims: Claims, publicKey: string,
                         lastVerified: int, pending: string, startsAt: int)

  const FRESH: State := State("", "", Claims("", "", 0, 0), "", 0, "", 0)

  /** This device, and the cryptography: which keys parse, which signatures hold, what a token says. */
  datatype World = World(device: string, keyOk: string -> bool, sigOk: (string, string) -> bool,
                         payload: string -> Option<Claims>)

  /** `normalizeLicenseKey`. */
  function Upper(c: char): char {
    if 'a' <= c <= 'z' then (c as int - 32) as char else c
  }

  function NormalizeKey(key: string): string {
    var t := TrimSpace(key);
    seq(|t|, i requires 0 <= i < |t| => Upper(t[i]))
  }

  /** `verifySignedLicenseToken`. */
  function Signed(w: World, token: string, publicKey: string): Option<Claims> {
    if w.sigOk(token, publicKey) then w.payload(token) else None
  }

  /** `publicKeyLocked`; `fetched` is what the server sends when it is asked. */
  function WithKey(w: World, st: State, force: bool, fetched: Option<string>): (State, bool) {
    if !force && !Blank(st.publicKey) && w.keyOk(st.publicKey) then (st, true)
    else if fetched.None? || !w.keyOk(fetched.value) then (st, false)
    else (st.(publicKey := fetched.value), true)
  }

  /** `verifyTokenLocked`: the cached key first, then once with a key fetched again. */
  function VerifyToken(w: World, st: State, token: string, first: Option<string>, second: Option<string>): (State, Option<Claims>) {
    var a := WithKey(w, st, false, first);
    var c := if a.1 then Signed(w, token, a.0.publicKey) else None;
    if c.Some? then (a.0, c)
    else
      var b := WithKey(w, a.0, true, second);
      (b.0, if b.1 then Signed(w, token, b.0.publicKey) else None)
  }

  /** `validateClaims`. */
  predicate ValidClaims(w: World, c: Claims, now: int) {
    c.status == "active" && c.deviceId != "" && c.deviceId == w.device && c.expiresAt > now
  }

  function VerifiedAt(st: State): int {
    if st.claims.issuedAt > 0 then st.claims.issuedAt else st.lastVerified
  }

  /** What permission needs apart from the clock and the server's last word. */
  predicate Licensed(w: World, st: State) {
    !Blank(st.licenseKey) && st.lastVerified > 0 && st.claims.status == "active" && st.claims.deviceId == w.device
  }

  /** `runtimeAllowedState`. */
  predicate Allowed(w: World, st: State, now: int) {
    Licensed(w, st) && st.pending == "" && now < st.claims.expiresAt && VerifiedAt(st) > 0 && now - VerifiedAt(st) <= GRACE
  }

  // ---------------------------------------------------------------- a call to the server

  datatype Reply = Unreachable | Refused(error: string, startsAt: int, expiresAt: int) | Granted(token: string)

  /** The state file is replaced by a rename; setting its permissions afterwards can still fail. */
  datatype Save = Done | Replaced | Kept

  datatype Call = Call(reply: Reply, first: Option<string>, second: Option<string>, answered: int, save: Save)

  /** `rememberServerErrorLocked`. */
  function Remembered(st: State, key: string, r: Reply): State
    requires r.Refused?
  {
    st.(licenseKey := if r.error != "" && r.error != "invalid_license" then key else st.licenseKey,
        pending := r.error, startsAt := r.startsAt,
        claims := if r.expiresAt > 0 then st.claims.(expiresAt := r.expiresAt) else st.claims)
  }

  /** The claims of the token in the reply, when they are signed and valid. */
  function Accepted(w: World, st: State, c: Call): Option<Claims> {
    if !c.reply.Granted? then None
    else match VerifyToken(w, st, c.reply.token, c.first, c.second).1
      case None => None
      case Some(claims) => if ValidClaims(w, claims, c.answered) then Some(claims) else None
  }

  /** The state after the server was asked about `key`; an accepted activation also stores the key. */
  function Asked(w: World, st: State, key: string, store: bool, c: Call): State {
    match c.reply
    case Unreachable => st
    case Refused(_, _, _) => Remembered(st, key, c.reply)
    case Granted(token) =>
      var v := VerifyToken(w, st, token, c.first, c.second).0;
      match Accepted(w, st, c)
      case None => v
      case Some(claims) =>
        v.(licenseKey := if store then key else v.licenseKey, token := token, claims := claims,
           lastVerified := if claims.issuedAt > 0 then claims.issuedAt else c.answered,
           pending := "", startsAt := 0)
  }

  function Rebuilt(st: State, claims: Claims): State {
    st.(claims := claims, lastVerified := if claims.issuedAt > 0 then claims.issuedAt else st.lastVerified)
  }

  /** `ensureLoaded`: the cached claims are rebuilt from the signed token. */
  function Loaded(w: World, disk: State): State {
    if Blank(disk.token) || Blank(disk.publicKey) then disk
    else if w.keyOk(disk.publicKey) && Signed(w, disk.token, disk.publicKey).Some? then
      Rebuilt(disk, Signed(w, disk.token, disk.publicKey).value)
    else disk.(lastVerified := 0, pending := "invalid_local_token")
  }

  // ---------------------------------------------------------------- the machine

  datatype Event = Activate(key: string, call: Call) | Verify(call: Call) | Restart(readable: bool)

  /** A token that passed, when it counts as verified, and the public key it was checked with. */
  datatype Grant = Grant(token: string, claims: Claims, at: int, key: string)

  /** The state in memory and on disk, and the tokens accepted so far. */
  datatype Machine = Machine(mem: State, disk: State, grants: seq<Grant>)

  /** The key the event asks the server about, "" when it does not get that far. */
  function KeyOf(m: Machine, e: Event): string {
    match e
    case Activate(key, _) => NormalizeKey(key)
    case Verify(_) => NormalizeKey(m.mem.licenseKey)
    case Restart(_) => ""
  }

  predicate Accepts(w: World, m: Machine, e: Event) {
    KeyOf(m, e) != "" && !e.Restart? && Accepted(w, m.mem, e.call).Some?
  }

  function Step(w: World, m: Machine, e: Event): Machine {
    match e
    case Restart(readable) => m.(mem := if readable then Loaded(w, m.disk) else FRESH)
    case _ =>
      var key := KeyOf(m, e);
      if key == "" then m
      else
        var st := Asked(w, m.mem, key, e.Activate?, e.call);
        Machine(st, if e.call.save.Kept? then m.disk else st,
                if Accepts(w, m, e) then m.grants + [Grant(st.token, st.claims, VerifiedAt(st), st.publicKey)] else m.grants)
  }

  function Run(w: World, m: Machine, events: seq<Event>): Machine
    decreases |events|
  {
    if events == [] then m else Run(w, Step(w, m, events[0]), events[1..])
  }

  predicate EmptyRefusal(e: Event) {
    !e.Restart? && e.call.reply.Refused? && e.call.reply.error == ""
  }

  lemma TokenChecked(w: World, st: State, c: Call)
    requires c.reply.Granted?
    ensures VerifyToken(w, st, c.reply.token, c.first, c.second).0 ==
      st.(publicKey := VerifyToken(w, st, c.reply.token, c.first, c.second).0.publicKey)
    ensures Accepted(w, st, c).Some? ==>
      w.payload(c.reply.token) == Accepted(w, st, c) && ValidClaims(w, Accepted(w, st, c).value, c.answered)
  {
  }

  /** A reload rejects the cached token or rebuilds the claims from it. */
  lemma LoadedCases(w: World, st: State)
    ensures Loaded(w, st) == st || (Loaded(w, st).pending != "" && Loaded(w, st).lastVerified == 0) ||
      (st.token != "" && w.payload(st.token).Some? && Loaded(w, st) == Rebuilt(st, w.payload(st.token).value))
    ensures Loaded(w, st).token == st.token && Loaded(w, st).licenseKey == st.licenseKey
  {
  }

  // ---------------------------------------------------------------- permission is bounded

  /** The expiries carried by refusals. */
  function Offered(events: seq<Event>): set<int> {
    set e | e in events && !e.Restart? && e.call.reply.Refused? :: e.call.reply.expiresAt
  }

  /** The state shows an accepted token, perhaps with an expiry from a refusal; without a refusal on
      record that takes a refusal without a code. */
  ghost predicate TiedTo(w: World, st: State, g: Grant, past: seq<Event>) {
    && g.token == st.token && w.payload(st.token) == Some(g.claims)
    && st.claims == g.claims.(expiresAt := st.claims.expiresAt)
    && (g.claims.issuedAt > 0 ==> g.at == g.claims.issuedAt) && (st.lastVerified > 0 ==> VerifiedAt(st) == g.at)
    && (st.claims.expiresAt == g.claims.expiresAt ||
        (st.claims.expiresAt in Offered(past) && (st.pending == "" ==> exists e :: e in past && EmptyRefusal(e))))
  }

  ghost predicate Tied(w: World, st: State, grants: seq<Grant>, past: seq<Event>) {
    (st.token == "" && st.lastVerified <= 0) || exists g :: g in grants && TiedTo(w, st, g, past)
  }

  lemma StaysTied(w: World, st: State, grants: seq<Grant>, past: seq<Event>, more: seq<Grant>, e: Event)
    requires Tied(w, st, grants, past)
    ensures Tied(w, st, grants + more, past + [e])
  {
    if !(st.token == "" && st.lastVerified <= 0) {
      var g :| g in grants && TiedTo(w, st, g, past);
      assert forall x :: x in past ==> x in past + [e];
      assert Offered(past) <= Offered(past + [e]);
      assert TiedTo(w, st, g, past + [e]);
      assert g in grants + more;
    }
  }

  lemma LoadedStaysTied(w: World, st: State, grants: seq<Grant>, past: seq<Event>)
    requires Tied(w, st, grants, past)
    ensures Tied(w, Loaded(w, st), grants, past)
  {
    LoadedCases(w, st);
    if !(st.token == "" && st.lastVerified <= 0) {
      var g :| g in grants && TiedTo(w, st, g, past);
      assert TiedTo(w, Loaded(w, st), g, past);
    }
  }

  lemma RefusedStaysTied(w: World, st: State, grants: seq<Grant>, past: seq<Event>, key: string, e: Event)
    requires Tied(w, st, grants, past) && !e.Restart? && e.call.reply.Refused?
    ensures Tied(w, Remembered(st, key, e.call.reply), grants, past + [e])
  {
    var after := Remembered(st, key, e.call.reply);
    StaysTied(w, st, grants, past, [], e);
    assert grants + [] == grants;
    assert e in past + [e];
    assert e.call.reply.expiresAt in Offered(past + [e]);
    if !(st.token == "" && st.lastVerified <= 0) {
      var g :| g in grants && TiedTo(w, st, g, past + [e]);
      assert TiedTo(w, after, g, past + [e]);
    }
  }

  lemma AcceptedIsTied(w: World, st: State, key: string, store: bool, c: Call, past: seq<Event>)
    requires Accepted(w, st, c).Some?
    ensures var after := Asked(w, st, key, store, c); TiedTo(w, after, Grant(after.token, after.claims, VerifiedAt(after), after.publicKey), past)
  {
    TokenChecked(w, st, c);
  }

  lemma OtherKeyStaysTied(w: World, st: State, publicKey: string, grants: seq<Grant>, past: seq<Event>)
    requires Tied(w, st, grants, past)
    ensures Tied(w, st.(publicKey := publicKey), grants, past)
  {
    forall g | TiedTo(w, st, g, past) ensures TiedTo(w, st.(publicKey := publicKey), g, past) {
    }
  }

  lemma AskedStaysTied(w: World, m: Machine, e: Event, past: seq<Event>)
    requires Tied(w, m.mem, m.grants, past) && !e.Restart? && KeyOf(m, e) != ""
    ensures Tied(w, Step(w, m, e).mem, Step(w, m, e).grants, past + [e])
  {
    var n := Step(w, m, e);
    StaysTied(w, m.mem, m.grants, past, [], e);
    assert m.grants + [] == m.grants;
    if Accepts(w, m, e) {
      AcceptedIsTied(w, m.mem, KeyOf(m, e), e.Activate?, e.call, past + [e]);
      assert n.grants[|m.grants|] in n.grants;
    } else if e.call.reply.Refused? {
      RefusedStaysTied(w, m.mem, m.grants, past, KeyOf(m, e), e);
    } else if e.call.reply.Granted? {
      TokenChecked(w, m.mem, e.call);
      OtherKeyStaysTied(w, m.mem, n.mem.publicKey, m.grants, past + [e]);
    }
  }

  ghost predicate TiedMachine(w: World, m: Machine, past: seq<Event>) {
    Tied(w, m.mem, m.grants, past) && Tied(w, m.disk, m.grants, past)
  }

  lemma GrantsStep(w: World, m: Machine, e: Event)
    ensures Accepts(w, m, e) ==> Step(w, m, e).grants == m.grants + [Step(w, m, e).grants[|m.grants|]]
    ensures !Accepts(w, m, e) ==> Step(w, m, e).grants == m.grants
  {
  }

  lemma StepStaysTied(w: World, m: Machine, e: Event, past: seq<Event>)
    requires TiedMachine(w, m, past)
    ensures TiedMachine(w, Step(w, m, e), past + [e])
  {
    var n := Step(w, m, e);
    var more := if Accepts(w, m, e) then [n.grants[|m.grants|]] else [];
    assert n.grants == m.grants + more by { GrantsStep(w, m, e); }
    StaysTied(w, m.mem, m.grants, past, more, e);
    StaysTied(w, m.disk, m.grants, past, more, e);
    if e.Restart? {
      LoadedStaysTied(w, m.disk, n.grants, past + [e]);
    } else if KeyOf(m, e) != "" {
      AskedStaysTied(w, m, e, past);
      assert n.disk == n.mem || n.disk == m.disk;
    }
  }

  lemma {:induction false} RunStaysTied(w: World, m: Machine, past: seq<Event>, events: seq<Event>)
    requires TiedMachine(w, m, past)
    ensures TiedMachine(w, Run(w, m, events), past + events)
    decreases |events|
  {
    if events == [] {
      assert past + events == past;
    } else {
      StepStaysTied(w, m, events[0], past);
      RunStaysTied(w, Step(w, m, events[0]), past + [events[0]], events[1..]);
      assert past + [events[0]] + events[1..] == past + events;
    }
  }

  /** The key verifies the token, which says that it is an active license of this device. */
  predicate Genuine(w: World, g: Grant) {
    && w.keyOk(g.key) && w.sigOk(g.token, g.key)
    && w.payload(g.token) == Some(g.claims) && g.claims.status == "active" && g.claims.deviceId == w.device != ""
  }

  /** When the server sends a token: exactly when it is accepted, and the key that remains. A cached key that
      parses is tried, or the one fetched in its place; then once, whatever went wrong, one fetched anew. */
  lemma AcceptedIff(w: World, st: State, c: Call)
    requires c.reply.Granted?
    ensures var token, claims := c.reply.token, w.payload(c.reply.token);
      var first := if !Blank(st.publicKey) && w.keyOk(st.publicKey) then Some(st.publicKey) else c.first;
      var good := (k: Option<string>) => k.Some? && w.keyOk(k.value) && w.sigOk(token, k.value);
      && (Accepted(w, st, c).Some? <==>
            && claims.Some? && claims.value.status == "active" && claims.value.deviceId == w.device != ""
            && claims.value.expiresAt > c.answered && (good(first) || good(c.second)))
      && (Accepted(w, st, c).Some? ==>
            && Accepted(w, st, c) == claims
            && VerifyToken(w, st, token, c.first, c.second).0.publicKey == (if good(first) then first else c.second).value)
  {
  }

  lemma AcceptedIsGenuine(w: World, m: Machine, e: Event)
    requires Accepts(w, m, e)
    ensures Genuine(w, Step(w, m, e).grants[|m.grants|])
  {
    AcceptedIff(w, m.mem, e.call);
    var st := Asked(w, m.mem, KeyOf(m, e), e.Activate?, e.call);
    assert Step(w, m, e).grants[|m.grants|] == Grant(st.token, st.claims, VerifiedAt(st), st.publicKey);
  }

  /** What is recorded of an accepted token, and what it permits: every time before its expiry and within 48
      hours of the time it was issued, or of the answer when it does not say. */
  lemma AcceptedPermitsIff(w: World, m: Machine, e: Event, t: int)
    requires Accepts(w, m, e)
    ensures var n := Step(w, m, e);
      && n.grants == m.grants + [n.grants[|m.grants|]] && n.grants[|m.grants|].token == e.call.reply.token
      && n.mem.licenseKey == (if e.Activate? then NormalizeKey(e.key) else m.mem.licenseKey)
      && var g := n.grants[|m.grants|];
         && Some(g.claims) == w.payload(g.token) && g.at == (if g.claims.issuedAt > 0 then g.claims.issuedAt else e.call.answered)
         && (Allowed(w, n.mem, t) <==> g.at > 0 && t < g.claims.expiresAt && t - g.at <= 172_800)
  {
    AcceptedIff(w, m.mem, e.call);
    KeysAreThere(m, e);
    AcceptedStatePermitsIff(w, m.mem, KeyOf(m, e), e.Activate?, e.call, t);
  }

  lemma KeysAreThere(m: Machine, e: Event)
    requires KeyOf(m, e) != "" && !e.Restart?
    ensures !Blank(KeyOf(m, e)) && (e.Verify? ==> !Blank(m.mem.licenseKey))
    ensures e.Activate? ==> KeyOf(m, e) == NormalizeKey(e.key)
  {
    KeyIsNotBlank(if e.Activate? then e.key else m.mem.licenseKey);
    NormalizedEmptyIff(m.mem.licenseKey);
  }

  lemma AcceptedStatePermitsIff(w: World, st: State, key: string, store: bool, c: Call, t: int)
    requires Accepted(w, st, c).Some? && !Blank(key) && (!store ==> !Blank(st.licenseKey))
    ensures var n, claims := Asked(w, st, key, store, c), Accepted(w, st, c).value;
      var at := if claims.issuedAt > 0 then claims.issuedAt else c.answered;
      && n.licenseKey == (if store then key else st.licenseKey)
      && n.token == c.reply.token && n.claims == claims && VerifiedAt(n) == at
      && (Allowed(w, n, t) <==> at > 0 && t < claims.expiresAt && t - at <= 172_800)
  {
    TokenChecked(w, st, c);
  }

  /** What a restart permits: with a token and a key on record, what the token says counts, if the key still
      verifies it; else what was saved. */
  lemma LoadedPermitsIff(w: World, disk: State, t: int)
    ensures Allowed(w, Loaded(w, disk), t) <==>
      if Blank(disk.token) || Blank(disk.publicKey) then Allowed(w, disk, t)
      else
        && w.keyOk(disk.publicKey) && w.sigOk(disk.token, disk.publicKey) && w.payload(disk.token).Some?
        && !Blank(disk.licenseKey) && disk.pending == ""
        && var c := w.payload(disk.token).value;
           var at := if c.issuedAt > 0 then c.issuedAt else disk.lastVerified;
           c.status == "active" && c.deviceId == w.device && at > 0 && t < c.expiresAt && t - at <= 172_800
  {
  }

  lemma {:induction false} GrantsAreGenuine(w: World, m: Machine, events: seq<Event>)
    requires forall g :: g in m.grants ==> Genuine(w, g)
    ensures forall g :: g in Run(w, m, events).grants ==> Genuine(w, g)
    decreases |events|
  {
    if events != [] {
      var n := Step(w, m, events[0]);
      GrantsStep(w, m, events[0]);
      if Accepts(w, m, events[0]) { AcceptedIsGenuine(w, m, events[0]); }
      GrantsAreGenuine(w, n, events[1..]);
    }
  }

  /** The token is genuine, and the time is within the grace after its verification. */
  predicate InGrace(w: World, g: Grant, now: int) {
    Genuine(w, g) && now <= g.at + GRACE
  }

  /** In every run, with any outages, refusals, restarts and failed saves, permission at a time is within
      48 hours of the verification of a token that a parsed key verified and that names this device. The time is
      also before that token's expiry, unless there was a refusal without a code and some refusal carried
      an expiry after that time. */
  lemma PermissionIsBounded(w: World, events: seq<Event>, now: int)
    ensures Allowed(w, Run(w, Machine(FRESH, FRESH, []), events).mem, now) ==>
      exists g :: g in Run(w, Machine(FRESH, FRESH, []), events).grants && InGrace(w, g, now) &&
        (now < g.claims.expiresAt ||
         ((exists e :: e in events && EmptyRefusal(e)) && exists x :: x in Offered(events) && now < x))
  {
    RunStaysTied(w, Machine(FRESH, FRESH, []), [], events);
    GrantsAreGenuine(w, Machine(FRESH, FRESH, []), events);
    assert [] + events == events;
    var m := Run(w, Machine(FRESH, FRESH, []), events);
    if Allowed(w, m.mem, now) {
      var g :| g in m.grants && TiedTo(w, m.mem, g, events);
      assert InGrace(w, g, now);
    }
  }

  // ---------------------------------------------------------------- how permission comes back

  function ExpiryAfter(st: State, r: Reply): int
    requires r.Refused?
  {
    if r.expiresAt > 0 then r.expiresAt else st.claims.expiresAt
  }

  /** A step that is no accepted token gives permission at a time: a restart that finds a saved state
      which permits it once its claims are rebuilt, or a refusal without a code on a licensed state. */
  predicate Gives(w: World, m: Machine, e: Event, t: int) {
    match e
    case Restart(readable) => readable && Allowed(w, Loaded(w, m.disk), t)
    case _ =>
      && KeyOf(m, e) != "" && EmptyRefusal(e) && Licensed(w, m.mem) && VerifiedAt(m.mem) > 0
      && t < ExpiryAfter(m.mem, e.call.reply) && t - VerifiedAt(m.mem) <= GRACE
  }

  lemma OtherKeyAddsNothing(w: World, st: State, publicKey: string, t: int)
    ensures Allowed(w, st.(publicKey := publicKey), t) <==> Allowed(w, st, t)
  {
  }

  lemma AskedGivesIff(w: World, st: State, key: string, store: bool, c: Call, t: int)
    requires Accepted(w, st, c).None? && !Allowed(w, st, t)
    ensures Allowed(w, Asked(w, st, key, store, c), t) <==>
      && c.reply.Refused? && c.reply.error == "" && Licensed(w, st) && VerifiedAt(st) > 0
      && t < ExpiryAfter(st, c.reply) && t - VerifiedAt(st) <= GRACE
  {
    match c.reply
    case Unreachable =>
    case Refused(_, _, _) => assert Asked(w, st, key, store, c).pending == c.reply.error;
    case Granted(_) =>
      TokenChecked(w, st, c);
      OtherKeyAddsNothing(w, st, Asked(w, st, key, store, c).publicKey, t);
  }

  /** Exactly which steps, other than an accepted token, give permission at a time at which there was
      none: outages, refusals with a code and rejected tokens never do, whatever is saved. */
  lemma StepGivesIff(w: World, m: Machine, e: Event, t: int)
    requires !Allowed(w, m.mem, t) && !Accepts(w, m, e)
    ensures Step(w, m, e).grants == m.grants
    ensures Allowed(w, Step(w, m, e).mem, t) <==> Gives(w, m, e, t)
  {
    if !e.Restart? && KeyOf(m, e) != "" {
      AskedGivesIff(w, m.mem, KeyOf(m, e), e.Activate?, e.call, t);
    }
  }

  lemma EarlierToo(w: World, st: State, t: int, later: int)
    requires t <= later && Allowed(w, st, later)
    ensures Allowed(w, st, t)
  {
  }

  lemma RunPrefix(w: World, m: Machine, events: seq<Event>, i: nat)
    requires i < |events|
    ensures Run(w, m, events[..i + 1]) == Run(w, Step(w, m, events[0]), events[1..][..i])
  {
    assert events[..i + 1][0] == events[0] && events[..i + 1][1..] == events[1..][..i];
  }

  /** The event comes at a moment without permission at `lost`, and is an accepted token or gives it. */
  predicate BringsBack(w: World, m: Machine, e: Event, lost: int) {
    !Allowed(w, m.mem, lost) && (Accepts(w, m, e) || Gives(w, m, e, lost))
  }

  /** Over every run: permission that was missing at a time and is there at that or a later time was
      brought back by an accepted token, by a restart whose saved state permits it, or by a refusal
      without a code under the stated condition. */
  lemma {:induction false} PermissionReturnsOnlyBy(w: World, m: Machine, events: seq<Event>, lost: int, later: int)
    requires lost <= later && !Allowed(w, m.mem, lost)
    ensures Allowed(w, Run(w, m, events).mem, later) ==>
      exists i :: 0 <= i < |events| && BringsBack(w, Run(w, m, events[..i]), events[i], lost)
    decreases |events|
  {
    if events == [] {
      if Allowed(w, m.mem, later) { EarlierToo(w, m.mem, lost, later); }
    } else {
      var n := Step(w, m, events[0]);
      assert Run(w, m, events[..0]) == m;
      if !Accepts(w, m, events[0]) { StepGivesIff(w, m, events[0], lost); }
      if !BringsBack(w, m, events[0], lost) && Allowed(w, Run(w, m, events).mem, later) {
        PermissionReturnsOnlyBy(w, n, events[1..], lost, later);
        var i :| 0 <= i < |events[1..]| && BringsBack(w, Run(w, n, events[1..][..i]), events[1..][i], lost);
        RunPrefix(w, m, events, i);
        assert BringsBack(w, Run(w, m, events[..i + 1]), events[i + 1], lost);
      }
    }
  }

  /** A refusal without a code clears the one on record and may move the expiry. Answered at `now`, it
      gives permission at that or a later time, without any token, exactly when the state is licensed and
      either a refusal was on record and the time is before the expiry and within the grace, or the
      expiry moves up and the old one, or now if later, is still within the grace. */
  lemma EmptyRefusalReturnsIff(w: World, st: State, key: string, r: Reply, now: int)
    requires r.Refused? && r.error == ""
    ensures (exists t :: t >= now && Allowed(w, Remembered(st, key, r), t) && !Allowed(w, st, t)) <==>
      Licensed(w, st) && VerifiedAt(st) > 0 && ReturnsFrom(st, r, now)
  {
    var after := Remembered(st, key, r);
    var start := if st.pending != "" then now else Later(now, st.claims.expiresAt);
    if Licensed(w, st) && VerifiedAt(st) > 0 && ReturnsFrom(st, r, now) {
      assert Allowed(w, after, start) && !Allowed(w, st, start);
    }
  }

  function Later(a: int, b: int): int {
    if a >= b then a else b
  }

  predicate ReturnsFrom(st: State, r: Reply, now: int)
    requires r.Refused?
  {
    var e := ExpiryAfter(st, r);
    if st.pending != "" then now < e && now - VerifiedAt(st) <= GRACE
    else Later(now, st.claims.expiresAt) < e && Later(now, st.claims.expiresAt) - VerifiedAt(st) <= GRACE
  }

  // ---------------------------------------------------------------- restarts

  predicate Repeats(w: World, st: State, g: Grant) {
    && g.token == st.token && w.payload(st.token) == Some(g.claims) && st.claims == g.claims && g.at == VerifiedAt(st)
    && (g.claims.issuedAt > 0 ==> st.lastVerified == g.claims.issuedAt)
  }

  /** Without a refusal on record, the state is unlicensed or repeats an accepted token. */
  ghost predicate Good(w: World, st: State, grants: seq<Grant>) {
    st.pending == "" ==> (st.token == "" && st.lastVerified <= 0) || exists g :: g in grants && Repeats(w, st, g)
  }

  ghost predicate GoodMachine(w: World, m: Machine) {
    Good(w, m.mem, m.grants) && Good(w, m.disk, m.grants)
  }

  lemma OtherKeyKeepsGood(w: World, st: State, publicKey: string, grants: seq<Grant>)
    requires Good(w, st, grants)
    ensures Good(w, st.(publicKey := publicKey), grants)
  {
    forall g | Repeats(w, st, g) ensures Repeats(w, st.(publicKey := publicKey), g) {
    }
  }

  lemma AcceptedRepeats(w: World, st: State, key: string, store: bool, c: Call)
    requires Accepted(w, st, c).Some?
    ensures var after := Asked(w, st, key, store, c); Repeats(w, after, Grant(after.token, after.claims, VerifiedAt(after), after.publicKey))
  {
    TokenChecked(w, st, c);
  }

  lemma AskedKeepsGood(w: World, m: Machine, e: Event)
    requires GoodMachine(w, m) && !EmptyRefusal(e) && !e.Restart? && KeyOf(m, e) != ""
    ensures Good(w, Step(w, m, e).mem, Step(w, m, e).grants)
  {
    var n := Step(w, m, e);
    if Accepts(w, m, e) {
      AcceptedRepeats(w, m.mem, KeyOf(m, e), e.Activate?, e.call);
      assert n.grants[|m.grants|] in n.grants;
    } else if e.call.reply.Granted? {
      TokenChecked(w, m.mem, e.call);
      OtherKeyKeepsGood(w, m.mem, n.mem.publicKey, m.grants);
    }
  }

  lemma MoreGrants(w: World, st: State, grants: seq<Grant>, g: Grant)
    requires Good(w, st, grants)
    ensures Good(w, st, grants + [g])
  {
    assert forall h :: h in grants ==> h in grants + [g];
  }

  lemma LoadedKeepsGood(w: World, st: State, grants: seq<Grant>)
    requires Good(w, st, grants)
    ensures Good(w, Loaded(w, st), grants)
  {
    LoadedCases(w, st);
  }

  lemma StepKeepsGood(w: World, m: Machine, e: Event)
    requires GoodMachine(w, m) && !EmptyRefusal(e)
    ensures GoodMachine(w, Step(w, m, e))
  {
    if e.Restart? {
      LoadedKeepsGood(w, m.disk, m.grants);
    } else if KeyOf(m, e) != "" {
      AskedKeepsGood(w, m, e);
      var n := Step(w, m, e);
      if Accepts(w, m, e) { MoreGrants(w, m.disk, m.grants, n.grants[|m.grants|]); }
    }
  }

  lemma {:induction false} RunKeepsGood(w: World, m: Machine, events: seq<Event>)
    requires GoodMachine(w, m) && forall e :: e in events ==> !EmptyRefusal(e)
    ensures GoodMachine(w, Run(w, m, events))
    decreases |events|
  {
    if events != [] {
      StepKeepsGood(w, m, events[0]);
      RunKeepsGood(w, Step(w, m, events[0]), events[1..]);
    }
  }

  /** The cached token is not checked on a start, or passes. */
  predicate CachedTokenOk(w: World, disk: State) {
    Blank(disk.token) || Blank(disk.publicKey) ||
    (w.keyOk(disk.publicKey) && Signed(w, disk.token, disk.publicKey).Some?)
  }

  lemma RebuiltIsSame(w: World, st: State, grants: seq<Grant>)
    requires Good(w, st, grants) && st.pending == "" && st.token != "" && w.payload(st.token).Some?
    ensures Rebuilt(st, w.payload(st.token).value) == st
  {
    var g :| g in grants && Repeats(w, st, g);
    assert Rebuilt(st, g.claims) == st;
  }

  /** As long as every refusal had a code, a restart permits exactly what the saved state permits, if its
      token still verifies. */
  lemma RestartPermitsIff(w: World, m: Machine, t: int)
    requires Good(w, m.disk, m.grants)
    ensures Allowed(w, Step(w, m, Restart(true)).mem, t) <==> Allowed(w, m.disk, t) && CachedTokenOk(w, m.disk)
  {
    LoadedCases(w, m.disk);
    if m.disk.pending == "" && m.disk.token != "" && w.payload(m.disk.token).Some? { RebuiltIsSame(w, m.disk, m.grants); }
  }

  /** A restart finds a saved state that permits `lost`, although memory did not. */
  predicate StaleRestart(w: World, m: Machine, e: Event, lost: int) {
    e == Restart(true) && !Allowed(w, m.mem, lost) && Allowed(w, m.disk, lost) && CachedTokenOk(w, m.disk)
  }

  lemma {:induction false} RunAppend(w: World, m: Machine, a: seq<Event>, b: seq<Event>)
    ensures Run(w, m, a + b) == Run(w, Run(w, m, a), b)
    decreases |a|
  {
    if a == [] {
      assert a + b == b;
    } else {
      assert (a + b)[0] == a[0] && (a + b)[1..] == a[1..] + b;
      RunAppend(w, Step(w, m, a[0]), a[1..], b);
    }
  }

  lemma {:induction false} GrantsGrow(w: World, m: Machine, events: seq<Event>)
    ensures |Run(w, m, events).grants| >= |m.grants|
    decreases |events|
  {
    if events != [] { GrantsGrow(w, Step(w, m, events[0]), events[1..]); }
  }

  lemma AcceptedInBetween(w: World, m: Machine, events: seq<Event>, i: nat)
    requires i < |events| && Accepts(w, Run(w, m, events[..i]), events[i])
    ensures |Run(w, m, events).grants| > |m.grants|
  {
    GrantsGrow(w, m, events[..i]);
    RunAppend(w, m, events[..i], events[i..]);
    assert events[..i] + events[i..] == events;
    assert events[i..][0] == events[i];
    GrantsGrow(w, Step(w, Run(w, m, events[..i]), events[i]), events[i..][1..]);
  }

  /** With every refusal carrying a code, and saves failing freely: permission once lost comes back only
      with another accepted token, or at a restart that finds an older state saved. */
  lemma LostUntilAccepted(w: World, m: Machine, events: seq<Event>, lost: int, later: int)
    requires GoodMachine(w, m) && forall e :: e in events ==> !EmptyRefusal(e)
    requires lost <= later && !Allowed(w, m.mem, lost)
    ensures Allowed(w, Run(w, m, events).mem, later) ==>
      || |Run(w, m, events).grants| > |m.grants|
      || exists i :: 0 <= i < |events| && StaleRestart(w, Run(w, m, events[..i]), events[i], lost)
  {
    PermissionReturnsOnlyBy(w, m, events, lost, later);
    if Allowed(w, Run(w, m, events).mem, later) {
      var i :| 0 <= i < |events| && BringsBack(w, Run(w, m, events[..i]), events[i], lost);
      var n := Run(w, m, events[..i]);
      if Accepts(w, n, events[i]) {
        AcceptedInBetween(w, m, events, i);
      } else {
        assert forall e :: e in events[..i] ==> e in events;
        assert events[i] in events;
        RunKeepsGood(w, m, events[..i]);
        RestartPermitsIff(w, n, lost);
        assert StaleRestart(w, n, events[i], lost);
      }
    }
  }

  lemma RefusedIsNotAllowed(w: World, m: Machine, e: Event, t: int)
    requires KeyOf(m, e) != "" && !e.Restart? && e.call.reply.Refused? && e.call.reply.error != ""
    ensures !Allowed(w, Step(w, m, e).mem, t) && Step(w, m, e).grants == m.grants
  {
    assert Step(w, m, e).mem.pending == e.call.reply.error;
  }

  /** A refusal with a code, whatever the code, saved or not, and also for a mistyped key, revokes
      permission at every time until another token is accepted or such a restart. */
  lemma RevokedUntilAccepted(w: World, m: Machine, e: Event, events: seq<Event>, t: int)
    requires GoodMachine(w, m) && KeyOf(m, e) != "" && !e.Restart? && e.call.reply.Refused? && e.call.reply.error != ""
    requires forall e :: e in events ==> !EmptyRefusal(e)
    ensures !Allowed(w, Step(w, m, e).mem, t)
    ensures Allowed(w, Run(w, Step(w, m, e), events).mem, t) ==>
      || |Run(w, Step(w, m, e), events).grants| > |m.grants|
      || exists i :: 0 <= i < |events| && StaleRestart(w, Run(w, Step(w, m, e), events[..i]), events[i], t)
  {
    StepKeepsGood(w, m, e);
    RefusedIsNotAllowed(w, m, e, t);
    LostUntilAccepted(w, Step(w, m, e), events, t, t);
  }

  /** The memory holds what was saved, or what was loaded from it. */
  predicate Steady(w: World, m: Machine) {
    m.disk == m.mem || m.mem == Loaded(w, m.disk)
  }

  predicate Saved(e: Event) {
    if e.Restart? then e.readable else !e.call.save.Kept?
  }

  /** A restart in a steady state brings nothing back. */
  lemma SteadyIsNotStale(w: World, m: Machine, e: Event, lost: int)
    requires GoodMachine(w, m) && Steady(w, m)
    ensures !StaleRestart(w, m, e, lost)
  {
    RestartPermitsIff(w, m, lost);
  }

  lemma {:induction false} RunKeepsSteady(w: World, m: Machine, events: seq<Event>)
    requires Steady(w, m) && forall e :: e in events ==> Saved(e)
    ensures Steady(w, Run(w, m, events))
    decreases |events|
  {
    if events != [] {
      StepKeepsSteady(w, m, events[0]);
      RunKeepsSteady(w, Step(w, m, events[0]), events[1..]);
    }
  }

  lemma StepKeepsSteady(w: World, m: Machine, e: Event)
    requires Steady(w, m) && Saved(e)
    ensures Steady(w, Step(w, m, e))
  {
  }

  /** So a run in which every restart comes in a steady state, as when no save and no read fails, brings
      permission back with a token only. */
  lemma SteadyRestartsNeedAToken(w: World, m: Machine, events: seq<Event>, lost: int, later: int)
    requires GoodMachine(w, m) && forall e :: e in events ==> !EmptyRefusal(e)
    requires forall i :: 0 <= i < |events| && events[i].Restart? ==> Steady(w, Run(w, m, events[..i]))
    requires lost <= later && !Allowed(w, m.mem, lost)
    ensures Allowed(w, Run(w, m, events).mem, later) ==> |Run(w, m, events).grants| > |m.grants|
  {
    LostUntilAccepted(w, m, events, lost, later);
    forall i | 0 <= i < |events| && events[i].Restart? ensures !StaleRestart(w, Run(w, m, events[..i]), events[i], lost) {
      assert forall e :: e in events[..i] ==> e in events;
      RunKeepsGood(w, m, events[..i]);
      SteadyIsNotStale(w, Run(w, m, events[..i]), events[i], lost);
    }
  }

  /** An unsaved revocation does come back: the server refuses with a code, the state cannot be saved,
      and after a restart the panel runs on the older state. */
  lemma UnsavedRevocationComesBack(w: World, m: Machine, e: Event, t: int)
    requires Good(w, m.mem, m.grants) && m.disk == m.mem && Allowed(w, m.mem, t) && CachedTokenOk(w, m.disk)
    requires KeyOf(m, e) != "" && !e.Restart? && e.call.save.Kept? && e.call.reply.Refused? && e.call.reply.error != ""
    ensures !Allowed(w, Step(w, m, e).mem, t) && StaleRestart(w, Step(w, m, e), Restart(true), t)
    ensures Allowed(w, Step(w, Step(w, m, e), Restart(true)).mem, t) && Step(w, Step(w, m, e), Restart(true)).grants == m.grants
  {
    assert Step(w, m, e).mem.pending == e.call.reply.error;
    assert Step(w, m, e).disk == m.disk && Step(w, m, e).grants == m.grants;
    RestartPermitsIff(w, Step(w, m, e), t);
  }

  lemma NormalizedEmptyIff(key: string)
    ensures NormalizeKey(key) == "" <==> Blank(key)
    ensures Blank(NormalizeKey(key)) ==> Blank(key)
  {
    BlankIffTrimmed(key);
    var t, n := TrimSpace(key), NormalizeKey(key);
    assert |n| == |t|;
    if t != "" {
      assert !IsSpace(t[0]) && n[0] == Upper(t[0]);
      UpperKeepsSpace(t[0]);
    }
  }

  /** The key the server is asked about is the one entered without the space around it, in capitals. */
  lemma NormalizedIs(key: string)
    ensures var t, n := TrimSpace(key), NormalizeKey(key);
      && |n| == |t|
      && forall i :: 0 <= i < |n| ==> !('a' <= n[i] <= 'z') && (n[i] == t[i] || (n[i] as int == t[i] as int - 32 && 'a' <= t[i] <= 'z'))
  {
  }

  lemma UpperKeepsSpace(c: char)
    ensures IsSpace(Upper(c)) <==> IsSpace(c)
  {
  }

  function FirstCall(token: string, publicKey: string, now: int): Call {
    Call(Granted(token), Some(publicKey), None, now, Done)
  }

  lemma FirstAnswer(w: World, k: string, token: string, publicKey: string, claims: Claims, now: int)
    requires w.keyOk(publicKey) && w.sigOk(token, publicKey) && w.payload(token) == Some(claims)
    requires ValidClaims(w, claims, now) && now == claims.issuedAt > 0
    ensures Accepted(w, FRESH, FirstCall(token, publicKey, now)) == Some(claims)
    ensures Asked(w, FRESH, k, true, FirstCall(token, publicKey, now)) == State(k, token, claims, publicKey, now, "", 0)
  {
    assert Blank(FRESH.publicKey);
    assert WithKey(w, FRESH, false, Some(publicKey)) == (FRESH.(publicKey := publicKey), true);
  }

  lemma ActivatedIsGood(w: World, st: State, now: int)
    requires !Blank(st.licenseKey) && w.keyOk(st.publicKey) && Signed(w, st.token, st.publicKey) == Some(st.claims)
    requires ValidClaims(w, st.claims, now) && now == st.claims.issuedAt == st.lastVerified > 0 && st.pending == ""
    ensures Good(w, st, [Grant(st.token, st.claims, VerifiedAt(st), st.publicKey)]) && Allowed(w, st, now) && CachedTokenOk(w, st)
  {
    var g := Grant(st.token, st.claims, VerifiedAt(st), st.publicKey);
    assert g in [g] && Repeats(w, st, g);
  }

  lemma FirstActivation(w: World, key: string, token: string, publicKey: string, claims: Claims, now: int) returns (m: Machine)
    requires !Blank(key) && w.keyOk(publicKey) && w.sigOk(token, publicKey) && w.payload(token) == Some(claims)
    requires ValidClaims(w, claims, now) && now == claims.issuedAt > 0
    ensures m == Step(w, Machine(FRESH, FRESH, []), Activate(key, FirstCall(token, publicKey, now)))
    ensures m.disk == m.mem && m.mem == State(NormalizeKey(key), token, claims, publicKey, now, "", 0)
    ensures m.grants == [Grant(token, claims, now, publicKey)]
  {
    NormalizedEmptyIff(key);
    FirstAnswer(w, NormalizeKey(key), token, publicKey, claims, now);
    m := Step(w, Machine(FRESH, FRESH, []), Activate(key, FirstCall(token, publicKey, now)));
  }

  lemma SuspendedThenRestarted(w: World, m: Machine, e: Event, now: int) returns (suspended: Machine, restarted: Machine)
    requires Good(w, m.mem, m.grants) && m.disk == m.mem && Allowed(w, m.mem, now) && CachedTokenOk(w, m.disk)
    requires e.Verify? && e.call.save.Kept? && e.call.reply.Refused? && e.call.reply.error != ""
    ensures suspended == Step(w, m, e) && restarted == Step(w, suspended, Restart(true))
    ensures !Allowed(w, suspended.mem, now) && Allowed(w, restarted.mem, now) && restarted.grants == m.grants
  {
    NormalizedEmptyIff(m.mem.licenseKey);
    suspended := Step(w, m, e);
    restarted := Step(w, suspended, Restart(true));
    UnsavedRevocationComesBack(w, m, e, now);
  }

  /** A run from a fresh installation that ends this way, for every key and valid token: activation, a
      suspension that could not be written down, a restart. */
  lemma SuspensionCanBeLost(w: World, key: string, token: string, publicKey: string, claims: Claims, now: int, e: Event)
      returns (activated: Machine, suspended: Machine, restarted: Machine)
    requires !Blank(key) && w.keyOk(publicKey) && w.sigOk(token, publicKey) && w.payload(token) == Some(claims)
    requires ValidClaims(w, claims, now) && now == claims.issuedAt > 0
    requires e == Verify(Call(Refused("license_suspended", 0, 0), None, None, now, Kept))
    ensures activated == Step(w, Machine(FRESH, FRESH, []), Activate(key, FirstCall(token, publicKey, now)))
    ensures suspended == Step(w, activated, e) && restarted == Step(w, suspended, Restart(true))
    ensures Allowed(w, activated.mem, now) && !Allowed(w, suspended.mem, now) && Allowed(w, restarted.mem, now)
    ensures |restarted.grants| == |activated.grants| == 1
  {
    activated := FirstActivation(w, key, token, publicKey, claims, now);
    NormalizedEmptyIff(key);
    ActivatedIsGood(w, activated.mem, now);
    suspended, restarted := SuspendedThenRestarted(w, activated, e, now);
  }

  lemma KeyIsNotBlank(key: string)
    ensures NormalizeKey(key) != "" ==> !Blank(NormalizeKey(key))
  {
    NormalizedEmptyIff(key);
  }

  lemma AskedRefused(w: World, m: Machine, e: Event)
    requires KeyOf(m, e) != "" && !e.Restart? && e.call.reply.Refused?
    ensures Step(w, m, e).mem == Remembered(m.mem, KeyOf(m, e), e.call.reply) && Step(w, m, e).grants == m.grants
    ensures !Accepts(w, m, e) && !Blank(KeyOf(m, e))
  {
    KeyIsNotBlank(if e.Activate? then e.key else m.mem.licenseKey);
  }

  lemma RefusedStaysLicensed(w: World, st: State, key: string, r: Reply, t: int)
    requires Allowed(w, st, t) && !Blank(key) && r.Refused? && r.error != ""
    ensures Licensed(w, Remembered(st, key, r)) && !Allowed(w, Remembered(st, key, r), t)
    ensures VerifiedAt(Remembered(st, key, r)) == VerifiedAt(st)
  {
  }

  lemma TwoSteps(w: World, m: Machine, a: Event, b: Event)
    ensures Run(w, m, [a, b]) == Step(w, Step(w, m, a), b)
  {
    assert [a, b][1..] == [b] && [b][1..] == [];
    assert Run(w, Step(w, m, a), [b]) == Run(w, Step(w, Step(w, m, a), b), []);
  }

  /** A run that ends in a state `EmptyRefusalReturnsIff` speaks of: wherever permission was there, a refusal
      with a code takes it away, and a second one without a code brings it back, up to the expiry last
      heard of and without any token. */
  lemma EmptyRefusalUndoesACodedOne(w: World, m: Machine, coded: Event, empty: Event, t: int)
    requires Allowed(w, m.mem, t)
    requires KeyOf(m, coded) != "" && !coded.Restart? && coded.call.reply.Refused? && coded.call.reply.error != ""
    requires EmptyRefusal(empty) && KeyOf(Step(w, m, coded), empty) != ""
    ensures !Allowed(w, Step(w, m, coded).mem, t)
    ensures Run(w, m, [coded, empty]).grants == m.grants
    ensures Allowed(w, Run(w, m, [coded, empty]).mem, t) <==> t < ExpiryAfter(Step(w, m, coded).mem, empty.call.reply)
  {
    var n := Step(w, m, coded);
    AskedRefused(w, m, coded);
    RefusedStaysLicensed(w, m.mem, KeyOf(m, coded), coded.call.reply, t);
    AskedRefused(w, n, empty);
    StepGivesIff(w, n, empty, t);
    TwoSteps(w, m, coded, empty);
  }

  // ---------------------------------------------------------------- the manager

  class Manager {
    const w: World
    var state: State
    var disk: State

    constructor (w: World, disk: State, readable: bool)
      ensures this.w == w && this.disk == disk && state == if readable then Loaded(w, disk) else FRESH
    {
      this.w := w;
      this.disk := disk;
      state := if readable then Loaded(w, disk) else FRESH;
    }

    method Write(save: Save)
      modifies this`disk
      ensures disk == if save.Kept? then old(disk) else state
    {
      if !save.Kept? { disk := state; }
    }

    method RememberServerError(key: string, r: Reply, save: Save)
      requires r.Refused?
      modifies this
      ensures state == Remembered(old(state), key, r) && disk == if save.Kept? then old(disk) else state
      ensures state.licenseKey == if r.error in {"", "invalid_license"} then old(state).licenseKey else key
      ensures state.pending == r.error && state.startsAt == r.startsAt
      ensures state.claims == old(state).claims.(expiresAt := if r.expiresAt > 0 then r.expiresAt else old(state).claims.expiresAt)
      ensures state.token == old(state).token && state.publicKey == old(state).publicKey && state.lastVerified == old(state).lastVerified
    {
      if r.error != "" && r.error != "invalid_license" { state := state.(licenseKey := key); }
      state := state.(pending := r.error);
      state := state.(startsAt := r.startsAt);
      if r.expiresAt > 0 { state := state.(claims := state.claims.(expiresAt := r.expiresAt)); }
      Write(save);
    }

    method PublicKey(force: bool, fetched: Option<string>) returns (ok: bool)
      modifies this`state
      ensures (state, ok) == WithKey(w, old(state), force, fetched)
    {
      if !force && !Blank(state.publicKey) {
        if w.keyOk(state.publicKey) { return true; }
      }
      if fetched.None? { return false; }
      if !w.keyOk(fetched.value) { return false; }
      state := state.(publicKey := fetched.value);
      ok := true;
    }

    method CheckToken(token: string, first: Option<string>, second: Option<string>) returns (claims: Option<Claims>)
      modifies this`state
      ensures (state, claims) == VerifyToken(w, old(state), token, first, second)
    {
      var ok := PublicKey(false, first);
      if ok {
        claims := Signed(w, token, state.publicKey);
        if claims.Some? { return; }
      }
      ok := PublicKey(true, second);
      claims := if ok then Signed(w, token, state.publicKey) else None;
    }

    /** `activate`, and `verify` when `store` is false; they treat the reply alike. */
    method Ask(key: string, store: bool, c: Call) returns (ok: bool)
      modifies this
      ensures state == Asked(w, old(state), key, store, c)
      ensures disk == if c.save.Kept? then old(disk) else state
      ensures ok <==> Accepted(w, old(state), c).Some? && c.save.Done?
    {
      ok := false;
      match c.reply {
        case Unreachable =>
          Write(c.save);
        case Refused(_, _, _) =>
          RememberServerError(key, c.reply, c.save);
        case Granted(token) =>
          var claims := CheckToken(token, c.first, c.second);
          if claims.None? || !ValidClaims(w, claims.value, c.answered) { Write(c.save); return; }
          var verifiedAt := claims.value.issuedAt;
          if verifiedAt <= 0 { verifiedAt := c.answered; }
          if store { state := state.(licenseKey := key); }
          state := state.(token := token, claims := claims.value);
          state := state.(lastVerified := verifiedAt, pending := "", startsAt := 0);
          Write(c.save);
          ok := c.save.Done?;
      }
    }

    method Activate(key: string, c: Call, ghost grants: seq<Grant>) returns (ok: bool)
      modifies this
      ensures Step(w, Machine(old(state), old(disk), grants), Event.Activate(key, c)).(grants := grants) == Machine(state, disk, grants)
      ensures ok <==> Accepts(w, Machine(old(state), old(disk), grants), Event.Activate(key, c)) && c.save.Done?
    {
      var k := NormalizeKey(key);
      if k == "" { return false; }
      ok := Ask(k, true, c);
    }

    /** Succeeds also when the server is unreachable and the offline grace still runs. */
    method Verify(c: Call, ghost grants: seq<Grant>) returns (ok: bool)
      modifies this
      ensures Step(w, Machine(old(state), old(disk), grants), Event.Verify(c)).(grants := grants) == Machine(state, disk, grants)
      ensures ok <==>
        && NormalizeKey(old(state).licenseKey) != ""
        && (if c.reply.Unreachable? then Allowed(w, state, c.answered) else Accepted(w, old(state), c).Some? && c.save.Done?)
    {
      var k := NormalizeKey(state.licenseKey);
      if k == "" { return false; }
      ok := Ask(k, false, c);
      if c.reply.Unreachable? { ok := Allowed(w, state, c.answered); }
    }
  }
}
