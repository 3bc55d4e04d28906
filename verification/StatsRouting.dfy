/** Storing the Xray template: wrapper layers are peeled off, and the rule that routes the panel's
    own stats queries is pinned to the front of the routing rules. */
module StatsRouting {
  import opened Wrappers
  import opened XrayMarks
  import opened XrayRouting
  import opened XrayRoutingLaws

  // ---------------------------------------------------------------- unwrapping

  /** Stored text: either not a JSON object, or an object with an optional `xraySetting` member and
      further top-level keys. */
  datatype Raw =
    | Text(text: string)
    | Object(inner: Option<Inner>, keys: set<string>, body: Json)

  /** The member's value: JSON, a string that holds text, or `null` (which decodes to ""). */
  datatype Inner = Embedded(raw: Raw) | Quoted(raw: Raw) | Null

  const REAL_KEYS := {"inbounds", "outbounds", "routing", "api", "dns", "log", "policy", "stats"}
  const MAX_DEPTH: nat := 8

  predicate IsWrapper(r: Raw) {
    r.Object? && r.inner.Some? && r.keys !! REAL_KEYS
  }

  function Peel(r: Raw): Raw
    requires IsWrapper(r)
  {
    match r.inner.value
    case Embedded(x) => x
    case Quoted(x) => x
    case Null => Text("")
  }

  function Layers(r: Raw): nat {
    if !IsWrapper(r) then 0
    else match r.inner.value
      case Embedded(x) => 1 + Layers(x)
      case Quoted(x) => 1 + Layers(x)
      case Null => 1
  }

  lemma PeelRemovesALayer(r: Raw)
    requires IsWrapper(r)
    ensures Layers(r) == 1 + Layers(Peel(r))
  {
  }

  /** What is left after removing n layers. */
  function Below(r: Raw, n: nat): Raw
    requires n <= Layers(r)
    decreases n
  {
    if n == 0 then r else PeelRemovesALayer(r); Below(Peel(r), n - 1)
  }

  lemma {:induction false} BelowStep(r: Raw, n: nat)
    requires n < Layers(r)
    ensures Layers(Below(r, n)) == Layers(r) - n
    ensures Below(r, n + 1) == Peel(Below(r, n))
    decreases n
  {
    PeelRemovesALayer(r);
    if n > 0 { BelowStep(Peel(r), n - 1); }
  }

  method Unwrap(input: Raw) returns (raw: Raw)
    ensures raw == Below(input, if Layers(input) <= MAX_DEPTH then Layers(input) else MAX_DEPTH)
  {
    raw := input;
    var i := 0;
    while i < MAX_DEPTH
      invariant 0 <= i <= MAX_DEPTH && i <= Layers(input)
      invariant raw == Below(input, i) && Layers(raw) == Layers(input) - i
    {
      if !IsWrapper(raw) { return; }
      BelowStep(input, i);
      PeelRemovesALayer(raw);
      raw := Peel(raw);
      i := i + 1;
    }
  }

  /** The response shape the panel sends out, nested once per entry: true for a layer stored as a
      JSON string, false for one stored as an object. */
  function Wrap(layers: seq<bool>, core: Raw): Raw {
    if layers == [] then core
    else
      var inner := Wrap(layers[1..], core);
      Object(Some(if layers[0] then Quoted(inner) else Embedded(inner)), {"inboundTags", "outboundTestUrl"}, "")
  }

  lemma {:induction false} WrapBelow(layers: seq<bool>, core: Raw, n: nat)
    requires !IsWrapper(core) && n <= |layers|
    ensures Layers(Wrap(layers, core)) == |layers|
    ensures Below(Wrap(layers, core), n) == Wrap(layers[n..], core)
    decreases |layers|
  {
    if layers != [] {
      WrapBelow(layers[1..], core, if n == 0 then 0 else n - 1);
      assert n > 0 ==> layers[1..][n - 1..] == layers[n..];
    }
    assert layers[0..] == layers;
  }

  /** Unwrapping recovers the stored config from any mix of object and string layers exactly when
      there are at most eight; otherwise the layers beyond the eighth remain. */
  lemma UnwrapInvertsWrap(layers: seq<bool>, core: Raw)
    requires !IsWrapper(core)
    ensures var wrapped := Wrap(layers, core);
      var n := if Layers(wrapped) <= MAX_DEPTH then Layers(wrapped) else MAX_DEPTH;
      && (Below(wrapped, n) == core <==> |layers| <= MAX_DEPTH)
      && (|layers| > MAX_DEPTH ==> Below(wrapped, n) == Wrap(layers[MAX_DEPTH..], core))
  {
    var n := if |layers| <= MAX_DEPTH then |layers| else MAX_DEPTH;
    WrapBelow(layers, core, n);
    WrapBelow(layers[n..], core, 0);
  }

  // ---------------------------------------------------------------- the stats rule

  /** A rule for the internal api inbound. `inbounds` holds the strings of `inboundTag`, whether it
      is stored as a list or as a single string. */
  predicate IsApiRule(r: Rule) {
    && r.Rule?
    && TargetText(r) == "api"
    && r.inbounds.Some? && "api" in r.inbounds.value
  }

  /** The first api rule, or the number of rules when there is none. */
  function ApiIndex(rules: seq<Rule>): (i: nat)
    ensures i <= |rules| && (i < |rules| ==> IsApiRule(rules[i]))
    ensures forall j :: 0 <= j < i ==> !IsApiRule(rules[j])
  {
    if rules == [] then 0
    else if IsApiRule(rules[0]) then 0
    else 1 + ApiIndex(rules[1..])
  }

  const DEFAULT_API_RULE := Rule(Some("api"), None, Some(["api"]), None)

  function Pinned(rules: seq<Rule>): (r: seq<Rule>) {
    var i := ApiIndex(rules);
    if i < |rules| then [rules[i]] + rules[..i] + rules[i + 1..] else [DEFAULT_API_RULE] + rules
  }

  datatype RulesMember = NoRules | BadRules(text: Json) | Rules(list: seq<Rule>)
  datatype RoutingMember = NoRouting | BadRouting(text: Json) | RoutingObject(rules: RulesMember, rest: Json)

  /** `inboundsOk` is false when some inbound has a member of another type than the panel reads. */
  datatype Template = NotJson(text: Json) | Template(routing: RoutingMember, inboundsOk: bool, rest: Json)

  function RulesIn(t: Template): seq<Rule> {
    if t.Template? && t.routing.RoutingObject? && t.routing.rules.Rules? then t.routing.rules.list else []
  }

  predicate Parses(t: Template) {
    t.Template? && !t.routing.BadRouting? && (t.routing.RoutingObject? ==> !t.routing.rules.BadRules?)
  }

  method FindApiRule(rules: seq<Rule>) returns (i: int)
    ensures i == if ApiIndex(rules) < |rules| then ApiIndex(rules) else -1
  {
    i := 0;
    while i < |rules|
      invariant 0 <= i <= |rules|
      invariant ApiIndex(rules) == i + ApiIndex(rules[i..])
    {
      assert rules[i..][1..] == rules[i + 1..];
      if TargetText(rules[i]) == "api" && rules[i].Rule? && rules[i].inbounds.Some? {
        var tags := rules[i].inbounds.value;
        for k := 0 to |tags|
          invariant "api" !in tags[..k]
        {
          if tags[k] == "api" { return; }
        }
        assert tags[..|tags|] == tags;
      }
      i := i + 1;
    }
    i := -1;
  }

  /** `EnsureStatsRouting`: the input comes back unchanged when it does not parse or the api rule is
      already first. */
  method EnsureStatsRouting(t: Template) returns (r: Template, ok: bool)
    ensures ok <==> t.Template? && !t.routing.BadRouting? && (t.routing.RoutingObject? ==> !t.routing.rules.BadRules?)
    ensures !ok || (RulesIn(t) != [] && IsApiRule(RulesIn(t)[0])) ==> r == t
    ensures ok && !(RulesIn(t) != [] && IsApiRule(RulesIn(t)[0])) ==>
      r == t.(routing := RoutingObject(Rules(Pinned(RulesIn(t))), if t.routing.RoutingObject? then t.routing.rest else ""))
    ensures ok ==> RulesIn(r) == Pinned(RulesIn(t))
  {
    if !Parses(t) { return t, false; }
    var rules := RulesIn(t);
    var apiIdx := FindApiRule(rules);
    if apiIdx == 0 {
      assert Pinned(rules) == rules;
      return t, true;
    }
    var apiRule := DEFAULT_API_RULE;
    if apiIdx > 0 {
      apiRule := rules[apiIdx];
      rules := rules[..apiIdx] + rules[apiIdx + 1..];
    }
    rules := [apiRule] + rules;
    assert rules == Pinned(RulesIn(t));
    r := t.(routing := RoutingObject(Rules(rules), if t.routing.RoutingObject? then t.routing.rest else ""));
    ok := true;
  }

  lemma PinnedIdempotent(rules: seq<Rule>)
    ensures IsApiRule(Pinned(rules)[0])
    ensures Pinned(Pinned(rules)) == Pinned(rules)
  {
    assert ApiIndex(Pinned(rules)) == 0;
  }

  /** Pinning changes the route of a connection only if the pinned rule matches it. */
  lemma PinnedRoute(rules: seq<Rule>, c: Connection, o: Oracle)
    ensures FirstMatch(Pinned(rules), c, o) ==
      if Matches(Pinned(rules)[0], c, o) then Some(Pinned(rules)[0]) else FirstMatch(rules, c, o)
  {
    var i := ApiIndex(rules);
    var pinned := Pinned(rules);
    if i < |rules| {
      assert pinned[1..] == rules[..i] + rules[i + 1..];
      if !Matches(rules[i], c, o) { RouteWithout(rules, i, c, o); }
    } else {
      assert pinned[1..] == rules;
    }
  }

  /** Leaving out a rule that does not match changes nothing. */
  lemma RouteWithout(rules: seq<Rule>, i: nat, c: Connection, o: Oracle)
    requires i < |rules| && !Matches(rules[i], c, o)
    ensures FirstMatch(rules[..i] + rules[i + 1..], c, o) == FirstMatch(rules, c, o)
  {
    var front, tail, back := rules[..i], rules[i..], rules[i + 1..];
    assert tail[0] == rules[i] && tail[1..] == back;
    assert FirstMatch(tail, c, o) == FirstMatch(back, c, o);
    FirstMatchAppend(front, back, c, o);
    FirstMatchAppend(front, tail, c, o);
    assert front + tail == rules;
  }

  /** However the limits are injected later, the pinned rule is still at index 0, so the connections
      it matches reach the api. */
  lemma StatsRuleSurvivesInjection(
    outs: seq<Outbound>, rules: seq<Rule>, limits: seq<Limit>, c: Connection, o: Oracle)
    ensures var injected := InjectRules(outs, Pinned(rules), limits);
      && injected != [] && injected[0] == Pinned(rules)[0] && IsApiRule(injected[0])
      && (Matches(Pinned(rules)[0], c, o) ==> FirstMatch(injected, c, o) == Some(Pinned(rules)[0]))
  {
    var pinned := Pinned(rules);
    PinnedIdempotent(rules);
    assert !Generated("api");
    assert CleanRules(pinned)[0] == pinned[0];
    var clean := CleanRules(pinned);
    var tags := BlockTags(CleanOutbounds(outs));
    if limits != [] {
      assert OfKind(clean, Api, tags)[0] == clean[0];
    }
  }

  datatype SaveResult = Saved(t: Template) | Rejected

  /** `SaveXraySetting` on the unwrapped template: text that is no config is rejected, also when only an
      inbound has the wrong shape; a template whose rules cannot be read is stored as it is; any other is
      stored pinned. */
  method Save(t: Template) returns (r: SaveResult)
    ensures r.Rejected? <==> t.NotJson? || !t.inboundsOk
    ensures r.Saved? && (t.routing.BadRouting? || (t.routing.RoutingObject? && t.routing.rules.BadRules?)) ==> r.t == t
    ensures r.Saved? && !(t.routing.BadRouting? || (t.routing.RoutingObject? && t.routing.rules.BadRules?)) ==>
      Parses(r.t) && RulesIn(r.t) == Pinned(RulesIn(t))
  {
    if t.NotJson? || !t.inboundsOk { return Rejected; }
    var hoisted, ok := EnsureStatsRouting(t);
    r := Saved(if ok then hoisted else t);
  }

  lemma {:induction false} FirstMatchMatches(rules: seq<Rule>, c: Connection, o: Oracle)
    ensures FirstMatch(rules, c, o).Some? ==> Matches(FirstMatch(rules, c, o).value, c, o)
  {
    if rules != [] { FirstMatchMatches(rules[1..], c, o); }
  }

  function Longest(users: seq<string>): (n: nat)
    ensures forall u :: u in users ==> |u| <= n
  {
    if users == [] then 0
    else
      var n := Longest(users[1..]);
      assert users == [users[0]] + users[1..];
      if |users[0]| > n then |users[0]| else n
  }

  /** A user of none of these names. */
  function Somebody(users: seq<string>): (u: string)
    ensures u !in users
  {
    seq(Longest(users) + 1, _ => 'x')
  }

  /** Whatever else a connection from the api inbound is like, this rule takes it. */
  ghost predicate TakesApi(rules: seq<Rule>, r: Rule) {
    forall c: Connection, o: Oracle :: c.inbound == "api" ==> FirstMatch(rules, c, o) == Some(r)
  }

  lemma SomeIsNotTaken(rules: seq<Rule>, r: Rule, c: Connection, o: Oracle)
    requires c.inbound == "api" && !Matches(r, c, o)
    ensures !TakesApi(rules, r)
  {
    FirstMatchMatches(rules, c, o);
  }

  /** From save to running config: once saved, every connection from the api inbound reaches the api through
      the pinned rule, under any limits, if and only if that rule has no conditions but its inbounds. */
  lemma SavedTemplateServesStats(t: Template, outs: seq<Outbound>, limits: seq<Limit>)
    requires Parses(t)
    ensures var r := Pinned(RulesIn(t))[0];
      IsApiRule(r) && (TakesApi(InjectRules(outs, Pinned(RulesIn(t)), limits), r) <==> r.users.None? && r.rest.None?)
  {
    var r, running := Pinned(RulesIn(t))[0], InjectRules(outs, Pinned(RulesIn(t)), limits);
    PinnedIdempotent(RulesIn(t));
    if r.users.None? && r.rest.None? {
      forall c: Connection, o: Oracle | c.inbound == "api" ensures FirstMatch(running, c, o) == Some(r) {
        StatsRuleSurvivesInjection(outs, RulesIn(t), limits, c, o);
      }
    } else if r.users.Some? {
      SomeIsNotTaken(running, r, Connection(Somebody(r.users.value), "api", ""), (j, k) => false);
    } else {
      SomeIsNotTaken(running, r, Connection("", "api", ""), (j, k) => false);
    }
  }
}
