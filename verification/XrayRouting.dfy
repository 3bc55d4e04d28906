/** Per-client speed limits as a rewrite of the Xray config: generated outbounds and routing rules
    are stripped, the operator's rules are classified, and one marked outbound and one rule per
    limited client are injected. Rules are evaluated first match wins. */
module XrayRouting {
  import opened Wrappers
  import opened Filters
  import opened Text
  import opened XrayMarks

  /** The members of a JSON object that are copied and never inspected. */
  type Json = string

  datatype Sockopt = Sockopt(mark: Option<int>, rest: Json)
  datatype Stream = Stream(sockopt: Option<Sockopt>, rest: Json)

  /** `tag` and `outboundTag` are None when missing or not a string. */
  datatype Outbound = Outbound(tag: Option<string>, protocol: string, stream: Option<Stream>, rest: Json)
  datatype Rule =
    | Rule(outboundTag: Option<string>, users: Option<seq<string>>, inbounds: Option<seq<string>>, rest: Option<Json>)
    | NotAnObject(text: Json)

  datatype Routing = Routing(rules: Option<seq<Rule>>, rest: Json)

  // ---------------------------------------------------------------- semantics

  datatype Connection = Connection(user: string, inbound: string, rest: string)

  /** Decides the conditions of a rule that the rewrite never looks at (domain, ip, port, ...). */
  type Oracle = (Json, Connection) -> bool

  predicate Matches(r: Rule, c: Connection, o: Oracle) {
    && r.Rule?
    && (r.users.Some? ==> c.user in r.users.value)
    && (r.inbounds.Some? ==> c.inbound in r.inbounds.value)
    && (r.rest.Some? ==> o(r.rest.value, c))
  }

  function FirstMatch(rules: seq<Rule>, c: Connection, o: Oracle): Option<Rule> {
    if rules == [] then None
    else if Matches(rules[0], c, o) then Some(rules[0])
    else FirstMatch(rules[1..], c, o)
  }

  function ByTag(outbounds: seq<Outbound>, tag: string): Option<Outbound> {
    if outbounds == [] then None
    else if outbounds[0].tag == Some(tag) then Some(outbounds[0])
    else ByTag(outbounds[1..], tag)
  }

  /** The outbound a connection leaves through: the one its rule names, or the first one when no
      rule matches. None when the rule names none (a balancer, or the internal api). */
  function Egress(outbounds: seq<Outbound>, rules: seq<Rule>, c: Connection, o: Oracle): Option<Outbound> {
    match FirstMatch(rules, c, o)
    case None => if outbounds == [] then None else Some(outbounds[0])
    case Some(r) => if r.NotAnObject? || r.outboundTag.None? then None else ByTag(outbounds, r.outboundTag.value)
  }

  // ---------------------------------------------------------------- the rewrite

  const SPEED_TAG := "4xui-speed-"

  function TagText(tag: Option<string>): string {
    if tag.Some? then tag.value else ""
  }

  function TargetText(r: Rule): string {
    if r.Rule? then TagText(r.outboundTag) else ""
  }

  predicate Generated(tag: string) {
    SPEED_TAG <= tag
  }

  /** An outbound or rule of the operator's, not one of an earlier injection. */
  predicate OwnOutbound(o: Outbound) {
    !Generated(TagText(o.tag))
  }

  predicate OwnRule(r: Rule) {
    !Generated(TargetText(r))
  }

  function CleanOutbounds(s: seq<Outbound>): seq<Outbound> {
    Filter(s, OwnOutbound)
  }

  function CleanRules(s: seq<Rule>): seq<Rule> {
    Filter(s, OwnRule)
  }

  function FindFreedom(s: seq<Outbound>): Option<Outbound> {
    if s == [] then None
    else if s[0].protocol == "freedom" then Some(s[0])
    else FindFreedom(s[1..])
  }

  /** What each marked outbound is cloned from: the first freedom outbound, or a synthesized one. */
  function Base(s: seq<Outbound>): (b: Outbound)
    ensures b.protocol == "freedom" && b.tag == None
  {
    match FindFreedom(s)
    case Some(f) => FreedomIsFreedom(s); f.(tag := None)
    case None => Outbound(None, "freedom", None, "settings:{}")
  }

  lemma {:induction false} FreedomIsFreedom(s: seq<Outbound>)
    ensures FindFreedom(s).Some? ==> FindFreedom(s).value.protocol == "freedom"
  {
    if s != [] { FreedomIsFreedom(s[1..]); }
  }

  function BlockTags(s: seq<Outbound>): set<string> {
    {"block", "blocked"} + set b | b in s && b.protocol == "blackhole" && TagText(b.tag) != "" :: TagText(b.tag)
  }

  datatype Kind = Api | Block | Ordinary

  function KindOf(r: Rule, blockTags: set<string>): Kind {
    if TargetText(r) == "api" then Api
    else if TargetText(r) in blockTags then Block
    else Ordinary
  }

  function OfKind(rules: seq<Rule>, k: Kind, blockTags: set<string>): seq<Rule> {
    Filter(rules, r => KindOf(r, blockTags) == k)
  }

  function SpeedTag(mark: int): string {
    SPEED_TAG + Hex(mark)
  }

  function SpeedOutbound(base: Outbound, l: Limit): Outbound {
    var stream := if base.stream.Some? then base.stream.value else Stream(None, "");
    var sockopt := if stream.sockopt.Some? then stream.sockopt.value else Sockopt(None, "");
    base.(tag := Some(SpeedTag(l.mark)),
          stream := Some(stream.(sockopt := Some(sockopt.(mark := Some(l.mark))))))
  }

  function SpeedRule(l: Limit): Rule {
    Rule(Some(SpeedTag(l.mark)), Some([l.email]), None, None)
  }

  function SpeedOutbounds(base: Outbound, limits: seq<Limit>): (s: seq<Outbound>)
    ensures |s| == |limits| && forall i :: 0 <= i < |s| ==> s[i] == SpeedOutbound(base, limits[i])
  {
    seq(|limits|, i requires 0 <= i < |limits| => SpeedOutbound(base, limits[i]))
  }

  function SpeedRules(limits: seq<Limit>): (s: seq<Rule>)
    ensures |s| == |limits| && forall i :: 0 <= i < |s| ==> s[i] == SpeedRule(limits[i])
  {
    seq(|limits|, i requires 0 <= i < |limits| => SpeedRule(limits[i]))
  }

  function RulesOf(r: Routing): seq<Rule> {
    if r.rules.Some? then r.rules.value else []
  }

  function InjectOutbounds(outbounds: seq<Outbound>, limits: seq<Limit>): seq<Outbound> {
    var clean := CleanOutbounds(outbounds);
    clean + SpeedOutbounds(Base(clean), limits)
  }

  function InjectRules(outbounds: seq<Outbound>, rules: seq<Rule>, limits: seq<Limit>): seq<Rule> {
    var clean := CleanRules(rules);
    var tags := BlockTags(CleanOutbounds(outbounds));
    if limits == [] then clean
    else OfKind(clean, Api, tags) + OfKind(clean, Block, tags) + SpeedRules(limits) + OfKind(clean, Ordinary, tags)
  }

  // ---------------------------------------------------------------- the imperative form

  /** A raw JSON member of the config: empty, not parseable as the expected shape, or parsed.
      A JSON `null` parses to the empty value. */
  datatype Document<T> = Absent | Malformed | Parsed(value: T)

  datatype InjectError = BadOutbounds | BadRouting

  lemma CleanOutboundStep(kept: seq<Outbound>, outbounds: seq<Outbound>, i: nat)
    requires i < |outbounds|
    ensures kept + CleanOutbounds(outbounds[i..]) ==
      kept + (if OwnOutbound(outbounds[i]) then [outbounds[i]] else []) + CleanOutbounds(outbounds[i + 1..])
  {
    FilterStep(outbounds, OwnOutbound, i);
  }

  method FilterOutbounds(outbounds: seq<Outbound>) returns (kept: seq<Outbound>)
    ensures kept == CleanOutbounds(outbounds)
  {
    kept := [];
    for i := 0 to |outbounds|
      invariant kept + CleanOutbounds(outbounds[i..]) == CleanOutbounds(outbounds)
    {
      CleanOutboundStep(kept, outbounds, i);
      if !Generated(TagText(outbounds[i].tag)) {
        kept := kept + [outbounds[i]];
      }
    }
  }

  method FindBase(outbounds: seq<Outbound>) returns (base: Outbound)
    ensures base == Base(outbounds)
  {
    base := Outbound(None, "freedom", None, "settings:{}");
    var i := 0;
    while i < |outbounds|
      invariant 0 <= i <= |outbounds|
      invariant FindFreedom(outbounds[i..]) == FindFreedom(outbounds)
    {
      assert outbounds[i..][1..] == outbounds[i + 1..];
      if outbounds[i].protocol == "freedom" {
        return outbounds[i].(tag := None);
      }
      i := i + 1;
    }
  }

  method CollectBlockTags(outbounds: seq<Outbound>) returns (tags: set<string>)
    ensures tags == BlockTags(outbounds)
  {
    tags := {"block", "blocked"};
    for i := 0 to |outbounds|
      invariant tags == BlockTags(outbounds[..i])
    {
      assert outbounds[..i + 1] == outbounds[..i] + [outbounds[i]];
      if outbounds[i].protocol == "blackhole" && TagText(outbounds[i].tag) != "" {
        tags := tags + {TagText(outbounds[i].tag)};
      }
    }
    assert outbounds[..|outbounds|] == outbounds;
  }

  lemma CleanStep(kept: seq<Rule>, rules: seq<Rule>, i: nat)
    requires i < |rules|
    ensures kept + CleanRules(rules[i..]) == kept + (if OwnRule(rules[i]) then [rules[i]] else []) + CleanRules(rules[i + 1..])
  {
    FilterStep(rules, OwnRule, i);
  }

  method FilterRules(rules: seq<Rule>) returns (kept: seq<Rule>)
    ensures kept == CleanRules(rules)
  {
    kept := [];
    for i := 0 to |rules|
      invariant kept + CleanRules(rules[i..]) == CleanRules(rules)
    {
      CleanStep(kept, rules, i);
      if !Generated(TargetText(rules[i])) {
        kept := kept + [rules[i]];
      }
    }
  }

  lemma OfKindStep(rules: seq<Rule>, i: nat, k: Kind, tags: set<string>)
    requires i < |rules|
    ensures OfKind(rules[i..], k, tags) ==
      (if KindOf(rules[i], tags) == k then [rules[i]] else []) + OfKind(rules[i + 1..], k, tags)
  {
    FilterStep(rules, r => KindOf(r, tags) == k, i);
  }

  /** The rules of a kind found so far and those still to come. */
  ghost predicate Sorting(found: seq<Rule>, rules: seq<Rule>, i: nat, k: Kind, tags: set<string>)
    requires i <= |rules|
  {
    found + OfKind(rules[i..], k, tags) == OfKind(rules, k, tags)
  }

  lemma SortingStep(found: seq<Rule>, rules: seq<Rule>, i: nat, k: Kind, tags: set<string>)
    requires i < |rules| && Sorting(found, rules, i, k, tags)
    ensures Sorting(if KindOf(rules[i], tags) == k then found + [rules[i]] else found, rules, i + 1, k, tags)
  {
    OfKindStep(rules, i, k, tags);
  }

  lemma SortingEnds(found: seq<Rule>, rules: seq<Rule>, k: Kind, tags: set<string>)
    ensures Sorting([], rules, 0, k, tags)
    ensures Sorting(found, rules, |rules|, k, tags) ==> found == OfKind(rules, k, tags)
  {
    assert rules[0..] == rules && rules[|rules|..] == [];
  }

  method Classify(rules: seq<Rule>, tags: set<string>)
    returns (infrastructure: seq<Rule>, blocking: seq<Rule>, existing: seq<Rule>)
    ensures infrastructure == OfKind(rules, Api, tags)
    ensures blocking == OfKind(rules, Block, tags)
    ensures existing == OfKind(rules, Ordinary, tags)
  {
    infrastructure, blocking, existing := [], [], [];
    SortingEnds([], rules, Api, tags);
    SortingEnds([], rules, Block, tags);
    SortingEnds([], rules, Ordinary, tags);
    for i := 0 to |rules|
      invariant Sorting(infrastructure, rules, i, Api, tags)
      invariant Sorting(blocking, rules, i, Block, tags)
      invariant Sorting(existing, rules, i, Ordinary, tags)
    {
      SortingStep(infrastructure, rules, i, Api, tags);
      SortingStep(blocking, rules, i, Block, tags);
      SortingStep(existing, rules, i, Ordinary, tags);
      if TargetText(rules[i]) == "api" {
        infrastructure := infrastructure + [rules[i]];
      } else if TargetText(rules[i]) in tags {
        blocking := blocking + [rules[i]];
      } else {
        existing := existing + [rules[i]];
      }
    }
    SortingEnds(infrastructure, rules, Api, tags);
    SortingEnds(blocking, rules, Block, tags);
    SortingEnds(existing, rules, Ordinary, tags);
  }

  method Generate(base: Outbound, limits: seq<Limit>) returns (outbounds: seq<Outbound>, rules: seq<Rule>)
    ensures outbounds == SpeedOutbounds(base, limits) && rules == SpeedRules(limits)
  {
    outbounds, rules := [], [];
    for i := 0 to |limits|
      invariant outbounds == SpeedOutbounds(base, limits[..i])
      invariant rules == SpeedRules(limits[..i])
    {
      outbounds := outbounds + [SpeedOutbound(base, limits[i])];
      rules := rules + [SpeedRule(limits[i])];
    }
    assert limits[..|limits|] == limits;
  }

  class XrayConfig {
    var outbounds: Document<seq<Outbound>>
    var router: Document<Routing>

    ghost function Outbounds(): seq<Outbound>
      reads this
    {
      if outbounds.Parsed? then outbounds.value else []
    }

    ghost function Router(): Routing
      reads this
    {
      if router.Parsed? then router.value else Routing(None, "")
    }

    /** `injectXrayBandwidthConfig`: marks are assigned even when a document does not parse; the
        config changes only on success. */
    method InjectBandwidth(limits: array<Limit>, h: Hash) returns (r: Result<(), InjectError>)
      modifies this, limits
      ensures limits[..] == Assigned(old(limits[..]), h)
      ensures r == if old(outbounds).Malformed? then Err(BadOutbounds)
                   else if old(router).Malformed? then Err(BadRouting) else Ok(())
      ensures r.Err? ==> outbounds == old(outbounds) && router == old(router)
      ensures r.Ok? ==>
        && outbounds == Parsed(InjectOutbounds(old(Outbounds()), limits[..]))
        && router == Parsed(old(Router()).(rules := Some(InjectRules(old(Outbounds()), RulesOf(old(Router())), limits[..]))))
    {
      AssignMarks(limits, h);
      if outbounds.Malformed? { return Err(BadOutbounds); }
      var outs := FilterOutbounds(if outbounds.Parsed? then outbounds.value else []);
      var base := FindBase(outs);
      if router.Malformed? { return Err(BadRouting); }
      var routing := if router.Parsed? then router.value else Routing(None, "");
      var tags := CollectBlockTags(outs);
      var clean := FilterRules(if routing.rules.Some? then routing.rules.value else []);
      var infrastructure, blocking, existing := [], [], clean;
      if limits.Length != 0 {
        infrastructure, blocking, existing := Classify(clean, tags);
      }
      var speedOutbounds, limitRules := Generate(base, limits[..]);
      var ordered := infrastructure + blocking + limitRules + existing;
      assert limits.Length == 0 ==> ordered == clean;
      assert ordered == InjectRules(old(Outbounds()), RulesOf(old(Router())), limits[..]);
      outbounds := Parsed(outs + speedOutbounds);
      router := Parsed(routing.(rules := Some(ordered)));
      r := Ok(());
    }
  }
}
