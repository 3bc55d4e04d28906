/** What the speed-limit rewrite means for connections, and what happens when it is applied to its
    own output. */
module XrayRoutingLaws {
  import opened Wrappers
  import opened Filters
  import opened Text
  import opened XrayMarks
  import opened XrayRouting

  /** The first rule of one kind that matches, in the operator's order. */
  function FirstOf(rules: seq<Rule>, k: Kind, tags: set<string>, c: Connection, o: Oracle): Option<Rule> {
    if rules == [] then None
    else if KindOf(rules[0], tags) == k && Matches(rules[0], c, o) then Some(rules[0])
    else FirstOf(rules[1..], k, tags, c, o)
  }

  function FirstLimit(limits: seq<Limit>, user: string): Option<Limit> {
    if limits == [] then None
    else if limits[0].email == user then Some(limits[0])
    else FirstLimit(limits[1..], user)
  }

  lemma {:induction false} FirstMatchAppend(a: seq<Rule>, b: seq<Rule>, c: Connection, o: Oracle)
    ensures FirstMatch(a + b, c, o) ==
            if FirstMatch(a, c, o).Some? then FirstMatch(a, c, o) else FirstMatch(b, c, o)
  {
    if a == [] {
      assert a + b == b;
    } else {
      assert (a + b)[1..] == a[1..] + b;
      FirstMatchAppend(a[1..], b, c, o);
    }
  }

  lemma {:induction false} FirstMatchOfKind(rules: seq<Rule>, k: Kind, tags: set<string>, c: Connection, o: Oracle)
    ensures FirstMatch(OfKind(rules, k, tags), c, o) == FirstOf(rules, k, tags, c, o)
    ensures FirstOf(rules, k, tags, c, o).Some? ==>
      var r := FirstOf(rules, k, tags, c, o).value; KindOf(r, tags) == k && Matches(r, c, o) && r in rules
  {
    if rules != [] {
      FirstMatchOfKind(rules[1..], k, tags, c, o);
      OfKindStep(rules, 0, k, tags);
      assert rules[0..] == rules;
      FirstMatchAppend(if KindOf(rules[0], tags) == k then [rules[0]] else [], OfKind(rules[1..], k, tags), c, o);
    }
  }

  lemma {:induction false} FirstMatchSpeedRules(limits: seq<Limit>, c: Connection, o: Oracle)
    ensures FirstMatch(SpeedRules(limits), c, o) ==
            match FirstLimit(limits, c.user) { case None => None case Some(l) => Some(SpeedRule(l)) }
  {
    if limits != [] {
      FirstMatchSpeedRules(limits[1..], c, o);
      assert SpeedRules(limits)[1..] == SpeedRules(limits[1..]);
    }
  }

  lemma {:induction false} FirstLimitFinds(limits: seq<Limit>, user: string)
    ensures FirstLimit(limits, user).Some? <==> user in Emails(limits)
    ensures forall i :: 0 <= i < |limits| && limits[i].email == user && DistinctEmails(limits)
              ==> FirstLimit(limits, user) == Some(limits[i])
    ensures FirstLimit(limits, user).Some? ==>
      FirstLimit(limits, user).value in limits && FirstLimit(limits, user).value.email == user
  {
    if limits != [] {
      FirstLimitFinds(limits[1..], user);
      assert Emails(limits) == [limits[0].email] + Emails(limits[1..]);
      if limits[0].email != user {
        forall i | 0 <= i < |limits| && limits[i].email == user && DistinctEmails(limits)
          ensures FirstLimit(limits, user) == Some(limits[i])
        {
          assert limits[i] == limits[1..][i - 1];
        }
      }
    }
  }

  // ---------------------------------------------------------------- routing theorem

  /** With limits in force a connection follows the first matching api rule, else the first matching
      block rule, else its own speed rule, else exactly what the cleaned rules say. */
  lemma RewrittenRoute(outs: seq<Outbound>, rules: seq<Rule>, limits: seq<Limit>, c: Connection, o: Oracle)
    requires limits != []
    ensures FirstMatch(InjectRules(outs, rules, limits), c, o) ==
      var clean := CleanRules(rules);
      var tags := BlockTags(CleanOutbounds(outs));
      if FirstOf(clean, Api, tags, c, o).Some? then FirstOf(clean, Api, tags, c, o)
      else if FirstOf(clean, Block, tags, c, o).Some? then FirstOf(clean, Block, tags, c, o)
      else if FirstLimit(limits, c.user).Some? then Some(SpeedRule(FirstLimit(limits, c.user).value))
      else FirstMatch(clean, c, o)
  {
    var clean := CleanRules(rules);
    var tags := BlockTags(CleanOutbounds(outs));
    var api, block, rest := OfKind(clean, Api, tags), OfKind(clean, Block, tags), OfKind(clean, Ordinary, tags);
    FirstMatchAppend(api + block + SpeedRules(limits), rest, c, o);
    FirstMatchAppend(api + block, SpeedRules(limits), c, o);
    FirstMatchAppend(api, block, c, o);
    FirstMatchOfKind(clean, Api, tags, c, o);
    FirstMatchOfKind(clean, Block, tags, c, o);
    FirstMatchOfKind(clean, Ordinary, tags, c, o);
    FirstMatchSpeedRules(limits, c, o);
    FirstMatchByKind(clean, tags, c, o);
  }

  /** The first match is the first match among the rules of its own kind. */
  lemma {:induction false} FirstMatchByKind(rules: seq<Rule>, tags: set<string>, c: Connection, o: Oracle)
    ensures FirstMatch(rules, c, o).None? <==>
      (FirstOf(rules, Api, tags, c, o).None? && FirstOf(rules, Block, tags, c, o).None? &&
       FirstOf(rules, Ordinary, tags, c, o).None?)
    ensures FirstMatch(rules, c, o).Some? ==>
      FirstOf(rules, KindOf(FirstMatch(rules, c, o).value, tags), tags, c, o) == FirstMatch(rules, c, o)
  {
    if rules != [] {
      FirstMatchByKind(rules[1..], tags, c, o);
      if Matches(rules[0], c, o) {
        assert FirstOf(rules, KindOf(rules[0], tags), tags, c, o) == Some(rules[0]);
      }
    }
  }

  // ---------------------------------------------------------------- which rules come first

  predicate ToApi(r: Rule) {
    r.Rule? && r.outboundTag == Some("api")
  }

  /** The rule names "block", "blocked", or a blackhole outbound of the operator's. */
  ghost predicate ToBlock(outs: seq<Outbound>, r: Rule) {
    && r.Rule? && r.outboundTag.Some? && r.outboundTag.value != "api"
    && (|| r.outboundTag.value == "block"
        || r.outboundTag.value == "blocked"
        || (&& r.outboundTag.value != "" && !("4xui-speed-" <= r.outboundTag.value)
            && exists b :: b in outs && b.protocol == "blackhole" && b.tag == r.outboundTag))
  }

  lemma KindIff(outs: seq<Outbound>, r: Rule)
    ensures KindOf(r, BlockTags(CleanOutbounds(outs))) == Api <==> ToApi(r)
    ensures KindOf(r, BlockTags(CleanOutbounds(outs))) == Block <==> ToBlock(outs, r)
    ensures ToApi(r) || ToBlock(outs, r) ==> OwnRule(r)
  {
    FilterMembers(outs, OwnOutbound);
  }

  /** The rule at this place is the first operator's rule of its kind that matches. */
  ghost predicate FirstAt(rules: seq<Rule>, k: Kind, tags: set<string>, c: Connection, o: Oracle, i: nat) {
    && i < |rules| && OwnRule(rules[i]) && KindOf(rules[i], tags) == k && Matches(rules[i], c, o)
    && forall j :: 0 <= j < i && OwnRule(rules[j]) && KindOf(rules[j], tags) == k ==> !Matches(rules[j], c, o)
  }

  lemma {:induction false} FirstInOrder(rules: seq<Rule>, k: Kind, tags: set<string>, c: Connection, o: Oracle, i: nat)
    requires FirstAt(rules, k, tags, c, o, i)
    ensures FirstOf(CleanRules(rules), k, tags, c, o) == Some(rules[i])
  {
    var head, rest := if OwnRule(rules[0]) then [rules[0]] else [], CleanRules(rules[1..]);
    assert CleanRules(rules) == head + rest;
    if i > 0 {
      FirstInOrder(rules[1..], k, tags, c, o, i - 1);
      assert head != [] ==> (head + rest)[1..] == rest;
      assert head == [] ==> head + rest == rest;
    }
  }

  /** With limits in force the first matching rule to the api wins. */
  lemma ApiRuleWins(outs: seq<Outbound>, rules: seq<Rule>, limits: seq<Limit>, c: Connection, o: Oracle, i: nat)
    requires limits != [] && i < |rules| && ToApi(rules[i]) && Matches(rules[i], c, o)
    requires forall j :: 0 <= j < i && ToApi(rules[j]) ==> !Matches(rules[j], c, o)
    ensures FirstMatch(InjectRules(outs, rules, limits), c, o) == Some(rules[i])
  {
    var tags := BlockTags(CleanOutbounds(outs));
    forall j | 0 <= j <= i ensures KindOf(rules[j], tags) == Api <==> ToApi(rules[j]) { KindIff(outs, rules[j]); }
    KindIff(outs, rules[i]);
    FirstInOrder(rules, Api, tags, c, o, i);
    RewrittenRoute(outs, rules, limits, c, o);
  }

  lemma NoSuchRule(outs: seq<Outbound>, rules: seq<Rule>, c: Connection, o: Oracle)
    ensures (forall r :: r in rules && ToApi(r) ==> !Matches(r, c, o)) ==>
      FirstOf(CleanRules(rules), Api, BlockTags(CleanOutbounds(outs)), c, o).None?
    ensures (forall r :: r in rules && ToBlock(outs, r) ==> !Matches(r, c, o)) ==>
      FirstOf(CleanRules(rules), Block, BlockTags(CleanOutbounds(outs)), c, o).None?
  {
    var tags, clean := BlockTags(CleanOutbounds(outs)), CleanRules(rules);
    FilterMembers(rules, OwnRule);
    FirstMatchOfKind(clean, Api, tags, c, o);
    FirstMatchOfKind(clean, Block, tags, c, o);
    if FirstOf(clean, Api, tags, c, o).Some? { KindIff(outs, FirstOf(clean, Api, tags, c, o).value); }
    if FirstOf(clean, Block, tags, c, o).Some? { KindIff(outs, FirstOf(clean, Block, tags, c, o).value); }
  }

  /** Where none does, the first matching rule to "block", "blocked" or a blackhole outbound wins, wherever
      the operator put it. */
  lemma BlockRuleWins(outs: seq<Outbound>, rules: seq<Rule>, limits: seq<Limit>, c: Connection, o: Oracle, i: nat)
    requires limits != [] && i < |rules| && ToBlock(outs, rules[i]) && Matches(rules[i], c, o)
    requires forall j :: 0 <= j < i && ToBlock(outs, rules[j]) ==> !Matches(rules[j], c, o)
    requires forall r :: r in rules && ToApi(r) ==> !Matches(r, c, o)
    ensures FirstMatch(InjectRules(outs, rules, limits), c, o) == Some(rules[i])
  {
    var tags := BlockTags(CleanOutbounds(outs));
    forall j | 0 <= j <= i ensures KindOf(rules[j], tags) == Block <==> ToBlock(outs, rules[j]) { KindIff(outs, rules[j]); }
    KindIff(outs, rules[i]);
    FirstInOrder(rules, Block, tags, c, o, i);
    NoSuchRule(outs, rules, c, o);
    RewrittenRoute(outs, rules, limits, c, o);
  }

  /** And nothing else comes ahead of a limited client's own rule. */
  lemma OwnRuleIsNext(outs: seq<Outbound>, rules: seq<Rule>, limits: seq<Limit>, c: Connection, o: Oracle)
    requires limits != [] && c.user in Emails(limits)
    requires forall r :: r in rules && (ToApi(r) || ToBlock(outs, r)) ==> !Matches(r, c, o)
    ensures exists l :: l in limits && l.email == c.user && FirstMatch(InjectRules(outs, rules, limits), c, o) == Some(SpeedRule(l))
  {
    NoSuchRule(outs, rules, c, o);
    var l := SpeedRuleTakes(outs, rules, limits, c, o);
  }

  // ---------------------------------------------------------------- unlimited users

  /** Hoisting changes where the connections of unlimited users go. It keeps the rule of such a
      connection exactly when no rule of a kind that is moved ahead of that rule matches as well. */
  lemma UnlimitedRouteKeptIff(outs: seq<Outbound>, rules: seq<Rule>, limits: seq<Limit>, c: Connection, o: Oracle)
    requires limits != [] && c.user !in Emails(limits)
    ensures var clean := CleanRules(rules);
      var tags := BlockTags(CleanOutbounds(outs));
      var before := FirstMatch(clean, c, o);
      FirstMatch(InjectRules(outs, rules, limits), c, o) == before
      <==> (before.None?
            || KindOf(before.value, tags) == Api
            || (FirstOf(clean, Api, tags, c, o).None? &&
                (KindOf(before.value, tags) == Block || FirstOf(clean, Block, tags, c, o).None?)))
  {
    var clean := CleanRules(rules);
    var tags := BlockTags(CleanOutbounds(outs));
    RewrittenRoute(outs, rules, limits, c, o);
    FirstLimitFinds(limits, c.user);
    FirstMatchByKind(clean, tags, c, o);
    FirstMatchOfKind(clean, Api, tags, c, o);
    FirstMatchOfKind(clean, Block, tags, c, o);
  }

  /** Preservation for unlimited users does fail: a block rule placed last wins over an earlier
      ordinary rule once any other client is limited. */
  lemma UnlimitedRouteCanChange(c: Connection, o: Oracle, l: Limit)
    requires c.user != l.email
    ensures exists rules: seq<Rule> ::
      FirstMatch(InjectRules([], rules, [l]), c, o) != FirstMatch(CleanRules(rules), c, o)
  {
    var direct := Rule(Some("direct"), None, Some([c.inbound]), None);
    var block := Rule(Some("block"), None, Some([c.inbound]), None);
    var rules := [direct, block];
    assert OwnRule(direct) && OwnRule(block);
    FilterAll(rules, OwnRule);
    assert rules[1..] == [block];
    var tags := BlockTags(CleanOutbounds([]));
    assert Emails([l]) == [l.email];
    UnlimitedRouteKeptIff([], rules, [l], c, o);
    assert FirstMatch(rules, c, o) == Some(direct);
    assert FirstOf(rules[1..], Block, tags, c, o) == Some(block);
  }

  // ---------------------------------------------------------------- outbounds

  lemma {:induction false} ByTagAppend(a: seq<Outbound>, b: seq<Outbound>, tag: string)
    ensures ByTag(a + b, tag) == if ByTag(a, tag).Some? then ByTag(a, tag) else ByTag(b, tag)
  {
    if a == [] {
      assert a + b == b;
    } else {
      assert (a + b)[1..] == a[1..] + b;
      ByTagAppend(a[1..], b, tag);
    }
  }

  lemma {:induction false} ByTagFinds(s: seq<Outbound>, tag: string)
    ensures ByTag(s, tag).Some? <==> exists i :: 0 <= i < |s| && s[i].tag == Some(tag)
    ensures ByTag(s, tag).Some? ==> ByTag(s, tag).value in s && ByTag(s, tag).value.tag == Some(tag)
  {
    if s != [] {
      ByTagFinds(s[1..], tag);
      if i :| 0 <= i < |s| && s[i].tag == Some(tag) && i > 0 {
        assert s[1..][i - 1].tag == Some(tag);
      }
    }
  }

  lemma SpeedTagInjective(m: int, n: int)
    requires m >= 0 && n >= 0 && SpeedTag(m) == SpeedTag(n)
    ensures m == n
  {
    assert SpeedTag(m)[|SPEED_TAG|..] == Hex(m) && SpeedTag(n)[|SPEED_TAG|..] == Hex(n);
    HexInjective(m, n);
  }

  ghost predicate DistinctMarks(limits: seq<Limit>) {
    && (forall i :: 0 <= i < |limits| ==> limits[i].mark >= 0)
    && (forall i, j :: 0 <= i < j < |limits| ==> limits[i].mark != limits[j].mark)
  }

  lemma {:induction false} SpeedTagResolves(base: Outbound, limits: seq<Limit>, l: Limit)
    requires DistinctMarks(limits) && l in limits
    ensures ByTag(SpeedOutbounds(base, limits), SpeedTag(l.mark)) == Some(SpeedOutbound(base, l))
  {
    var s := SpeedOutbounds(base, limits);
    assert s[1..] == SpeedOutbounds(base, limits[1..]);
    if limits[0] != l {
      var i :| 0 <= i < |limits| && limits[i] == l;
      assert limits[0].mark != limits[i].mark && limits[1..][i - 1] == l;
      if SpeedTag(limits[0].mark) == SpeedTag(l.mark) { SpeedTagInjective(limits[0].mark, l.mark); }
      SpeedTagResolves(base, limits[1..], l);
    }
  }

  /** A limited client that no api or block rule catches leaves through a freedom outbound that
      carries its own mark, whatever else the operator's rules say. */
  lemma LimitedClientLeavesMarked(
    outs: seq<Outbound>, rules: seq<Rule>, limits: seq<Limit>, h: Hash, c: Connection, o: Oracle)
    requires c.user in Emails(Assigned(limits, h))
    requires forall r :: r in rules && (ToApi(r) || ToBlock(outs, r)) ==> !Matches(r, c, o)
    ensures exists l, e ::
        && l in Assigned(limits, h) && l.email == c.user
        && Egress(InjectOutbounds(outs, Assigned(limits, h)), InjectRules(outs, rules, Assigned(limits, h)), c, o) == Some(e)
        && CarriesMark(e, l.mark)
  {
    var a := Assigned(limits, h);
    AssignedTable(limits, h);
    NoSuchRule(outs, rules, c, o);
    var l := SpeedRuleTakes(outs, rules, a, c, o);
    MatchLeads(InjectOutbounds(outs, a), InjectRules(outs, rules, a), c, o, l);
    SpeedTagLeadsToItsOutbound(outs, a, l);
    assert CarriesMark(SpeedOutbound(Base(CleanOutbounds(outs)), l), l.mark);
  }

  /** The client's own speed rule takes such a connection. */
  lemma SpeedRuleTakes(outs: seq<Outbound>, rules: seq<Rule>, limits: seq<Limit>, c: Connection, o: Oracle) returns (l: Limit)
    requires c.user in Emails(limits)
    requires FirstOf(CleanRules(rules), Api, BlockTags(CleanOutbounds(outs)), c, o).None?
    requires FirstOf(CleanRules(rules), Block, BlockTags(CleanOutbounds(outs)), c, o).None?
    ensures l in limits && l.email == c.user
    ensures FirstMatch(InjectRules(outs, rules, limits), c, o) == Some(SpeedRule(l))
  {
    FirstLimitFinds(limits, c.user);
    l := FirstLimit(limits, c.user).value;
    RewrittenRoute(outs, rules, limits, c, o);
  }

  lemma MatchLeads(outbounds: seq<Outbound>, rules: seq<Rule>, c: Connection, o: Oracle, l: Limit)
    requires FirstMatch(rules, c, o) == Some(SpeedRule(l))
    ensures Egress(outbounds, rules, c, o) == ByTag(outbounds, SpeedTag(l.mark))
  {
  }

  ghost predicate CarriesMark(e: Outbound, mark: int) {
    && e.protocol == "freedom"
    && e.stream.Some? && e.stream.value.sockopt.Some? && e.stream.value.sockopt.value.mark == Some(mark)
  }

  ghost predicate LeadsToMark(outbounds: seq<Outbound>, tag: string, mark: int) {
    ByTag(outbounds, tag).Some? && CarriesMark(ByTag(outbounds, tag).value, mark)
  }

  lemma SpeedTagLeadsToItsOutbound(outs: seq<Outbound>, limits: seq<Limit>, l: Limit)
    requires DistinctMarks(limits) && l in limits
    ensures ByTag(InjectOutbounds(outs, limits), SpeedTag(l.mark)) == Some(SpeedOutbound(Base(CleanOutbounds(outs)), l))
  {
    var clean := CleanOutbounds(outs);
    var tag := SpeedTag(l.mark);
    FilterMembers(outs, OwnOutbound);
    ByTagFinds(clean, tag);
    assert Generated(tag);
    ByTagAppend(clean, SpeedOutbounds(Base(clean), limits), tag);
    SpeedTagResolves(Base(clean), limits, l);
  }

  /** Any other connection whose rule is kept leaves through the very outbound it used before,
      provided some outbound of the operator's is left to be the default. */
  lemma OthersLeaveUnchanged(
    outs: seq<Outbound>, rules: seq<Rule>, limits: seq<Limit>, c: Connection, o: Oracle)
    requires var clean := CleanRules(rules);
      FirstMatch(InjectRules(outs, rules, limits), c, o) == FirstMatch(clean, c, o)
    requires CleanOutbounds(outs) != []
    ensures Egress(InjectOutbounds(outs, limits), InjectRules(outs, rules, limits), c, o)
         == Egress(CleanOutbounds(outs), CleanRules(rules), c, o)
  {
    var clean := CleanOutbounds(outs);
    var speed := SpeedOutbounds(Base(clean), limits);
    var f := FirstMatch(CleanRules(rules), c, o);
    if f.Some? && f.value.Rule? && f.value.outboundTag.Some? {
      var tag := f.value.outboundTag.value;
      FirstMatchMember(CleanRules(rules), c, o);
      FilterMembers(rules, OwnRule);
      ByTagAppend(clean, speed, tag);
      ByTagFinds(speed, tag);
      assert forall i :: 0 <= i < |speed| ==> Generated(speed[i].tag.value);
    }
  }

  /** A connection that no rule matches keeps its outbound exactly when the operator has one, or nothing
      is limited. */
  lemma DefaultKeptIff(outs: seq<Outbound>, rules: seq<Rule>, limits: seq<Limit>, c: Connection, o: Oracle)
    requires FirstMatch(InjectRules(outs, rules, limits), c, o).None?
    ensures Egress(InjectOutbounds(outs, limits), InjectRules(outs, rules, limits), c, o)
         == Egress(CleanOutbounds(outs), CleanRules(rules), c, o)
      <==> CleanOutbounds(outs) != [] || limits == []
  {
    if limits != [] { RewrittenRoute(outs, rules, limits, c, o); }
  }

  /** Otherwise the default is lost: it leaves through the first client's marked outbound. */
  lemma DefaultIsLostWithoutOutbounds(outs: seq<Outbound>, rules: seq<Rule>, limits: seq<Limit>, c: Connection, o: Oracle)
    requires FirstMatch(InjectRules(outs, rules, limits), c, o).None? && CleanOutbounds(outs) == [] && limits != []
    ensures Egress(CleanOutbounds(outs), CleanRules(rules), c, o).None?
    ensures Egress(InjectOutbounds(outs, limits), InjectRules(outs, rules, limits), c, o) == Some(SpeedOutbound(Base([]), limits[0]))
  {
    RewrittenRoute(outs, rules, limits, c, o);
  }

  lemma {:induction false} FirstMatchMember(rules: seq<Rule>, c: Connection, o: Oracle)
    ensures FirstMatch(rules, c, o).Some? ==> FirstMatch(rules, c, o).value in rules
  {
    if rules != [] { FirstMatchMember(rules[1..], c, o); }
  }

  ghost predicate DistinctTags(s: seq<Outbound>) {
    forall i, j :: 0 <= i < j < |s| && s[i].tag.Some? ==> s[i].tag != s[j].tag
  }

  lemma {:induction false} CleaningKeepsDistinctTags(s: seq<Outbound>)
    requires DistinctTags(s)
    ensures DistinctTags(CleanOutbounds(s))
  {
    if s != [] {
      assert DistinctTags(s[1..]) by {
        forall i, j | 0 <= i < j < |s[1..]| && s[1..][i].tag.Some? ensures s[1..][i].tag != s[1..][j].tag {
          assert s[1..][i] == s[i + 1] && s[1..][j] == s[j + 1];
        }
      }
      CleaningKeepsDistinctTags(s[1..]);
      FilterMembers(s[1..], OwnOutbound);
      var rest := CleanOutbounds(s[1..]);
      forall j | 0 <= j < |rest| && s[0].tag.Some? ensures s[0].tag != rest[j].tag {
        assert rest[j] in s[1..];
        var k :| 0 <= k < |s[1..]| && s[1..][k] == rest[j];
        assert s[k + 1] == rest[j];
      }
    }
  }

  lemma TagsStayDistinct(outs: seq<Outbound>, limits: seq<Limit>, h: Hash)
    requires DistinctTags(outs)
    ensures DistinctTags(InjectOutbounds(outs, Assigned(limits, h)))
  {
    var a := Assigned(limits, h);
    var clean := CleanOutbounds(outs);
    AssignedTable(limits, h);
    CleaningKeepsDistinctTags(outs);
    FilterMembers(outs, OwnOutbound);
    SpeedOutboundsAddDistinctTags(clean, Base(clean), a);
  }

  lemma OnlySpeedRulesAreGenerated(outs: seq<Outbound>, rules: seq<Rule>, limits: seq<Limit>, r: Rule) returns (l: Limit)
    requires r in InjectRules(outs, rules, limits) && Generated(TargetText(r))
    ensures l in limits && r == SpeedRule(l)
  {
    var clean := CleanRules(rules);
    var tags := BlockTags(CleanOutbounds(outs));
    FilterMembers(rules, OwnRule);
    OfKindMembers(clean, Api, tags);
    OfKindMembers(clean, Block, tags);
    OfKindMembers(clean, Ordinary, tags);
    assert r in SpeedRules(limits);
    var i :| 0 <= i < |limits| && SpeedRules(limits)[i] == r;
    l := limits[i];
  }

  /** Every generated rule of the new config is for one limited client, and its tag leads, among all
      outbounds, to a freedom outbound that carries that client's mark. */
  lemma GeneratedRulesResolve(outs: seq<Outbound>, rules: seq<Rule>, limits: seq<Limit>, h: Hash, r: Rule)
    requires r in InjectRules(outs, rules, Assigned(limits, h)) && Generated(TargetText(r))
    ensures exists l :: l in Assigned(limits, h) && r == SpeedRule(l) &&
                        LeadsToMark(InjectOutbounds(outs, Assigned(limits, h)), TargetText(r), l.mark)
  {
    var a := Assigned(limits, h);
    AssignedTable(limits, h);
    var l := OnlySpeedRulesAreGenerated(outs, rules, a, r);
    SpeedTagLeadsToItsOutbound(outs, a, l);
    assert LeadsToMark(InjectOutbounds(outs, a), TargetText(r), l.mark);
  }

  lemma SpeedOutboundsAddDistinctTags(clean: seq<Outbound>, base: Outbound, limits: seq<Limit>)
    requires DistinctTags(clean) && DistinctMarks(limits)
    requires forall o :: o in clean ==> !Generated(TagText(o.tag))
    ensures DistinctTags(clean + SpeedOutbounds(base, limits))
  {
    var all := clean + SpeedOutbounds(base, limits);
    forall i, j | 0 <= i < j < |all| && all[i].tag.Some? ensures all[i].tag != all[j].tag {
      if j >= |clean| {
        var m := limits[j - |clean|].mark;
        assert all[j].tag == Some(SpeedTag(m)) && Generated(SpeedTag(m));
        if i < |clean| {
          assert all[i] in clean;
        } else if all[i].tag == all[j].tag {
          SpeedTagInjective(limits[i - |clean|].mark, m);
        }
      }
    }
  }

  // ---------------------------------------------------------------- re-injection

  lemma GeneratedOutboundsGone(base: Outbound, limits: seq<Limit>)
    ensures CleanOutbounds(SpeedOutbounds(base, limits)) == []
  {
    forall i | 0 <= i < |limits| ensures !OwnOutbound(SpeedOutbounds(base, limits)[i]) {
      assert Generated(SpeedTag(limits[i].mark));
    }
    FilterNone(SpeedOutbounds(base, limits), OwnOutbound);
  }

  lemma GeneratedRulesGone(limits: seq<Limit>)
    ensures CleanRules(SpeedRules(limits)) == []
  {
    forall i | 0 <= i < |limits| ensures !OwnRule(SpeedRules(limits)[i]) {
      assert Generated(SpeedTag(limits[i].mark));
    }
    FilterNone(SpeedRules(limits), OwnRule);
  }

  lemma OfKindMembers(rules: seq<Rule>, k: Kind, tags: set<string>)
    ensures forall r :: r in OfKind(rules, k, tags) <==> r in rules && KindOf(r, tags) == k
  {
    FilterMembers(rules, r => KindOf(r, tags) == k);
  }

  lemma OfKindAppend(a: seq<Rule>, b: seq<Rule>, k: Kind, tags: set<string>)
    ensures OfKind(a + b, k, tags) == OfKind(a, k, tags) + OfKind(b, k, tags)
  {
    FilterAppend(a, b, r => KindOf(r, tags) == k);
  }

  lemma OfKindOfUniform(rules: seq<Rule>, j: Kind, k: Kind, tags: set<string>)
    requires forall r :: r in rules ==> KindOf(r, tags) == j
    ensures OfKind(rules, k, tags) == if j == k then rules else []
  {
    if j == k {
      FilterAll(rules, r => KindOf(r, tags) == k);
    } else {
      FilterNone(rules, r => KindOf(r, tags) == k);
    }
  }

  function Hoisted(rules: seq<Rule>, tags: set<string>): seq<Rule> {
    OfKind(rules, Api, tags) + OfKind(rules, Block, tags) + OfKind(rules, Ordinary, tags)
  }

  lemma HoistedKinds(rules: seq<Rule>, k: Kind, tags: set<string>)
    ensures OfKind(Hoisted(rules, tags), k, tags) == OfKind(rules, k, tags)
  {
    var api, block, rest := OfKind(rules, Api, tags), OfKind(rules, Block, tags), OfKind(rules, Ordinary, tags);
    OfKindAppend(api + block, rest, k, tags);
    OfKindAppend(api, block, k, tags);
    OfKindMembers(rules, Api, tags);
    OfKindMembers(rules, Block, tags);
    OfKindMembers(rules, Ordinary, tags);
    OfKindOfUniform(api, Api, k, tags);
    OfKindOfUniform(block, Block, k, tags);
    OfKindOfUniform(rest, Ordinary, k, tags);
  }

  lemma CleanOutboundsAfterInject(outs: seq<Outbound>, limits: seq<Limit>)
    ensures CleanOutbounds(InjectOutbounds(outs, limits)) == CleanOutbounds(outs)
  {
    var clean := CleanOutbounds(outs);
    FilterMembers(outs, OwnOutbound);
    FilterAll(clean, OwnOutbound);
    FilterAppend(clean, SpeedOutbounds(Base(clean), limits), OwnOutbound);
    GeneratedOutboundsGone(Base(clean), limits);
  }

  /** Cleaning the output of an injection gives back the cleaned rules with api and block rules in
      front, or in their own order when nothing was limited. */
  lemma CleanRulesAfterInject(outs: seq<Outbound>, rules: seq<Rule>, limits: seq<Limit>)
    ensures CleanRules(InjectRules(outs, rules, limits)) ==
      if limits == [] then CleanRules(rules) else Hoisted(CleanRules(rules), BlockTags(CleanOutbounds(outs)))
  {
    var clean := CleanRules(rules);
    var tags := BlockTags(CleanOutbounds(outs));
    FilterMembers(rules, OwnRule);
    FilterAll(clean, OwnRule);
    if limits != [] {
      OfKindMembers(clean, Api, tags);
      OfKindMembers(clean, Block, tags);
      OfKindMembers(clean, Ordinary, tags);
      CleanAround(OfKind(clean, Api, tags) + OfKind(clean, Block, tags), limits, OfKind(clean, Ordinary, tags));
    }
  }

  lemma CleanAround(front: seq<Rule>, limits: seq<Limit>, back: seq<Rule>)
    requires forall r :: r in front ==> !Generated(TargetText(r))
    requires forall r :: r in back ==> !Generated(TargetText(r))
    ensures CleanRules(front + SpeedRules(limits) + back) == front + back
  {
    var speed := SpeedRules(limits);
    calc {
      CleanRules(front + speed + back);
      { FilterAppend(front + speed, back, OwnRule); }
      CleanRules(front + speed) + CleanRules(back);
      { FilterAppend(front, speed, OwnRule); }
      CleanRules(front) + CleanRules(speed) + CleanRules(back);
      { FilterAll(front, OwnRule); FilterAll(back, OwnRule); GeneratedRulesGone(limits); }
      front + [] + back;
      { assert front + [] == front; }
      front + back;
    }
  }

  /** Injecting A and then a non-empty B is injecting B alone. */
  lemma ReinjectionReplaces(outs: seq<Outbound>, rules: seq<Rule>, a: seq<Limit>, b: seq<Limit>)
    requires b != []
    ensures InjectOutbounds(InjectOutbounds(outs, a), b) == InjectOutbounds(outs, b)
    ensures InjectRules(InjectOutbounds(outs, a), InjectRules(outs, rules, a), b) == InjectRules(outs, rules, b)
  {
    CleanOutboundsAfterInject(outs, a);
    CleanRulesAfterInject(outs, rules, a);
    var cr := CleanRules(rules);
    var tags := BlockTags(CleanOutbounds(outs));
    HoistedKinds(cr, Api, tags);
    HoistedKinds(cr, Block, tags);
    HoistedKinds(cr, Ordinary, tags);
  }

  lemma InjectionIdempotent(outs: seq<Outbound>, rules: seq<Rule>, a: seq<Limit>)
    ensures InjectOutbounds(InjectOutbounds(outs, a), a) == InjectOutbounds(outs, a)
    ensures InjectRules(InjectOutbounds(outs, a), InjectRules(outs, rules, a), a) == InjectRules(outs, rules, a)
  {
    CleanOutboundsAfterInject(outs, a);
    CleanRulesAfterInject(outs, rules, a);
    if a != [] { ReinjectionReplaces(outs, rules, a, a); }
  }

  /** Removing the last limit does not restore the operator's order: it does so exactly when there
      never was a limit or the rules already had api and block rules in front. */
  lemma ClearingRestoresOrderIff(outs: seq<Outbound>, rules: seq<Rule>, a: seq<Limit>)
    ensures InjectOutbounds(InjectOutbounds(outs, a), []) == InjectOutbounds(outs, [])
    ensures InjectRules(InjectOutbounds(outs, a), InjectRules(outs, rules, a), []) == InjectRules(outs, rules, [])
       <==> a == [] || Hoisted(CleanRules(rules), BlockTags(CleanOutbounds(outs))) == CleanRules(rules)
  {
    CleanOutboundsAfterInject(outs, a);
    CleanRulesAfterInject(outs, rules, a);
  }
}
