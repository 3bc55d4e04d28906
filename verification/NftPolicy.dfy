/** The generated nftables programs for Xray clients and SSH users, what they do to a packet, and
    the signature that decides whether a program has to be loaded again. */
module NftPolicy {
  import opened Text
  import opened XrayMarks

  // ---------------------------------------------------------------- programs

  datatype NftRule =
    | MarkFromConntrack                          // ct mark != 0 meta mark set ct mark
    | MarkFromSocket                             // socket mark != 0 meta mark set socket mark
    | MarkByUid(uid: int, mark: int)             // meta skuid u meta mark set m
    | CountAndSave(mark: int, counter: string)   // meta mark m ct mark set meta mark counter name c
    | Count(mark: int, counter: string)          // meta mark m counter name c
    | Police(mark: int, rate: int, burst: int)   // meta mark m limit rate over r burst b drop

  datatype Script = Script(table: string, counters: seq<string>, output: seq<NftRule>, prerouting: seq<NftRule>)

  function BytesPerSecond(mbps: int): int {
    if mbps <= 0 then 0 else mbps * 1000 * 1000 / 8
  }

  function Burst(rate: int): int {
    if rate < 256 * 1024 then 256 * 1024 else if rate > 8 * 1024 * 1024 then 8 * 1024 * 1024 else rate
  }

  function RateRules(mark: int, mbps: int): seq<NftRule> {
    if mbps <= 0 then [] else [Police(mark, BytesPerSecond(mbps), Burst(BytesPerSecond(mbps)))]
  }

  function XrayCounter(mark: int, direction: string): string {
    "xray_" + Hex(mark) + "_" + direction
  }

  function SshCounter(id: int, direction: string): string {
    "user_" + Decimal(id) + "_" + direction
  }

  /** One client of a table: the rules it contributes to each chain, in order. */
  datatype Client = Client(mark: int, counters: seq<string>, output: seq<NftRule>, prerouting: seq<NftRule>) {
    function Rules(chain: Chain): seq<NftRule> {
      if chain == Output then output else prerouting
    }
  }

  datatype Chain = Output | Prerouting

  function XrayClient(l: Limit): Client {
    var up, down := XrayCounter(l.mark, "up"), XrayCounter(l.mark, "down");
    Client(l.mark, [up, down],
      [CountAndSave(l.mark, up)] + RateRules(l.mark, l.uploadMbps),
      RateRules(l.mark, l.downloadMbps) + [Count(l.mark, down)])
  }

  /** A managed SSH user whose uid lookup succeeded. */
  datatype SshUser = SshUser(id: int, uid: int, speedLimit: bool, downloadMbps: int, uploadMbps: int)

  function SshClient(u: SshUser): Client {
    var mark := SshMark(u.id);
    var up, down := SshCounter(u.id, "up"), SshCounter(u.id, "down");
    Client(mark, [up, down],
      [MarkByUid(u.uid, mark), CountAndSave(mark, up)] + (if u.speedLimit then RateRules(mark, u.uploadMbps) else []),
      [Count(mark, down)] + (if u.speedLimit then RateRules(mark, u.downloadMbps) else []))
  }

  function XrayClients(limits: seq<Limit>): seq<Client> {
    seq(|limits|, i requires 0 <= i < |limits| => XrayClient(limits[i]))
  }

  function SshClients(users: seq<SshUser>): seq<Client> {
    seq(|users|, i requires 0 <= i < |users| => SshClient(users[i]))
  }

  function Counters(cs: seq<Client>): seq<string> {
    if cs == [] then [] else cs[0].counters + Counters(cs[1..])
  }

  function ChainRules(cs: seq<Client>, chain: Chain): seq<NftRule> {
    if cs == [] then [] else cs[0].Rules(chain) + ChainRules(cs[1..], chain)
  }

  function XrayScript(limits: seq<Limit>): Script {
    var cs := XrayClients(limits);
    Script("fourxui_xray", Counters(cs), (if limits == [] then [] else [MarkFromSocket]) + ChainRules(cs, Output), [MarkFromConntrack] + ChainRules(cs, Prerouting))
  }

  function SshScript(users: seq<SshUser>): Script {
    var cs := SshClients(users);
    Script("fourxui_ssh", Counters(cs), ChainRules(cs, Output), [MarkFromConntrack] + ChainRules(cs, Prerouting))
  }

  /** The fallback for parsers without socket expressions. */
  function Legacy(s: Script): Script {
    s.(output := WithoutSocketRestore(s.output))
  }

  function WithoutSocketRestore(rules: seq<NftRule>): seq<NftRule> {
    if rules == [] then []
    else (if rules[0] == MarkFromSocket then [] else [rules[0]]) + WithoutSocketRestore(rules[1..])
  }

  // ---------------------------------------------------------------- signatures

  function XrayRecord(l: Limit): string {
    l.email + ":" + Decimal(l.mark) + ":" + Decimal(l.downloadMbps) + ":" + Decimal(l.uploadMbps)
  }

  function Bool(b: bool): string {
    if b then "true" else "false"
  }

  function SshRecord(u: SshUser): string {
    Decimal(u.id) + ":" + Decimal(u.uid) + ":" + Bool(u.speedLimit) + ":" + Decimal(u.downloadMbps) + ":" + Decimal(u.uploadMbps)
  }

  /** Every record is followed by a semicolon. */
  function Join(records: seq<string>): string {
    if records == [] then "" else records[0] + ";" + Join(records[1..])
  }

  function XrayRecords(limits: seq<Limit>): seq<string> {
    seq(|limits|, i requires 0 <= i < |limits| => XrayRecord(limits[i]))
  }

  function SshRecords(users: seq<SshUser>): seq<string> {
    seq(|users|, i requires 0 <= i < |users| => SshRecord(users[i]))
  }

  function XraySignature(limits: seq<Limit>): string {
    Join(XrayRecords(limits))
  }

  function SshSignature(users: seq<SshUser>): string {
    Join(SshRecords(users))
  }

  lemma ClientsStep(cs: seq<Client>, records: seq<string>, i: nat)
    requires i < |cs| == |records|
    ensures Join(records[i..]) == records[i] + ";" + Join(records[i + 1..])
    ensures Counters(cs[i..]) == cs[i].counters + Counters(cs[i + 1..])
    ensures ChainRules(cs[i..], Output) == cs[i].output + ChainRules(cs[i + 1..], Output)
    ensures ChainRules(cs[i..], Prerouting) == cs[i].prerouting + ChainRules(cs[i + 1..], Prerouting)
  {
    assert cs[i..][1..] == cs[i + 1..] && records[i..][1..] == records[i + 1..];
  }

  /** The four texts grow by one record each; `done + pending == all` for each of them. */
  ghost predicate Progress(cs: seq<Client>, records: seq<string>, i: nat,
    signature: string, counters: seq<string>, output: seq<NftRule>, input: seq<NftRule>,
    wanted: string, script: Script)
    requires i <= |cs| == |records|
  {
    && signature + Join(records[i..]) == wanted
    && counters + Counters(cs[i..]) == script.counters
    && output + ChainRules(cs[i..], Output) == script.output
    && input + ChainRules(cs[i..], Prerouting) == script.prerouting
  }

  lemma ProgressStart(cs: seq<Client>, records: seq<string>, output: seq<NftRule>, wanted: string, script: Script)
    requires |cs| == |records| && wanted == Join(records) && script.counters == Counters(cs)
    requires script.output == output + ChainRules(cs, Output)
    requires script.prerouting == [MarkFromConntrack] + ChainRules(cs, Prerouting)
    ensures Progress(cs, records, 0, "", [], output, [MarkFromConntrack], wanted, script)
  {
    assert cs[0..] == cs && records[0..] == records;
  }

  lemma ProgressStep(cs: seq<Client>, records: seq<string>, i: nat, c: Client, record: string,
    signature: string, counters: seq<string>, output: seq<NftRule>, input: seq<NftRule>,
    wanted: string, script: Script)
    requires i < |cs| == |records| && cs[i] == c && records[i] == record
    requires Progress(cs, records, i, signature, counters, output, input, wanted, script)
    ensures Progress(cs, records, i + 1, signature + record + ";", counters + c.counters,
                     output + c.output, input + c.prerouting, wanted, script)
  {
    ClientsStep(cs, records, i);
  }

  lemma ProgressDone(cs: seq<Client>, records: seq<string>,
    signature: string, counters: seq<string>, output: seq<NftRule>, input: seq<NftRule>,
    wanted: string, script: Script)
    requires |cs| == |records|
    requires Progress(cs, records, |cs|, signature, counters, output, input, wanted, script)
    ensures signature == wanted && counters == script.counters && output == script.output && input == script.prerouting
  {
    assert cs[|cs|..] == [] && records[|cs|..] == [];
  }

  /** The loop body for one client: what it adds to the four texts. */
  method AppendXrayClient(l: Limit, signature: string, counters: seq<string>, output: seq<NftRule>, input: seq<NftRule>)
    returns (s: string, d: seq<string>, o: seq<NftRule>, i: seq<NftRule>)
    ensures s == signature + XrayRecord(l) + ";" && d == counters + XrayClient(l).counters
    ensures o == output + XrayClient(l).output && i == input + XrayClient(l).prerouting
  {
    var up, down := XrayCounter(l.mark, "up"), XrayCounter(l.mark, "down");
    s := signature + XrayRecord(l) + ";";
    d := counters + [up, down];
    o := output + ([CountAndSave(l.mark, up)] + RateRules(l.mark, l.uploadMbps));
    i := input + (RateRules(l.mark, l.downloadMbps) + [Count(l.mark, down)]);
  }

  method BuildXrayPolicy(limits: seq<Limit>) returns (signature: string, script: Script)
    ensures signature == XraySignature(limits) && script == XrayScript(limits)
  {
    var declarations: seq<string>, output: seq<NftRule>, input := [], [], [MarkFromConntrack];
    signature := "";
    if |limits| > 0 { output := [MarkFromSocket]; }
    ghost var cs, records := XrayClients(limits), XrayRecords(limits);
    ghost var wanted, all := XraySignature(limits), XrayScript(limits);
    ProgressStart(cs, records, output, wanted, all);
    for i := 0 to |limits|
      invariant Progress(cs, records, i, signature, declarations, output, input, wanted, all)
    {
      assert cs[i] == XrayClient(limits[i]) && records[i] == XrayRecord(limits[i]);
      ProgressStep(cs, records, i, cs[i], records[i], signature, declarations, output, input, wanted, all);
      signature, declarations, output, input := AppendXrayClient(limits[i], signature, declarations, output, input);
    }
    ProgressDone(cs, records, signature, declarations, output, input, wanted, all);
    script := Script("fourxui_xray", declarations, output, input);
  }

  /** The loop body for one user: what it adds to the four texts. */
  method AppendSshUser(u: SshUser, signature: string, counters: seq<string>, output: seq<NftRule>, input: seq<NftRule>)
    returns (s: string, d: seq<string>, o: seq<NftRule>, i: seq<NftRule>)
    ensures s == signature + SshRecord(u) + ";" && d == counters + SshClient(u).counters
    ensures o == output + SshClient(u).output && i == input + SshClient(u).prerouting
  {
    var mark := SshMark(u.id);
    var up, down := SshCounter(u.id, "up"), SshCounter(u.id, "down");
    s := signature + SshRecord(u) + ";";
    d := counters + [up, down];
    o := output + ([MarkByUid(u.uid, mark), CountAndSave(mark, up)] + (if u.speedLimit then RateRules(mark, u.uploadMbps) else []));
    i := input + ([Count(mark, down)] + (if u.speedLimit then RateRules(mark, u.downloadMbps) else []));
  }

  /** `uidOf` is the outcome of the uid lookup; users without a uid are skipped. The users come
      sorted by id. */
  method BuildSshPolicy(users: seq<SshUser>, uidOf: map<int, int>) returns (signature: string, script: Script, known: seq<SshUser>)
    ensures known == Known(users, uidOf)
    ensures signature == SshSignature(known) && script == SshScript(known)
  {
    var declarations: seq<string>, output: seq<NftRule>, input := [], [], [MarkFromConntrack];
    signature := "";
    known := [];
    ghost var all := Known(users, uidOf);
    for i := 0 to |users|
      invariant SshProgress(users, uidOf, i, known, all, signature, declarations, output, input)
    {
      SshProgressStep(users, uidOf, i, known, all, signature, declarations, output, input);
      if users[i].id in uidOf {
        var u := users[i].(uid := uidOf[users[i].id]);
        signature, declarations, output, input := AppendSshUser(u, signature, declarations, output, input);
        known := known + [u];
      }
    }
    ProgressDone(SshClients(all), SshRecords(all), signature, declarations, output, input, SshSignature(all), SshScript(all));
    script := Script("fourxui_ssh", declarations, output, input);
  }

  ghost predicate SshProgress(users: seq<SshUser>, uidOf: map<int, int>, i: nat, known: seq<SshUser>, all: seq<SshUser>,
    signature: string, counters: seq<string>, output: seq<NftRule>, input: seq<NftRule>)
    requires i <= |users|
  {
    && known + Known(users[i..], uidOf) == all
    && Progress(SshClients(all), SshRecords(all), |known|, signature, counters, output, input, SshSignature(all), SshScript(all))
  }

  lemma SshProgressStep(users: seq<SshUser>, uidOf: map<int, int>, i: nat, known: seq<SshUser>, all: seq<SshUser>,
    signature: string, counters: seq<string>, output: seq<NftRule>, input: seq<NftRule>)
    requires i < |users| && SshProgress(users, uidOf, i, known, all, signature, counters, output, input)
    ensures users[i].id !in uidOf ==> SshProgress(users, uidOf, i + 1, known, all, signature, counters, output, input)
    ensures users[i].id in uidOf ==>
      var u := users[i].(uid := uidOf[users[i].id]);
      SshProgress(users, uidOf, i + 1, known + [u], all, signature + SshRecord(u) + ";",
                  counters + SshClient(u).counters, output + SshClient(u).output, input + SshClient(u).prerouting)
  {
    KnownStep(users, uidOf, i, known, all);
    if users[i].id in uidOf {
      var u := users[i].(uid := uidOf[users[i].id]);
      var k := |known|;
      var c, record := SshClient(u), SshRecord(u);
      var cs, records := SshClients(all), SshRecords(all);
      assert cs[k] == c && records[k] == record;
      assert |known + [u]| == k + 1;
      ProgressStep(cs, records, k, c, record, signature, counters, output, input, SshSignature(all), SshScript(all));
    }
  }

  lemma KnownStep(users: seq<SshUser>, uidOf: map<int, int>, i: nat, known: seq<SshUser>, all: seq<SshUser>)
    requires i < |users| && known + Known(users[i..], uidOf) == all
    ensures users[i].id in uidOf ==>
      var u := users[i].(uid := uidOf[users[i].id]);
      |known| < |all| && all[|known|] == u && known + [u] + Known(users[i + 1..], uidOf) == all
    ensures users[i].id !in uidOf ==> known + Known(users[i + 1..], uidOf) == all
  {
    assert users[i..][1..] == users[i + 1..];
  }

  function Known(users: seq<SshUser>, uidOf: map<int, int>): seq<SshUser> {
    if users == [] then []
    else (if users[0].id in uidOf then [users[0].(uid := uidOf[users[0].id])] else []) + Known(users[1..], uidOf)
  }

  // ---------------------------------------------------------------- unambiguous signatures

  lemma {:induction false} SplitFirst(a: string, x: string, b: string, y: string, sep: char)
    requires sep !in a && sep !in b
    requires a + [sep] + x == b + [sep] + y
    ensures a == b && x == y
    decreases |a|
  {
    var s, t := a + [sep] + x, b + [sep] + y;
    assert s[|a|] == sep && t[|b|] == sep;
    assert |a| == |b|;
    assert s[..|a|] == a && t[..|a|] == b;
    assert s[|a| + 1..] == x && t[|a| + 1..] == y;
  }

  lemma SplitLast(a: string, x: string, b: string, y: string, sep: char)
    requires sep !in x && sep !in y
    requires a + [sep] + x == b + [sep] + y
    ensures a == b && x == y
  {
    var s, t := a + [sep] + x, b + [sep] + y;
    assert s[|a|] == sep && t[|b|] == sep;
    assert |a| == |b|;
    assert s[..|a|] == a && t[..|a|] == b;
    assert s[|a| + 1..] == x && t[|a| + 1..] == y;
  }

  lemma XrayRecordInjective(k: Limit, l: Limit)
    requires XrayRecord(k) == XrayRecord(l)
    ensures k == l
  {
    var ke, le := k.email + ":" + Decimal(k.mark), l.email + ":" + Decimal(l.mark);
    SplitLast(ke + ":" + Decimal(k.downloadMbps), Decimal(k.uploadMbps), le + ":" + Decimal(l.downloadMbps), Decimal(l.uploadMbps), ':');
    SplitLast(ke, Decimal(k.downloadMbps), le, Decimal(l.downloadMbps), ':');
    SplitLast(k.email, Decimal(k.mark), l.email, Decimal(l.mark), ':');
    DecimalInjective(k.uploadMbps, l.uploadMbps);
    DecimalInjective(k.downloadMbps, l.downloadMbps);
    DecimalInjective(k.mark, l.mark);
  }

  lemma SshRecordInjective(u: SshUser, w: SshUser)
    requires SshRecord(u) == SshRecord(w)
    ensures u == w
  {
    var u1, w1 := Decimal(u.id) + ":" + Decimal(u.uid), Decimal(w.id) + ":" + Decimal(w.uid);
    var u2, w2 := u1 + ":" + Bool(u.speedLimit), w1 + ":" + Bool(w.speedLimit);
    SplitLast(u2 + ":" + Decimal(u.downloadMbps), Decimal(u.uploadMbps), w2 + ":" + Decimal(w.downloadMbps), Decimal(w.uploadMbps), ':');
    SplitLast(u2, Decimal(u.downloadMbps), w2, Decimal(w.downloadMbps), ':');
    SplitLast(u1, Bool(u.speedLimit), w1, Bool(w.speedLimit), ':');
    SplitLast(Decimal(u.id), Decimal(u.uid), Decimal(w.id), Decimal(w.uid), ':');
    DecimalInjective(u.uploadMbps, w.uploadMbps);
    DecimalInjective(u.downloadMbps, w.downloadMbps);
    DecimalInjective(u.uid, w.uid);
    DecimalInjective(u.id, w.id);
    assert Bool(u.speedLimit)[0] == Bool(w.speedLimit)[0];
  }

  ghost predicate NoSemicolon(records: seq<string>) {
    forall r :: r in records ==> ';' !in r
  }

  /** Records without a semicolon can be read back from the joined text. */
  lemma {:induction false} JoinInjective(a: seq<string>, b: seq<string>)
    requires NoSemicolon(a) && NoSemicolon(b)
    requires Join(a) == Join(b)
    ensures a == b
    decreases |a|
  {
    if a != [] && b != [] {
      SplitFirst(a[0], Join(a[1..]), b[0], Join(b[1..]), ';');
      JoinInjective(a[1..], b[1..]);
      assert a == [a[0]] + a[1..] && b == [b[0]] + b[1..];
    }
  }

  ghost predicate CleanEmails(limits: seq<Limit>) {
    forall l :: l in limits ==> ';' !in l.email
  }

  lemma CleanRecords(limits: seq<Limit>)
    requires CleanEmails(limits)
    ensures NoSemicolon(XrayRecords(limits))
  {
    forall i | 0 <= i < |limits| ensures ';' !in XrayRecord(limits[i]) {
      assert limits[i] in limits;
    }
  }

  /** Equal signature text means an identical program, if no email contains a semicolon. */
  lemma XraySignatureDeterminesScript(a: seq<Limit>, b: seq<Limit>)
    requires CleanEmails(a) && CleanEmails(b)
    requires XraySignature(a) == XraySignature(b)
    ensures a == b && XrayScript(a) == XrayScript(b)
  {
    CleanRecords(a);
    CleanRecords(b);
    JoinInjective(XrayRecords(a), XrayRecords(b));
    assert |a| == |XrayRecords(a)| == |XrayRecords(b)| == |b|;
    forall i | 0 <= i < |a| ensures a[i] == b[i] {
      assert XrayRecords(a)[i] == XrayRecords(b)[i];
      XrayRecordInjective(a[i], b[i]);
    }
  }

  lemma CleanSshRecords(users: seq<SshUser>)
    ensures NoSemicolon(SshRecords(users))
  {
    forall i | 0 <= i < |users| ensures ';' !in SshRecord(users[i]) {
      assert ';' !in Bool(users[i].speedLimit);
    }
  }

  lemma SshSignatureDeterminesScript(a: seq<SshUser>, b: seq<SshUser>)
    requires SshSignature(a) == SshSignature(b)
    ensures a == b && SshScript(a) == SshScript(b)
  {
    CleanSshRecords(a);
    CleanSshRecords(b);
    JoinInjective(SshRecords(a), SshRecords(b));
    assert |a| == |SshRecords(a)| == |SshRecords(b)| == |b|;
    forall i | 0 <= i < |a| ensures a[i] == b[i] {
      assert SshRecords(a)[i] == SshRecords(b)[i];
      SshRecordInjective(a[i], b[i]);
    }
  }

  /** Some other list has the same signature and another program. */
  ghost predicate Ambiguous(limits: seq<Limit>) {
    exists b :: XraySignature(b) == XraySignature(limits) && XrayScript(b) != XrayScript(limits)
  }

  /** The email spells out the record of another client, and goes on. */
  ghost predicate SpellsARecord(email: string) {
    exists l: Limit :: XrayRecord(l) + ";" <= email
  }

  /** A list is ambiguous exactly when it has two or more clients, whose records another client's email
      can spell out, or one client whose own email does so. The other list may carry any marks. */
  lemma AmbiguousIff(limits: seq<Limit>)
    ensures Ambiguous(limits) <==> |limits| >= 2 || (|limits| == 1 && SpellsARecord(limits[0].email))
  {
    if |limits| >= 2 {
      ManyAreAmbiguous(limits);
    } else if |limits| == 1 {
      assert limits == [limits[0]];
      if SpellsARecord(limits[0].email) { SpellingIsAmbiguous(limits[0]); }
      forall b | XraySignature(b) == XraySignature(limits) && XrayScript(b) != XrayScript(limits)
        ensures SpellsARecord(limits[0].email)
      {
        OneIsSpelled(limits[0], b);
      }
    } else {
      forall b | XraySignature(b) == XraySignature(limits) ensures b == limits {
        EmptySignature(b);
      }
    }
  }

  lemma EmptySignature(b: seq<Limit>)
    ensures XraySignature(b) == "" <==> b == []
  {
    if b != [] { SignatureStep(b); }
  }

  lemma SignatureStep(b: seq<Limit>)
    requires b != []
    ensures XraySignature(b) == XrayRecord(b[0]) + ";" + XraySignature(b[1..])
  {
    var rs := XrayRecords(b);
    assert rs[1..] == XrayRecords(b[1..]);
    assert Join(rs) == rs[0] + ";" + Join(rs[1..]);
  }

  lemma {:induction false} CounterCount(limits: seq<Limit>)
    ensures |XrayScript(limits).counters| == 2 * |limits|
  {
    if limits != [] {
      CounterCount(limits[1..]);
      assert XrayClients(limits)[1..] == XrayClients(limits[1..]);
    }
  }

  lemma AbsorbOne(head: string, k: Limit)
    ensures XraySignature([k.(email := head + k.email)]) == head + XraySignature([k])
  {
    PrefixedRecord(head, k);
    OneRecord(k);
    OneRecord(k.(email := head + k.email));
    assert head + XrayRecord(k) + ";" == head + (XrayRecord(k) + ";");
  }

  /** The joined records of all but the last, in front of the last client's email. */
  lemma {:induction false} Absorbed(front: seq<Limit>, k: Limit)
    ensures XraySignature(front + [k]) == XraySignature([k.(email := XraySignature(front) + k.email)])
    decreases |front|
  {
    if front == [] {
      assert front + [k] == [k];
      assert XraySignature(front) + k.email == k.email;
    } else {
      var head, middle := XrayRecord(front[0]) + ";", XraySignature(front[1..]);
      Absorbed(front[1..], k);
      AbsorbFirst(front, k, head);
      AbsorbOne(head, k.(email := middle + k.email));
      SameEmail(XraySignature(front), head, middle, k);
    }
  }

  lemma SameEmail(whole: string, head: string, middle: string, k: Limit)
    requires whole == head + middle
    ensures k.(email := whole + k.email) == k.(email := head + (middle + k.email))
  {
    assert whole + k.email == head + (middle + k.email);
  }

  lemma AbsorbFirst(front: seq<Limit>, k: Limit, head: string)
    requires front != [] && head == XrayRecord(front[0]) + ";"
    ensures XraySignature(front) == head + XraySignature(front[1..])
    ensures XraySignature(front + [k]) == head + XraySignature(front[1..] + [k])
  {
    SignatureStep(front);
    SignatureStep(front + [k]);
    assert (front + [k])[1..] == front[1..] + [k];
  }

  lemma ManyAreAmbiguous(limits: seq<Limit>)
    requires |limits| >= 2
    ensures Ambiguous(limits)
  {
    var front, k := limits[..|limits| - 1], limits[|limits| - 1];
    assert limits == front + [k];
    Absorbed(front, k);
    CounterCount(limits);
    CounterCount([k.(email := XraySignature(front) + k.email)]);
  }

  lemma SpellingIsAmbiguous(k: Limit)
    requires SpellsARecord(k.email)
    ensures Ambiguous([k])
  {
    var l: Limit :| XrayRecord(l) + ";" <= k.email;
    var prefix := XrayRecord(l) + ";";
    var rest := k.(email := k.email[|prefix|..]);
    assert prefix + rest.email == k.email;
    PrefixedRecord(prefix, rest);
    TwoRecords(l, rest);
    OneRecord(k);
    assert prefix + (XrayRecord(rest) + ";") == prefix + XrayRecord(rest) + ";";
    assert XraySignature([l, rest]) == XraySignature([k]);
    assert XrayScript([l, rest]) != XrayScript([k]);
  }

  lemma OneIsSpelled(k: Limit, b: seq<Limit>)
    requires XraySignature(b) == XraySignature([k]) && XrayScript(b) != XrayScript([k])
    ensures SpellsARecord(k.email)
  {
    OneRecord(k);
    EmptySignature(b);
    if |b| == 1 { SameRecord(k, b); } else { LongerSpells(k, b); }
  }

  lemma SameRecord(k: Limit, b: seq<Limit>)
    requires |b| == 1 && XraySignature(b) == XraySignature([k])
    ensures b == [k]
  {
    assert b == [b[0]];
    OneRecord(k);
    OneRecord(b[0]);
    var s, t := XraySignature(b), XraySignature([k]);
    assert s[..|s| - 1] == XrayRecord(b[0]) && t[..|t| - 1] == XrayRecord(k);
    XrayRecordInjective(k, b[0]);
  }

  lemma RecordTail(k: Limit) returns (tail: string)
    ensures XrayRecord(k) == k.email + tail && ';' !in tail
  {
    tail := JoinedTail(k.email, Decimal(k.mark), Decimal(k.downloadMbps), Decimal(k.uploadMbps));
  }

  lemma JoinedTail(e: string, m: string, d: string, u: string) returns (tail: string)
    requires ';' !in m && ';' !in d && ';' !in u
    ensures e + ":" + m + ":" + d + ":" + u == e + tail && ';' !in tail
  {
    tail := ":" + m + ":" + d + ":" + u;
  }

  lemma LongerSpells(k: Limit, b: seq<Limit>)
    requires XraySignature(b) == XraySignature([k]) && |b| >= 2
    ensures SpellsARecord(k.email)
  {
    OneRecord(k);
    SignatureStep(b);
    EmptySignature(b[1..]);
    var tail := RecordTail(k);
    FirstSemicolonInEmail(k.email, tail, XrayRecord(b[0]), XraySignature(b[1..]));
  }

  /** Where one text is split after `first`, the other is still in the email. */
  lemma FirstSemicolonInEmail(email: string, tail: string, first: string, rest: string)
    requires ';' !in tail && rest != "" && email + tail + ";" == first + ";" + rest
    ensures first + ";" <= email
  {
    var s := email + tail + ";";
    assert s == first + ";" + rest;
    assert s[|first|] == ';';
    assert forall i :: |email| <= i < |s| - 1 ==> s[i] == tail[i - |email|];
    assert s[..|first| + 1] == first + ";" && s[..|email|] == email;
  }

  // ---------------------------------------------------------------- lists the mark assignment yields

  function Override(h: Hash, email: string, v: nat): Hash {
    e => if e == email then v else h(e)
  }

  lemma {:induction false} MarksAgree(emails: seq<string>, h: Hash, g: Hash)
    requires forall e :: e in emails ==> h(e) == g(e)
    ensures Marks(emails, h) == Marks(emails, g)
  {
    if emails != [] {
      var front := emails[..|emails| - 1];
      assert emails == front + [emails[|emails| - 1]];
      MarksAgree(front, h, g);
    }
  }

  lemma OtherEmailsKeepTheirMarks(limits: seq<Limit>, h: Hash, email: string, v: nat)
    requires email !in Emails(limits)
    ensures Assigned(limits, Override(h, email, v)) == Assigned(limits, h)
  {
    SortedKeepsEmails(limits);
    MarksAgree(Emails(Sorted(limits)), Override(h, email, v), h);
  }

  lemma OnlyClient(x: Limit, h: Hash)
    requires MARK_BASE <= x.mark < MARK_BASE + HASH_SIZE && h(x.email) == x.mark - MARK_BASE
    ensures Assigned([x], h) == [x]
  {
    assert [x][1..] == [];
    assert Sorted([x]) == [x];
    var emails := Emails([x]);
    assert emails == [x.email] && emails[..0] == [];
    assert Marks(emails, h) == [x.mark];
  }

  lemma {:induction false} EmailsAreShorter(limits: seq<Limit>, i: nat)
    requires i < |limits|
    ensures |limits[i].email| < |XraySignature(limits)|
  {
    SignatureStep(limits);
    RecordIsLonger(limits[0]);
    if i > 0 { EmailsAreShorter(limits[1..], i - 1); }
  }

  lemma RecordIsLonger(k: Limit)
    ensures |XrayRecord(k)| >= |k.email|
  {
    var tail := RecordTail(k);
  }

  lemma SpellingIsNoClient(front: seq<Limit>, k: Limit)
    requires front != []
    ensures XraySignature(front) + k.email !in Emails(front + [k])
  {
    var email := XraySignature(front) + k.email;
    SignatureStep(front);
    forall i | 0 <= i < |front| + 1 ensures Emails(front + [k])[i] != email {
      if i < |front| { EmailsAreShorter(front, i); }
    }
  }

  /** It happens to lists the mark assignment yields: for two or more clients, unless the last mark was
      pushed past the hash range, some hash gives this list and, to one client whose email spells out the
      records of the others, a list with the same signature and another program. */
  lemma SemicolonForgesSignature(front: seq<Limit>, k: Limit, h0: Hash) returns (b: seq<Limit>, h: Hash)
    requires front != [] && front + [k] == Assigned(front + [k], h0) && k.mark < MARK_BASE + HASH_SIZE
    ensures Assigned(front + [k], h) == front + [k] && Assigned(b, h) == b
    ensures XraySignature(b) == XraySignature(front + [k]) && XrayScript(b) != XrayScript(front + [k])
  {
    var email := XraySignature(front) + k.email;
    LastMark(front, k, h0);
    b := [k.(email := email)];
    h := Override(h0, email, k.mark - MARK_BASE);
    SpellingIsNoClient(front, k);
    OtherEmailsKeepTheirMarks(front + [k], h0, email, k.mark - MARK_BASE);
    OnlyClient(b[0], h);
    Absorbed(front, k);
    CounterCount(front + [k]);
    CounterCount(b);
  }

  lemma LastMark(front: seq<Limit>, k: Limit, h: Hash)
    requires front + [k] == Assigned(front + [k], h)
    ensures k.mark >= MARK_BASE
  {
    AssignedTable(front + [k], h);
    assert (front + [k])[|front|] == k;
  }

  lemma PrefixedRecord(prefix: string, k: Limit)
    ensures XrayRecord(k.(email := prefix + k.email)) == prefix + XrayRecord(k)
  {
    Reassociate(prefix, k.email, Decimal(k.mark), Decimal(k.downloadMbps), Decimal(k.uploadMbps));
  }

  lemma Reassociate(p: string, e: string, m: string, d: string, u: string)
    ensures p + e + ":" + m + ":" + d + ":" + u == p + (e + ":" + m + ":" + d + ":" + u)
  {
  }

  lemma OneRecord(l: Limit)
    ensures XraySignature([l]) == XrayRecord(l) + ";"
    ensures |XrayScript([l]).counters| == 2
  {
    var rs, cs := XrayRecords([l]), XrayClients([l]);
    assert rs == [XrayRecord(l)] && cs == [XrayClient(l)];
    assert rs[1..] == [] && cs[1..] == [];
    assert Join(rs) == rs[0] + ";" + Join(rs[1..]);
    assert Counters(cs) == cs[0].counters + Counters(cs[1..]);
  }

  lemma TwoRecords(l: Limit, k: Limit)
    ensures XraySignature([l, k]) == XrayRecord(l) + ";" + (XrayRecord(k) + ";")
    ensures |XrayScript([l, k]).counters| == 4
  {
    OneRecord(k);
    var rs, cs := XrayRecords([l, k]), XrayClients([l, k]);
    assert rs[1..] == XrayRecords([k]) && cs[1..] == XrayClients([k]);
    assert Join(rs) == rs[0] + ";" + Join(rs[1..]);
    assert Counters(cs) == cs[0].counters + Counters(cs[1..]);
  }
}
