/** Copying clients to another inbound under fresh emails, and the duplicate check that follows. */
module CopyClients {
  import opened Wrappers
  import opened Text

  /** `strings.ToLower` works character by character. It leaves digits, `_` and `-` alone, and only the
      quote lowers to the quote. */
  type Casing = char -> char

  ghost predicate IsCasing(lower: Casing) {
    && (forall c :: c in "0123456789_-" ==> lower(c) == c)
    && (forall c :: lower(c) == '"' <==> c == '"')
  }

  function Lower(lower: Casing, s: string): (r: string)
    ensures |r| == |s| && forall i :: 0 <= i < |s| ==> r[i] == lower(s[i])
  {
    seq(|s|, i requires 0 <= i < |s| => lower(s[i]))
  }

  // ---------------------------------------------------------------- the suffix search

  function Base(email: string, targetId: int): string {
    email + "_" + Decimal(targetId)
  }

  function Candidate(base: string, k: nat): string {
    if k == 0 then base else base + "_" + Decimal(k)
  }

  predicate Taken(lower: Casing, base: string, occupied: set<string>, k: nat) {
    Lower(lower, Candidate(base, k)) in occupied
  }

  lemma LowerSuffix(lower: Casing, base: string, d: string)
    requires IsCasing(lower) && Lower(lower, d) == d
    ensures Lower(lower, base + "_" + d) == Lower(lower, base) + ("_" + d)
  {
    assert '_' in "0123456789_-";
    var s := base + "_" + d;
    var r := Lower(lower, base) + ("_" + d);
    forall i | 0 <= i < |s| ensures lower(s[i]) == r[i] {
      if i > |base| { assert s[i] == d[i - |base| - 1]; }
    }
  }

  lemma LowerDecimal(lower: Casing, i: int)
    requires IsCasing(lower)
    ensures Lower(lower, Decimal(i)) == Decimal(i)
  {
    DecimalDigits(i);
  }

  lemma {:induction false} DigitsAreDecimal(n: nat)
    ensures forall c :: c in Digits(n, Ten) ==> c in "0123456789"
    decreases n
  {
    if !Ten.OneDigit(n) { DigitsAreDecimal(Ten.Quotient(n)); }
  }

  lemma DecimalDigits(i: int)
    ensures forall c :: c in Decimal(i) ==> c in "0123456789_-"
    ensures Decimal(i) != "" && Decimal(i)[|Decimal(i)| - 1] in "0123456789"
  {
    DigitsAreDecimal(if i < 0 then -i else i);
    var d := Digits(if i < 0 then -i else i, Ten);
    assert d[|d| - 1] in d;
  }

  /** The candidates of one base differ also in lower case. */
  lemma CandidatesDiffer(lower: Casing, base: string, j: nat, k: nat)
    requires IsCasing(lower) && j < k
    ensures Lower(lower, Candidate(base, j)) != Lower(lower, Candidate(base, k))
  {
    Shape(lower, base, k);
    Shape(lower, base, j);
    DecimalDigits(k);
    if Lower(lower, Candidate(base, j)) == Lower(lower, Candidate(base, k)) && j > 0 {
      SameSuffix(Lower(lower, base), Decimal(j), Decimal(k));
      DecimalInjective(j, k);
    }
  }

  lemma SameSuffix(a: string, x: string, y: string)
    requires a + ("_" + x) == a + ("_" + y)
    ensures x == y
  {
    assert x == (a + ("_" + x))[|a| + 1..];
    assert y == (a + ("_" + y))[|a| + 1..];
  }

  lemma Shape(lower: Casing, base: string, k: nat)
    requires IsCasing(lower)
    ensures Lower(lower, Candidate(base, k)) == Lower(lower, base) + if k == 0 then "" else "_" + Decimal(k)
  {
    if k > 0 {
      LowerDecimal(lower, k);
      LowerSuffix(lower, base, Decimal(k));
    }
  }

  /** Candidates that are all taken are as many occupied emails. */
  lemma {:induction false} TakenCount(lower: Casing, base: string, occupied: set<string>, k: nat)
    requires IsCasing(lower) && forall j: nat :: j < k ==> Taken(lower, base, occupied, j)
    ensures k <= |occupied|
  {
    if k > 0 {
      var last := Lower(lower, Candidate(base, k - 1));
      assert Taken(lower, base, occupied, k - 1);
      forall j: nat | j < k - 1 ensures Taken(lower, base, occupied - {last}, j) {
        assert Taken(lower, base, occupied, j);
        CandidatesDiffer(lower, base, j, k - 1);
      }
      TakenCount(lower, base, occupied - {last}, k - 1);
    }
  }

  /** The number of the first free candidate. */
  ghost function FirstFree(lower: Casing, base: string, occupied: set<string>, k: nat): (n: nat)
    requires IsCasing(lower) && forall j: nat :: j < k ==> Taken(lower, base, occupied, j)
    ensures !Taken(lower, base, occupied, n) && forall j: nat :: j < n ==> Taken(lower, base, occupied, j)
    decreases |occupied| - k
  {
    TakenCount(lower, base, occupied, k);
    if Taken(lower, base, occupied, k) then
      TakenCount(lower, base, occupied, k + 1);
      FirstFree(lower, base, occupied, k + 1)
    else k
  }

  ghost function Available(lower: Casing, email: string, targetId: int, occupied: set<string>): string
    requires IsCasing(lower)
  {
    Candidate(Base(email, targetId), FirstFree(lower, Base(email, targetId), occupied, 0))
  }

  /** The search ends within one candidate more than there are occupied emails, at the first that is free. */
  method NextAvailableCopiedEmail(lower: Casing, email: string, targetId: int, occupied: set<string>)
      returns (candidate: string, tries: nat, after: set<string>)
    requires IsCasing(lower)
    ensures candidate == Available(lower, email, targetId, occupied)
    ensures 1 <= tries <= |occupied| + 1
    ensures Lower(lower, candidate) !in occupied && after == occupied + {Lower(lower, candidate)}
  {
    var base := Base(email, targetId);
    candidate := base;
    var suffix := 0;
    while Lower(lower, candidate) in occupied
      invariant candidate == Candidate(base, suffix)
      invariant forall j: nat :: j < suffix ==> Taken(lower, base, occupied, j)
      decreases |occupied| - suffix
    {
      assert Taken(lower, base, occupied, suffix);
      TakenCount(lower, base, occupied, suffix + 1);
      suffix := suffix + 1;
      candidate := base + "_" + Decimal(suffix);
    }
    TakenCount(lower, base, occupied, suffix);
    FreeIsUnique(lower, base, occupied, suffix);
    tries := suffix + 1;
    after := occupied + {Lower(lower, candidate)};
  }

  lemma FreeIsUnique(lower: Casing, base: string, occupied: set<string>, n: nat)
    requires IsCasing(lower) && !Taken(lower, base, occupied, n) && forall j: nat :: j < n ==> Taken(lower, base, occupied, j)
    ensures FirstFree(lower, base, occupied, 0) == n
  {
    OneFirst(lower, base, occupied, FirstFree(lower, base, occupied, 0), n);
  }

  lemma OneFirst(lower: Casing, base: string, occupied: set<string>, m: nat, n: nat)
    requires !Taken(lower, base, occupied, m) && forall j: nat :: j < m ==> Taken(lower, base, occupied, j)
    requires !Taken(lower, base, occupied, n) && forall j: nat :: j < n ==> Taken(lower, base, occupied, j)
    ensures m == n
  {
  }

  // ---------------------------------------------------------------- the copies

  /** A client of the source inbound. `subIdOk` is false when its missing subscription id could not be
      written back. */
  datatype Source = Source(email: string, subIdOk: bool)

  predicate Eligible(lower: Casing, allowed: set<string>, s: Source) {
    TrimSpace(s.email) != "" && (allowed == {} || Lower(lower, TrimSpace(s.email)) in allowed) && s.subIdOk
  }

  /** The trimmed emails of the clients to copy, in order. */
  function Originals(lower: Casing, sources: seq<Source>, allowed: set<string>): (r: seq<string>)
    ensures forall e :: e in r ==> e != ""
  {
    if sources == [] then []
    else
      var r, s := Originals(lower, sources[..|sources| - 1], allowed), sources[|sources| - 1];
      if Eligible(lower, allowed, s) then r + [TrimSpace(s.email)] else r
  }

  /** The emails taken after some clients were copied, and the copies made. */
  datatype Copies = Copies(occupied: set<string>, emails: seq<string>)

  ghost function Copied(lower: Casing, originals: seq<string>, targetId: int, occupied: set<string>): Copies
    requires IsCasing(lower)
  {
    if originals == [] then Copies(occupied, [])
    else
      var c := Copied(lower, originals[..|originals| - 1], targetId, occupied);
      var e := Available(lower, originals[|originals| - 1], targetId, c.occupied);
      Copies(c.occupied + {Lower(lower, e)}, c.emails + [e])
  }

  predicate IsQuote(c: char) {
    c == '"'
  }

  function Unquoted(email: string): string {
    Trim(email, IsQuote)
  }

  function Occupied(lower: Casing, existing: seq<string>): set<string> {
    set e | e in existing && Unquoted(e) != "" :: Lower(lower, Unquoted(e))
  }

  method CopyEmails(lower: Casing, sources: seq<Source>, targetId: int, clientEmails: seq<string>, existing: seq<string>)
      returns (emails: seq<string>)
    requires IsCasing(lower)
    ensures emails ==
      Copied(lower, Originals(lower, sources, Allowed(lower, clientEmails)), targetId, Occupied(lower, existing)).emails
  {
    var allowed := AllowedSet(lower, clientEmails);
    var occupied := {};
    for i := 0 to |existing|
      invariant occupied == Occupied(lower, existing[..i])
    {
      var clean := Unquoted(existing[i]);
      OneMoreEmail(lower, existing, i);
      if clean != "" { occupied := occupied + {Lower(lower, clean)}; }
    }
    assert existing[..|existing|] == existing;
    ghost var start := occupied;
    emails := [];
    for i := 0 to |sources|
      invariant Copies(occupied, emails) == Copied(lower, Originals(lower, sources[..i], allowed), targetId, start)
    {
      assert sources[..i + 1][..i] == sources[..i];
      ghost var done := Originals(lower, sources[..i], allowed);
      var original := TrimSpace(sources[i].email);
      if original == "" { continue; }
      if allowed != {} && Lower(lower, original) !in allowed { continue; }
      if !sources[i].subIdOk { continue; }
      var e, tries;
      e, tries, occupied := NextAvailableCopiedEmail(lower, original, targetId, occupied);
      emails := emails + [e];
      assert (done + [original])[..|done|] == done;
    }
    assert sources[..|sources|] == sources;
  }

  function Allowed(lower: Casing, clientEmails: seq<string>): set<string> {
    set e | e in clientEmails :: Lower(lower, TrimSpace(e))
  }

  method AllowedSet(lower: Casing, clientEmails: seq<string>) returns (allowed: set<string>)
    ensures allowed == Allowed(lower, clientEmails)
  {
    allowed := {};
    for i := 0 to |clientEmails|
      invariant allowed == Allowed(lower, clientEmails[..i])
    {
      assert clientEmails[..i + 1] == clientEmails[..i] + [clientEmails[i]];
      allowed := allowed + {Lower(lower, TrimSpace(clientEmails[i]))};
    }
    assert clientEmails[..|clientEmails|] == clientEmails;
  }

  lemma OneMoreEmail(lower: Casing, existing: seq<string>, i: nat)
    requires i < |existing|
    ensures Occupied(lower, existing[..i + 1]) ==
      Occupied(lower, existing[..i]) + if Unquoted(existing[i]) != "" then {Lower(lower, Unquoted(existing[i]))} else {}
  {
    assert existing[..i + 1] == existing[..i] + [existing[i]];
    assert forall e :: e in existing[..i + 1] <==> e in existing[..i] || e == existing[i];
  }

  // ---------------------------------------------------------------- the duplicate check

  /** `contains`. */
  predicate Contains(lower: Casing, emails: seq<string>, email: string) {
    exists e :: e in emails && Lower(lower, e) == Lower(lower, email)
  }

  /** `checkEmailsExistForClients` finds nothing. */
  ghost predicate NoDuplicate(lower: Casing, clients: seq<string>, existing: seq<string>) {
    forall i :: 0 <= i < |clients| && clients[i] != "" ==>
      !Contains(lower, existing, clients[i]) &&
      forall j :: 0 <= j < i && clients[j] != "" ==> Lower(lower, clients[j]) != Lower(lower, clients[i])
  }

  method CheckEmailsExist(lower: Casing, clients: seq<string>, existing: seq<string>) returns (duplicate: Option<string>)
    ensures duplicate.None? <==> NoDuplicate(lower, clients, existing)
    ensures duplicate.Some? ==> duplicate.value in clients && duplicate.value != ""
  {
    var emails: seq<string> := [];
    for i := 0 to |clients|
      invariant forall e :: e in emails <==> e != "" && e in clients[..i]
      invariant NoDuplicate(lower, clients[..i], existing)
    {
      assert clients[..i + 1] == clients[..i] + [clients[i]];
      if clients[i] != "" {
        if Contains(lower, emails, clients[i]) {
          var e :| e in emails && Lower(lower, e) == Lower(lower, clients[i]);
          var j :| 0 <= j < i && clients[j] == e;
          assert !NoDuplicate(lower, clients, existing);
          return Some(clients[i]);
        }
        if Contains(lower, existing, clients[i]) {
          assert !NoDuplicate(lower, clients, existing);
          return Some(clients[i]);
        }
        forall j | 0 <= j < i && clients[j] != "" ensures Lower(lower, clients[j]) != Lower(lower, clients[i]) {
          assert clients[j] in clients[..i];
        }
        emails := emails + [clients[i]];
      }
    }
    assert clients[..|clients|] == clients;
    duplicate := None;
  }

  // ---------------------------------------------------------------- fresh for every database

  ghost predicate DistinctLower(lower: Casing, emails: seq<string>) {
    forall i, j :: 0 <= i < j < |emails| ==> Lower(lower, emails[i]) != Lower(lower, emails[j])
  }

  /** The copies differ, whatever the case of their letters, from every occupied email and from each other. */
  lemma {:induction false} CopiesAreFresh(lower: Casing, originals: seq<string>, targetId: int, occupied: set<string>)
    requires IsCasing(lower)
    ensures var c := Copied(lower, originals, targetId, occupied);
      && |c.emails| == |originals| && DistinctLower(lower, c.emails)
      && (forall e :: e in c.emails ==> Lower(lower, e) !in occupied && Lower(lower, e) in c.occupied)
      && occupied <= c.occupied
  {
    if originals != [] { CopiesAreFresh(lower, originals[..|originals| - 1], targetId, occupied); }
  }

  /** What the copy of an email looks like. */
  predicate CopyOf(original: string, copy: string) {
    |original| < |copy| && copy[..|original|] == original && copy[|copy| - 1] in "0123456789"
  }

  lemma CandidateIsCopy(email: string, targetId: int, k: nat)
    ensures CopyOf(email, Candidate(Base(email, targetId), k))
  {
    DecimalDigits(targetId);
    DecimalDigits(k);
  }

  lemma LastCopy(lower: Casing, originals: seq<string>, targetId: int, occupied: set<string>)
    requires IsCasing(lower) && originals != []
    ensures var c := Copied(lower, originals, targetId, occupied).emails;
      && c != [] && c[..|c| - 1] == Copied(lower, originals[..|originals| - 1], targetId, occupied).emails
      && CopyOf(originals[|originals| - 1], c[|c| - 1])
  {
    var last := originals[|originals| - 1];
    var c := Copied(lower, originals[..|originals| - 1], targetId, occupied);
    CandidateIsCopy(last, targetId, FirstFree(lower, Base(last, targetId), c.occupied, 0));
  }

  /** The copies are in the order of their originals. */
  lemma {:induction false} CopiesComeFromOriginals(lower: Casing, originals: seq<string>, targetId: int, occupied: set<string>, i: nat)
    requires IsCasing(lower) && i < |originals|
    ensures |Copied(lower, originals, targetId, occupied).emails| == |originals|
    ensures CopyOf(originals[i], Copied(lower, originals, targetId, occupied).emails[i])
  {
    CopiesAreFresh(lower, originals, targetId, occupied);
    LastCopy(lower, originals, targetId, occupied);
    if i < |originals| - 1 { CopiesComeFromOriginals(lower, originals[..|originals| - 1], targetId, occupied, i); }
  }

  lemma UnquotedIsSame(email: string)
    requires email != "" && email[0] != '"' && email[|email| - 1] != '"'
    ensures Unquoted(email) == email
  {
  }

  lemma SameEnds(lower: Casing, e: string, copy: string)
    requires IsCasing(lower) && copy != "" && copy[0] != '"' && copy[|copy| - 1] in "0123456789"
    requires Lower(lower, e) == Lower(lower, copy)
    ensures e != "" && e[0] != '"' && e[|e| - 1] != '"'
  {
    assert |e| == |Lower(lower, e)| == |copy|;
    assert Lower(lower, e)[0] == lower(copy[0]) && Lower(lower, e)[|e| - 1] == lower(copy[|e| - 1]);
  }

  /** An email that does not begin with a quote, and ends in a digit, is not hidden by the unquoting:
      when it is not occupied, no existing email equals it. */
  lemma NotOccupiedNotContained(lower: Casing, existing: seq<string>, copy: string)
    requires IsCasing(lower) && copy != "" && copy[0] != '"' && copy[|copy| - 1] in "0123456789"
    requires Lower(lower, copy) !in Occupied(lower, existing)
    ensures !Contains(lower, existing, copy)
  {
    forall e | e in existing ensures Lower(lower, e) != Lower(lower, copy) {
      if Lower(lower, e) == Lower(lower, copy) {
        SameEnds(lower, e, copy);
        UnquotedIsSame(e);
      }
    }
  }

  predicate Quoted(email: string) {
    email != "" && email[0] == '"'
  }

  predicate NoLeadingQuote(originals: seq<string>) {
    forall e :: e in originals ==> e != "" && !Quoted(e)
  }

  lemma CopyNotContained(lower: Casing, existing: seq<string>, original: string, copy: string)
    requires IsCasing(lower) && original != "" && !Quoted(original) && CopyOf(original, copy)
    requires Lower(lower, copy) !in Occupied(lower, existing)
    ensures !Contains(lower, existing, copy)
  {
    assert copy[..|original|][0] == copy[0];
    NotOccupiedNotContained(lower, existing, copy);
  }

  lemma UnquotedAccepted(lower: Casing, originals: seq<string>, targetId: int, existing: seq<string>)
    requires IsCasing(lower) && NoLeadingQuote(originals)
    ensures NoDuplicate(lower, Copied(lower, originals, targetId, Occupied(lower, existing)).emails, existing)
  {
    var occupied := Occupied(lower, existing);
    var emails := Copied(lower, originals, targetId, occupied).emails;
    CopiesAreFresh(lower, originals, targetId, occupied);
    forall i | 0 <= i < |emails| ensures !Contains(lower, existing, emails[i]) {
      CopiesComeFromOriginals(lower, originals, targetId, occupied, i);
      assert originals[i] in originals && emails[i] in emails;
      CopyNotContained(lower, existing, originals[i], emails[i]);
    }
  }

  predicate AllUnquoted(s: set<string>) {
    forall e :: e in s ==> e != "" && !Quoted(e)
  }

  /** No copy of unquoted originals begins with a quote. */
  lemma {:induction false} UnquotedStayUnquoted(lower: Casing, originals: seq<string>, targetId: int, occupied: set<string>)
    requires IsCasing(lower) && NoLeadingQuote(originals) && AllUnquoted(occupied)
    ensures AllUnquoted(Copied(lower, originals, targetId, occupied).occupied)
  {
    if originals != [] {
      var prefix, last := originals[..|originals| - 1], originals[|originals| - 1];
      assert last in originals && forall e :: e in prefix ==> e in originals;
      UnquotedStayUnquoted(lower, prefix, targetId, occupied);
      var c := Copied(lower, prefix, targetId, occupied);
      CandidateIsCopy(last, targetId, FirstFree(lower, Base(last, targetId), c.occupied, 0));
      var copy := Available(lower, last, targetId, c.occupied);
      assert copy[..|last|][0] == last[0];
      assert Lower(lower, copy)[0] == lower(copy[0]);
    }
  }

  lemma UnquotedHead(email: string)
    ensures Unquoted(email) != "" ==> Unquoted(email)[0] != '"'
  {
    var l := TrimLeft(email, IsQuote);
    var r := TrimRight(l, IsQuote);
    if r != "" { assert r[0] == l[0]; }
  }

  lemma OccupiedIsUnquoted(lower: Casing, existing: seq<string>)
    requires IsCasing(lower)
    ensures AllUnquoted(Occupied(lower, existing))
  {
    forall e | e in Occupied(lower, existing) ensures e != "" && !Quoted(e) {
      var x :| x in existing && Unquoted(x) != "" && Lower(lower, Unquoted(x)) == e;
      UnquotedHead(x);
      assert e[0] == lower(Unquoted(x)[0]);
    }
  }

  lemma {:induction false} CopiesOfPrefix(lower: Casing, originals: seq<string>, targetId: int, occupied: set<string>, n: nat)
    requires IsCasing(lower) && n <= |originals|
    ensures Copied(lower, originals[..n], targetId, occupied).emails <= Copied(lower, originals, targetId, occupied).emails
  {
    if n < |originals| {
      CopiesOfPrefix(lower, originals[..|originals| - 1], targetId, occupied, n);
      assert originals[..|originals| - 1][..n] == originals[..n];
    } else {
      assert originals[..n] == originals;
    }
  }

  lemma QuotedBaseIsAvailable(lower: Casing, email: string, targetId: int, occupied: set<string>)
    requires IsCasing(lower) && AllUnquoted(occupied) && Quoted(Base(email, targetId))
    ensures Available(lower, email, targetId, occupied) == Base(email, targetId)
  {
    var base := Base(email, targetId);
    assert Lower(lower, base)[0] == '"';
    assert !Taken(lower, base, occupied, 0);
    FreeIsUnique(lower, base, occupied, 0);
  }

  lemma FirstCopyIsItsBase(lower: Casing, originals: seq<string>, targetId: int, n: nat, base: string)
    requires IsCasing(lower) && n < |originals| && NoLeadingQuote(originals[..n])
    requires Quoted(base) && base == Base(originals[n], targetId)
    ensures base in Copied(lower, originals[..n + 1], targetId, Occupied(lower, [base])).emails
  {
    var occupied := Occupied(lower, [base]);
    OccupiedIsUnquoted(lower, [base]);
    UnquotedStayUnquoted(lower, originals[..n], targetId, occupied);
    QuotedBaseIsAvailable(lower, originals[n], targetId, Copied(lower, originals[..n], targetId, occupied).occupied);
    assert originals[..n + 1][..n] == originals[..n];
  }

  lemma PrefixMembers(a: seq<string>, b: seq<string>, x: string)
    requires a <= b && x in a
    ensures x in b
  {
    var i :| 0 <= i < |a| && a[i] == x;
    assert b[i] == x;
  }

  lemma RefusedWhenContained(lower: Casing, clients: seq<string>, base: string)
    requires base in clients && base != ""
    ensures !NoDuplicate(lower, clients, [base])
  {
    var i :| 0 <= i < |clients| && clients[i] == base;
    assert base in [base];
    assert Contains(lower, [base], clients[i]);
  }

  /** The first quoted client is refused when its own base email exists already: the occupied set holds
      that email without its quotes only. */
  lemma QuotedRefused(lower: Casing, originals: seq<string>, targetId: int, n: nat, base: string)
    requires IsCasing(lower) && n < |originals| && NoLeadingQuote(originals[..n])
    requires Quoted(base) && base == Base(originals[n], targetId)
    ensures !NoDuplicate(lower, Copied(lower, originals, targetId, Occupied(lower, [base])).emails, [base])
  {
    FirstCopyIsItsBase(lower, originals, targetId, n, base);
    CopiesOfPrefix(lower, originals, targetId, Occupied(lower, [base]), n + 1);
    var all := Copied(lower, originals, targetId, Occupied(lower, [base])).emails;
    PrefixMembers(Copied(lower, originals[..n + 1], targetId, Occupied(lower, [base])).emails, all, base);
    RefusedWhenContained(lower, all, base);
  }

  lemma {:induction false} FirstQuoted(originals: seq<string>) returns (n: nat)
    requires !NoLeadingQuote(originals) && "" !in originals
    ensures n < |originals| && Quoted(originals[n]) && NoLeadingQuote(originals[..n])
  {
    var prefix := originals[..|originals| - 1];
    assert originals == prefix + [originals[|originals| - 1]];
    if NoLeadingQuote(prefix) {
      n := |prefix|;
    } else {
      n := FirstQuoted(prefix);
      assert prefix[..n] == originals[..n];
    }
  }

  /** The later add accepts the copies, whatever emails exist, if and only if no copied client's email
      begins with a quote. */
  lemma AcceptedIffNoLeadingQuote(lower: Casing, sources: seq<Source>, targetId: int, allowed: set<string>)
    requires IsCasing(lower)
    ensures (forall existing: seq<string> ::
        NoDuplicate(lower, Copied(lower, Originals(lower, sources, allowed), targetId, Occupied(lower, existing)).emails, existing))
      <==> NoLeadingQuote(Originals(lower, sources, allowed))
  {
    var originals := Originals(lower, sources, allowed);
    if NoLeadingQuote(originals) {
      forall existing: seq<string>
        ensures NoDuplicate(lower, Copied(lower, originals, targetId, Occupied(lower, existing)).emails, existing)
      {
        UnquotedAccepted(lower, originals, targetId, existing);
      }
    } else {
      var n := FirstQuoted(originals);
      QuotedRefused(lower, originals, targetId, n, Base(originals[n], targetId));
    }
  }
}
