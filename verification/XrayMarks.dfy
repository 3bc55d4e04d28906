/** Socket marks for rate-limited Xray clients: the list is sorted by email and each client probes
    upwards from a 20-bit hash of its email until it finds a free mark. */
module XrayMarks {
  import opened Text

  datatype Limit = Limit(email: string, downloadMbps: int, uploadMbps: int, mark: int)

  /** FNV-1a over the email; only its low 20 bits are used. */
  type Hash = string -> nat

  const MARK_BASE := 0x200000
  const HASH_SIZE := 0x100000

  /** `0x200000 | (hash & 0xfffff)`: the two operands share no bit. */
  function FirstProbe(h: Hash, email: string): (m: int)
    ensures MARK_BASE <= m < MARK_BASE + HASH_SIZE
  {
    MARK_BASE + h(email) % HASH_SIZE
  }

  function SshMark(id: int): int {
    0x100000 + id
  }

  // ---------------------------------------------------------------- sorting

  ghost predicate SortedByEmail(s: seq<Limit>) {
    forall i, j :: 0 <= i < j < |s| ==> !Less(s[j].email, s[i].email)
  }

  function Insert(x: Limit, s: seq<Limit>): (r: seq<Limit>)
    requires SortedByEmail(s)
    ensures SortedByEmail(r) && multiset(r) == multiset(s) + multiset{x}
  {
    if s == [] then [x]
    else if !Less(s[0].email, x.email) then
      InsertFront(x, s);
      assert multiset([x] + s) == multiset(s) + multiset{x};
      [x] + s
    else
      var t := Insert(x, s[1..]);
      assert s == [s[0]] + s[1..];
      InsertBack(s[0], x, s[1..], t);
      [s[0]] + t
  }

  lemma InsertFront(x: Limit, s: seq<Limit>)
    requires SortedByEmail(s) && s != [] && !Less(s[0].email, x.email)
    ensures SortedByEmail([x] + s)
  {
    forall j | 0 <= j < |s| ensures !Less(s[j].email, x.email) {
      if Less(s[j].email, x.email) {
        LessTrichotomy(s[j].email, s[0].email);
        if s[0].email != s[j].email { LessTransitive(s[0].email, s[j].email, x.email); }
      }
    }
  }

  lemma InsertBack(y: Limit, x: Limit, s: seq<Limit>, t: seq<Limit>)
    requires SortedByEmail([y] + s) && SortedByEmail(t) && Less(y.email, x.email)
    requires multiset(t) == multiset(s) + multiset{x}
    ensures SortedByEmail([y] + t)
  {
    forall j | 0 <= j < |t| ensures !Less(t[j].email, y.email) {
      assert t[j] in multiset(t);
      if t[j] == x {
        LessTrichotomy(y.email, x.email);
      } else {
        assert t[j] in multiset(s);
        var k :| 0 <= k < |s| && s[k] == t[j];
        assert ([y] + s)[0] == y && ([y] + s)[k + 1] == t[j];
      }
    }
  }

  function Sorted(s: seq<Limit>): (r: seq<Limit>)
    ensures SortedByEmail(r) && multiset(r) == multiset(s)
    ensures |r| == |s|
  {
    if s == [] then []
    else
      assert s == [s[0]] + s[1..];
      var r := Insert(s[0], Sorted(s[1..]));
      assert |multiset(r)| == |multiset(s)|;
      r
  }

  function Emails(s: seq<Limit>): (r: seq<string>)
    ensures |r| == |s| && forall i :: 0 <= i < |s| ==> r[i] == s[i].email
  {
    seq(|s|, i requires 0 <= i < |s| => s[i].email)
  }

  ghost predicate DistinctEmails(s: seq<Limit>) {
    forall i, j :: 0 <= i < j < |s| ==> s[i].email != s[j].email
  }

  // ---------------------------------------------------------------- probing

  ghost function AtLeast(used: set<int>, m: int): set<int> {
    set u | u in used && u >= m
  }

  /** The first mark at or above `m` that is not used yet. */
  function Probe(used: set<int>, m: int): (r: int)
    ensures r >= m && r !in used
    ensures forall k :: m <= k < r ==> k in used
    decreases AtLeast(used, m)
  {
    if m !in used then m
    else
      assert m in AtLeast(used, m) - AtLeast(used, m + 1);
      Probe(used, m + 1)
  }

  function Marks(emails: seq<string>, h: Hash): (marks: seq<int>)
    ensures |marks| == |emails|
  {
    if emails == [] then []
    else
      var front := emails[..|emails| - 1];
      var marks := Marks(front, h);
      marks + [Probe((set m | m in marks), FirstProbe(h, emails[|emails| - 1]))]
  }

  function WithMarks(s: seq<Limit>, marks: seq<int>): (r: seq<Limit>)
    requires |marks| == |s|
    ensures |r| == |s|
    ensures forall i :: 0 <= i < |s| ==> r[i] == s[i].(mark := marks[i])
  {
    seq(|s|, i requires 0 <= i < |s| => s[i].(mark := marks[i]))
  }

  /** What `assignXrayMarks` leaves in its slice. */
  function Assigned(limits: seq<Limit>, h: Hash): (r: seq<Limit>)
    ensures |r| == |limits|
  {
    var s := Sorted(limits);
    WithMarks(s, Marks(Emails(s), h))
  }

  lemma {:induction false} MarksPrefix(emails: seq<string>, h: Hash, i: nat)
    requires i <= |emails|
    ensures Marks(emails, h)[..i] == Marks(emails[..i], h)
    decreases |emails|
  {
    if i < |emails| {
      var front := emails[..|emails| - 1];
      MarksPrefix(front, h, i);
      assert front[..i] == emails[..i];
      assert Marks(emails, h)[..i] == Marks(front, h)[..i];
    } else {
      assert emails[..i] == emails;
    }
  }

  lemma MarksStep(emails: seq<string>, h: Hash, i: nat)
    requires i < |emails|
    ensures var marks := Marks(emails, h);
      marks[i] == Probe((set m | m in marks[..i]), FirstProbe(h, emails[i]))
  {
    var upTo := emails[..i + 1];
    MarksPrefix(emails, h, i);
    MarksPrefix(emails, h, i + 1);
    assert upTo[..|upTo| - 1] == emails[..i];
    assert Marks(emails, h)[i] == Marks(emails, h)[..i + 1][i];
  }

  /** The inner probing loop. */
  method FindFree(used: set<int>, first: int) returns (mark: int)
    ensures mark == Probe(used, first)
  {
    mark := first;
    while mark in used
      invariant Probe(used, mark) == Probe(used, first)
      decreases AtLeast(used, mark)
    {
      assert mark in AtLeast(used, mark) - AtLeast(used, mark + 1);
      mark := mark + 1;
    }
  }

  method SortInPlace(limits: array<Limit>)
    modifies limits
    ensures limits[..] == Sorted(old(limits[..]))
  {
    var s := Sorted(limits[..]);
    forall k | 0 <= k < limits.Length { limits[k] := s[k]; }
  }

  method MarkInPlace(limits: array<Limit>, h: Hash)
    modifies limits
    ensures limits[..] == WithMarks(old(limits[..]), Marks(Emails(old(limits[..])), h))
  {
    ghost var s := limits[..];
    ghost var emails := Emails(s);
    ghost var marks := Marks(emails, h);
    var used := {};
    var i := 0;
    while i < limits.Length
      invariant 0 <= i <= limits.Length
      invariant used == set m | m in marks[..i]
      invariant forall k :: 0 <= k < i ==> limits[k] == s[k].(mark := marks[k])
      invariant forall k :: i <= k < limits.Length ==> limits[k] == s[k]
    {
      MarksStep(emails, h, i);
      var mark := FindFree(used, FirstProbe(h, limits[i].email));
      assert marks[..i + 1] == marks[..i] + [mark];
      used := used + {mark};
      limits[i] := limits[i].(mark := mark);
      i := i + 1;
    }
    assert limits[..] == WithMarks(s, marks);
  }

  /** `assignXrayMarks`. */
  method AssignMarks(limits: array<Limit>, h: Hash)
    modifies limits
    ensures limits[..] == Assigned(old(limits[..]), h)
  {
    SortInPlace(limits);
    MarkInPlace(limits, h);
  }

  // ---------------------------------------------------------------- the table

  lemma {:induction false} IntervalWithin(lo: int, hi: int, used: set<int>)
    requires lo <= hi && forall k :: lo <= k < hi ==> k in used
    ensures hi - lo <= |used|
    decreases hi - lo
  {
    if lo < hi {
      IntervalWithin(lo, hi - 1, used - {hi - 1});
    }
  }

  lemma {:induction false} MembersAtMost(s: seq<int>)
    ensures |set m | m in s| <= |s|
  {
    if s == [] {
      assert (set m | m in s) == {};
    } else {
      var front := s[..|s| - 1];
      MembersAtMost(front);
      assert s == front + [s[|s| - 1]];
      assert (set m | m in s) == (set m | m in front) + {s[|s| - 1]};
    }
  }

  /** Open addressing: marks are pairwise distinct and the i-th mark overshoots the hash range by at
      most i. */
  lemma {:induction false} MarksDistinctAndBounded(emails: seq<string>, h: Hash)
    ensures forall i, j :: 0 <= i < j < |emails| ==> Marks(emails, h)[i] != Marks(emails, h)[j]
    ensures forall i :: 0 <= i < |emails| ==> MARK_BASE <= Marks(emails, h)[i] <= 0x2fffff + i
  {
    if emails != [] {
      var front := emails[..|emails| - 1];
      var marks := Marks(front, h);
      var used := set m | m in marks;
      MarksDistinctAndBounded(front, h);
      var first := FirstProbe(h, emails[|emails| - 1]);
      var mark := Probe(used, first);
      IntervalWithin(first, mark, used);
      MembersAtMost(marks);
      var all := Marks(emails, h);
      assert all == marks + [mark];
      forall i | 0 <= i < |marks| ensures all[i] != mark && MARK_BASE <= all[i] <= 0x2fffff + i {
        assert all[i] == marks[i] && marks[i] in used;
      }
    }
  }

  lemma {:induction false} ConstantHashFillsUp(emails: seq<string>, h: Hash, c: nat)
    requires c < HASH_SIZE && forall e :: h(e) == c
    ensures forall i :: 0 <= i < |emails| ==> Marks(emails, h)[i] == MARK_BASE + c + i
  {
    if emails != [] {
      var front := emails[..|emails| - 1];
      ConstantHashFillsUp(front, h, c);
      var used := set m | m in Marks(front, h);
      var first := MARK_BASE + c;
      forall k | first <= k < first + |front| ensures k in used {
        assert Marks(front, h)[k - first] == k;
      }
      assert first + |front| !in used;
      var r := Probe(used, first);
      assert r == first + |front|;
    }
  }

  ghost predicate Holds(limits: seq<Limit>, h: Hash, m: int) {
    exists i :: 0 <= i < |limits| && Assigned(limits, h)[i].mark == m
  }

  /** The marks an n-client table can hand out are exactly 0x200000 .. 0x2fffff + n - 1. */
  lemma ReachableMarks(limits: seq<Limit>, m: int)
    ensures (exists h: Hash :: Holds(limits, h, m)) <==> limits != [] && MARK_BASE <= m <= 0x2fffff + |limits| - 1
  {
    forall h: Hash | Holds(limits, h, m)
      ensures limits != [] && MARK_BASE <= m <= 0x2fffff + |limits| - 1
    {
      AssignedTable(limits, h);
    }
    if limits != [] && MARK_BASE <= m <= 0x2fffff + |limits| - 1 {
      var c: nat := if m <= 0x2fffff then m - MARK_BASE else HASH_SIZE - 1;
      var h: Hash := (e: string) => c;
      ConstantHashFillsUp(Emails(Sorted(limits)), h, c);
      var i := m - MARK_BASE - c;
      assert Assigned(limits, h)[i].mark == m;
      assert Holds(limits, h, m);
    }
  }

  /** The mark of an SSH user id can be handed to an Xray client exactly when the id reaches
      0x100000 and is not beyond what n clients can overshoot. */
  lemma SshMarkClash(limits: seq<Limit>, id: nat)
    ensures (exists h: Hash :: Holds(limits, h, SshMark(id)))
       <==> limits != [] && 0x100000 <= id <= 0x1fffff + |limits| - 1
  {
    ReachableMarks(limits, SshMark(id));
  }

  lemma AssignedTable(limits: seq<Limit>, h: Hash)
    ensures var a := Assigned(limits, h);
      && (forall i, j :: 0 <= i < j < |a| ==> a[i].mark != a[j].mark)
      && (forall i :: 0 <= i < |a| ==> MARK_BASE <= a[i].mark <= 0x2fffff + |limits| - 1)
  {
    MarksDistinctAndBounded(Emails(Sorted(limits)), h);
  }

  /** Only marks change: the assigned list is the sorted permutation with its marks replaced. */
  lemma AssignedKeepsClients(limits: seq<Limit>, h: Hash)
    ensures var a := Assigned(limits, h);
      && SortedByEmail(a)
      && exists p: seq<Limit> :: multiset(p) == multiset(limits) && |p| == |a|
           && forall i :: 0 <= i < |a| ==> a[i] == p[i].(mark := a[i].mark)
  {
    var p := Sorted(limits);
    assert forall i :: 0 <= i < |p| ==> Assigned(limits, h)[i] == p[i].(mark := Assigned(limits, h)[i].mark);
  }

  // ---------------------------------------------------------------- order independence

  lemma {:induction false} SortedKeepsEmails(s: seq<Limit>)
    ensures forall e :: e in Emails(Sorted(s)) <==> e in Emails(s)
    ensures DistinctEmails(s) ==> DistinctEmails(Sorted(s)) && StrictlySorted(Emails(Sorted(s)))
  {
    var r := Sorted(s);
    forall e ensures e in Emails(r) <==> e in Emails(s) {
      if e in Emails(r) {
        var i :| 0 <= i < |r| && r[i].email == e;
        assert r[i] in multiset(s);
        var k :| 0 <= k < |s| && s[k] == r[i];
        assert Emails(s)[k] == e;
      }
      if e in Emails(s) {
        var i :| 0 <= i < |s| && s[i].email == e;
        assert s[i] in multiset(r);
        var k :| 0 <= k < |r| && r[k] == s[i];
        assert Emails(r)[k] == e;
      }
    }
    if DistinctEmails(s) {
      forall i, j | 0 <= i < j < |r| ensures r[i].email != r[j].email {
        if r[i].email == r[j].email { DuplicatesSurvive(r, s, i, j); }
      }
      forall i, j | 0 <= i < j < |r| ensures Less(Emails(r)[i], Emails(r)[j]) {
        LessTrichotomy(r[i].email, r[j].email);
      }
    }
  }

  lemma DuplicatesSurvive(r: seq<Limit>, s: seq<Limit>, i: nat, j: nat)
    requires multiset(r) == multiset(s) && i < j < |r| && r[i].email == r[j].email
    ensures !DistinctEmails(s)
  {
    if r[i] == r[j] {
      assert r == r[..i] + [r[i]] + r[i + 1..j] + [r[j]] + r[j + 1..];
      assert multiset(s)[r[i]] >= 2;
      if DistinctEmails(s) { DistinctOnce(s, r[i]); }
    } else {
      assert r[i] in multiset(s) && r[j] in multiset(s);
      var a :| 0 <= a < |s| && s[a] == r[i];
      var b :| 0 <= b < |s| && s[b] == r[j];
      assert a != b;
    }
  }

  lemma {:induction false} DistinctOnce(s: seq<Limit>, x: Limit)
    requires DistinctEmails(s)
    ensures multiset(s)[x] <= 1
  {
    if s != [] {
      assert s == [s[0]] + s[1..];
      assert DistinctEmails(s[1..]);
      DistinctOnce(s[1..], x);
      assert s[0] !in s[1..] by {
        forall k | 0 <= k < |s[1..]| ensures s[1..][k] != s[0] {
          assert s[1..][k] == s[k + 1];
        }
      }
    }
  }

  /** With distinct emails a client's mark depends only on the set of emails, not on the order or on
      the rates in the list. */
  lemma MarksIgnoreOrder(a: seq<Limit>, b: seq<Limit>, h: Hash)
    requires DistinctEmails(a) && DistinctEmails(b)
    requires forall e :: e in Emails(a) <==> e in Emails(b)
    ensures |a| == |b|
    ensures forall i :: 0 <= i < |a| ==>
      Assigned(a, h)[i].email == Assigned(b, h)[i].email && Assigned(a, h)[i].mark == Assigned(b, h)[i].mark
  {
    SortedKeepsEmails(a);
    SortedKeepsEmails(b);
    StrictlySortedUnique(Emails(Sorted(a)), Emails(Sorted(b)));
  }

  /** Go's sort is not stable. With distinct emails that cannot show: any sorted permutation is
      the one `Sorted` returns. */
  lemma {:induction false} AnySortAgrees(s: seq<Limit>, r: seq<Limit>)
    requires DistinctEmails(s) && SortedByEmail(r) && multiset(r) == multiset(s)
    ensures r == Sorted(s)
  {
    var t := Sorted(s);
    SortedKeepsEmails(s);
    assert |r| == |multiset(r)| == |multiset(t)| == |t|;
    forall i, j | 0 <= i < j < |r| ensures Less(r[i].email, r[j].email) {
      if r[i].email == r[j].email { DuplicatesSurvive(r, s, i, j); }
      LessTrichotomy(r[i].email, r[j].email);
    }
    forall e ensures e in Emails(r) <==> e in Emails(t) {
      if e in Emails(r) {
        var i :| 0 <= i < |r| && r[i].email == e;
        assert r[i] in multiset(t);
        var k :| 0 <= k < |t| && t[k] == r[i];
        assert Emails(t)[k] == e;
      }
      if e in Emails(t) {
        var i :| 0 <= i < |t| && t[i].email == e;
        assert t[i] in multiset(r);
        var k :| 0 <= k < |r| && r[k] == t[i];
        assert Emails(r)[k] == e;
      }
    }
    StrictlySortedUnique(Emails(r), Emails(t));
    forall i | 0 <= i < |r| ensures r[i] == t[i] {
      assert Emails(r)[i] == Emails(t)[i];
      assert r[i] in multiset(t);
      var k :| 0 <= k < |t| && t[k] == r[i];
      assert t[k].email == t[i].email;
    }
  }
}
