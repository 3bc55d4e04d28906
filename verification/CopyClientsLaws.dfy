/** Which clients are copied to another inbound, and under which emails. */
module CopyClientsLaws {
  import opened Text
  import opened CopyClients

  /** The client has an email, was chosen if anyone was, and its subscription id is there. */
  ghost predicate IsChosen(lower: Casing, clientEmails: seq<string>, s: Source) {
    && TrimSpace(s.email) != "" && s.subIdOk
    && (clientEmails == [] || exists e :: e in clientEmails && Lower(lower, TrimSpace(e)) == Lower(lower, TrimSpace(s.email)))
  }

  ghost predicate Increasing(idx: seq<nat>, n: nat) {
    (forall i :: 0 <= i < |idx| ==> idx[i] < n) && forall i, j :: 0 <= i < j < |idx| ==> idx[i] < idx[j]
  }

  lemma ChosenIff(lower: Casing, clientEmails: seq<string>, s: Source)
    ensures Eligible(lower, Allowed(lower, clientEmails), s) <==> IsChosen(lower, clientEmails, s)
  {
    if clientEmails != [] {
      assert clientEmails[0] in clientEmails;
      assert Lower(lower, TrimSpace(clientEmails[0])) in Allowed(lower, clientEmails);
    }
  }

  /** The texts of the chosen entries of a list, in order, by their places. */
  ghost predicate Picks(idx: seq<nat>, s: seq<Source>, chosen: Source -> bool, text: Source -> string, picked: seq<string>) {
    && |idx| == |picked| && Increasing(idx, |s|)
    && (forall i :: 0 <= i < |idx| ==> chosen(s[idx[i]]) && picked[i] == text(s[idx[i]]))
    && (forall k :: 0 <= k < |s| && chosen(s[k]) ==> k in idx)
  }

  lemma PickOneMore(idx: seq<nat>, s: seq<Source>, x: Source, chosen: Source -> bool, text: Source -> string, picked: seq<string>)
    requires Picks(idx, s, chosen, text, picked)
    ensures chosen(x) ==> Picks(idx + [|s|], s + [x], chosen, text, picked + [text(x)])
    ensures !chosen(x) ==> Picks(idx, s + [x], chosen, text, picked)
  {
  }

  function TrimmedEmail(): Source -> string {
    (s: Source) => TrimSpace(s.email)
  }

  ghost function Chosen(lower: Casing, clientEmails: seq<string>): Source -> bool {
    (s: Source) => IsChosen(lower, clientEmails, s)
  }

  lemma OneMoreOriginal(lower: Casing, allowed: set<string>, prefix: seq<Source>, s: Source)
    ensures Originals(lower, prefix + [s], allowed) ==
      Originals(lower, prefix, allowed) + if Eligible(lower, allowed, s) then [TrimSpace(s.email)] else []
  {
    assert (prefix + [s])[..|prefix|] == prefix;
  }

  /** Exactly the chosen clients are copied, in their order: `idx` are their places. */
  lemma {:induction false} ChosenAreCopied(lower: Casing, sources: seq<Source>, clientEmails: seq<string>) returns (idx: seq<nat>)
    ensures Picks(idx, sources, Chosen(lower, clientEmails), TrimmedEmail(), Originals(lower, sources, Allowed(lower, clientEmails)))
  {
    if sources == [] {
      idx := [];
    } else {
      var prefix, s := sources[..|sources| - 1], sources[|sources| - 1];
      idx := ChosenAreCopied(lower, prefix, clientEmails);
      assert prefix + [s] == sources;
      ChosenIff(lower, clientEmails, s);
      OneMoreOriginal(lower, Allowed(lower, clientEmails), prefix, s);
      PickOneMore(idx, prefix, s, Chosen(lower, clientEmails), TrimmedEmail(), Originals(lower, prefix, Allowed(lower, clientEmails)));
      if IsChosen(lower, clientEmails, s) { idx := idx + [|prefix|]; }
    }
  }

  /** The email of a copy: the original with the inbound's number behind it, and behind that the smallest
      number, if any, with which it is neither occupied nor an earlier copy. */
  ghost predicate NamedAfter(lower: Casing, original: string, targetId: int, taken: set<string>, copy: string) {
    exists n: nat :: copy == Numbered(original, targetId, n) && Lower(lower, copy) !in taken
                  && forall j: nat :: j < n ==> Lower(lower, Numbered(original, targetId, j)) in taken
  }

  function Numbered(original: string, targetId: int, n: nat): string {
    original + "_" + Decimal(targetId) + (if n == 0 then "" else "_" + Decimal(n))
  }

  function LowerAll(lower: Casing, emails: seq<string>): set<string> {
    set e | e in emails :: Lower(lower, e)
  }

  lemma CandidateIsNumbered(original: string, targetId: int, n: nat)
    ensures Candidate(Base(original, targetId), n) == Numbered(original, targetId, n)
  {
    var base := original + "_" + Decimal(targetId);
    assert base + "_" + Decimal(n) == base + ("_" + Decimal(n));
  }

  lemma AvailableIsNamedAfter(lower: Casing, original: string, targetId: int, occupied: set<string>)
    requires IsCasing(lower)
    ensures NamedAfter(lower, original, targetId, occupied, Available(lower, original, targetId, occupied))
  {
    var base := Base(original, targetId);
    var n := FirstFree(lower, base, occupied, 0);
    forall j: nat ensures Candidate(base, j) == Numbered(original, targetId, j) {
      CandidateIsNumbered(original, targetId, j);
    }
    forall j: nat | j < n ensures Lower(lower, Numbered(original, targetId, j)) in occupied {
      assert Taken(lower, base, occupied, j);
    }
  }

  lemma {:induction false} OccupiedGrows(lower: Casing, originals: seq<string>, targetId: int, occupied: set<string>)
    requires IsCasing(lower)
    ensures var c := Copied(lower, originals, targetId, occupied); c.occupied == occupied + LowerAll(lower, c.emails)
  {
    if originals != [] {
      var prefix, last := originals[..|originals| - 1], originals[|originals| - 1];
      OccupiedGrows(lower, prefix, targetId, occupied);
      var c := Copied(lower, prefix, targetId, occupied);
      var e := Available(lower, last, targetId, c.occupied);
      assert LowerAll(lower, c.emails + [e]) == LowerAll(lower, c.emails) + {Lower(lower, e)};
    }
  }

  lemma {:induction false} CopiesAreNumbered(lower: Casing, originals: seq<string>, targetId: int, occupied: set<string>, i: nat)
    requires IsCasing(lower) && i < |originals|
    ensures |Copied(lower, originals, targetId, occupied).emails| == |originals|
    ensures var emails := Copied(lower, originals, targetId, occupied).emails;
      NamedAfter(lower, originals[i], targetId, occupied + LowerAll(lower, emails[..i]), emails[i])
    decreases |originals|
  {
    CopiesAreFresh(lower, originals, targetId, occupied);
    var prefix, last := originals[..|originals| - 1], originals[|originals| - 1];
    var c := Copied(lower, prefix, targetId, occupied);
    var emails := Copied(lower, originals, targetId, occupied).emails;
    CopiesAreFresh(lower, prefix, targetId, occupied);
    if i < |prefix| {
      CopiesAreNumbered(lower, prefix, targetId, occupied, i);
      assert emails[..i] == c.emails[..i];
    } else {
      OccupiedGrows(lower, prefix, targetId, occupied);
      AvailableIsNamedAfter(lower, last, targetId, c.occupied);
      assert emails[..i] == c.emails;
    }
  }
}
