/** The file that records which relay ports the panel owns: one decimal port a line, written in place.
    A write that fails half way leaves a prefix of the text. */
module UdpState {
  import opened Wrappers
  import opened Text

  const MAX_PORT: int := 65535

  predicate ValidPort(p: int) {
    1 <= p <= MAX_PORT
  }

  predicate ValidPorts(s: set<int>) {
    forall p :: p in s ==> ValidPort(p)
  }

  // ---------------------------------------------------------------- the ports in order

  /** The members of a set from one port up, ascending. */
  function Sorted(s: set<int>, from: int): (r: seq<int>)
    ensures forall p :: p in r <==> p in s && from <= p <= MAX_PORT
    ensures forall i :: 0 <= i < |r| ==> from <= r[i]
    ensures forall i, j :: 0 <= i < j < |r| ==> r[i] < r[j]
    decreases MAX_PORT + 1 - from, s
  {
    if from > MAX_PORT then []
    else (if from in s then [from] else []) + Sorted(s, from + 1)
  }

  /** `sortedPorts`. */
  function SortedPorts(s: set<int>): (r: seq<int>)
    ensures ValidPorts(s) ==> forall p :: p in r <==> p in s
    ensures forall i :: 0 <= i < |r| ==> ValidPort(r[i])
    ensures forall i, j :: 0 <= i < j < |r| ==> r[i] < r[j]
  {
    assert forall i :: 0 <= i < |Sorted(s, 1)| ==> Sorted(s, 1)[i] in Sorted(s, 1);
    Sorted(s, 1)
  }

  // ---------------------------------------------------------------- reading

  predicate IsDigit(c: char) {
    '0' <= c <= '9'
  }

  function Value(s: string): (v: int)
    requires forall i :: 0 <= i < |s| ==> IsDigit(s[i])
    ensures v >= 0
  {
    if s == "" then 0
    else
      assert IsDigit(s[|s| - 1]);
      10 * Value(s[..|s| - 1]) + (s[|s| - 1] as int - '0' as int)
  }

  /** `strconv.Atoi`: digits after an optional sign. */
  function Atoi(s: string): Option<int> {
    var digits := if s != "" && s[0] in "+-" then s[1..] else s;
    if digits == "" || exists i :: 0 <= i < |digits| && !IsDigit(digits[i]) then None
    else Some(if s[0] == '-' then -Value(digits) else Value(digits))
  }

  /** `strings.Fields`, with the word read so far. */
  function Fields(word: string, s: string): seq<string>
    decreases |s|
  {
    if s == "" then (if word == "" then [] else [word])
    else if IsSpace(s[0]) then (if word == "" then [] else [word]) + Fields("", s[1..])
    else Fields(word + [s[0]], s[1..])
  }

  function Ports(fields: seq<string>): set<int> {
    set f | f in fields && Atoi(f).Some? && ValidPort(Atoi(f).value) :: Atoi(f).value
  }

  /** `readUdpgwState`. */
  function Read(text: string): (r: set<int>)
    ensures ValidPorts(r)
  {
    Ports(Fields("", text))
  }

  method ReadState(text: string) returns (ports: set<int>)
    ensures ports == Read(text)
  {
    ports := {};
    var fields := Fields("", text);
    for i := 0 to |fields|
      invariant ports == Ports(fields[..i])
    {
      assert fields[..i + 1] == fields[..i] + [fields[i]];
      var p := Atoi(fields[i]);
      if p.Some? && 0 < p.value <= 65535 { ports := ports + {p.value}; }
    }
    assert fields[..|fields|] == fields;
  }

  // ---------------------------------------------------------------- writing

  /** The text `writeUdpgwState` writes for a list of ports. */
  function StateText(ports: seq<int>): string {
    if ports == [] then "" else Decimal(ports[0]) + "\n" + StateText(ports[1..])
  }

  function Members(ports: seq<int>): set<int> {
    set p | p in ports
  }

  /** Digits without white space. */
  predicate Word(s: string) {
    forall i :: 0 <= i < |s| ==> IsDigit(s[i])
  }

  lemma {:induction false} DigitsAreAWord(n: nat)
    ensures Word(Digits(n, Ten)) && Value(Digits(n, Ten)) == n
    ensures n > 0 ==> Digits(n, Ten)[0] != '0'
    decreases n
  {
    if !Ten.OneDigit(n) {
      DigitsAreAWord(Ten.Quotient(n));
      var q := Digits(Ten.Quotient(n), Ten);
      assert Digits(n, Ten) == q + [Digit(Ten.Remainder(n))];
      assert Digits(n, Ten)[..|q|] == q;
    } else {
      assert Digits(n, Ten)[..0] == "";
    }
  }

  /** A word is read as one field. */
  lemma {:induction false} WordIsAField(word: string, w: string, rest: string)
    requires Word(w)
    ensures Fields(word, w + rest) == Fields(word + w, rest)
    decreases |w|
  {
    if w == "" {
      assert w + rest == rest && word + w == word;
    } else {
      assert (w + rest)[0] == w[0] && (w + rest)[1..] == w[1..] + rest;
      WordIsAField(word + [w[0]], w[1..], rest);
      assert word + [w[0]] + w[1..] == word + w;
    }
  }

  function Decimals(ports: seq<int>): (r: seq<string>)
    ensures |r| == |ports| && forall i :: 0 <= i < |r| ==> r[i] == Decimal(ports[i])
  {
    seq(|ports|, i requires 0 <= i < |ports| => Decimal(ports[i]))
  }

  lemma LineIsAField(d: string, rest: string)
    requires Word(d) && d != ""
    ensures Fields("", d + "\n" + rest) == [d] + Fields("", rest)
  {
    assert d + "\n" + rest == d + ("\n" + rest);
    WordIsAField("", d, "\n" + rest);
    assert "" + d == d;
    assert ("\n" + rest)[0] == '\n' && ("\n" + rest)[1..] == rest;
  }

  /** Written ports followed by the beginning of another are read as such. */
  lemma {:induction false} FieldsOfText(ports: seq<int>, tail: string)
    requires (forall i :: 0 <= i < |ports| ==> ValidPort(ports[i])) && Word(tail)
    ensures Fields("", StateText(ports) + tail) == Decimals(ports) + (if tail == "" then [] else [tail])
  {
    if ports == [] {
      WordIsAField("", tail, "");
      assert StateText(ports) + tail == tail && tail + "" == tail && "" + tail == tail;
    } else {
      var d, rest := Decimal(ports[0]), StateText(ports[1..]);
      DigitsAreAWord(ports[0]);
      LineIsAField(d, rest + tail);
      assert d + "\n" + rest + tail == d + "\n" + (rest + tail);
      FieldsOfText(ports[1..], tail);
      assert Decimals(ports) == [d] + Decimals(ports[1..]);
    }
  }

  lemma AtoiOfWord(s: string)
    requires Word(s) && s != ""
    ensures Atoi(s) == Some(Value(s))
  {
    assert IsDigit(s[0]);
  }

  /** What is read back: the written ports, and the value of a cut off number if it is a port. */
  lemma ReadsBack(ports: seq<int>, tail: string)
    requires (forall i :: 0 <= i < |ports| ==> ValidPort(ports[i])) && Word(tail)
    ensures Read(StateText(ports) + tail) ==
      Members(ports) + (if tail != "" && ValidPort(Value(tail)) then {Value(tail)} else {})
  {
    FieldsOfText(ports, tail);
    var fields := Decimals(ports) + (if tail == "" then [] else [tail]);
    forall i | 0 <= i < |ports| ensures Atoi(Decimals(ports)[i]) == Some(ports[i]) && Decimals(ports)[i] in fields {
      DigitsAreAWord(ports[i]);
      AtoiOfWord(Decimal(ports[i]));
      assert fields[i] == Decimals(ports)[i];
    }
    if tail != "" {
      AtoiOfWord(tail);
      assert fields[|ports|] == tail;
    }
    forall p | p in Ports(fields) ensures p in Members(ports) || (tail != "" && p == Value(tail)) {
      var f :| f in fields && Atoi(f) == Some(p);
      var i :| 0 <= i < |fields| && fields[i] == f;
      assert i < |ports| ==> ports[i] in ports;
    }
    forall p | p in Members(ports) ensures p in Ports(fields) {
      var i :| 0 <= i < |ports| && ports[i] == p;
      assert Decimals(ports)[i] in fields;
    }
  }

  /** Round trip: what was written completely is what is read. */
  lemma WrittenIsRead(ports: seq<int>)
    requires forall i :: 0 <= i < |ports| ==> ValidPort(ports[i])
    ensures Read(StateText(ports)) == Members(ports)
  {
    ReadsBack(ports, "");
    assert StateText(ports) + "" == StateText(ports);
  }

  /** How a write of the file can end. It is opened with truncation, so a failure after that leaves the
      first characters of the text. */
  datatype WriteOutcome = Written | NotOpened | Cut(n: nat)

  function Prefix(text: string, n: nat): string {
    if n <= |text| then text[..n] else text
  }

  /** `writeUdpgwState`: the file afterwards ("" also stands for none). Without ports the file is removed,
      and a failure to do so goes unnoticed. */
  function Write(o: WriteOutcome, file: string, ports: set<int>): string {
    if ports == {} then (if o.Written? then "" else file)
    else match o
      case Written => StateText(SortedPorts(ports))
      case NotOpened => file
      case Cut(n) => Prefix(StateText(SortedPorts(ports)), n)
  }

  predicate WriteOk(o: WriteOutcome, ports: set<int>) {
    ports == {} || o.Written?
  }

  method WriteState(o: WriteOutcome, file: string, ports: set<int>) returns (after: string, ok: bool)
    ensures after == Write(o, file, ports) && ok == WriteOk(o, ports)
  {
    if ports == {} { return if o.Written? then "" else file, true; }
    var sorted := SortedPorts(ports);
    var text := "";
    var i := |sorted|;
    while i > 0
      invariant 0 <= i <= |sorted| && text == StateText(sorted[i..])
    {
      i := i - 1;
      assert sorted[i..][1..] == sorted[i + 1..];
      text := Decimal(sorted[i]) + "\n" + text;
    }
    match o {
      case Written => after := text;
      case NotOpened => after := file;
      case Cut(n) => after := Prefix(text, n);
    }
    ok := o.Written?;
  }

  /** A complete write is what the next start reads. */
  lemma WriteIsRead(file: string, ports: set<int>)
    requires ValidPorts(ports)
    ensures Read(Write(Written, file, ports)) == ports
  {
    if ports == {} {
      WrittenIsRead([]);
    } else {
      WrittenIsRead(SortedPorts(ports));
      assert Members(SortedPorts(ports)) == ports;
    }
  }

  // ---------------------------------------------------------------- cut files

  lemma CutLine(d: string, rest: string, n: nat)
    requires n <= |d| + 1 + |rest|
    ensures n <= |d| ==> (d + "\n" + rest)[..n] == d[..n]
    ensures n > |d| ==> (d + "\n" + rest)[..n] == d + "\n" + rest[..n - |d| - 1]
  {
  }

  /** The digits of the next number that remain after a cut. */
  function Remains(ports: seq<int>, k: nat, j: nat): string {
    if k < |ports| && j <= |Decimal(ports[k])| then Decimal(ports[k])[..j] else ""
  }

  /** Where a cut falls: after some lines, and some digits of the next. */
  lemma {:induction false} CutPosition(ports: seq<int>, n: nat) returns (k: nat, j: nat)
    requires n <= |StateText(ports)|
    ensures k <= |ports| && StateText(ports)[..n] == StateText(ports[..k]) + Remains(ports, k, j)
  {
    if ports == [] {
      k, j := 0, 0;
      assert ports[..0] == [];
    } else {
      var d, rest := Decimal(ports[0]), StateText(ports[1..]);
      CutLine(d, rest, n);
      if n <= |d| {
        k, j := 0, n;
        assert ports[..0] == [];
        assert "" + d[..n] == d[..n];
      } else {
        k, j := CutPosition(ports[1..], n - |d| - 1);
        CutFurther(ports, n - |d| - 1, k, j);
        k := k + 1;
      }
    }
  }

  lemma CutFurther(ports: seq<int>, n: nat, k: nat, j: nat)
    requires ports != [] && k <= |ports[1..]| && n <= |StateText(ports[1..])|
    requires StateText(ports[1..])[..n] == StateText(ports[1..][..k]) + Remains(ports[1..], k, j)
    ensures Decimal(ports[0]) + "\n" + StateText(ports[1..])[..n] == StateText(ports[..k + 1]) + Remains(ports, k + 1, j)
  {
    FirstLineOf(ports, k);
    assert Remains(ports, k + 1, j) == Remains(ports[1..], k, j);
    SameText(Decimal(ports[0]) + "\n", StateText(ports[1..][..k]), Remains(ports[1..], k, j));
  }

  lemma SameText(a: string, b: string, c: string)
    ensures a + (b + c) == a + b + c
  {
  }

  lemma FirstLineOf(ports: seq<int>, k: nat)
    requires ports != [] && k <= |ports[1..]|
    ensures StateText(ports[..k + 1]) == Decimal(ports[0]) + "\n" + StateText(ports[1..][..k])
  {
    assert ports[..k + 1][1..] == ports[1..][..k] && ports[..k + 1][0] == ports[0];
  }

  /** After a cut the file names the ports of some first lines and at most one more: a number that the
      next port begins with. */
  lemma CutFile(ports: seq<int>, n: nat) returns (k: nat, j: nat)
    requires (forall i :: 0 <= i < |ports| ==> ValidPort(ports[i])) && n <= |StateText(ports)|
    ensures k <= |ports| && Word(Remains(ports, k, j))
    ensures Read(StateText(ports)[..n]) == Members(ports[..k]) +
      (if Remains(ports, k, j) != "" && ValidPort(Value(Remains(ports, k, j))) then {Value(Remains(ports, k, j))} else {})
  {
    k, j := CutPosition(ports, n);
    if k < |ports| { DigitsAreAWord(ports[k]); }
    ReadsBack(ports[..k], Remains(ports, k, j));
  }

  // ---------------------------------------------------------------- which ports a cut loses

  predicate Ascending(ports: seq<int>) {
    forall i, j :: 0 <= i < j < |ports| ==> ports[i] < ports[j]
  }

  /** The characters of the first `k` lines. */
  function End(ports: seq<int>, k: nat): nat
    requires k <= |ports|
    decreases k, 0
  {
    if k == 0 then 0 else Position(ports, k - 1) + 1
  }

  /** The characters of the text up to the end of a port's number. */
  function Position(ports: seq<int>, i: nat): nat
    requires i < |ports|
    decreases i, 1
  {
    End(ports, i) + |Decimal(ports[i])|
  }

  lemma {:induction false} LastLine(ports: seq<int>, k: nat)
    requires k < |ports|
    ensures |StateText(ports[..k + 1])| == |StateText(ports[..k])| + |Decimal(ports[k])| + 1
    decreases k
  {
    FirstLineOf(ports, k);
    if k == 0 {
      assert ports[1..][..0] == [] && ports[..0] == [];
    } else {
      FirstLineOf(ports, k - 1);
      LastLine(ports[1..], k - 1);
    }
  }

  lemma {:induction false} EndIsLength(ports: seq<int>, k: nat)
    requires k <= |ports|
    ensures |StateText(ports[..k])| == End(ports, k)
  {
    if k > 0 {
      LastLine(ports, k - 1);
      EndIsLength(ports, k - 1);
    }
  }

  lemma {:induction false} TextGrows(ports: seq<int>, a: nat, b: nat)
    requires a < b <= |ports|
    ensures Position(ports, a) < End(ports, b)
    decreases b
  {
    if a < b - 1 { TextGrows(ports, a, b - 1); }
  }

  /** The cut falls inside a number, and its first digits are another one. */
  ghost predicate Renames(ports: seq<int>, n: nat, p: int) {
    exists k: nat, j: nat :: RenamesAt(ports, n, p, k, j)
  }

  predicate RenamesAt(ports: seq<int>, n: nat, p: int, k: nat, j: nat) {
    Inside(ports, n, k, j) && Atoi(Decimal(ports[k])[..j]) == Some(p)
  }

  predicate Inside(ports: seq<int>, n: nat, k: nat, j: nat) {
    k < |ports| && 0 < j < |Decimal(ports[k])| && n == End(ports, k) + j
  }

  lemma InsideOne(ports: seq<int>, n: nat, k: nat, i: nat, j: nat)
    requires k <= |ports| && End(ports, k) <= n && (k < |ports| ==> n <= Position(ports, k)) && Inside(ports, n, i, j)
    ensures i == k
  {
    if i < k { TextGrows(ports, i, k); }
    if k < i { TextGrows(ports, k, i); }
  }

  lemma {:induction false} ValuePositive(d: string)
    requires Word(d) && d != "" && d[0] != '0'
    ensures Value(d) > 0
    decreases |d|
  {
    if |d| > 1 { ValuePositive(d[..|d| - 1]); }
  }

  lemma {:induction false} PrefixIsSmaller(d: string, j: nat)
    requires Word(d) && d != "" && d[0] != '0' && j < |d|
    ensures Value(d[..j]) < Value(d)
    decreases |d|
  {
    var shorter := d[..|d| - 1];
    if shorter != "" { ValuePositive(shorter); }
    if j < |d| - 1 {
      assert shorter[..j] == d[..j];
      PrefixIsSmaller(shorter, j);
    }
  }

  /** A cut after `k` lines and a part of the next. */
  lemma CutPlace(ports: seq<int>, n: nat) returns (k: nat, rest: string)
    requires (forall i :: 0 <= i < |ports| ==> ValidPort(ports[i])) && n <= |StateText(ports)|
    ensures k <= |ports| && n == End(ports, k) + |rest|
    ensures if k < |ports| then |rest| <= |Decimal(ports[k])| && rest == Decimal(ports[k])[..|rest|] else rest == ""
    ensures forall p :: ValidPort(p) ==>
      (p in Read(StateText(ports)[..n]) <==> p in Members(ports[..k]) || (rest != "" && Atoi(rest) == Some(p)))
  {
    var j;
    k, j := CutPosition(ports, n);
    rest := Remains(ports, k, j);
    if k < |ports| { DigitsAreAWord(ports[k]); }
    if rest != "" { AtoiOfWord(rest); }
    ReadsBack(ports[..k], rest);
    EndIsLength(ports, k);
    assert |StateText(ports)[..n]| == n;
  }

  /** The port is written before the cut. */
  ghost predicate Before(ports: seq<int>, n: nat, p: int) {
    exists i :: 0 <= i < |ports| && ports[i] == p && Position(ports, i) <= n
  }

  lemma MembersBefore(ports: seq<int>, n: nat, k: nat, p: int)
    requires k <= |ports| && End(ports, k) <= n && p in Members(ports[..k])
    ensures Before(ports, n, p)
  {
    var i :| 0 <= i < k && ports[i] == p;
    TextGrows(ports, i, k);
  }

  lemma LastBefore(ports: seq<int>, n: nat, k: nat, p: int)
    requires k <= |ports| && Before(ports, n, p) && (k < |ports| ==> n <= Position(ports, k))
    ensures p in Members(ports[..k]) || (k < |ports| && p == ports[k] && n == Position(ports, k))
  {
    var i :| 0 <= i < |ports| && ports[i] == p && Position(ports, i) <= n;
    if i < k { assert ports[..k][i] == p; }
    if k < i { TextGrows(ports, k, i); }
  }

  lemma RenamesHere(ports: seq<int>, n: nat, p: int, k: nat)
    requires k <= |ports| && End(ports, k) <= n && (k < |ports| ==> n <= Position(ports, k)) && Renames(ports, n, p)
    ensures k < |ports| && RenamesAt(ports, n, p, k, n - End(ports, k))
  {
    var i: nat, j: nat :| RenamesAt(ports, n, p, i, j);
    InsideOne(ports, n, k, i, j);
  }

  /** Exactly what a cut file names: the ports whose numbers lie before the cut, and what the first digits
      of the next one spell. */
  lemma CutReadsIff(ports: seq<int>, n: nat, p: int)
    requires (forall i :: 0 <= i < |ports| ==> ValidPort(ports[i])) && n <= |StateText(ports)|
    requires ValidPort(p)
    ensures p in Read(StateText(ports)[..n]) <==> Before(ports, n, p) || Renames(ports, n, p)
  {
    var k, rest := CutPlace(ports, n);
    if p in Members(ports[..k]) { MembersBefore(ports, n, k, p); }
    if rest != "" && Atoi(rest) == Some(p) { RestIsRead(ports, n, p, k, rest); }
    if Before(ports, n, p) {
      LastBefore(ports, n, k, p);
      if p !in Members(ports[..k]) { WholeNumber(ports[k], rest); }
    }
    if Renames(ports, n, p) { RenamesHere(ports, n, p, k); }
  }

  lemma WholeNumber(p: int, rest: string)
    requires ValidPort(p) && |rest| == |Decimal(p)| && rest == Decimal(p)[..|rest|]
    ensures rest != "" && Atoi(rest) == Some(p)
  {
    DigitsAreAWord(p);
    assert rest == Decimal(p);
    AtoiOfWord(rest);
  }

  lemma RestIsRead(ports: seq<int>, n: nat, p: int, k: nat, rest: string)
    requires k < |ports| && ValidPort(ports[k]) && rest != "" && Atoi(rest) == Some(p)
    requires n == End(ports, k) + |rest| && |rest| <= |Decimal(ports[k])| && rest == Decimal(ports[k])[..|rest|]
    ensures Before(ports, n, p) || Renames(ports, n, p)
  {
    if |rest| == |Decimal(ports[k])| {
      WholeNumber(ports[k], rest);
      assert Position(ports, k) <= n;
    } else {
      assert RenamesAt(ports, n, p, k, |rest|);
    }
  }

  lemma RenamedIsSmaller(ports: seq<int>, n: nat, p: int, k: nat, j: nat)
    requires (forall i :: 0 <= i < |ports| ==> ValidPort(ports[i])) && RenamesAt(ports, n, p, k, j)
    ensures p < ports[k]
  {
    var d := Decimal(ports[k]);
    DigitsAreAWord(ports[k]);
    AtoiOfWord(d[..j]);
    PrefixIsSmaller(d, j);
  }

  lemma RenamedIsBefore(ports: seq<int>, n: nat, i: nat)
    requires Ascending(ports) && (forall k :: 0 <= k < |ports| ==> ValidPort(ports[k]))
    requires i < |ports| && Renames(ports, n, ports[i])
    ensures Position(ports, i) <= n
  {
    var k: nat, j: nat :| RenamesAt(ports, n, ports[i], k, j);
    RenamedIsSmaller(ports, n, ports[i], k, j);
    TextGrows(ports, i, k);
  }

  /** A cut loses exactly the written ports whose numbers do not end before it. */
  lemma CutKeepsIff(ports: seq<int>, n: nat, i: nat)
    requires Ascending(ports) && (forall k :: 0 <= k < |ports| ==> ValidPort(ports[k]))
    requires n <= |StateText(ports)| && i < |ports|
    ensures ports[i] in Read(StateText(ports)[..n]) <==> Position(ports, i) <= n
  {
    CutReadsIff(ports, n, ports[i]);
    if Position(ports, i) <= n { assert Before(ports, n, ports[i]); }
    if Renames(ports, n, ports[i]) { RenamedIsBefore(ports, n, i); }
  }

  /** A cut can lose a port, and can name one that was never written. */
  lemma CutRenamesAPort()
    ensures exists ports: seq<int>, n: nat :: n <= |StateText(ports)| && Members(ports) == {7300} && Read(StateText(ports)[..n]) == {730}
  {
    var ports := [7300];
    DigitsAreAWord(7300);
    var d := Decimal(7300);
    LastDigit(7300, Ten);
    assert d[..|d| - 1] == Digits(730, Ten);
    DigitsAreAWord(730);
    var n := |d| - 1;
    assert ports[1..] == [];
    assert StateText(ports)[..n] == d[..n];
    ReadsBack([], d[..n]);
    assert StateText([]) + d[..n] == d[..n];
    assert Members(ports) == {7300};
  }
}
