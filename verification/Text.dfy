/** Number formatting and string order used by tags, counters and signatures:
    Go's `%d`, `%x` and the byte-wise `<` on strings. */
module Text {

  function Digit(d: nat): (c: char)
    requires d < 16
    ensures d == if c <= '9' then c as int - '0' as int else c as int - 'a' as int + 10
    ensures '0' <= c <= '9' || 'a' <= c <= 'f'
  {
    if d < 10 then (d + '0' as int) as char else (d - 10 + 'a' as int) as char
  }

  datatype Radix = Ten | Sixteen {
    function Quotient(n: nat): nat {
      if this == Ten then n / 10 else n / 16
    }

    function Remainder(n: nat): (d: nat)
      ensures d < 16
    {
      if this == Ten then n % 10 else n % 16
    }

    predicate OneDigit(n: nat) {
      if this == Ten then n < 10 else n < 16
    }
  }

  /** The digits of `n`, most significant first. */
  function Digits(n: nat, radix: Radix): (s: string)
    ensures s != []
    ensures forall c :: c in s ==> '0' <= c <= '9' || 'a' <= c <= 'f'
    decreases n
  {
    if radix.OneDigit(n) then [Digit(n)]
    else Digits(radix.Quotient(n), radix) + [Digit(radix.Remainder(n))]
  }

  /** `%x`. */
  function Hex(i: int): string {
    if i < 0 then "-" + Digits(-i, Sixteen) else Digits(i, Sixteen)
  }

  /** `%d`. */
  function Decimal(i: int): (s: string)
    ensures ':' !in s && ';' !in s
  {
    if i < 0 then "-" + Digits(-i, Ten) else Digits(i, Ten)
  }

  lemma {:induction false} DigitsInjective(m: nat, n: nat, radix: Radix)
    requires Digits(m, radix) == Digits(n, radix)
    ensures m == n
    decreases m
  {
    var s := Digits(m, radix);
    LastDigit(m, radix);
    LastDigit(n, radix);
    if radix.OneDigit(m) {
      assert radix.OneDigit(n);
    } else {
      DigitsInjective(radix.Quotient(m), radix.Quotient(n), radix);
    }
  }

  lemma LastDigit(n: nat, radix: Radix)
    ensures var s := Digits(n, radix);
      && s[|s| - 1] == Digit(radix.Remainder(n))
      && (radix.OneDigit(n) <==> |s| == 1)
      && (|s| > 1 ==> s[..|s| - 1] == Digits(radix.Quotient(n), radix))
  {
    if !radix.OneDigit(n) {
      var q := Digits(radix.Quotient(n), radix);
      assert Digits(n, radix) == q + [Digit(radix.Remainder(n))];
    }
  }

  lemma DecimalSign(i: int)
    ensures (Decimal(i)[0] == '-') <==> i < 0
  {
    if i >= 0 {
      assert Decimal(i)[0] in Digits(i, Ten);
    }
  }

  lemma DecimalInjective(i: int, j: int)
    requires Decimal(i) == Decimal(j)
    ensures i == j
  {
    DecimalSign(i);
    DecimalSign(j);
    if i < 0 {
      assert Decimal(i)[1..] == Digits(-i, Ten) && Decimal(j)[1..] == Digits(-j, Ten);
      DigitsInjective(-i, -j, Ten);
    } else {
      DigitsInjective(i, j, Ten);
    }
  }

  lemma HexInjective(i: nat, j: nat)
    requires Hex(i) == Hex(j)
    ensures i == j
  {
    DigitsInjective(i, j, Sixteen);
  }

  /** Byte-wise string order. */
  predicate Less(a: string, b: string)
    decreases |b|
  {
    b != [] && (a == [] || a[0] < b[0] || (a[0] == b[0] && Less(a[1..], b[1..])))
  }

  lemma {:induction false} LessTrichotomy(a: string, b: string)
    ensures Less(a, b) || a == b || Less(b, a)
    ensures !(Less(a, b) && Less(b, a))
    ensures !Less(a, a)
    decreases |a|
  {
    if a != [] {
      LessTrichotomy(a[1..], if b != [] then b[1..] else []);
      if b != [] && a[0] == b[0] && a[1..] == b[1..] {
        assert a == [a[0]] + a[1..] && b == [b[0]] + b[1..];
      }
    }
  }

  lemma {:induction false} LessTransitive(a: string, b: string, c: string)
    requires Less(a, b) && Less(b, c)
    ensures Less(a, c)
    decreases |a|
  {
    if a != [] && a[0] == b[0] && b[0] == c[0] {
      LessTransitive(a[1..], b[1..], c[1..]);
    }
  }

  ghost predicate StrictlySorted(s: seq<string>) {
    forall i, j :: 0 <= i < j < |s| ==> Less(s[i], s[j])
  }

  /** A set of strings has only one strictly sorted enumeration. */
  lemma {:induction false} StrictlySortedUnique(a: seq<string>, b: seq<string>)
    requires StrictlySorted(a) && StrictlySorted(b)
    requires forall x :: x in a <==> x in b
    ensures a == b
    decreases |a|
  {
    assert b != [] ==> b[0] in a;
    if a != [] {
      assert a[0] in b;
      LessTrichotomy(a[0], b[0]);
      forall x ensures x in a[1..] <==> x in b[1..] {
        TailMembers(a, x);
        TailMembers(b, x);
      }
      StrictlySortedUnique(a[1..], b[1..]);
      assert a == [a[0]] + a[1..] && b == [b[0]] + b[1..];
    }
  }

  lemma TailMembers(s: seq<string>, x: string)
    requires s != [] && StrictlySorted(s)
    ensures x in s[1..] <==> x in s && x != s[0]
  {
    LessTrichotomy(s[0], s[0]);
    if x in s[1..] {
      var i :| 0 <= i < |s[1..]| && s[1..][i] == x;
      assert Less(s[0], s[i + 1]);
    }
  }

  // ---------------------------------------------------------------- trimming

  function TrimLeft(s: string, drop: char -> bool): (r: string)
    ensures r != [] ==> !drop(r[0])
    ensures |r| <= |s| && s[|s| - |r|..] == r
    ensures forall i :: 0 <= i < |s| - |r| ==> drop(s[i])
  {
    if s != [] && drop(s[0]) then TrimLeft(s[1..], drop) else s
  }

  function TrimRight(s: string, drop: char -> bool): (r: string)
    ensures r != [] ==> !drop(r[|r| - 1])
    ensures r <= s
    ensures forall i :: |r| <= i < |s| ==> drop(s[i])
  {
    if s != [] && drop(s[|s| - 1]) then TrimRight(s[..|s| - 1], drop) else s
  }

  /** The text without leading and trailing characters of one kind. */
  function Trim(s: string, drop: char -> bool): string {
    TrimRight(TrimLeft(s, drop), drop)
  }

  /** The characters with the Unicode property White_Space. */
  predicate IsSpace(c: char) {
    var u := c as int;
    || 9 <= u <= 13 || u == 32 || u == 0x85 || u == 0xA0 || u == 0x1680 || 0x2000 <= u <= 0x200A
    || u == 0x2028 || u == 0x2029 || u == 0x202F || u == 0x205F || u == 0x3000
  }

  function TrimSpace(s: string): string {
    Trim(s, IsSpace)
  }

  predicate Blank(s: string) {
    forall i :: 0 <= i < |s| ==> IsSpace(s[i])
  }

  /** A text trims to nothing exactly when it is all white space. */
  lemma BlankIffTrimmed(s: string)
    ensures Blank(s) <==> TrimSpace(s) == ""
  {
    var l := TrimLeft(s, IsSpace);
    var t := TrimRight(l, IsSpace);
    if t == "" {
      forall i | 0 <= i < |s| ensures IsSpace(s[i]) {
        if i >= |s| - |l| { assert s[|s| - |l|..][i - (|s| - |l|)] == l[i - (|s| - |l|)]; }
      }
    } else {
      assert l[|t| - 1] == t[|t| - 1];
      assert s[|s| - |l|..][|t| - 1] == s[|s| - |l| + |t| - 1];
    }
  }
}
