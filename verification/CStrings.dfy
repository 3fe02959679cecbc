/** The C library on strings, as far as the harness leans on it: decimal printing,
    strtol with its truncation to int, strtok and strchr. Strings hold no NUL. */
module CStrings {

  const INT_MAX: int := 0x7fff_ffff
  const LONG_MAX: int := 0x7fff_ffff_ffff_ffff

  predicate IsDigit(c: char) {
    '0' <= c <= '9'
  }

  function DigitOf(c: char): (d: nat)
    requires IsDigit(c)
    ensures d < 10
  {
    c as int - '0' as int
  }

  function Digit(d: nat): (c: char)
    requires d < 10
    ensures IsDigit(c) && DigitOf(c) == d
  {
    ('0' as int + d) as char
  }

  /** "%d" of a non-negative number. */
  function Decimal(n: nat): (s: string)
    ensures s != []
    ensures forall k | 0 <= k < |s| :: IsDigit(s[k])
  {
    if n < 10 then [Digit(n)] else Decimal(n / 10) + [Digit(n % 10)]
  }

  /** "%d" of any int. */
  function Signed(v: int): string {
    if v < 0 then "-" + Decimal(-v) else Decimal(v)
  }

  predicate IsSpace(c: char) {
    c == ' ' || ('\t' <= c <= '\r')
  }

  function SkipSpaces(s: string): (t: string)
    ensures |t| <= |s|
  {
    if s != [] && IsSpace(s[0]) then SkipSpaces(s[1..]) else s
  }

  /** The number that the leading digits of `s` add to `acc`. */
  function DigitRun(s: string, acc: nat): nat {
    if s != [] && IsDigit(s[0]) then DigitRun(s[1..], 10 * acc + DigitOf(s[0])) else acc
  }

  /** strtol(s, NULL, 10), saturating. */
  function Strtol(s: string): int {
    var t := SkipSpaces(s);
    if t != [] && t[0] == '-' then
      var v: int := DigitRun(t[1..], 0);
      if v > LONG_MAX then -LONG_MAX - 1 else -v
    else
      var v: int := DigitRun(if t != [] && t[0] == '+' then t[1..] else t, 0);
      if v > LONG_MAX then LONG_MAX else v
  }

  /** The cast of a long to int. */
  function ToInt(v: int): int {
    if -INT_MAX - 1 <= v <= INT_MAX then v
    else
      var m := v % 0x1_0000_0000;
      if m > INT_MAX then m - 0x1_0000_0000 else m
  }

  /** Nothing that continues a number. */
  predicate EndsNumber(s: string) {
    s == [] || !IsDigit(s[0])
  }

  lemma {:induction false} DigitRunDecimal(n: nat, rest: string)
    ensures DigitRun(Decimal(n) + rest, 0) == DigitRun(rest, n)
    decreases n
  {
    if n < 10 {
      assert (Decimal(n) + rest)[1..] == rest;
    } else {
      var last := [Digit(n % 10)];
      assert Decimal(n) + rest == Decimal(n / 10) + (last + rest);
      DigitRunDecimal(n / 10, last + rest);
      assert (last + rest)[1..] == rest;
    }
  }

  /** Reading back a printed number, whatever follows it. */
  lemma StrtolDecimal(n: nat, rest: string)
    requires n <= LONG_MAX && EndsNumber(rest)
    ensures Strtol(Decimal(n) + rest) == n
  {
    var s := Decimal(n) + rest;
    assert IsDigit(s[0]);
    assert SkipSpaces(s) == s;
    DigitRunDecimal(n, rest);
  }

  lemma {:induction false} DecimalStartsWithZero(n: nat)
    ensures Decimal(n)[0] == '0' <==> n == 0
  {
    if n >= 10 {
      DecimalStartsWithZero(n / 10);
      assert Decimal(n)[0] == Decimal(n / 10)[0];
    } else {
      assert Digit(n) == '0' <==> n == 0;
    }
  }

  // ------------------------------------------------------------ searching

  /** strchr: the first position of `c`, or the length of the string. */
  function IndexOf(s: string, c: char): (k: nat)
    ensures k <= |s|
    ensures k < |s| ==> s[k] == c
    ensures forall j | 0 <= j < k :: s[j] != c
  {
    if s == [] || s[0] == c then 0 else 1 + IndexOf(s[1..], c)
  }

  lemma IndexOfFirst(a: string, c: char, b: string)
    requires c !in a
    ensures IndexOf(a + [c] + b, c) == |a|
  {
    var s := a + [c] + b;
    assert s[|a|] == c;
    assert forall j | 0 <= j < |a| :: s[j] == a[j] && a[j] in a;
  }

  lemma IndexOfNone(a: string, c: char)
    requires c !in a
    ensures IndexOf(a, c) == |a|
  {
  }

  /** A string cut at the first `c`, which is dropped. */
  datatype Cut = Uncut | Cut(before: string, after: string)

  function CutAt(s: string, c: char): (r: Cut)
    ensures r.Cut? ==> |r.before| + |r.after| + 1 == |s|
  {
    if s == [] then Uncut
    else if s[0] == c then Cut([], s[1..])
    else
      match CutAt(s[1..], c)
      case Uncut => Uncut
      case Cut(before, after) => Cut([s[0]] + before, after)
  }

  lemma {:induction false} CutFirst(a: string, c: char, b: string)
    requires c !in a
    ensures CutAt(a + [c] + b, c) == Cut(a, b)
  {
    var s := a + [c] + b;
    if a == [] {
      assert s[1..] == b;
    } else {
      assert s[1..] == a[1..] + [c] + b;
      CutFirst(a[1..], c, b);
      assert [s[0]] + a[1..] == a;
    }
  }

  lemma {:induction false} CutNone(a: string, c: char)
    requires c !in a
    ensures CutAt(a, c) == Uncut
  {
    if a != [] {
      CutNone(a[1..], c);
    }
  }

  /** What strtok yields: the non-empty runs between delimiters. */
  function Tokens(s: string, c: char): seq<string>
    decreases |s|
  {
    if s == [] then []
    else if s[0] == c then Tokens(s[1..], c)
    else
      var k := IndexOf(s, c);
      [s[..k]] + Tokens(s[k..], c)
  }

  /** Joining with a separator. */
  function Join(v: seq<string>, c: char): string {
    if v == [] then [] else if |v| == 1 then v[0] else v[0] + [c] + Join(v[1..], c)
  }

  lemma {:induction false} TokensOfJoin(v: seq<string>, c: char)
    requires forall k | 0 <= k < |v| :: v[k] != [] && c !in v[k]
    ensures Tokens(Join(v, c), c) == v
  {
    if v == [] {
    } else if |v| == 1 {
      IndexOfNone(v[0], c);
      var s := v[0];
      assert s[..|s|] == s && s[|s|..] == [];
      assert v == [s];
    } else {
      var rest := Join(v[1..], c);
      var s := v[0] + [c] + rest;
      IndexOfFirst(v[0], c, rest);
      assert s[0] == v[0][0];
      assert s[..|v[0]|] == v[0];
      assert s[|v[0]|..] == [c] + rest;
      assert ([c] + rest)[1..] == rest;
      TokensOfJoin(v[1..], c);
      assert v == [v[0]] + v[1..];
    }
  }
}
