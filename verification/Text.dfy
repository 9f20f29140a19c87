/** The string operations of the source: searching, cutting and number formatting. */
module Text {
  import opened Wrappers

  // ----- searching -----

  /** `str::rfind` of one character: the index of its last occurrence. */
  function RFind(s: string, c: char): (r: Option<nat>)
    ensures r.None? ==> c !in s
    ensures r.Some? ==> r.value < |s| && s[r.value] == c && c !in s[r.value + 1..]
  {
    if s == [] then None
    else if s[|s| - 1] == c then Some(|s| - 1)
    else
      var r := RFind(s[..|s| - 1], c);
      assert s == s[..|s| - 1] + [s[|s| - 1]];
      assert r.Some? ==> s[r.value + 1..] == s[..|s| - 1][r.value + 1..] + [s[|s| - 1]];
      r
  }

  predicate OccursAt(s: string, pat: string, i: nat) {
    i + |pat| <= |s| && s[i..i + |pat|] == pat
  }

  /** `str::find`: the index of the first occurrence. */
  function Find(s: string, pat: string): (r: Option<nat>)
    ensures r.None? ==> forall i: nat :: !OccursAt(s, pat, i)
    ensures r.Some? ==> OccursAt(s, pat, r.value) && forall i: nat | i < r.value :: !OccursAt(s, pat, i)
  {
    FindFrom(s, pat, 0)
  }

  function FindFrom(s: string, pat: string, from: nat): (r: Option<nat>)
    requires from <= |s| + 1
    ensures r.None? ==> forall i: nat | from <= i :: !OccursAt(s, pat, i)
    ensures r.Some? ==> from <= r.value && OccursAt(s, pat, r.value)
    ensures r.Some? ==> forall i: nat | from <= i < r.value :: !OccursAt(s, pat, i)
    decreases |s| + 1 - from
  {
    if from == |s| + 1 then None
    else if OccursAt(s, pat, from) then Some(from)
    else FindFrom(s, pat, from + 1)
  }

  /** Two strings cut at the first occurrence of a separator are equal piece by piece. */
  lemma CutAtSeparator(a: string, x: string, b: string, y: string, sep: char)
    requires sep !in a && sep !in b
    requires a + [sep] + x == b + [sep] + y
    ensures a == b && x == y
  {
    var w := a + [sep] + x;
    assert w[|a|] == sep && w[|b|] == sep;
    assert |a| == |b|;
    assert a == w[..|a|] == b;
    assert x == w[|a| + 1..] == y;
  }

  // ----- splitting -----

  function Split(s: string, sep: char): (parts: seq<string>)
    ensures |parts| > 0
  {
    if s == "" then [""]
    else
      var rest := Split(s[1..], sep);
      if s[0] == sep then [""] + rest else [[s[0]] + rest[0]] + rest[1..]
  }

  function Rejoin(parts: seq<string>, sep: char): string
    requires |parts| > 0
  {
    if |parts| == 1 then parts[0] else parts[0] + [sep] + Rejoin(parts[1..], sep)
  }

  /** Splitting yields the pieces between separators: none holds one, and together they give the text back. */
  lemma {:induction false} SplitRejoins(s: string, sep: char)
    ensures forall part | part in Split(s, sep) :: sep !in part
    ensures Rejoin(Split(s, sep), sep) == s
  {
    if s == "" {
    } else {
      var rest := Split(s[1..], sep);
      SplitRejoins(s[1..], sep);
      assert s == [s[0]] + s[1..];
      if s[0] == sep {
        assert ([""] + rest)[1..] == rest;
      } else {
        var parts := [[s[0]] + rest[0]] + rest[1..];
        assert parts[1..] == rest[1..];
        assert rest[0] in rest;
      }
    }
  }

  lemma RejoinStep(a: string, rest: seq<string>, sep: char)
    requires |rest| > 0
    ensures Rejoin([a] + rest, sep) == a + [sep] + Rejoin(rest, sep)
  {
    assert ([a] + rest)[1..] == rest;
  }

  lemma {:induction false} SplitOnce(a: string, rest: string, sep: char)
    requires sep !in a
    ensures Split(a, sep) == [a]
    ensures Split(a + [sep] + rest, sep) == [a] + Split(rest, sep)
  {
    if a == [] {
      assert [] + [sep] + rest == [sep] + rest;
      assert ([sep] + rest)[1..] == rest;
    } else {
      SplitOnce(a[1..], rest, sep);
      var s := a + [sep] + rest;
      assert s[1..] == a[1..] + [sep] + rest;
      assert a == [a[0]] + a[1..];
    }
  }

  /** Pieces that hold no separator are what splitting gives when they were joined by it. */
  lemma {:induction false} JoinedSplits(parts: seq<string>, sep: char)
    requires |parts| > 0 && forall part | part in parts :: sep !in part
    ensures Split(Rejoin(parts, sep), sep) == parts
  {
    if |parts| == 1 {
      SplitOnce(parts[0], [], sep);
      assert parts == [parts[0]];
    } else {
      JoinedSplits(parts[1..], sep);
      SplitOnce(parts[0], Rejoin(parts[1..], sep), sep);
      assert parts == [parts[0]] + parts[1..];
    }
  }

  // ----- numbers -----

  function Digit(d: nat): (c: char)
    requires d < 16
    ensures if d < 10 then '0' <= c <= '9' else 'a' <= c <= 'f'
    ensures DigitValue(c) == d
  {
    if d < 10 then '0' + d as char else 'a' + (d - 10) as char
  }

  function DigitValue(c: char): int {
    if '0' <= c <= '9' then c as int - '0' as int else c as int - 'a' as int + 10
  }

  predicate IsHexDigit(c: char) {
    '0' <= c <= '9' || 'a' <= c <= 'f'
  }

  /** A number in base ten or sixteen, most significant digit first. */
  function Radix(n: nat, b: nat): (s: string)
    requires b == 10 || b == 16
    ensures |s| >= 1
    ensures forall c | c in s :: IsHexDigit(c)
    ensures b == 10 ==> forall c | c in s :: '0' <= c <= '9'
  {
    if n < b then [Digit(n)]
    else Radix(if b == 10 then n / 10 else n / 16, b) + [Digit(if b == 10 then n % 10 else n % 16)]
  }

  function Value(s: string, b: nat): int
    requires b == 10 || b == 16
  {
    if s == [] then 0
    else
      var front := Value(s[..|s| - 1], b);
      (if b == 10 then 10 * front else 16 * front) + DigitValue(s[|s| - 1])
  }

  lemma {:induction false} RadixReadsBack(n: nat, b: nat)
    requires b == 10 || b == 16
    ensures Value(Radix(n, b), b) == n
  {
    if n < b {
      assert [Digit(n)][..0] == [];
    } else {
      var q := if b == 10 then n / 10 else n / 16;
      var front := Radix(q, b);
      RadixReadsBack(q, b);
      assert Radix(n, b)[..|Radix(n, b)| - 1] == front;
    }
  }

  /** `Display` of an unsigned integer. */
  function Decimal(n: nat): string {
    Radix(n, 10)
  }

  /** `Display` of a signed integer. */
  function SignedDecimal(i: int): string {
    if i < 0 then "-" + Decimal(-i) else Decimal(i)
  }

  lemma SignedDecimalInjective(i: int, j: int)
    requires SignedDecimal(i) == SignedDecimal(j)
    ensures i == j
  {
    var u, v := SignedDecimal(i), SignedDecimal(j);
    assert u[0] in u && v[0] in v;
    assert (i < 0) == (u[0] == '-') && (j < 0) == (v[0] == '-');
    if i < 0 {
      assert u[1..] == Decimal(-i) && v[1..] == Decimal(-j);
    }
    RadixReadsBack(if i < 0 then -i else i, 10);
    RadixReadsBack(if j < 0 then -j else j, 10);
  }

  /** One more digit on the right. */
  lemma RadixStep(q: nat, d: nat, b: nat)
    requires q > 0 && (b == 10 || b == 16) && d < b
    ensures Radix(if b == 10 then 10 * q + d else 16 * q + d, b) == Radix(q, b) + [Digit(d)]
  {
  }

  lemma NumberSamples()
    ensures Decimal(8080) == "8080" && SignedDecimal(-25) == "-25" && Radix(0x7f, 16) == "7f"
  {
    assert Radix(8, 10) == ['8'] && Radix(2, 10) == ['2'] && Radix(7, 16) == ['7'];
    hide Radix;
    RadixStep(8, 0, 10);
    RadixStep(80, 8, 10);
    RadixStep(808, 0, 10);
    RadixStep(2, 5, 10);
    RadixStep(7, 15, 16);
  }

  /** `Display` of a boolean. */
  function Boolean(b: bool): string {
    if b then "true" else "false"
  }
}
