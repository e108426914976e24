/** The string operations the app relies on: ASCII `toLowerCase`, `includes`,
    number rendering with `toString` and `padStart(2, '0')`, the `m:ss` clock
    format shared by the rest timer and the workout builder, and the
    code-point order that stands in for `localeCompare`. */
module Text {
  import opened Wrappers

  // ---------------------------------------------------------------------------
  // Case folding and substring search

  /** `toLowerCase` on one character, restricted to ASCII letters. */
  function LowerChar(c: char): char {
    if 'A' <= c <= 'Z' then (c as int + 32) as char else c
  }

  function Lower(s: string): string {
    seq(|s|, i requires 0 <= i < |s| => LowerChar(s[i]))
  }

  lemma LowerIdempotent(s: string)
    ensures Lower(Lower(s)) == Lower(s)
  {
  }

  predicate IsPrefix(p: string, s: string) {
    |p| <= |s| && s[..|p|] == p
  }

  /** JavaScript's `s.includes(sub)`. */
  predicate Includes(s: string, sub: string)
    decreases |s|
  {
    IsPrefix(sub, s) || (|s| > 0 && Includes(s[1..], sub))
  }

  /** `sub` occurs in `s` starting at index `i`. */
  ghost predicate OccursAt(s: string, sub: string, i: int) {
    0 <= i && i + |sub| <= |s| && s[i..i + |sub|] == sub
  }

  lemma {:induction false} OccursImpliesIncludes(s: string, sub: string, i: int)
    requires OccursAt(s, sub, i)
    ensures Includes(s, sub)
    decreases |s|
  {
    if i == 0 {
      assert s[..|sub|] == s[0..|sub|];
    } else {
      assert s[1..][i - 1..i - 1 + |sub|] == s[i..i + |sub|];
      OccursImpliesIncludes(s[1..], sub, i - 1);
    }
  }

  lemma {:induction false} IncludesImpliesOccurs(s: string, sub: string)
    requires Includes(s, sub)
    ensures exists i :: OccursAt(s, sub, i)
    decreases |s|
  {
    if IsPrefix(sub, s) {
      assert s[0..|sub|] == s[..|sub|];
      assert OccursAt(s, sub, 0);
    } else {
      IncludesImpliesOccurs(s[1..], sub);
      var j :| OccursAt(s[1..], sub, j);
      assert s[1..][j..j + |sub|] == s[j + 1..j + 1 + |sub|];
      assert OccursAt(s, sub, j + 1);
    }
  }

  /** `includes` holds exactly when the substring occurs at some index. */
  lemma IncludesIffOccurs(s: string, sub: string)
    ensures Includes(s, sub) <==> exists i :: OccursAt(s, sub, i)
  {
    if Includes(s, sub) {
      IncludesImpliesOccurs(s, sub);
    }
    forall i | OccursAt(s, sub, i)
      ensures Includes(s, sub)
    {
      OccursImpliesIncludes(s, sub, i);
    }
  }

  // ---------------------------------------------------------------------------
  // Numbers as text

  predicate IsDigit(c: char) {
    '0' <= c <= '9'
  }

  predicate AllDigits(s: string) {
    forall i :: 0 <= i < |s| ==> IsDigit(s[i])
  }

  function DigitChar(d: nat): char
    requires d < 10
  {
    ('0' as int + d) as char
  }

  function DigitValue(c: char): nat
    requires IsDigit(c)
  {
    c as int - '0' as int
  }

  /** `n.toString()` for a non-negative integer: its decimal digits, no leading zero. */
  function NatToString(n: nat): (r: string)
    ensures 1 <= |r| && AllDigits(r)
    ensures n < 10 <==> |r| == 1
    ensures 10 <= n < 100 ==> |r| == 2
    decreases n
  {
    if n < 10 then [DigitChar(n)] else NatToString(n / 10) + [DigitChar(n % 10)]
  }

  /** `i.toString()` for any integer. */
  function IntToString(i: int): string {
    if i < 0 then "-" + NatToString(-i) else NatToString(i)
  }

  /** The value of a string of decimal digits (the empty string reads as 0). */
  function ParseNat(s: string): nat
    requires AllDigits(s)
  {
    if s == [] then 0 else ParseNat(s[..|s| - 1]) * 10 + DigitValue(s[|s| - 1])
  }

  /** Reading back what `NatToString` wrote gives the number again. */
  lemma {:induction false} ParseNatToString(n: nat)
    ensures ParseNat(NatToString(n)) == n
    decreases n
  {
    if n >= 10 {
      var s := NatToString(n);
      assert s[..|s| - 1] == NatToString(n / 10);
      ParseNatToString(n / 10);
    }
  }

  /** `s.padStart(2, '0')`. */
  function PadStart2(s: string): string {
    if |s| == 0 then "00" else if |s| == 1 then "0" + s else s
  }

  /** `Math.trunc(a / b)` for `b > 0`: the quotient rounded toward zero. */
  function TruncDiv(a: int, b: int): int
    requires b > 0
  {
    if a >= 0 then a / b else -((-a) / b)
  }

  /** JavaScript's `a % b` for `b > 0`: `a - b * Math.trunc(a / b)`, so the
      remainder takes the sign of `a`. */
  function JsRemainder(a: int, b: int): (r: int)
    requires b > 0
    ensures a == TruncDiv(a, b) * b + r
    ensures a >= 0 ==> 0 <= r < b && r == a % b
    ensures a < 0 ==> -b < r <= 0
  {
    if a >= 0 then a % b else
      assert -((-a) / b) * b == -(((-a) / b) * b);
      -((-a) % b)
  }

  /** The clock format of `formatTime` and `formatRestTime`:
      `${Math.floor(s / 60)}:${(s % 60).toString().padStart(2, '0')}`.
      Dafny's `/` by a positive divisor rounds down, like `Math.floor`. */
  function FormatMinSec(seconds: int): (r: string)
    ensures seconds >= 0 ==> |r| >= 4 && r[|r| - 3] == ':' && AllDigits(r[..|r| - 3]) && AllDigits(r[|r| - 2..])
    ensures seconds < 0 ==> |r| > 0 && r[0] == '-'
  {
    var minutes := IntToString(seconds / 60);
    var secs := PadStart2(IntToString(JsRemainder(seconds, 60)));
    SecondsFieldOf(seconds);
    ClockShape(minutes, secs);
    minutes + ":" + secs
  }

  /** The seconds field of a non-negative duration is two digits. */
  lemma SecondsFieldOf(seconds: int)
    ensures seconds >= 0 ==>
      |PadStart2(IntToString(JsRemainder(seconds, 60)))| == 2 && AllDigits(PadStart2(IntToString(JsRemainder(seconds, 60))))
  {
    if seconds >= 0 {
      SecondsField(seconds % 60);
    }
  }

  /** Digits, a colon and two digits make an `m:ss` shape. */
  lemma ClockShape(m: string, t: string)
    ensures |m| >= 1 && AllDigits(m) && |t| == 2 && AllDigits(t) ==>
      var r := m + ":" + t;
      |r| >= 4 && r[|r| - 3] == ':' && r[..|r| - 3] == m && r[|r| - 2..] == t
  {
    var r := m + ":" + t;
    if |m| >= 1 && |t| == 2 {
      assert r[..|r| - 3] == m;
      assert r[|r| - 2..] == t;
    }
  }

  /** A negative duration shows JavaScript's rendering: both fields negative. */
  lemma FormatMinSecNegative()
    ensures FormatMinSec(-5) == "-1:-5"
    ensures FormatMinSec(-65) == "-2:-5"
    ensures FormatMinSec(-60) == "-1:00"
  {
    assert IntToString(-1) == "-1" && IntToString(-2) == "-2" && IntToString(-5) == "-5";
    assert IntToString(0) == "0";
  }

  /** Reads an `m:ss` clock string back into seconds; `None` for anything else. */
  function ParseMinSec(r: string): Option<nat> {
    if |r| >= 4 && r[|r| - 3] == ':' && AllDigits(r[..|r| - 3]) && AllDigits(r[|r| - 2..])
       && ParseNat(r[|r| - 2..]) < 60
    then Some(ParseNat(r[..|r| - 3]) * 60 + ParseNat(r[|r| - 2..]))
    else None
  }

  /** The two-character seconds field holds the seconds' value. */
  lemma SecondsField(k: nat)
    requires k < 60
    ensures |PadStart2(NatToString(k))| == 2 && AllDigits(PadStart2(NatToString(k)))
    ensures ParseNat(PadStart2(NatToString(k))) == k
  {
    var t := PadStart2(NatToString(k));
    if k < 10 {
      assert t == ['0', DigitChar(k)];
      assert t[..1] == ['0'] && ParseNat(['0']) == 0 by {
        assert ['0'][..0] == [];
      }
    } else {
      ParseNatToString(k);
    }
  }

  /** For every non-negative number of seconds the clock text reads back as
      that number: the format loses nothing, and its seconds field is always
      two digits below 60. */
  lemma FormatMinSecRoundTrip(seconds: nat)
    ensures ParseMinSec(FormatMinSec(seconds)) == Some(seconds)
  {
    var m := NatToString(seconds / 60);
    var t := PadStart2(NatToString(seconds % 60));
    SecondsField(seconds % 60);
    ParseNatToString(seconds / 60);
    ClockShape(m, t);
    assert FormatMinSec(seconds) == m + ":" + t;
    assert ParseNat(m) * 60 + ParseNat(t) == seconds;
  }

  /** Labels the app shows: the finished countdown, the two-minute default,
      the three-minute rest of an added exercise, and a ninety-second rest. */
  lemma FormatMinSecExamples()
    ensures FormatMinSec(0) == "0:00"
    ensures FormatMinSec(120) == "2:00"
    ensures FormatMinSec(180) == "3:00"
    ensures FormatMinSec(90) == "1:30"
  {
    assert NatToString(0) == "0" && NatToString(2) == "2" && NatToString(3) == "3";
    assert NatToString(1) == "1" && NatToString(30) == NatToString(3) + "0";
  }

  /** Different durations never share a label. */
  lemma FormatMinSecInjective(a: nat, b: nat)
    requires FormatMinSec(a) == FormatMinSec(b)
    ensures a == b
  {
    FormatMinSecRoundTrip(a);
    FormatMinSecRoundTrip(b);
  }

  // ---------------------------------------------------------------------------
  // Ordering of names

  /** Code-point lexicographic order: the model's stand-in for
      `a.localeCompare(b) <= 0`. */
  predicate LexLe(a: string, b: string)
    decreases |a|
  {
    if a == [] then true
    else if b == [] then false
    else if a[0] != b[0] then a[0] < b[0]
    else LexLe(a[1..], b[1..])
  }

  lemma {:induction false} LexLeTotal(a: string, b: string)
    ensures LexLe(a, b) || LexLe(b, a)
    decreases |a|
  {
    if a != [] && b != [] && a[0] == b[0] {
      LexLeTotal(a[1..], b[1..]);
    }
  }

  lemma {:induction false} LexLeTransitive(a: string, b: string, c: string)
    requires LexLe(a, b) && LexLe(b, c)
    ensures LexLe(a, c)
    decreases |a|
  {
    if a != [] && a[0] == b[0] && b[0] == c[0] {
      LexLeTransitive(a[1..], b[1..], c[1..]);
    }
  }

  lemma {:induction false} LexLeAntisymmetric(a: string, b: string)
    requires LexLe(a, b) && LexLe(b, a)
    ensures a == b
    decreases |a|
  {
    if a != [] {
      LexLeAntisymmetric(a[1..], b[1..]);
      assert a == [a[0]] + a[1..] && b == [b[0]] + b[1..];
    }
  }
}
