/** Text helpers shared by the query-fragment builders: JavaScript's decimal
    rendering of a non-negative integer (as in the template literal `$${idx + 1}`),
    reading a placeholder number back from the end of a token, and
    `Array.prototype.join`. */
module Text {

  import opened Wrappers

  predicate IsDigit(c: char) {
    '0' <= c <= '9'
  }

  predicate AllDigits(s: string) {
    forall i :: 0 <= i < |s| ==> IsDigit(s[i])
  }

  function Digit(d: nat): (c: char)
    requires d < 10
    ensures IsDigit(c)
  {
    ('0' as int + d) as char
  }

  function DigitValue(c: char): (d: nat)
    requires IsDigit(c)
    ensures d < 10 && Digit(d) == c
  {
    c as int - '0' as int
  }

  /** The decimal numeral JavaScript produces for a non-negative integer:
      at least one digit and no leading zero. */
  function Decimal(n: nat): (s: string)
    ensures |s| > 0 && AllDigits(s)
    ensures s[0] == '0' <==> n == 0
    ensures n < 10 <==> |s| == 1
    decreases n
  {
    if n < 10 then [Digit(n)] else Decimal(n / 10) + [Digit(n % 10)]
  }

  /** The value of a string of digits, most significant first. */
  function ParseDecimal(s: string): nat
    requires AllDigits(s)
  {
    if s == [] then 0 else ParseDecimal(s[..|s| - 1]) * 10 + DigitValue(s[|s| - 1])
  }

  /** Reading a numeral back gives the number it was made from. */
  lemma {:induction false} ParseDecimalOfDecimal(n: nat)
    ensures ParseDecimal(Decimal(n)) == n
    decreases n
  {
    if n >= 10 {
      var s := Decimal(n);
      assert s[..|s| - 1] == Decimal(n / 10);
      ParseDecimalOfDecimal(n / 10);
    }
  }

  /** The longest run of digits at the end of `s`. */
  function TrailingDigits(s: string): (d: string)
    ensures AllDigits(d) && |d| <= |s|
  {
    if |s| > 0 && IsDigit(s[|s| - 1]) then TrailingDigits(s[..|s| - 1]) + [s[|s| - 1]] else []
  }

  /** The placeholder number a token ends in: the value of its trailing digits
      when they are non-empty and preceded by a `$`, and None otherwise. */
  function PlaceholderNumber(token: string): Option<nat> {
    var d := TrailingDigits(token);
    if |d| > 0 && |d| < |token| && token[|token| - |d| - 1] == '$' then Some(ParseDecimal(d)) else None
  }

  lemma {:induction false} TrailingDigitsAfter(p: string, d: string)
    requires AllDigits(d)
    requires |p| == 0 || !IsDigit(p[|p| - 1])
    ensures TrailingDigits(p + d) == d
    decreases |d|
  {
    var s := p + d;
    if |d| > 0 {
      var d' := d[..|d| - 1];
      assert s[..|s| - 1] == p + d';
      assert s[|s| - 1] == d[|d| - 1];
      TrailingDigitsAfter(p, d');
      assert TrailingDigits(s) == TrailingDigits(p + d') + [d[|d| - 1]];
      assert d == d' + [d[|d| - 1]];
    } else {
      assert s == p;
    }
  }

  /** Whatever text precedes it, a `$` followed by the numeral of `k` reads back
      as placeholder `k`: the placeholder a token carries can be recovered from
      its text. */
  lemma PlaceholderNumberOfRendered(prefix: string, k: nat)
    requires |prefix| > 0 && prefix[|prefix| - 1] == '$'
    ensures PlaceholderNumber(prefix + Decimal(k)) == Some(k)
  {
    TrailingDigitsAfter(prefix, Decimal(k));
    ParseDecimalOfDecimal(k);
  }

  /** `parts.join(sep)`: the parts in order with `sep` between consecutive parts. */
  function Join(parts: seq<string>, sep: string): string
  {
    if |parts| == 0 then ""
    else if |parts| == 1 then parts[0]
    else parts[0] + sep + Join(parts[1..], sep)
  }

  /** Sum of the lengths of the parts. */
  function TotalLength(parts: seq<string>): nat
  {
    if parts == [] then 0 else |parts[0]| + TotalLength(parts[1..])
  }

  /** Joining two non-empty runs of parts puts one separator between them. */
  lemma {:induction false} JoinAppend(a: seq<string>, b: seq<string>, sep: string)
    requires |a| > 0 && |b| > 0
    ensures Join(a + b, sep) == Join(a, sep) + sep + Join(b, sep)
    decreases |a|
  {
    if |a| == 1 {
      assert (a + b)[1..] == b;
    } else {
      assert (a + b)[1..] == a[1..] + b;
      JoinAppend(a[1..], b, sep);
    }
  }

  /** The joined text is as long as the parts together plus `|parts| - 1`
      separators. */
  lemma {:induction false} JoinLength(parts: seq<string>, sep: string)
    requires |parts| > 0
    ensures |Join(parts, sep)| == TotalLength(parts) + (|parts| - 1) * |sep|
    decreases |parts|
  {
    if |parts| > 1 {
      JoinLength(parts[1..], sep);
    }
  }

  /** The joined text begins with the first part and ends with the last: there is
      no separator at either end. */
  lemma {:induction false} JoinEnds(parts: seq<string>, sep: string)
    requires |parts| > 0
    ensures parts[0] <= Join(parts, sep)
    ensures var j := Join(parts, sep); var last := parts[|parts| - 1];
      |last| <= |j| && j[|j| - |last|..] == last
    decreases |parts|
  {
    if |parts| > 1 {
      JoinEnds(parts[1..], sep);
      var j := Join(parts, sep);
      var rest := Join(parts[1..], sep);
      var last := parts[|parts| - 1];
      assert j == (parts[0] + sep) + rest;
      assert j[|j| - |last|..] == rest[|rest| - |last|..];
    }
  }
}
