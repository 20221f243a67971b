/**
 * String helpers that the styling runtime relies on: substring search
 * (`String.prototype.includes`), the decimal rendering of integers used in
 * generated class names, and `Array.prototype.join`.
 */
module Strings {

  /** `text` contains `pattern` as a contiguous substring. */
  predicate Contains(text: string, pattern: string) {
    exists k | 0 <= k <= |text| - |pattern| :: OccursAt(text, pattern, k)
  }

  /** `pattern` occurs in `text` starting at index `k`. */
  predicate OccursAt(text: string, pattern: string, k: int) {
    0 <= k && k + |pattern| <= |text| && text[k..k + |pattern|] == pattern
  }

  lemma ContainsPrefix(text: string, pattern: string)
    requires |pattern| <= |text| && text[..|pattern|] == pattern
    ensures Contains(text, pattern)
  {
    assert OccursAt(text, pattern, 0);
  }

  predicate IsDigit(c: char) { '0' <= c <= '9' }

  function DigitChar(d: nat): (c: char)
    requires d < 10
    ensures IsDigit(c)
  {
    (48 + d) as char
  }

  function DigitValue(c: char): int { c as int - 48 }

  /** Decimal text of a natural number, most significant digit first, no leading zeros. */
  function NatToString(n: nat): (s: string)
    ensures 1 <= |s|
    ensures forall i | 0 <= i < |s| :: IsDigit(s[i])
  {
    if n < 10 then [DigitChar(n)] else NatToString(n / 10) + [DigitChar(n % 10)]
  }

  /** Reads back a string of decimal digits. */
  function ParseDigits(s: string): int {
    if s == [] then 0 else ParseDigits(s[..|s| - 1]) * 10 + DigitValue(s[|s| - 1])
  }

  lemma {:induction false} ParseNatToString(n: nat)
    ensures ParseDigits(NatToString(n)) == n
  {
    var s := NatToString(n);
    if n >= 10 {
      assert s[..|s| - 1] == NatToString(n / 10);
      ParseNatToString(n / 10);
    }
  }

  lemma NatToStringInjective(a: nat, b: nat)
    requires a != b
    ensures NatToString(a) != NatToString(b)
  {
    ParseNatToString(a);
    ParseNatToString(b);
  }

  /** JavaScript's rendering of an integral number: an optional `-`, then the decimal digits. */
  function IntToString(n: int): (s: string)
    ensures forall i | 0 <= i < |s| :: IsDigit(s[i]) || s[i] == '-'
    ensures forall i | 0 < i < |s| :: IsDigit(s[i])
    ensures 1 <= |s|
  {
    if n < 0 then "-" + NatToString(-n) else NatToString(n)
  }

  lemma IntToStringInjective(a: int, b: int)
    requires a != b
    ensures IntToString(a) != IntToString(b)
  {
    if a < 0 && b < 0 {
      NatToStringInjective(-a, -b);
      assert IntToString(a)[1..] == NatToString(-a);
      assert IntToString(b)[1..] == NatToString(-b);
    } else if a >= 0 && b >= 0 {
      NatToStringInjective(a, b);
    } else if a < 0 {
      assert IntToString(a)[0] == '-' && IsDigit(IntToString(b)[0]);
    } else {
      assert IntToString(b)[0] == '-' && IsDigit(IntToString(a)[0]);
    }
  }

  function TotalLength(parts: seq<string>): nat {
    if parts == [] then 0 else TotalLength(parts[..|parts| - 1]) + |parts[|parts| - 1]|
  }

  /** `parts.join(sep)`: the parts in order with `sep` between neighbours. */
  function Join(parts: seq<string>, sep: string): (r: string)
    ensures parts == [] ==> r == ""
    ensures parts != [] ==> |r| == TotalLength(parts) + |sep| * (|parts| - 1)
  {
    if |parts| <= 1 then
      (if parts == [] then "" else parts[0])
    else
      Join(parts[..|parts| - 1], sep) + sep + parts[|parts| - 1]
  }

  /** A single part is joined to itself, whatever the separator. */
  lemma JoinSingle(part: string, sep: string)
    ensures Join([part], sep) == part
  {
  }

  /**
   * Joining two non-empty lists is joining each and putting one separator
   * between them: with `JoinSingle` this pins down every character of `Join`.
   */
  lemma {:induction false} JoinAppend(a: seq<string>, b: seq<string>, sep: string)
    requires a != [] && b != []
    ensures Join(a + b, sep) == Join(a, sep) + sep + Join(b, sep)
  {
    var ab := a + b;
    var last := b[|b| - 1];
    var front := b[..|b| - 1];
    assert ab[..|ab| - 1] == a + front && ab[|ab| - 1] == last;
    assert Join(ab, sep) == Join(a + front, sep) + sep + last;
    if front != [] {
      JoinAppend(a, front, sep);
      assert Join(b, sep) == Join(front, sep) + sep + last;
    } else {
      assert a + front == a;
    }
  }
}
