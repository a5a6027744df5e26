/** Numerals: a number has one, and it reads back. */
module Decimal {

  predicate IsDigit(c: char) {
    '0' <= c <= '9'
  }

  predicate AllDigits(s: string) {
    forall i | 0 <= i < |s| :: IsDigit(s[i])
  }

  function Digit(d: nat): char
    requires d < 10
  {
    '0' + d as char
  }

  function Text(n: nat): string {
    if n < 10 then [Digit(n)] else Text(n / 10) + [Digit(n % 10)]
  }

  function IntText(n: int): string {
    if n < 0 then "-" + Text(-n) else Text(n)
  }

  /** What a numeral is worth; anything else is worth nothing in particular. */
  function Value(s: string): nat {
    if s == "" || !IsDigit(s[|s| - 1]) then 0 else Value(s[..|s| - 1]) * 10 + (s[|s| - 1] - '0') as nat
  }

  lemma {:induction false} TextReadsBack(n: nat)
    ensures Text(n) != "" && AllDigits(Text(n)) && Value(Text(n)) == n
  {
    var s := Text(n);
    if n < 10 {
      assert s[..|s| - 1] == "";
    } else {
      TextReadsBack(n / 10);
      assert s[..|s| - 1] == Text(n / 10);
    }
  }
}

/** The longest run of some kind of character a text begins with. */
module Spans {

  function Span(s: string, kind: char -> bool): (n: nat)
    ensures n <= |s| && (forall i | 0 <= i < n :: kind(s[i])) && (n < |s| ==> !kind(s[n]))
  {
    if s == "" || !kind(s[0]) then 0 else 1 + Span(s[1..], kind)
  }

  /** A run followed by another kind of character is what `Span` finds. */
  lemma {:induction false} SpanOf(run: string, rest: string, kind: char -> bool)
    requires forall i | 0 <= i < |run| :: kind(run[i])
    requires rest != "" ==> !kind(rest[0])
    ensures Span(run + rest, kind) == |run| && (run + rest)[..|run|] == run && (run + rest)[|run|..] == rest
  {
    assert forall i | 0 <= i < |run| :: kind((run + rest)[i]);
    assert rest != "" ==> (run + rest)[|run|] == rest[0];
  }
}
