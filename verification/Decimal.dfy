/** Decimal text of integers, as `%d` and the shell print it, and its reading. */
module Decimal {

  function Digit(d: nat): char
    requires d < 10
  {
    "0123456789"[d]
  }

  predicate IsDigit(c: char) {
    '0' <= c <= '9'
  }

  predicate AllDigits(s: string) {
    forall i :: 0 <= i < |s| ==> IsDigit(s[i])
  }

  function Render(n: nat): string {
    if n < 10 then [Digit(n)] else Render(n / 10) + [Digit(n % 10)]
  }

  function Format(i: int): string {
    if i < 0 then "-" + Render(-i) else Render(i)
  }

  function Value(s: string): nat
    requires AllDigits(s)
  {
    if s == [] then 0
    else 10 * Value(s[..|s| - 1]) + (s[|s| - 1] as int - '0' as int)
  }

  /** Reading what was written gives the number back, so no two numbers share a text; and no text has
      a leading zero. */
  lemma {:induction false} RenderRoundTrip(n: nat)
    ensures Render(n) != [] && AllDigits(Render(n)) && Value(Render(n)) == n
    ensures Render(n)[0] == '0' ==> n == 0 && |Render(n)| == 1
  {
    var s := Render(n);
    if n >= 10 {
      RenderRoundTrip(n / 10);
      assert s[..|s| - 1] == Render(n / 10);
    } else {
      assert s[..0] == [];
    }
  }
}
