/** Names of the pods a PodManager creates. */
module PodNames {
  import opened Decimal

  function PodName(manager: string, index: int): string {
    manager + "-" + Format(index)
  }

  /** Of two ways to read a name as prefix, dash and digits, neither has the shorter prefix. */
  lemma PrefixNotShorter(m: string, a: string, n: string, b: string)
    requires AllDigits(a) && m + "-" + a == n + "-" + b
    ensures |m| >= |n|
  {
    var s := m + "-" + a;
    assert forall k :: |m| < k < |s| ==> s[k] == a[k - |m| - 1];
    assert s[|n|] == (n + "-" + b)[|n|] == '-';
  }

  /** Manager and index can be read back from a pod name: two managers never use the same pod
      name, and one manager never uses a name for two indices. */
  lemma PodNameInjective(m: string, i: nat, n: string, j: nat)
    requires PodName(m, i) == PodName(n, j)
    ensures m == n && i == j
  {
    var a, b := Render(i), Render(j);
    RenderRoundTrip(i);
    RenderRoundTrip(j);
    PrefixNotShorter(m, a, n, b);
    PrefixNotShorter(n, b, m, a);
    var s := PodName(m, i);
    assert m == s[..|m|] && n == s[..|m|];
    assert a == s[|m| + 1..] && b == s[|m| + 1..];
  }

  /** Injectivity needs the non-negative index that counting from the list length provides. */
  lemma NegativeIndexCollides(m: string, i: int)
    requires i > 0
    ensures PodName(m, -i) == PodName(m + "-", i)
  {
    assert m + "-" + ("-" + Render(i)) == (m + "-") + "-" + Render(i);
  }
}
