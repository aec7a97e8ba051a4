/** The order of strings: by code point, a prefix first. */
module TextOrder {

  predicate Before(a: string, b: string) {
    if b == "" then false
    else if a == "" then true
    else a[0] < b[0] || (a[0] == b[0] && Before(a[1..], b[1..]))
  }

  lemma {:induction false} BeforeIrreflexive(a: string)
    ensures !Before(a, a)
  {
    if a != "" {
      BeforeIrreflexive(a[1..]);
    }
  }

  lemma {:induction false} BeforeTransitive(a: string, b: string, c: string)
    requires Before(a, b) && Before(b, c)
    ensures Before(a, c)
  {
    if a != "" && a[0] == b[0] && b[0] == c[0] {
      BeforeTransitive(a[1..], b[1..], c[1..]);
    }
  }

  lemma {:induction false} BeforeTotal(a: string, b: string)
    ensures a == b || Before(a, b) || Before(b, a)
  {
    if a != "" && b != "" && a[0] == b[0] {
      BeforeTotal(a[1..], b[1..]);
      assert a == [a[0]] + a[1..] && b == [b[0]] + b[1..];
    }
  }

  /** `a` and `b` first differ at `n`, where `a` has the smaller character or ends. */
  ghost predicate FirstDiffer(a: string, b: string, n: nat) {
    n <= |a| && n < |b| && a[..n] == b[..n] && (n == |a| || a[n] < b[n])
  }

  lemma {:induction false} BeforeExactly(a: string, b: string)
    ensures Before(a, b) <==> exists n: nat :: FirstDiffer(a, b, n)
  {
    if a == "" && b != "" {
      assert FirstDiffer(a, b, 0);
    } else if a != "" && b != "" {
      BeforeExactly(a[1..], b[1..]);
      if Before(a, b) {
        if a[0] < b[0] {
          assert FirstDiffer(a, b, 0);
        } else {
          var n: nat :| FirstDiffer(a[1..], b[1..], n);
          assert a[..n + 1] == [a[0]] + a[1..][..n] && b[..n + 1] == [b[0]] + b[1..][..n];
          assert FirstDiffer(a, b, n + 1);
        }
      } else if exists n: nat :: FirstDiffer(a, b, n) {
        var n: nat :| FirstDiffer(a, b, n);
        assert n > 0 ==> a[..n][0] == b[..n][0] && a[1..][..n - 1] == a[..n][1..] && b[1..][..n - 1] == b[..n][1..];
        assert n > 0 ==> FirstDiffer(a[1..], b[1..], n - 1);
      }
    }
  }
}
