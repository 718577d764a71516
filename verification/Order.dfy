/** The order of strings: lexicographic by characters, as byte order is on UTF-8. */
module Order {
  predicate StringLess(a: string, b: string) {
    b != "" && (a == "" || a[0] < b[0] || (a[0] == b[0] && StringLess(a[1..], b[1..])))
  }

  /** At the first character in which they differ `a` has the smaller one, or `a` ends there. */
  ghost predicate Ascends(a: string, b: string) {
    exists k: nat :: DiffersAt(a, b, k)
  }

  predicate DiffersAt(a: string, b: string, k: nat) {
    k <= |a| && k < |b| && a[..k] == b[..k] && (k < |a| ==> a[k] < b[k])
  }

  lemma {:induction false} StringLessMeans(a: string, b: string)
    ensures StringLess(a, b) <==> Ascends(a, b)
  {
    if b != [] {
      if a == [] || a[0] < b[0] {
        assert DiffersAt(a, b, 0);
      } else if a[0] == b[0] {
        StringLessMeans(a[1..], b[1..]);
        if Ascends(a[1..], b[1..]) {
          var k: nat :| DiffersAt(a[1..], b[1..], k);
          assert a[..k + 1] == [a[0]] + a[1..][..k] && b[..k + 1] == [b[0]] + b[1..][..k];
          assert DiffersAt(a, b, k + 1);
        }
        if Ascends(a, b) {
          var k: nat :| DiffersAt(a, b, k);
          LaterDifference(a, b, k);
        }
      } else {
        NoDifference(a, b);
      }
    }
  }

  lemma {:induction false} LaterDifference(a: string, b: string, k: nat)
    requires a != [] && b != [] && a[0] == b[0] && DiffersAt(a, b, k)
    ensures Ascends(a[1..], b[1..])
  {
    assert k > 0;
    assert a[1..][..k - 1] == a[..k][1..] && b[1..][..k - 1] == b[..k][1..];
    assert DiffersAt(a[1..], b[1..], k - 1);
  }

  lemma {:induction false} NoDifference(a: string, b: string)
    requires a != [] && b != [] && a[0] > b[0]
    ensures !Ascends(a, b)
  {
    forall k: nat
      ensures !DiffersAt(a, b, k)
    {
      if 0 < k <= |a| && k <= |b| { assert a[..k][0] == a[0] && b[..k][0] == b[0]; }
    }
  }

  lemma {:induction false} StringTotal(a: string, b: string)
    ensures a == b || StringLess(a, b) || StringLess(b, a)
  {
    if a != "" && b != "" && a[0] == b[0] {
      StringTotal(a[1..], b[1..]);
      assert a == [a[0]] + a[1..] && b == [b[0]] + b[1..];
    }
  }

  lemma {:induction false} StringTransitive(a: string, b: string, c: string)
    requires StringLess(a, b) && StringLess(b, c)
    ensures StringLess(a, c)
  {
    if a != "" && a[0] == b[0] == c[0] { StringTransitive(a[1..], b[1..], c[1..]); }
  }

  lemma {:induction false} StringIrreflexive(a: string)
    ensures !StringLess(a, a)
  {
    if a != "" { StringIrreflexive(a[1..]); }
  }

  /** Not being below is transitive. */
  lemma {:induction false} NotLessTransitive(a: string, b: string, c: string)
    requires !StringLess(a, b) && !StringLess(b, c)
    ensures !StringLess(a, c)
  {
    StringTotal(b, c);
    if StringLess(a, c) && b != c { StringTransitive(a, c, b); }
  }

  lemma {:induction false} StringAsymmetric(a: string, b: string)
    requires StringLess(a, b)
    ensures !StringLess(b, a)
  {
    StringIrreflexive(a);
    if StringLess(b, a) { StringTransitive(a, b, a); }
  }
}
