/** Host names, tier labels and lease ids are compared the way Go compares strings. */
module Names {

  /** Go's `<` on strings: the first differing character decides, a proper prefix comes first.
      Code-point order and the byte order of the UTF-8 encoding agree. */
  predicate Before(a: string, b: string)
  {
    if a == [] then b != []
    else if b == [] then false
    else if a[0] != b[0] then a[0] < b[0]
    else Before(a[1..], b[1..])
  }

  lemma {:induction false} BeforeIrreflexive(a: string)
    ensures !Before(a, a)
  {
    if a != [] {
      BeforeIrreflexive(a[1..]);
    }
  }

  lemma {:induction false} BeforeTransitive(a: string, b: string, c: string)
    requires Before(a, b) && Before(b, c)
    ensures Before(a, c)
  {
    if a != [] && a[0] == b[0] && b[0] == c[0] {
      BeforeTransitive(a[1..], b[1..], c[1..]);
    }
  }

  lemma {:induction false} BeforeTotal(a: string, b: string)
    requires a != b
    ensures Before(a, b) || Before(b, a)
  {
    if a != [] && b != [] && a[0] == b[0] {
      assert a == [a[0]] + a[1..] && b == [b[0]] + b[1..];
      BeforeTotal(a[1..], b[1..]);
    }
  }

  /** The strings agree up to here, where the first ends or has the lesser character. */
  predicate LessAt(a: string, b: string, i: nat)
  {
    i <= |a| && i < |b| && a[..i] == b[..i] && (i == |a| || a[i] < b[i])
  }

  /** One string is before another exactly when it ends, or has the lesser character, where they first differ. */
  lemma {:induction false} BeforeMeans(a: string, b: string)
    ensures Before(a, b) <==> exists i: nat :: LessAt(a, b, i)
  {
    if a == [] || b == [] || a[0] != b[0] {
      assert Before(a, b) ==> LessAt(a, b, 0);
      if i: nat :| LessAt(a, b, i) {
        assert i > 0 ==> a[..i][0] == b[..i][0];
      }
    } else {
      BeforeMeans(a[1..], b[1..]);
      if i: nat :| LessAt(a[1..], b[1..], i) {
        assert a[..i + 1] == [a[0]] + a[1..][..i] && b[..i + 1] == [b[0]] + b[1..][..i];
        assert LessAt(a, b, i + 1);
      }
      if i: nat :| LessAt(a, b, i) {
        assert a[..i][1..] == a[1..][..i - 1] && b[..i][1..] == b[1..][..i - 1];
        assert LessAt(a[1..], b[1..], i - 1);
      }
    }
  }
}
