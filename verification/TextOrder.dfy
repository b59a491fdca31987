/** The lexicographic order by the first difference. */
module TextOrder {
  import opened Ordering

  /** The lists agree up to here, where they first differ. */
  predicate DiffersAt<T(==)>(a: seq<T>, b: seq<T>, k: nat) {
    k < |a| && k < |b| && a[..k] == b[..k] && a[k] != b[k]
  }

  /** A prefix comes first, and otherwise the elements at the first difference decide. */
  lemma {:induction false} LexLeIff<T>(a: seq<T>, b: seq<T>, le: (T, T) -> bool)
    ensures LexLe(a, b, le) <==> a <= b || exists k: nat :: DiffersAt(a, b, k) && le(a[k], b[k])
  {
    if a != [] && b != [] {
      if a[0] == b[0] {
        LexLeIff(a[1..], b[1..], le);
        assert a == [a[0]] + a[1..] && b == [b[0]] + b[1..];
        if k: nat :| DiffersAt(a[1..], b[1..], k) && le(a[1..][k], b[1..][k]) {
          var next := k + 1;
          assert a[..next] == [a[0]] + a[1..][..k] && b[..next] == [b[0]] + b[1..][..k];
          assert DiffersAt(a, b, next);
        } else if k: nat :| DiffersAt(a, b, k) && le(a[k], b[k]) {
          assert a[1..][..k - 1] == a[..k][1..] && b[1..][..k - 1] == b[..k][1..];
          assert DiffersAt(a[1..], b[1..], k - 1);
        }
      } else {
        assert DiffersAt(a, b, 0);
        forall k: nat | 0 < k < |a| && k < |b| ensures !DiffersAt(a, b, k) {
          assert a[..k][0] != b[..k][0];
        }
      }
    }
  }

  /** The texts agree up to here, where the first is smaller. */
  predicate SmallerAt(a: string, b: string, k: nat) {
    k < |a| && k < |b| && a[..k] == b[..k] && a[k] < b[k]
  }

  ghost predicate IsSmaller(a: string, b: string) {
    exists k: nat :: SmallerAt(a, b, k)
  }

  /** A prefix comes first, and otherwise the smaller character at the first difference. */
  lemma {:induction false} StringLeIff(a: string, b: string)
    ensures StringLe(a, b) <==> a <= b || IsSmaller(a, b)
  {
    LexLeIff(a, b, CharLe);
    if k: nat :| SmallerAt(a, b, k) {
      assert DiffersAt(a, b, k);
    }
    if k: nat :| DiffersAt(a, b, k) && CharLe(a[k], b[k]) {
      assert SmallerAt(a, b, k);
    }
  }
}
