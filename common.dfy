/** Small helpers shared by the attachment-migration model. */
module Common {

  /** A value that may be absent; None stands for SQL NULL (Python False in ORM reads). */
  datatype Option<T> = None | Some(value: T)

  /** Python truthiness of a char column value: NULL and the empty string are falsy. */
  predicate Truthy(v: Option<string>) {
    v.Some? && v.value != ""
  }

  function Min(a: int, b: int): int {
    if a <= b then a else b
  }

  /** No element occurs twice. */
  predicate Distinct<T(==)>(s: seq<T>) {
    forall i, j :: 0 <= i < j < |s| ==> s[i] != s[j]
  }

  /** The set of elements of a sequence. */
  function Elements<T>(s: seq<T>): set<T> {
    set x | x in s
  }

  /** A sequence without repetitions has as many elements as its set. */
  lemma {:induction false} DistinctCard<T>(s: seq<T>)
    requires Distinct(s)
    ensures |Elements(s)| == |s|
  {
    if s != [] {
      var n := |s| - 1;
      var init := s[..n];
      assert Distinct(init);
      DistinctCard(init);
      assert s == init + [s[n]];
      assert Elements(s) == Elements(init) + {s[n]};
      assert s[n] !in Elements(init);
    }
  }

  lemma MulGap(a: int, b: int, d: int)
    requires d > 0 && a < b
    ensures a * d + d <= b * d
  {
    var e := b - a;
    assert e >= 1;
    assert e * d >= d;
    assert b * d == a * d + e * d;
  }

  lemma DivUnique(n: int, d: int, q: int)
    requires d > 0 && q * d <= n < q * d + d
    ensures n / d == q
  {
    var q' := n / d;
    assert q' * d <= n < q' * d + d;
    if q' < q {
      MulGap(q', q, d);
    } else if q' > q {
      MulGap(q, q', d);
    }
  }

  /** ceil(k / l) for positive l. */
  function CeilDiv(k: nat, l: nat): nat
    requires l > 0
  {
    (k + l - 1) / l
  }
}
