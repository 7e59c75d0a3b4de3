/** What several models share. */
module Common {

  datatype Option<T> = None | Some(value: T)

  predicate Distinct<T(==)>(q: seq<T>) {
    forall i, j :: 0 <= i < j < |q| ==> q[i] != q[j]
  }

  lemma DistinctSnoc<T>(q: seq<T>, x: T)
    requires Distinct(q) && x !in q
    ensures Distinct(q + [x])
  {
  }

  lemma {:induction false} DistinctOnce<T>(q: seq<T>, x: T)
    requires Distinct(q)
    ensures multiset(q)[x] == if x in q then 1 else 0
  {
    if q != [] {
      DistinctOnce(q[1..], x);
      assert q == [q[0]] + q[1..];
      assert x in q <==> x == q[0] || x in q[1..];
    }
  }

  lemma Assoc<T>(a: seq<T>, b: seq<T>, c: seq<T>)
    ensures (a + b) + c == a + (b + c)
  {
  }
}
