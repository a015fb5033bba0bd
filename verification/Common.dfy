/** Vocabulary shared by the models: optional values and bytes. */
module Common {

  datatype Option<+T> = None | Some(value: T)

  newtype byte = b: int | 0 <= b < 256

  type bytes = seq<byte>

  /** No value occurs twice. */
  ghost predicate Distinct<T>(q: seq<T>) {
    forall i, j :: 0 <= i < j < |q| ==> q[i] != q[j]
  }

  function Elements<T>(q: seq<T>): (r: set<T>)
  {
    set x | x in q
  }

  /** Removes the first occurrence of x, keeping the order of everything else. */
  function Without<T(==)>(q: seq<T>, x: T): seq<T> {
    if q == [] then []
    else if q[0] == x then q[1..]
    else [q[0]] + Without(q[1..], x)
  }

  lemma {:induction false} WithoutAt<T>(q: seq<T>, x: T, index: nat)
    requires index < |q| && q[index] == x
    requires forall i :: 0 <= i < index ==> q[i] != x
    ensures Without(q, x) == q[..index] + q[index + 1..]
  {
    if index == 0 {
      assert q[..0] + q[1..] == q[1..];
    } else {
      WithoutAt(q[1..], x, index - 1);
      assert q[1..][..index - 1] == q[1..index];
      assert q[1..][index..] == q[index + 1..];
      assert q[..index] + q[index + 1..] == [q[0]] + (q[1..index] + q[index + 1..]);
    }
  }

  lemma {:induction false} WithoutAbsent<T>(q: seq<T>, x: T)
    requires x !in q
    ensures Without(q, x) == q
  {
    if q != [] {
      WithoutAbsent(q[1..], x);
      assert q == [q[0]] + q[1..];
    }
  }

  /** On a sequence of distinct values, removal takes out exactly x. */
  lemma {:induction false} WithoutDistinct<T>(q: seq<T>, x: T)
    requires Distinct(q)
    ensures Distinct(Without(q, x))
    ensures Elements(Without(q, x)) == Elements(q) - {x}
    ensures |Without(q, x)| == |q| - (if x in q then 1 else 0)
  {
    if x in q {
      var index :| 0 <= index < |q| && q[index] == x;
      WithoutAt(q, x, index);
      var r := Without(q, x);
      forall y ensures y in Elements(r) <==> y in Elements(q) - {x} {
        if y in q && y != x {
          var k :| 0 <= k < |q| && q[k] == y;
          assert r[if k < index then k else k - 1] == y;
        }
      }
    } else {
      WithoutAbsent(q, x);
    }
  }

  lemma {:induction false} DistinctSize<T>(q: seq<T>)
    requires Distinct(q)
    ensures |Elements(q)| == |q|
  {
    if q != [] {
      var front := q[..|q| - 1];
      var last := q[|q| - 1];
      assert q == front + [last];
      DistinctSize(front);
      assert Elements(q) == Elements(front) + {last};
    }
  }
}
