/** Failure-carrying results and small sequence facts shared by every module of the model. */
module Common {

  datatype Option<+T> = None | Some(value: T)

  /** A value, or the reason the source would stop with an error or an assertion failure. */
  datatype Result<+T, +E> = Ok(value: T) | Err(error: E)

  /** No element occurs twice. */
  predicate Distinct<T(==)>(s: seq<T>)
  {
    forall i, j :: 0 <= i < j < |s| ==> s[i] != s[j]
  }

  lemma AppendAssoc<T>(a: seq<T>, b: seq<T>, c: seq<T>)
    ensures (a + b) + c == a + (b + c)
  {
  }

  /** The sequence with position k removed. */
  function RemoveAt<T>(s: seq<T>, k: nat): (r: seq<T>)
    requires k < |s|
    ensures |r| == |s| - 1
    ensures multiset(s) == multiset(r) + multiset{s[k]}
  {
    assert s == s[..k] + [s[k]] + s[k + 1..];
    s[..k] + s[k + 1..]
  }

  lemma RemoveAtKeepsOthers<T>(s: seq<T>, k: nat)
    requires k < |s| && Distinct(s)
    ensures Distinct(RemoveAt(s, k))
    ensures forall y :: y in s && y != s[k] ==> y in RemoveAt(s, k)
  {
    var r := RemoveAt(s, k);
    forall i, j | 0 <= i < j < |r| ensures r[i] != r[j] {
      assert r[i] == s[if i < k then i else i + 1];
      assert r[j] == s[if j < k then j else j + 1];
    }
    forall y | y in s && y != s[k] ensures y in r {
      var t :| 0 <= t < |s| && s[t] == y;
      assert r[if t < k then t else t - 1] == y;
    }
  }

  /** Two duplicate-free sequences of the same length, one drawn from the other,
      hold the same elements. */
  lemma {:induction false} DistinctSameLengthIsPermutation<T>(a: seq<T>, b: seq<T>)
    requires Distinct(a) && Distinct(b) && |a| == |b|
    requires forall x :: x in a ==> x in b
    ensures multiset(a) == multiset(b)
  {
    if a != [] {
      var x := a[0];
      assert x in a;
      var k :| 0 <= k < |b| && b[k] == x;
      RemoveAtKeepsOthers(b, k);
      var b' := RemoveAt(b, k);
      assert Distinct(a[1..]);
      forall y | y in a[1..] ensures y in b' {
        var i :| 0 <= i < |a[1..]| && a[1..][i] == y;
        assert y == a[i + 1];
      }
      DistinctSameLengthIsPermutation(a[1..], b');
      assert a == [x] + a[1..];
    }
  }

  /** A duplicate-free sequence drawn from another duplicate-free sequence is no
      longer than it. */
  lemma {:induction false} DistinctWithinIsShorter<T>(a: seq<T>, b: seq<T>)
    requires Distinct(a) && Distinct(b)
    requires forall x :: x in a ==> x in b
    ensures |a| <= |b|
  {
    if a != [] {
      var x := a[0];
      assert x in a;
      var k :| 0 <= k < |b| && b[k] == x;
      RemoveAtKeepsOthers(b, k);
      var b' := RemoveAt(b, k);
      assert Distinct(a[1..]);
      forall y | y in a[1..] ensures y in b' {
        var i :| 0 <= i < |a[1..]| && a[1..][i] == y;
        assert y == a[i + 1];
      }
      DistinctWithinIsShorter(a[1..], b');
    }
  }
}
