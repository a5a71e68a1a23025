/** Sequence utilities shared by the modules: element-wise mapping and its behaviour under reordering. */
module Sequences {
  /** `stream().map(f).toList()`. */
  function MapSeq<A, B>(f: A -> B, s: seq<A>): (r: seq<B>)
    ensures |r| == |s|
    ensures forall i :: 0 <= i < |s| ==> r[i] == f(s[i])
  {
    if |s| == 0 then [] else [f(s[0])] + MapSeq(f, s[1..])
  }

  /** Removing the head of `a` and an equal element of `b` keeps two equal multisets equal, and conversely. */
  lemma RemoveMatching<A>(a: seq<A>, b: seq<A>, k: nat)
    requires |a| > 0 && k < |b| && b[k] == a[0]
    ensures multiset(a) == multiset(b) <==> multiset(a[1..]) == multiset(b[..k] + b[k + 1..])
  {
    assert a == [a[0]] + a[1..];
    assert b == b[..k] + [b[k]] + b[k + 1..];
    var x, ra, rb := a[0], multiset(a[1..]), multiset(b[..k] + b[k + 1..]);
    assert multiset(b) == rb + multiset{x};
    assert multiset(a) == ra + multiset{x};
    if multiset(a) == multiset(b) {
      assert ra == multiset(a) - multiset{x};
      assert rb == multiset(b) - multiset{x};
    }
  }

  lemma {:induction false} MapSeqPermutation<A, B>(f: A -> B, a: seq<A>, b: seq<A>)
    requires multiset(a) == multiset(b)
    ensures multiset(MapSeq(f, a)) == multiset(MapSeq(f, b))
    decreases |a|
  {
    if |a| > 0 {
      assert a[0] in multiset(b);
      var k :| 0 <= k < |b| && b[k] == a[0];
      var rest := b[..k] + b[k + 1..];
      RemoveMatching(a, b, k);
      MapSeqPermutation(f, a[1..], rest);
      MapSeqWithout(f, a, 0);
      MapSeqWithout(f, b, k);
      assert a[..0] + a[1..] == a[1..];
      RemoveMatching(MapSeq(f, a), MapSeq(f, b), k);
    }
  }

  /** Mapping commutes with removing the element at `k`. */
  lemma MapSeqWithout<A, B>(f: A -> B, s: seq<A>, k: nat)
    requires k < |s|
    ensures MapSeq(f, s[..k] + s[k + 1..]) == MapSeq(f, s)[..k] + MapSeq(f, s)[k + 1..]
  {
    var t, m := s[..k] + s[k + 1..], MapSeq(f, s);
    var l, r := MapSeq(f, t), m[..k] + m[k + 1..];
    assert |l| == |r|;
    forall i | 0 <= i < |l| ensures l[i] == r[i] {
      if i < k {
        assert t[i] == s[i];
      } else {
        assert t[i] == s[i + 1];
      }
    }
  }
}
