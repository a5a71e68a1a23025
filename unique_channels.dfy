/**
 * `UniqueFeedbackChannelsConstraintValidator`: a channel list is valid when the
 * number of distinct (contactMethod, destination) pairs among its non-null
 * elements equals the list's size. A null list counts as empty.
 */
module UniqueChannels {
  import opened Wrappers
  import opened ContactMethods
  import opened RequestedChannels

  /** The pair the validator compares: the destination exactly, the flag not at all. */
  type Key = (Option<ContactMethod>, Option<string>)

  function KeyOf(ch: RequestedFeedbackChannel): Key
  {
    (ch.contactMethod, ch.destination)
  }

  /** The distinct keys of the non-null elements (`filter(nonNull).map(...).distinct()`). */
  function DistinctKeys(l: seq<Option<RequestedFeedbackChannel>>): (ks: set<Key>)
    ensures forall k :: k in ks <==> exists i :: 0 <= i < |l| && l[i].Some? && KeyOf(l[i].value) == k
    ensures |ks| <= |l|
  {
    if |l| == 0 then {}
    else
      var rest := DistinctKeys(l[1..]);
      assert forall i :: 0 < i < |l| ==> l[i] == l[1..][i - 1];
      if l[0].Some? then {KeyOf(l[0].value)} + rest else rest
  }

  /** `isValid`. */
  predicate IsValid(value: Option<seq<Option<RequestedFeedbackChannel>>>)
  {
    |DistinctKeys(value.GetOr([]))| == |value.GetOr([])|
  }

  /** No element is null and no two elements share a key. */
  predicate NoNullsAndDistinctKeys(l: seq<Option<RequestedFeedbackChannel>>)
  {
    (forall i :: 0 <= i < |l| ==> l[i].Some?) &&
    (forall i, j :: 0 <= i < j < |l| && l[i].Some? && l[j].Some? ==> KeyOf(l[i].value) != KeyOf(l[j].value))
  }

  lemma NullAndEmptyAreValid()
    ensures IsValid(None)
    ensures IsValid(Some([]))
  {
  }

  /**
   * The count comparison means exactly this: no element is null and the keys
   * are pairwise different. A null element is dropped before counting but
   * still counted in the size, so it always makes the list invalid.
   */
  lemma {:induction false} ValidIffNoNullsAndDistinctKeys(l: seq<Option<RequestedFeedbackChannel>>)
    ensures IsValid(Some(l)) <==> NoNullsAndDistinctKeys(l)
    decreases |l|
  {
    if |l| > 0 {
      var t := l[1..];
      ValidIffNoNullsAndDistinctKeys(t);
      NoNullsAndDistinctKeysOfCons(l);
      if l[0].Some? && KeyOf(l[0].value) !in DistinctKeys(t) {
        assert DistinctKeys(l) == {KeyOf(l[0].value)} + DistinctKeys(t);
        assert |DistinctKeys(l)| == |DistinctKeys(t)| + 1;
      } else {
        assert DistinctKeys(l) == DistinctKeys(t);
      }
    }
  }

  /** The head is non-null with a key none of the tail has, and the tail has the property. */
  lemma NoNullsAndDistinctKeysOfCons(l: seq<Option<RequestedFeedbackChannel>>)
    requires |l| > 0
    ensures NoNullsAndDistinctKeys(l) <==>
      l[0].Some? && KeyOf(l[0].value) !in DistinctKeys(l[1..]) && NoNullsAndDistinctKeys(l[1..])
  {
    if NoNullsAndDistinctKeys(l) {
      TailKeepsDistinctKeys(l);
    }
    if l[0].Some? && KeyOf(l[0].value) !in DistinctKeys(l[1..]) && NoNullsAndDistinctKeys(l[1..]) {
      HeadKeyNotInTail(l[1..], KeyOf(l[0].value));
      assert forall k :: 0 < k < |l| ==> l[k] == l[1..][k - 1];
      ConsKeepsDistinctKeys(l);
    }
  }

  lemma TailKeepsDistinctKeys(l: seq<Option<RequestedFeedbackChannel>>)
    requires |l| > 0 && NoNullsAndDistinctKeys(l)
    ensures l[0].Some? && KeyOf(l[0].value) !in DistinctKeys(l[1..]) && NoNullsAndDistinctKeys(l[1..])
  {
    var t := l[1..];
    forall i | 0 <= i < |t| ensures t[i].Some? && KeyOf(t[i].value) != KeyOf(l[0].value) {
      assert t[i] == l[i + 1];
    }
    forall i, j | 0 <= i < j < |t| && t[i].Some? && t[j].Some?
      ensures KeyOf(t[i].value) != KeyOf(t[j].value)
    {
      assert t[i] == l[i + 1] && t[j] == l[j + 1];
    }
  }

  lemma ConsKeepsDistinctKeys(l: seq<Option<RequestedFeedbackChannel>>)
    requires |l| > 0
    requires l[0].Some? && NoNullsAndDistinctKeys(l[1..])
    requires forall k :: 0 < k < |l| && l[k].Some? ==> KeyOf(l[k].value) != KeyOf(l[0].value)
    ensures NoNullsAndDistinctKeys(l)
  {
    var t := l[1..];
    forall i | 0 <= i < |l| ensures l[i].Some? {
      if i > 0 { assert l[i] == t[i - 1]; }
    }
    forall i, j | 0 <= i < j < |l| && l[i].Some? && l[j].Some?
      ensures KeyOf(l[i].value) != KeyOf(l[j].value)
    {
      assert l[j] == t[j - 1];
      if i > 0 {
        assert l[i] == t[i - 1];
      }
    }
  }

  lemma HeadKeyNotInTail(t: seq<Option<RequestedFeedbackChannel>>, head: Key)
    requires head !in DistinctKeys(t)
    ensures forall k :: 0 <= k < |t| && t[k].Some? ==> KeyOf(t[k].value) != head
  {
  }

  /** Validity does not depend on the order of the elements. */
  lemma ValidityIgnoresOrder(a: seq<Option<RequestedFeedbackChannel>>, b: seq<Option<RequestedFeedbackChannel>>)
    requires multiset(a) == multiset(b)
    ensures IsValid(Some(a)) <==> IsValid(Some(b))
  {
    assert |a| == |multiset(a)| == |multiset(b)| == |b|;
    forall x | x in a ensures x in b {
      assert x in multiset(a);
    }
    forall x | x in b ensures x in a {
      assert x in multiset(b);
    }
    forall k | k in DistinctKeys(a) ensures k in DistinctKeys(b) {
      var i :| 0 <= i < |a| && a[i].Some? && KeyOf(a[i].value) == k;
      assert a[i] in b;
      var j :| 0 <= j < |b| && b[j] == a[i];
    }
    forall k | k in DistinctKeys(b) ensures k in DistinctKeys(a) {
      var j :| 0 <= j < |b| && b[j].Some? && KeyOf(b[j].value) == k;
      assert b[j] in a;
      var i :| 0 <= i < |a| && a[i] == b[j];
    }
    assert DistinctKeys(a) == DistinctKeys(b);
  }

  /** The flag takes no part in the comparison: two channels differing only in the flag clash. */
  lemma FlagIsNotCompared(m: ContactMethod, d: string, flag: bool)
    ensures !IsValid(Some([Some(RequestedFeedbackChannel(Some(m), Some(d), Some(flag))),
                           Some(RequestedFeedbackChannel(Some(m), Some(d), Some(!flag)))]))
  {
    var l := [Some(RequestedFeedbackChannel(Some(m), Some(d), Some(flag))),
              Some(RequestedFeedbackChannel(Some(m), Some(d), Some(!flag)))];
    ValidIffNoNullsAndDistinctKeys(l);
    assert KeyOf(l[0].value) == KeyOf(l[1].value);
  }

  /** The destination is compared exactly: two channels differing only in letter case do not clash. */
  lemma DestinationIsCaseSensitive(flag: bool)
    ensures IsValid(Some([Some(RequestedFeedbackChannel(Some(SMS), Some("A"), Some(flag))),
                          Some(RequestedFeedbackChannel(Some(SMS), Some("a"), Some(flag)))]))
  {
    var l := [Some(RequestedFeedbackChannel(Some(SMS), Some("A"), Some(flag))),
              Some(RequestedFeedbackChannel(Some(SMS), Some("a"), Some(flag)))];
    assert "A" != "a" by { assert "A"[0] != "a"[0]; }
    assert KeyOf(l[0].value) != KeyOf(l[1].value);
    ValidIffNoNullsAndDistinctKeys(l);
  }

  /** A null element always makes the list invalid. */
  lemma NullElementIsInvalid(ch: RequestedFeedbackChannel)
    ensures !IsValid(Some([Some(ch), None]))
  {
    ValidIffNoNullsAndDistinctKeys([Some(ch), None]);
  }
}
