/**
 * The stored form of a channel (`FeedbackChannelEmbeddable`). Its class is not part
 * of this model; its shape follows its bean test: a nullable contact method, a
 * nullable destination, and a primitive `sendFeedback` flag that defaults to false,
 * with field-wise equality (Dafny's `==` on the datatype).
 */
module Embeddables {
  import opened Wrappers
  import opened ContactMethods

  datatype FeedbackChannelEmbeddable = FeedbackChannelEmbeddable(
    contactMethod: Option<ContactMethod>,
    destination: Option<string>,
    sendFeedback: bool)

  /** `FeedbackChannelEmbeddable.create()`: every field null, the flag false. */
  const EmptyChannel := FeedbackChannelEmbeddable(None, None, false)
}

/**
 * The channel reconciler: which stored channels a patch removes and which
 * requested channels it adds (`MappingUtils.getRemovedFeedbackChannels`,
 * `getAddedFeedbackChannels` and their match relation `existsInList`).
 */
module MappingUtils {
  import opened Wrappers
  import opened Strings
  import opened ContactMethods
  import opened Embeddables

  type Channel = FeedbackChannelEmbeddable

  /**
   * The match of `existsInList`: destinations equal ignoring case (two nulls
   * match), the same contact method, and the same `sendFeedback` flag.
   */
  predicate Matches(a: Channel, b: Channel)
  {
    NullableEqualsIgnoreCase(a.destination, b.destination) &&
    a.contactMethod == b.contactMethod &&
    a.sendFeedback == b.sendFeedback
  }

  lemma MatchesIsEquivalence(a: Channel, b: Channel, c: Channel)
    ensures Matches(a, a)
    ensures Matches(a, b) ==> Matches(b, a)
    ensures Matches(a, b) && Matches(b, c) ==> Matches(a, c)
  {
    if a.destination.Some? {
      EqualsIgnoreCaseIsEquivalence(a.destination.value, a.destination.value, a.destination.value);
    }
    if Matches(a, b) && a.destination.Some? {
      EqualsIgnoreCaseIsEquivalence(a.destination.value, b.destination.value, a.destination.value);
      if Matches(b, c) {
        EqualsIgnoreCaseIsEquivalence(a.destination.value, b.destination.value, c.destination.value);
      }
    }
  }

  /** `existsInList`: some element of the list (null read as empty) matches `x` (`anyMatch`). */
  function ExistsInList(x: Channel, list: Option<seq<Channel>>): (b: bool)
    ensures b <==> exists e :: e in list.GetOr([]) && Matches(e, x)
    decreases |list.GetOr([])|
  {
    match list
    case None => false
    case Some(l) =>
      if |l| == 0 then false
      else Matches(l[0], x) || ExistsInList(x, Some(l[1..]))
  }

  /** `a` is `b` with some elements left out, the rest in their original order. */
  predicate IsSubsequence<T(==)>(a: seq<T>, b: seq<T>)
    decreases |b|
  {
    |a| == 0 || (|b| > 0 && ((a[0] == b[0] && IsSubsequence(a[1..], b[1..])) || IsSubsequence(a, b[1..])))
  }

  /** The elements of `xs` with no match in `against`, in order (`filter(e -> !existsInList(e, against))`). */
  function Unmatched(xs: seq<Channel>, against: seq<Channel>): (r: seq<Channel>)
    ensures IsSubsequence(r, xs)
    ensures forall x :: multiset(r)[x] == if ExistsInList(x, Some(against)) then 0 else multiset(xs)[x]
  {
    if |xs| == 0 then []
    else
      assert xs == [xs[0]] + xs[1..];
      var rest := Unmatched(xs[1..], against);
      if ExistsInList(xs[0], Some(against)) then rest else [xs[0]] + rest
  }

  /** The elements of `xs` that do have a match in `against`, in order: what a merge keeps. */
  function Matched(xs: seq<Channel>, against: seq<Channel>): (r: seq<Channel>)
    ensures IsSubsequence(r, xs)
    ensures forall x :: multiset(r)[x] == if ExistsInList(x, Some(against)) then multiset(xs)[x] else 0
  {
    if |xs| == 0 then []
    else
      assert xs == [xs[0]] + xs[1..];
      var rest := Matched(xs[1..], against);
      if ExistsInList(xs[0], Some(against)) then [xs[0]] + rest else rest
  }

  /**
   * `getRemovedFeedbackChannels(entity, requested)` where `current` is the
   * entity's channel list: nothing when the request is null, otherwise the
   * current channels (null read as empty) that no requested channel matches.
   */
  function Removed(current: Option<seq<Channel>>, requested: Option<seq<Channel>>): (r: seq<Channel>)
    ensures requested.None? ==> r == []
    ensures IsSubsequence(r, current.GetOr([]))
    ensures requested.Some? ==> forall x :: x in r <==> x in current.GetOr([]) && !ExistsInList(x, requested)
    ensures requested.Some? ==> forall x ::
      multiset(r)[x] == if ExistsInList(x, requested) then 0 else multiset(current.GetOr([]))[x]
  {
    match requested
    case None => []
    case Some(req) => Unmatched(current.GetOr([]), req)
  }

  /**
   * `getAddedFeedbackChannels(entity, requested)` where `current` is the
   * entity's channel list (a null entity reads like a null list): the whole
   * request (null read as empty) when there is no current list, nothing when
   * the request is null, otherwise the requested channels that match no current one.
   */
  function Added(current: Option<seq<Channel>>, requested: Option<seq<Channel>>): (r: seq<Channel>)
    ensures current.None? ==> r == requested.GetOr([])
    ensures current.Some? && requested.None? ==> r == []
    ensures IsSubsequence(r, requested.GetOr([]))
    ensures current.Some? && requested.Some? ==> forall x ::
      x in r <==> x in requested.value && !ExistsInList(x, current)
    ensures current.Some? && requested.Some? ==> forall x ::
      multiset(r)[x] == if ExistsInList(x, current) then 0 else multiset(requested.value)[x]
  {
    if current.None? then
      SubsequenceReflexive(requested.GetOr([]));
      requested.GetOr([])
    else if requested.None? then []
    else Unmatched(requested.value, current.value)
  }

  lemma {:induction false} SubsequenceReflexive<T>(s: seq<T>)
    ensures IsSubsequence(s, s)
    decreases |s|
  {
    if |s| > 0 { SubsequenceReflexive(s[1..]); }
  }

  // ---------------------------------------------------------------------------
  // Properties of the reconciliation

  /**
   * A requested channel that differs from a stored one only in the letter case
   * of its destination is neither added nor removed.
   */
  lemma CaseOnlyDifferenceIsNoChange(current: seq<Channel>, requested: seq<Channel>, stored: Channel, d: string)
    requires stored in current && stored.destination.Some?
    requires EqualsIgnoreCase(stored.destination.value, d)
    requires stored.(destination := Some(d)) in requested
    ensures stored.(destination := Some(d)) !in Added(Some(current), Some(requested))
    ensures stored !in Removed(Some(current), Some(requested))
  {
    var asked := stored.(destination := Some(d));
    EqualsIgnoreCaseIsEquivalence(stored.destination.value, d, d);
    assert Matches(stored, asked) && Matches(asked, stored);
  }

  /**
   * The source keeps `sendFeedback` in the match, so flipping only the flag of a
   * stored channel removes the stored one and adds the requested one.
   */
  lemma FlagChangeIsRemoveAndAdd(stored: Channel)
    ensures Removed(Some([stored]), Some([stored.(sendFeedback := !stored.sendFeedback)])) == [stored]
    ensures Added(Some([stored]), Some([stored.(sendFeedback := !stored.sendFeedback)])) ==
            [stored.(sendFeedback := !stored.sendFeedback)]
  {
    var asked := stored.(sendFeedback := !stored.sendFeedback);
    assert !Matches(asked, stored) && !Matches(stored, asked);
    assert !ExistsInList(stored, Some([asked]));
    assert !ExistsInList(asked, Some([stored]));
  }

  /** When every current channel has a match in the request and vice versa, there is nothing to add or remove. */
  lemma MutualMatchMeansNoDelta(current: seq<Channel>, requested: seq<Channel>)
    requires forall x :: x in current ==> ExistsInList(x, Some(requested))
    requires forall y :: y in requested ==> ExistsInList(y, Some(current))
    ensures Added(Some(current), Some(requested)) == []
    ensures Removed(Some(current), Some(requested)) == []
  {
  }

  /** An empty (non-null) request removes every current channel and adds none. */
  lemma EmptyRequestRemovesAll(current: seq<Channel>)
    ensures Removed(Some(current), Some([])) == current
    ensures Added(Some(current), Some([])) == []
  {
    var r := Removed(Some(current), Some([]));
    assert multiset(r) == multiset(current);
    SubsequenceOfSameSize(r, current);
  }

  /** A subsequence with as many elements as the whole is the whole. */
  lemma {:induction false} SubsequenceOfSameSize<T>(a: seq<T>, b: seq<T>)
    requires IsSubsequence(a, b) && |a| == |b|
    ensures a == b
    decreases |b|
  {
    if |a| > 0 {
      if !(a[0] == b[0] && IsSubsequence(a[1..], b[1..])) {
        assert IsSubsequence(a, b[1..]);
        SubsequenceNotLonger(a, b[1..]);
      }
      SubsequenceOfSameSize(a[1..], b[1..]);
      assert a == [a[0]] + a[1..] && b == [b[0]] + b[1..];
    }
  }

  lemma {:induction false} SubsequenceNotLonger<T>(a: seq<T>, b: seq<T>)
    requires IsSubsequence(a, b)
    ensures |a| <= |b|
    decreases |b|
  {
    if |a| > 0 {
      if a[0] == b[0] && IsSubsequence(a[1..], b[1..]) {
        SubsequenceNotLonger(a[1..], b[1..]);
      } else {
        SubsequenceNotLonger(a, b[1..]);
      }
    }
  }
}
