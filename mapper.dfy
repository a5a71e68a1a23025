/**
 * `FeedbackSettingsMapper`: request to entity, entity to view, and the in-place
 * merge of a patch into a stored entity's channel list.
 */
module Mapper {
  import opened Wrappers
  import opened Sequences
  import opened Strings
  import opened ContactMethods
  import opened Embeddables
  import opened MappingUtils
  import opened Entity
  import opened RequestedChannels
  import opened CreateRequests
  import opened UpdateRequests
  import UniqueChannels

  /** The channel as the API returns it (`FeedbackChannel`). */
  datatype FeedbackChannel = FeedbackChannel(
    contactMethod: Option<ContactMethod>, destination: Option<string>, sendFeedback: bool)

  /** The settings as the API returns them (`FeedbackSettings`). */
  datatype FeedbackSettings = FeedbackSettings(
    id: Option<string>, personId: Option<string>, organizationId: Option<string>,
    channels: seq<FeedbackChannel>, created: Option<int>, modified: Option<int>)

  // ---------------------------------------------------------------------------
  // Request channels to stored channels

  /** The non-null elements, in order (`filter(Objects::nonNull)`). */
  function NonNulls(l: seq<Option<RequestedFeedbackChannel>>): (r: seq<RequestedFeedbackChannel>)
    ensures |r| <= |l|
    ensures forall x :: x in r <==> Some(x) in l
    ensures (forall i :: 0 <= i < |l| ==> l[i].Some?) ==> |r| == |l| && forall i :: 0 <= i < |l| ==> r[i] == l[i].value
  {
    if |l| == 0 then []
    else
      var rest := NonNulls(l[1..]);
      assert forall x :: Some(x) in l[1..] ==> Some(x) in l;
      assert forall x :: Some(x) in l ==> Some(x) == l[0] || Some(x) in l[1..];
      if l[0].Some? then [l[0].value] + rest else rest
  }

  /**
   * Every non-null channel carries a `sendFeedback`: the mapper unboxes it into
   * a primitive, which fails on null.
   */
  predicate Unboxable(channels: Option<seq<Option<RequestedFeedbackChannel>>>)
  {
    forall ch :: ch in NonNulls(channels.GetOr([])) ==> ch.sendFeedback.Some?
  }

  function ToEmbeddable(ch: RequestedFeedbackChannel): (e: FeedbackChannelEmbeddable)
    requires ch.sendFeedback.Some?
    ensures e.contactMethod == ch.contactMethod && e.destination == ch.destination
    ensures e.sendFeedback == ch.sendFeedback.value
  {
    FeedbackChannelEmbeddable(ch.contactMethod, ch.destination, ch.sendFeedback.value)
  }

  function ToEmbeddablesOf(l: seq<RequestedFeedbackChannel>): (r: seq<FeedbackChannelEmbeddable>)
    requires forall ch :: ch in l ==> ch.sendFeedback.Some?
    ensures |r| == |l| && forall i :: 0 <= i < |l| ==> r[i] == ToEmbeddable(l[i])
  {
    if |l| == 0 then [] else [ToEmbeddable(l[0])] + ToEmbeddablesOf(l[1..])
  }

  /**
   * `toFeedbackChannelEmbeddables`: the non-null requested channels, in order,
   * each copied field by field; a null list gives an empty one.
   */
  function ToFeedbackChannelEmbeddables(channels: Option<seq<Option<RequestedFeedbackChannel>>>)
    : (r: seq<FeedbackChannelEmbeddable>)
    requires Unboxable(channels)
    ensures channels.None? ==> r == []
    ensures |r| == |NonNulls(channels.GetOr([]))|
    ensures forall i :: 0 <= i < |r| ==> r[i] == ToEmbeddable(NonNulls(channels.GetOr([]))[i])
  {
    ToEmbeddablesOf(NonNulls(channels.GetOr([])))
  }

  /** A request that passes validation can be mapped: every channel has its flag. */
  lemma ValidCreateIsUnboxable(body: CreateFeedbackSettingsRequest, at: Violations.PropertyPath,
                               isUuid: string -> bool, isEmail: string -> bool)
    requires ValidateCreate(Some(body), at, isUuid, isEmail) == {}
    ensures Unboxable(body.channels)
  {
    ValidChannelsAreUnboxable(body.channels, at + [Violations.Named("body")], isEmail);
  }

  lemma ValidUpdateIsUnboxable(body: UpdateFeedbackSettingsRequest, at: Violations.PropertyPath, isEmail: string -> bool)
    requires ValidateUpdate(Some(body), at, isEmail) == {}
    ensures Unboxable(body.channels)
  {
    ValidChannelsAreUnboxable(body.channels, at + [Violations.Named("body")], isEmail);
  }

  lemma ValidChannelsAreUnboxable(channels: Option<seq<Option<RequestedFeedbackChannel>>>, at: Violations.PropertyPath,
                                  isEmail: string -> bool)
    requires ChannelListViolations(channels, at, isEmail) == {}
    ensures Unboxable(channels)
  {
    var l := channels.GetOr([]);
    forall i | 0 <= i < |l| && l[i].Some? ensures l[i].value.sendFeedback.Some? {
      NullFlagIsReported(channels, at, isEmail, i);
    }
    forall ch | ch in NonNulls(l) ensures ch.sendFeedback.Some? {
      assert Some(ch) in l;
    }
  }

  /** A non-null channel without `sendFeedback` is reported by the list's validation. */
  lemma NullFlagIsReported(channels: Option<seq<Option<RequestedFeedbackChannel>>>, at: Violations.PropertyPath,
                           isEmail: string -> bool, i: nat)
    requires i < |channels.GetOr([])| && channels.GetOr([])[i].Some?
    ensures channels.GetOr([])[i].value.sendFeedback.None? ==> ChannelListViolations(channels, at, isEmail) != {}
  {
    var l := channels.GetOr([]);
    var ch := l[i].value;
    if ch.sendFeedback.None? {
      var v := Violations.ConstraintViolation(Some(ElementPath(at, i) + [Violations.Named("sendFeedback")]), NotNullMessage);
      assert v in ValidateChannel(ch, ElementPath(at, i), isEmail);
      assert ViolatesElement(v, l, at, isEmail, 0);
      assert v in ChannelListViolations(channels, at, isEmail);
    }
  }

  /**
   * A channel list that passes the uniqueness check keeps its
   * (contactMethod, destination) pairs distinct once stored, so a created
   * entity meets the channel table's unique constraint.
   */
  lemma UniqueRequestIsStorable(channels: Option<seq<Option<RequestedFeedbackChannel>>>)
    requires Unboxable(channels)
    requires UniqueChannels.IsValid(channels)
    ensures UniqueChannelKeys(ToFeedbackChannelEmbeddables(channels))
  {
    var l := channels.GetOr([]);
    UniqueChannels.ValidIffNoNullsAndDistinctKeys(l);
    var r := ToFeedbackChannelEmbeddables(channels);
    forall i, j | 0 <= i < j < |r|
      ensures !KeysCollide(r[i], r[j])
    {
      assert UniqueChannels.KeyOf(l[i].value) != UniqueChannels.KeyOf(l[j].value);
    }
  }

  // ---------------------------------------------------------------------------
  // Entity construction and views

  /**
   * `toFeedbackSettingsEntity`: null for a null request; otherwise a new
   * entity holding the request's ids and mapped channels, with no id and no
   * timestamps yet.
   */
  method ToFeedbackSettingsEntity(body: Option<CreateFeedbackSettingsRequest>) returns (e: FeedbackSettingsEntity?)
    requires body.Some? ==> Unboxable(body.value.channels)
    ensures body.None? <==> e == null
    ensures e != null ==> fresh(e) && e.State() == EntityState(
      None, body.value.personId, body.value.organizationId,
      Some(ToFeedbackChannelEmbeddables(body.value.channels)), None, None)
  {
    if body.None? {
      return null;
    }
    var req := body.value;
    e := new FeedbackSettingsEntity.Create();
    var _ := e.WithPersonId(req.personId);
    var _ := e.WithOrganizationId(req.organizationId);
    var _ := e.WithFeedbackChannels(Some(ToFeedbackChannelEmbeddables(req.channels)));
  }

  function ToFeedbackChannel(e: FeedbackChannelEmbeddable): (c: FeedbackChannel)
    ensures c.contactMethod == e.contactMethod && c.destination == e.destination && c.sendFeedback == e.sendFeedback
  {
    FeedbackChannel(e.contactMethod, e.destination, e.sendFeedback)
  }

  /** `toFeedbackChannels`: each stored channel as a view channel, in order; null gives empty. */
  function ToFeedbackChannels(cs: Option<seq<FeedbackChannelEmbeddable>>): (r: seq<FeedbackChannel>)
    ensures cs.None? ==> r == []
    ensures |r| == |cs.GetOr([])|
    ensures forall i :: 0 <= i < |r| ==> r[i] == ToFeedbackChannel(cs.value[i])
  {
    MapSeq(ToFeedbackChannel, cs.GetOr([]))
  }

  /** `toFeedbackSettings(entity)` on the entity's field values; null maps to null. */
  function ToFeedbackSettings(s: Option<EntityState>): (r: Option<FeedbackSettings>)
    ensures s.None? <==> r.None?
    ensures s.Some? ==> (
      r.value.id == s.value.id && r.value.personId == s.value.personId &&
      r.value.organizationId == s.value.organizationId &&
      r.value.created == s.value.created && r.value.modified == s.value.modified &&
      r.value.channels == ToFeedbackChannels(s.value.feedbackChannels))
  {
    match s
    case None => None
    case Some(e) =>
      Some(FeedbackSettings(e.id, e.personId, e.organizationId, ToFeedbackChannels(e.feedbackChannels),
                            e.created, e.modified))
  }

  function ViewOf(s: EntityState): FeedbackSettings
  {
    ToFeedbackSettings(Some(s)).value
  }

  /** `toFeedbackSettings(list)`: one view per entity in the same order; null gives empty. */
  function ToFeedbackSettingsList(entities: Option<seq<EntityState>>): (r: seq<FeedbackSettings>)
    ensures entities.None? ==> r == []
    ensures |r| == |entities.GetOr([])|
    ensures forall i :: 0 <= i < |r| ==> Some(r[i]) == ToFeedbackSettings(Some(entities.value[i]))
  {
    MapSeq(ViewOf, entities.GetOr([]))
  }

  /** A view shows exactly the stored channels: mapping back gives them again. */
  lemma ViewChannelsRoundTrip(cs: seq<FeedbackChannelEmbeddable>)
    ensures var v := ToFeedbackChannels(Some(cs));
      |v| == |cs| && forall i :: 0 <= i < |cs| ==>
        FeedbackChannelEmbeddable(v[i].contactMethod, v[i].destination, v[i].sendFeedback) == cs[i]
  {
  }

  // ---------------------------------------------------------------------------
  // Merge

  /** `xs.removeAll(ys)`: drops every element equal to some element of `ys`, keeping the order. */
  function RemoveAll(xs: seq<Channel>, ys: seq<Channel>): (r: seq<Channel>)
    ensures IsSubsequence(r, xs)
    ensures forall x :: x in r <==> x in xs && x !in ys
    ensures forall x :: multiset(r)[x] == if x in ys then 0 else multiset(xs)[x]
  {
    if |xs| == 0 then []
    else
      var rest := RemoveAll(xs[1..], ys);
      assert xs == [xs[0]] + xs[1..];
      assert multiset(xs) == multiset([xs[0]]) + multiset(xs[1..]);
      assert forall x :: x in xs <==> x == xs[0] || x in xs[1..];
      if xs[0] in ys then rest else [xs[0]] + rest
  }

  /**
   * The channel list after a merge, computed as the code does: the added
   * channels are found against the current list and appended, then the
   * removed ones are found against that longer list and removed by equality.
   */
  function Merged(current: seq<Channel>, requested: seq<Channel>): seq<Channel>
  {
    var added := Added(Some(current), Some(requested));
    RemoveAll(current + added, Removed(Some(current + added), Some(requested)))
  }

  lemma {:induction false} RemoveAllOfConcat(a: seq<Channel>, b: seq<Channel>, ys: seq<Channel>)
    ensures RemoveAll(a + b, ys) == RemoveAll(a, ys) + RemoveAll(b, ys)
    decreases |a|
  {
    if |a| == 0 {
      assert a + b == b;
    } else {
      assert (a + b)[1..] == a[1..] + b;
      RemoveAllOfConcat(a[1..], b, ys);
    }
  }

  /** Removing exactly the elements that have no match keeps exactly those that do. */
  lemma {:induction false} RemoveAllIsMatched(xs: seq<Channel>, ys: seq<Channel>, requested: seq<Channel>)
    requires forall x :: x in xs ==> (x in ys <==> !ExistsInList(x, Some(requested)))
    ensures RemoveAll(xs, ys) == Matched(xs, requested)
    decreases |xs|
  {
    if |xs| > 0 {
      RemoveAllIsMatched(xs[1..], ys, requested);
    }
  }

  lemma {:induction false} RemoveAllOfDisjoint(xs: seq<Channel>, ys: seq<Channel>)
    requires forall x :: x in xs ==> x !in ys
    ensures RemoveAll(xs, ys) == xs
    decreases |xs|
  {
    if |xs| > 0 {
      assert xs == [xs[0]] + xs[1..];
      assert xs[0] !in ys;
      RemoveAllOfDisjoint(xs[1..], ys);
      assert RemoveAll(xs, ys) == [xs[0]] + RemoveAll(xs[1..], ys);
    }
  }

  lemma SubsequenceMembers<T>(a: seq<T>, b: seq<T>, x: T)
    requires IsSubsequence(a, b) && x in a
    ensures x in b
    decreases |b|
  {
    if a[0] == b[0] && IsSubsequence(a[1..], b[1..]) {
      if x != a[0] {
        SubsequenceMembers(a[1..], b[1..], x);
      }
    } else {
      SubsequenceMembers(a, b[1..], x);
    }
  }

  /**
   * The merged list is the current list with its unmatched channels dropped,
   * in original order, followed by the added channels in request order: an
   * appended channel is never removed again, because it matches itself.
   */
  lemma MergedIsKeptThenAdded(current: seq<Channel>, requested: seq<Channel>)
    ensures Merged(current, requested) == Matched(current, requested) + Added(Some(current), Some(requested))
  {
    var added := Added(Some(current), Some(requested));
    var removed := Removed(Some(current + added), Some(requested));
    RemoveAllOfConcat(current, added, removed);
    forall x | x in current ensures x in removed <==> !ExistsInList(x, Some(requested)) {
      assert x in current + added;
    }
    RemoveAllIsMatched(current, removed, requested);
    forall x | x in added ensures x !in removed {
      SubsequenceMembers(added, requested, x);
      MatchesIsEquivalence(x, x, x);
    }
    RemoveAllOfDisjoint(added, removed);
  }

  /**
   * `mergeFeedbackSettings` on a stored entity. A null request, or one without
   * channels, changes nothing. Otherwise the entity's list becomes `Merged`,
   * and `modified` is stamped with `now` exactly when the list differs from the
   * one before. When the entity has no channel list the copy taken before the
   * merge fails: `ok` is false and nothing changes.
   */
  method MergeFeedbackSettings(entity: FeedbackSettingsEntity, body: Option<UpdateFeedbackSettingsRequest>, now: int)
    returns (ok: bool)
    requires body.Some? ==> Unboxable(body.value.channels)
    modifies entity
    ensures var before := old(entity.State());
      if body.None? || body.value.channels.None? then ok && entity.State() == before
      else if before.feedbackChannels.None? then !ok && entity.State() == before
      else
        var merged := Merged(before.feedbackChannels.value, ToFeedbackChannelEmbeddables(body.value.channels));
        ok && entity.State() == before.(
          feedbackChannels := Some(merged),
          modified := if merged != before.feedbackChannels.value then Some(TruncateToMillis(now)) else before.modified)
  {
    if body.None? || body.value.channels.None? {
      return true;
    }
    var requested := ToFeedbackChannelEmbeddables(body.value.channels);
    if entity.feedbackChannels.None? {
      return false;
    }
    ghost var before := entity.State();
    var snapshot := entity.feedbackChannels.value;
    var added := Added(entity.feedbackChannels, Some(requested));
    entity.feedbackChannels := Some(entity.feedbackChannels.value + added);
    var removed := Removed(entity.feedbackChannels, Some(requested));
    entity.feedbackChannels := Some(RemoveAll(entity.feedbackChannels.value, removed));
    assert entity.State() == before.(feedbackChannels := Some(Merged(snapshot, requested)));
    if snapshot != entity.feedbackChannels.value {
      entity.PreUpdate(now);
    }
    ok := true;
  }

  // ---------------------------------------------------------------------------
  // Properties of the merge

  /**
   * A request equivalent to the current list (every channel on either side
   * has a match on the other) leaves the list as it was, so `modified` is not
   * touched.
   */
  lemma EquivalentRequestChangesNothing(current: seq<Channel>, requested: seq<Channel>)
    requires forall x :: x in current ==> ExistsInList(x, Some(requested))
    requires forall y :: y in requested ==> ExistsInList(y, Some(current))
    ensures Merged(current, requested) == current
  {
    MergedIsKeptThenAdded(current, requested);
    MutualMatchMeansNoDelta(current, requested);
    MatchedAll(current, requested);
  }

  lemma {:induction false} MatchedAll(xs: seq<Channel>, requested: seq<Channel>)
    requires forall x :: x in xs ==> ExistsInList(x, Some(requested))
    ensures Matched(xs, requested) == xs
    decreases |xs|
  {
    if |xs| > 0 {
      MatchedAll(xs[1..], requested);
      assert xs == [xs[0]] + xs[1..];
    }
  }

  /** A merge keeps nothing that was not either stored before or requested. */
  lemma MergedComesFromEitherSide(current: seq<Channel>, requested: seq<Channel>, x: Channel)
    requires x in Merged(current, requested)
    ensures x in current || x in requested
  {
    MergedIsKeptThenAdded(current, requested);
    if x in Matched(current, requested) {
      SubsequenceMembers(Matched(current, requested), current, x);
    } else {
      SubsequenceMembers(Added(Some(current), Some(requested)), requested, x);
    }
  }

  /** Every requested channel is represented in the merged list by a matching channel. */
  lemma RequestedIsRepresented(current: seq<Channel>, requested: seq<Channel>, y: Channel)
    requires y in requested
    ensures exists x :: x in Merged(current, requested) && Matches(x, y)
  {
    MergedIsKeptThenAdded(current, requested);
    MatchesIsEquivalence(y, y, y);
    if ExistsInList(y, Some(current)) {
      var x :| x in current && Matches(x, y);
      MatchesIsEquivalence(x, y, x);
      assert ExistsInList(x, Some(requested));
      assert x in Matched(current, requested);
      assert x in Merged(current, requested);
    } else {
      assert y in Added(Some(current), Some(requested));
      assert y in Merged(current, requested);
    }
  }

  // ---------------------------------------------------------------------------
  // The merge and the channel table's unique constraint

  /** No two channels share a contact method with destinations equal ignoring case. */
  predicate KeysDistinctIgnoringCase(cs: seq<Channel>)
  {
    forall i, j :: 0 <= i < j < |cs| ==>
      !(cs[i].contactMethod == cs[j].contactMethod && NullableEqualsIgnoreCase(cs[i].destination, cs[j].destination))
  }

  lemma {:induction false} SubsequenceKeepsUniqueKeys(a: seq<Channel>, b: seq<Channel>)
    requires IsSubsequence(a, b) && UniqueChannelKeys(b)
    ensures UniqueChannelKeys(a)
    decreases |b|
  {
    if |a| > 0 {
      assert UniqueChannelKeys(b[1..]) by {
        forall i, j | 0 <= i < j < |b[1..]|
          ensures !KeysCollide(b[1..][i], b[1..][j])
        {
          assert b[1..][i] == b[i + 1] && b[1..][j] == b[j + 1];
        }
      }
      if a[0] == b[0] && IsSubsequence(a[1..], b[1..]) {
        SubsequenceKeepsUniqueKeys(a[1..], b[1..]);
        forall j | 0 < j < |a| ensures !KeysCollide(a[0], a[j]) {
          assert a[j] == a[1..][j - 1];
          SubsequenceMembers(a[1..], b[1..], a[j]);
          var k :| 0 <= k < |b[1..]| && b[1..][k] == a[j];
          assert b[k + 1] == a[j];
        }
        forall i, j | 0 <= i < j < |a|
          ensures !KeysCollide(a[i], a[j])
        {
          if i > 0 {
            assert a[i] == a[1..][i - 1] && a[j] == a[1..][j - 1];
          }
        }
      } else {
        SubsequenceKeepsUniqueKeys(a, b[1..]);
      }
    }
  }

  /** A matched stored channel and an added requested channel never share a key. */
  lemma KeptAndAddedKeysDiffer(current: seq<Channel>, requested: seq<Channel>, x: Channel, y: Channel)
    requires KeysDistinctIgnoringCase(requested)
    requires x in Matched(current, requested) && y in Added(Some(current), Some(requested))
    ensures (x.contactMethod, x.destination) != (y.contactMethod, y.destination)
  {
    var m := Matched(current, requested);
    SubsequenceMembers(m, current, x);
    assert multiset(m)[x] > 0;
    assert y in requested && !ExistsInList(y, Some(current));
    if (x.contactMethod, x.destination) == (y.contactMethod, y.destination) {
      var r :| r in requested && Matches(r, x);
      MatchesIsEquivalence(r, x, r);
    }
  }

  /**
   * A merge keeps the channel table's unique constraint when the stored list
   * satisfies it and no two requested channels could be told apart only by
   * the letter case of their destinations.
   */
  lemma MergeKeepsChannelKeysUnique(current: seq<Channel>, requested: seq<Channel>)
    requires UniqueChannelKeys(current)
    requires KeysDistinctIgnoringCase(requested)
    ensures UniqueChannelKeys(Merged(current, requested))
  {
    MergedIsKeptThenAdded(current, requested);
    var m := Matched(current, requested);
    var a := Added(Some(current), Some(requested));
    SubsequenceKeepsUniqueKeys(m, current);
    DistinctIgnoringCaseIsUnique(requested);
    SubsequenceKeepsUniqueKeys(a, requested);
    KeptThenAddedIsUnique(current, requested, m, a);
  }

  /** Keys that differ even ignoring case differ outright. */
  lemma DistinctIgnoringCaseIsUnique(cs: seq<Channel>)
    requires KeysDistinctIgnoringCase(cs)
    ensures UniqueChannelKeys(cs)
  {
    forall i, j | 0 <= i < j < |cs|
      ensures !KeysCollide(cs[i], cs[j])
    {
      if cs[i].destination.Some? {
        EqualsIgnoreCaseIsEquivalence(cs[i].destination.value, cs[i].destination.value, cs[i].destination.value);
      }
    }
  }

  lemma KeptThenAddedIsUnique(current: seq<Channel>, requested: seq<Channel>, m: seq<Channel>, a: seq<Channel>)
    requires KeysDistinctIgnoringCase(requested)
    requires m == Matched(current, requested) && a == Added(Some(current), Some(requested))
    requires UniqueChannelKeys(m) && UniqueChannelKeys(a)
    ensures UniqueChannelKeys(m + a)
  {
    var merged := m + a;
    forall i, j | 0 <= i < j < |merged|
      ensures !KeysCollide(merged[i], merged[j])
    {
      if j < |m| {
        assert merged[i] == m[i] && merged[j] == m[j];
      } else if i >= |m| {
        assert merged[i] == a[i - |m|] && merged[j] == a[j - |m|];
      } else {
        assert merged[i] == m[i] && merged[j] == a[j - |m|];
        KeptAndAddedKeysDiffer(current, requested, m[i], a[j - |m|]);
      }
    }
  }

  /**
   * A stored list and a patch that together show the mismatch described
   * below: `d` and `variant` are two spellings of one e-mail address that
   * differ only in letter case.
   */
  function ClashStored(d: string): seq<Channel>
  {
    [FeedbackChannelEmbeddable(Some(EMAIL), Some(d), true)]
  }

  function ClashPatch(d: string, variant: string): UpdateFeedbackSettingsRequest
  {
    UpdateFeedbackSettingsRequest(Some([
      Some(RequestedFeedbackChannel(Some(EMAIL), Some(variant), Some(true))),
      Some(RequestedFeedbackChannel(Some(EMAIL), Some(d), Some(false)))]))
  }

  /** Such spellings exist. */
  lemma CaseVariantsExist()
    ensures "a@x.se" != "A@x.se" && EqualsIgnoreCase("a@x.se", "A@x.se")
  {
    assert "a@x.se"[0] != "A@x.se"[0];
  }

  /**
   * The uniqueness check on a patch compares destinations exactly and ignores
   * the flag, while the merge matches destinations ignoring case and includes
   * the flag. So a patch that passes validation can, merged into a stored list
   * that satisfies the channel table's unique constraint, give a list that
   * breaks it.
   */
  lemma ValidPatchCanBreakChannelUniqueness(d: string, variant: string, at: Violations.PropertyPath,
                                            isEmail: string -> bool)
    requires d != variant && EqualsIgnoreCase(d, variant)
    requires isEmail(d) && isEmail(variant)
    ensures UniqueChannelKeys(ClashStored(d))
    ensures ValidateUpdate(Some(ClashPatch(d, variant)), at, isEmail) == {}
    ensures Unboxable(ClashPatch(d, variant).channels)
    ensures !UniqueChannelKeys(Merged(ClashStored(d), ToFeedbackChannelEmbeddables(ClashPatch(d, variant).channels)))
  {
    ClashPatchIsValid(d, variant, at, isEmail);
    ValidUpdateIsUnboxable(ClashPatch(d, variant), at, isEmail);
    ClashMerge(d, variant);
    var merged := Merged(ClashStored(d), ToFeedbackChannelEmbeddables(ClashPatch(d, variant).channels));
    assert KeysCollide(merged[0], merged[1]);
  }

  lemma ClashPatchIsValid(d: string, variant: string, at: Violations.PropertyPath, isEmail: string -> bool)
    requires d != variant
    requires isEmail(d) && isEmail(variant)
    ensures ValidateUpdate(Some(ClashPatch(d, variant)), at, isEmail) == {}
  {
    var l := ClashPatch(d, variant).channels.value;
    var b := at + [Violations.Named("body")];
    ClashPatchIsUnique(d, variant);
    ClashPatchElementsAreValid(d, variant, b, isEmail);
    assert ValidateUpdate(Some(ClashPatch(d, variant)), at, isEmail) == ChannelListViolations(Some(l), b, isEmail);
  }

  lemma ClashPatchIsUnique(d: string, variant: string)
    requires d != variant
    ensures UniqueChannels.IsValid(ClashPatch(d, variant).channels)
  {
    var l := ClashPatch(d, variant).channels.value;
    UniqueChannels.ValidIffNoNullsAndDistinctKeys(l);
    assert UniqueChannels.KeyOf(l[0].value) != UniqueChannels.KeyOf(l[1].value);
  }

  lemma ClashPatchElementsAreValid(d: string, variant: string, b: Violations.PropertyPath, isEmail: string -> bool)
    requires isEmail(d) && isEmail(variant)
    ensures ElementViolations(ClashPatch(d, variant).channels.value, b, isEmail, 0) == {}
  {
    var l := ClashPatch(d, variant).channels.value;
    assert ValidateChannel(l[0].value, ElementPath(b, 0), isEmail) == {};
    assert ValidateChannel(l[1].value, ElementPath(b, 1), isEmail) == {};
    assert ElementViolations(l, b, isEmail, 2) == {};
  }

  lemma ClashMerge(d: string, variant: string)
    requires d != variant && EqualsIgnoreCase(d, variant)
    ensures Unboxable(ClashPatch(d, variant).channels)
    ensures Merged(ClashStored(d), ToFeedbackChannelEmbeddables(ClashPatch(d, variant).channels)) ==
            ClashStored(d) + [FeedbackChannelEmbeddable(Some(EMAIL), Some(d), false)]
  {
    var e1 := FeedbackChannelEmbeddable(Some(EMAIL), Some(variant), true);
    var e2 := FeedbackChannelEmbeddable(Some(EMAIL), Some(d), false);
    ClashRequested(d, variant);
    ClashMatches(d, variant, ClashStored(d)[0], e1, e2);
    MergedIsKeptThenAdded(ClashStored(d), [e1, e2]);
    MatchedOfOne(ClashStored(d)[0], [e1, e2]);
    UnmatchedOfTwo(e1, e2, ClashStored(d));
  }

  lemma MatchedOfOne(x: Channel, against: seq<Channel>)
    requires ExistsInList(x, Some(against))
    ensures Matched([x], against) == [x]
  {
    assert [x][1..] == [];
  }

  lemma UnmatchedOfTwo(x: Channel, y: Channel, against: seq<Channel>)
    requires ExistsInList(x, Some(against)) && !ExistsInList(y, Some(against))
    ensures Unmatched([x, y], against) == [y]
  {
    assert [x, y][1..] == [y] && [y][1..] == [];
  }

  lemma ClashRequested(d: string, variant: string)
    ensures Unboxable(ClashPatch(d, variant).channels)
    ensures ToFeedbackChannelEmbeddables(ClashPatch(d, variant).channels) ==
            [FeedbackChannelEmbeddable(Some(EMAIL), Some(variant), true), FeedbackChannelEmbeddable(Some(EMAIL), Some(d), false)]
  {
    var l := ClashPatch(d, variant).channels.value;
    assert NonNulls(l) == [l[0].value, l[1].value];
  }

  /** The stored channel matches the case variant with its flag, and not the one with the other flag. */
  lemma ClashMatches(d: string, variant: string, stored: Channel, e1: Channel, e2: Channel)
    requires EqualsIgnoreCase(d, variant)
    requires stored == FeedbackChannelEmbeddable(Some(EMAIL), Some(d), true)
    requires e1 == FeedbackChannelEmbeddable(Some(EMAIL), Some(variant), true)
    requires e2 == FeedbackChannelEmbeddable(Some(EMAIL), Some(d), false)
    ensures ExistsInList(stored, Some([e1, e2]))
    ensures ExistsInList(e1, Some([stored])) && !ExistsInList(e2, Some([stored]))
  {
    EqualsIgnoreCaseIsEquivalence(d, variant, d);
    assert Matches(e1, stored) && Matches(stored, e1) && !Matches(stored, e2);
  }
}
