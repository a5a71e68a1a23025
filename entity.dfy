/**
 * `FeedbackSettingsEntity`: the persisted settings record, a mutable object whose
 * six nullable fields are written by setters, fluent `with*` methods and the two
 * lifecycle hooks. Timestamps are integers; the clock is the `now` argument of the
 * hooks, in nanoseconds, which the hooks truncate to whole milliseconds.
 */
module Entity {
  import opened Wrappers
  import opened Embeddables

  /** The values of an entity's fields at one moment; also what a table row holds. */
  datatype EntityState = EntityState(
    id: Option<string>,
    personId: Option<string>,
    organizationId: Option<string>,
    feedbackChannels: Option<seq<FeedbackChannelEmbeddable>>,
    created: Option<int>,
    modified: Option<int>)

  const EmptyState := EntityState(None, None, None, None, None, None)

  /**
   * Two channels of one setting collide under the channel table's unique
   * constraint on (setting_id, contact_method, destination). SQL treats nulls as
   * distinct, so they collide only when both columns are non-null and equal.
   */
  predicate KeysCollide(a: FeedbackChannelEmbeddable, b: FeedbackChannelEmbeddable)
  {
    a.contactMethod.Some? && a.destination.Some? && a.contactMethod == b.contactMethod && a.destination == b.destination
  }

  /** The declared unique constraint on the channel table: no two channels of one setting collide. */
  predicate UniqueChannelKeys(cs: seq<FeedbackChannelEmbeddable>)
  {
    forall i, j :: 0 <= i < j < |cs| ==> !KeysCollide(cs[i], cs[j])
  }

  /** Channels whose key has a null part never collide, however many copies are stored. */
  lemma NullKeyPartsNeverCollide(c: FeedbackChannelEmbeddable, n: nat)
    requires c.contactMethod.None? || c.destination.None?
    ensures UniqueChannelKeys(seq(n, _ => c))
  {
  }

  /** Exactly equal non-null keys collide. */
  lemma EqualKeysCollide(a: FeedbackChannelEmbeddable, b: FeedbackChannelEmbeddable)
    requires a.contactMethod.Some? && a.destination.Some?
    ensures KeysCollide(a, b) <==> (a.contactMethod, a.destination) == (b.contactMethod, b.destination)
  {
  }

  /** The declared column constraints of a stored row: `person_id` and `created` are not null, channels are unique. */
  predicate RowConstraints(s: EntityState)
  {
    s.personId.Some? && s.created.Some? && (s.feedbackChannels.Some? ==> UniqueChannelKeys(s.feedbackChannels.value))
  }

  const NanosPerMilli := 1_000_000

  /** `truncatedTo(MILLIS)`: the last whole millisecond at or before `nanos`. */
  function TruncateToMillis(nanos: int): (t: int)
    ensures t % NanosPerMilli == 0
    ensures t <= nanos < t + NanosPerMilli
  {
    nanos - nanos % NanosPerMilli
  }

  lemma TruncateIsIdempotent(nanos: int)
    ensures TruncateToMillis(TruncateToMillis(nanos)) == TruncateToMillis(nanos)
  {
  }

  class FeedbackSettingsEntity {
    var id: Option<string>
    var personId: Option<string>
    var organizationId: Option<string>
    var feedbackChannels: Option<seq<FeedbackChannelEmbeddable>>
    var created: Option<int>
    var modified: Option<int>

    function State(): EntityState
      reads this
    {
      EntityState(id, personId, organizationId, feedbackChannels, created, modified)
    }

    /** `FeedbackSettingsEntity.create()`: a new entity with every field null. */
    constructor Create()
      ensures State() == EmptyState
    {
      id, personId, organizationId := None, None, None;
      feedbackChannels, created, modified := None, None, None;
    }

    /** Loads an entity from a table row. */
    constructor FromState(s: EntityState)
      ensures State() == s
    {
      id, personId, organizationId := s.id, s.personId, s.organizationId;
      feedbackChannels, created, modified := s.feedbackChannels, s.created, s.modified;
    }

    method SetId(v: Option<string>)
      modifies this
      ensures State() == old(State()).(id := v)
    {
      id := v;
    }

    method WithId(v: Option<string>) returns (self: FeedbackSettingsEntity)
      modifies this
      ensures self == this && State() == old(State()).(id := v)
    {
      id := v;
      self := this;
    }

    method SetPersonId(v: Option<string>)
      modifies this
      ensures State() == old(State()).(personId := v)
    {
      personId := v;
    }

    method WithPersonId(v: Option<string>) returns (self: FeedbackSettingsEntity)
      modifies this
      ensures self == this && State() == old(State()).(personId := v)
    {
      personId := v;
      self := this;
    }

    method SetOrganizationId(v: Option<string>)
      modifies this
      ensures State() == old(State()).(organizationId := v)
    {
      organizationId := v;
    }

    method WithOrganizationId(v: Option<string>) returns (self: FeedbackSettingsEntity)
      modifies this
      ensures self == this && State() == old(State()).(organizationId := v)
    {
      organizationId := v;
      self := this;
    }

    method SetFeedbackChannels(v: Option<seq<FeedbackChannelEmbeddable>>)
      modifies this
      ensures State() == old(State()).(feedbackChannels := v)
    {
      feedbackChannels := v;
    }

    method WithFeedbackChannels(v: Option<seq<FeedbackChannelEmbeddable>>) returns (self: FeedbackSettingsEntity)
      modifies this
      ensures self == this && State() == old(State()).(feedbackChannels := v)
    {
      feedbackChannels := v;
      self := this;
    }

    method SetCreated(v: Option<int>)
      modifies this
      ensures State() == old(State()).(created := v)
    {
      created := v;
    }

    method WithCreated(v: Option<int>) returns (self: FeedbackSettingsEntity)
      modifies this
      ensures self == this && State() == old(State()).(created := v)
    {
      created := v;
      self := this;
    }

    method SetModified(v: Option<int>)
      modifies this
      ensures State() == old(State()).(modified := v)
    {
      modified := v;
    }

    method WithModified(v: Option<int>) returns (self: FeedbackSettingsEntity)
      modifies this
      ensures self == this && State() == old(State()).(modified := v)
    {
      modified := v;
      self := this;
    }

    /** The `@PrePersist` hook: stamps `created` with `now` to the millisecond; nothing else changes. */
    method PrePersist(now: int)
      modifies this
      ensures State() == old(State()).(created := Some(TruncateToMillis(now)))
    {
      created := Some(TruncateToMillis(now));
    }

    /** The `@PreUpdate` hook: stamps `modified` with `now` to the millisecond; nothing else changes. */
    method PreUpdate(now: int)
      modifies this
      ensures State() == old(State()).(modified := Some(TruncateToMillis(now)))
    {
      modified := Some(TruncateToMillis(now));
    }

    /**
     * `equals`: the same object, or a non-null entity whose six fields are all
     * equal to this one's, timestamps included.
     */
    predicate Equals(other: FeedbackSettingsEntity?)
      reads this, other
      ensures Equals(other) <==> other != null && State() == other.State()
    {
      if this == other then true
      else if other == null then false
      else created == other.created && feedbackChannels == other.feedbackChannels &&
           id == other.id && modified == other.modified &&
           organizationId == other.organizationId && personId == other.personId
    }
  }

  /** Two entities that differ only in a timestamp are unequal. */
  lemma TimestampsTakePartInEquality(a: FeedbackSettingsEntity, b: FeedbackSettingsEntity)
    requires a.State().(created := None, modified := None) == b.State().(created := None, modified := None)
    ensures a.Equals(b) <==> a.created == b.created && a.modified == b.modified
  {
  }
}
