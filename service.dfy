/**
 * `FeedbackSettingsService`: create, update, get, delete and search over the
 * settings table. A failing call returns the error the service throws; the
 * table is then left as it was, as the enclosing transaction is rolled back.
 * Generated ids and the clock are parameters (`newId`, `now`).
 */
module Service {
  import opened Wrappers
  import opened Entity
  import opened Mapper
  import opened CreateRequests
  import opened UpdateRequests
  import opened Repository
  import UniqueChannels
  import MappingUtils
  import Strings
  import Embeddables
  import ContactMethods

  const StatusBadRequest := 400
  const StatusNotFound := 404
  const StatusConflict := 409

  /** What a failing call reports. */
  datatype ErrorDetail =
    | SettingsNotFound(id: string)
    | ExistsForPerson(personId: Option<string>)
    | ExistsForRepresentative(personId: Option<string>, organizationId: string)
      // A write the database refused on a declared constraint; it is not a
      // service exception and surfaces as a server error.
    | WriteRefused

  /**
   * A failure: the two statuses a service exception is created with (the
   * first is the status of the response) and what it is about.
   */
  datatype ServiceError = ServiceError(status: int, secondStatus: int, detail: ErrorDetail)

  /** The message of a not-found error: "No settings matching id '<id>' were found". */
  function NotFoundMessage(id: string): (m: string)
    ensures |m| == |id| + 37
    ensures m[..25] == "No settings matching id '" && m[|m| - 12..] == "' were found"
    ensures m[25..|m| - 12] == id
  {
    "No settings matching id '" + id + "' were found"
  }

  /** The message of a conflict on personal settings: "Settings already exist for personId '<personId>'". */
  function PersonConflictMessage(personId: string): (m: string)
    ensures |m| == |personId| + 38
    ensures m[..37] == "Settings already exist for personId '" && m[|m| - 1..] == "'"
    ensures m[37..|m| - 1] == personId
  {
    "Settings already exist for personId '" + personId + "'"
  }

  /** Each message names its subject: two different ids never give the same message. */
  lemma MessagesNameTheirSubject(a: string, b: string)
    ensures NotFoundMessage(a) == NotFoundMessage(b) ==> a == b
    ensures PersonConflictMessage(a) == PersonConflictMessage(b) ==> a == b
  {
  }

  function NotFoundError(id: string): ServiceError
  {
    ServiceError(StatusNotFound, StatusNotFound, SettingsNotFound(id))
  }

  /**
   * The error of `verifyNonExistingSettings`: a conflict reported as a bad
   * request, naming only the person for personal settings and both ids for
   * representative settings.
   */
  function ConflictError(personId: Option<string>, organizationId: Option<string>): (e: ServiceError)
    ensures e.status == StatusBadRequest && e.secondStatus == StatusConflict
    ensures organizationId.None? ==> e.detail == ExistsForPerson(personId)
    ensures organizationId.Some? ==> e.detail == ExistsForRepresentative(personId, organizationId.value)
  {
    ServiceError(StatusBadRequest, StatusConflict,
      if organizationId.None? then ExistsForPerson(personId) else ExistsForRepresentative(personId, organizationId.value))
  }

  const StorageError := ServiceError(500, 500, WriteRefused)

  // ---------------------------------------------------------------------------
  // The rows a create or an update writes

  /** The row a create inserts: the mapped request, the generated id, `created` stamped. */
  function NewRow(body: CreateFeedbackSettingsRequest, newId: string, now: int): (s: EntityState)
    requires Unboxable(body.channels)
  {
    EntityState(Some(newId), body.personId, body.organizationId,
                Some(ToFeedbackChannelEmbeddables(body.channels)), Some(TruncateToMillis(now)), None)
  }

  /** The row after a patch is merged into it (what `mergeFeedbackSettings` leaves in the entity). */
  function MergedRow(row: EntityState, body: UpdateFeedbackSettingsRequest, now: int): (s: EntityState)
    requires row.feedbackChannels.Some? && Unboxable(body.channels)
    ensures s.id == row.id && s.personId == row.personId && s.organizationId == row.organizationId
    ensures s.created == row.created
    ensures body.channels.None? ==> s == row
    ensures body.channels.Some? ==>
      s.feedbackChannels == Some(Merged(row.feedbackChannels.value, ToFeedbackChannelEmbeddables(body.channels)))
    ensures s.modified == if s.feedbackChannels == row.feedbackChannels then row.modified else Some(TruncateToMillis(now))
    ensures s != row ==> s.modified == Some(TruncateToMillis(now))
  {
    if body.channels.None? then row
    else
      var merged := Merged(row.feedbackChannels.value, ToFeedbackChannelEmbeddables(body.channels));
      if merged == row.feedbackChannels.value then row
      else row.(feedbackChannels := Some(merged), modified := Some(TruncateToMillis(now)))
  }

  // ---------------------------------------------------------------------------
  // Paging

  datatype MetaData = MetaData(page: int, limit: int, count: int, totalPages: int, totalRecords: int)

  datatype SearchResult = SearchResult(metaData: MetaData, feedbackSettings: seq<FeedbackSettings>)

  /** The defaults of the search parameters. */
  const DefaultPage := 1
  const DefaultLimit := 20

  /**
   * `pageCount()`: the number of pages of `limit` rows that `total` rows fill,
   * the last one possibly partly; no rows at all still make one (empty) page.
   */
  function PageCount(total: nat, limit: nat): (n: nat)
    requires limit >= 1
    ensures n >= 1 && total <= n * limit
    ensures total == 0 ==> n == 1
    ensures total > 0 ==> (n - 1) * limit < total
  {
    if total == 0 then 1 else (total + limit - 1) / limit
  }

  /** The position of the first row of the 1-based page `page`. */
  function PageStart(page: int, limit: int): nat
    requires page >= 1 && limit >= 1
  {
    (page - 1) * limit
  }

  /** `page(index, size).list()`: the rows of the page starting at `start`. */
  function PageOf(xs: seq<EntityState>, start: nat, size: nat): (r: seq<EntityState>)
    requires size >= 1
    ensures |r| <= size
    ensures forall i :: 0 <= i < |r| ==> start + i < |xs| && r[i] == xs[start + i]
    ensures start < |xs| ==> |r| == if |xs| - start < size then |xs| - start else size
  {
    if start >= |xs| then []
    else if |xs| - start < size then xs[start..]
    else xs[start..start + size]
  }

  /**
   * The paging of `getFeedbackSettings` over the rows the search matched: a
   * page past the last one is empty; otherwise the 1-based page `page` of
   * `limit` rows is returned as views.
   */
  function SearchPage(matches: seq<EntityState>, page: int, limit: int): (r: SearchResult)
    requires page >= 1 && limit >= 1
    ensures r.metaData.page == page && r.metaData.limit == limit
    ensures r.metaData.totalRecords == |matches| && r.metaData.totalPages == PageCount(|matches|, limit)
    ensures r.metaData.count == |r.feedbackSettings| <= limit
    ensures r.metaData.totalPages < page ==> r.feedbackSettings == []
    ensures forall i :: 0 <= i < |r.feedbackSettings| ==>
      PageStart(page, limit) + i < |matches| && r.feedbackSettings[i] == ViewOf(matches[PageStart(page, limit) + i])
  {
    var pageCount := PageCount(|matches|, limit);
    var settings := if pageCount < page then [] else ToFeedbackSettingsList(Some(PageOf(matches, PageStart(page, limit), limit)));
    SearchResult(MetaData(page, limit, |settings|, pageCount, |matches|), settings)
  }

  /**
   * Every matched row is shown exactly where paging puts it: row `j` is
   * element `j % limit` of page `j / limit + 1`.
   */
  lemma EveryMatchIsOnItsPage(matches: seq<EntityState>, limit: int, j: nat)
    requires limit >= 1 && j < |matches|
    ensures var r := SearchPage(matches, j / limit + 1, limit);
      j % limit < |r.feedbackSettings| && r.feedbackSettings[j % limit] == ViewOf(matches[j])
  {
    var page := j / limit + 1;
    var pageCount := PageCount(|matches|, limit);
    assert (page - 1) * limit + j % limit == j;
    assert (page - 1) * limit <= j;
    if page > pageCount {
      MulMonotone(pageCount, page - 1, limit);
    }
  }

  lemma MulMonotone(a: nat, b: nat, c: nat)
    requires a <= b
    ensures a * c <= b * c
  {
  }

  /**
   * When anything matched, a page from the first to the last holds at least
   * one row and a page past the last holds none; with no match the single
   * page is empty too.
   */
  lemma PageIsEmptyIffPastLast(matches: seq<EntityState>, page: int, limit: int)
    requires page >= 1 && limit >= 1
    ensures var r := SearchPage(matches, page, limit);
      r.feedbackSettings == [] <==> r.metaData.totalPages < page || |matches| == 0
  {
    var pageCount := PageCount(|matches|, limit);
    if page <= pageCount {
      MulMonotone(page - 1, pageCount - 1, limit);
    }
  }

  /** Only the last page can be short: every page before it holds exactly `limit` rows. */
  lemma PagesBeforeLastAreFull(matches: seq<EntityState>, page: int, limit: int)
    requires page >= 1 && limit >= 1
    requires page < PageCount(|matches|, limit)
    ensures SearchPage(matches, page, limit).metaData.count == limit
  {
    var pageCount := PageCount(|matches|, limit);
    MulMonotone(page, pageCount - 1, limit);
    assert (page - 1) * limit + limit == page * limit;
  }

  // ---------------------------------------------------------------------------
  // The service

  /** No two rows belong to the same (personId, organizationId) pair, a null organization id included. */
  predicate UniqueOwners(rows: seq<EntityState>)
  {
    forall i, j :: 0 <= i < j < |rows| ==>
      (rows[i].personId, rows[i].organizationId) != (rows[j].personId, rows[j].organizationId)
  }

  class FeedbackSettingsService {
    const repository: FeedbackSettingsRepository

    constructor(repository: FeedbackSettingsRepository)
      ensures this.repository == repository
    {
      this.repository := repository;
    }

    /**
     * `createFeedbackSettings`: a conflict when settings exist for the
     * (personId, organizationId) pair; otherwise the mapped request is stored
     * under the new id with `created` stamped, and its view returned.
     */
    method CreateFeedbackSettings(body: CreateFeedbackSettingsRequest, newId: string, now: int)
      returns (r: Result<FeedbackSettings, ServiceError>)
      requires repository.Valid()
      requires Unboxable(body.channels)
      requires repository.FindById(newId).None?
      modifies repository
      ensures repository.Valid()
      ensures var before := old(repository.rows);
        var row := NewRow(body, newId, now);
        if ExistsByPersonIdAndOrganizationId(before, body.personId, body.organizationId) then
          r == Err(ConflictError(body.personId, body.organizationId)) && repository.rows == before
        else if Storable(before, row) then
          r == Ok(ViewOf(row)) && repository.rows == before + [row]
        else
          r == Err(StorageError) && repository.rows == before
    {
      if ExistsByPersonIdAndOrganizationId(repository.rows, body.personId, body.organizationId) {
        return Err(ConflictError(body.personId, body.organizationId));
      }
      var entity := ToFeedbackSettingsEntity(Some(body));
      var ok := repository.Persist(entity, newId, now);
      if !ok {
        return Err(StorageError);
      }
      r := Ok(ViewOf(entity.State()));
    }

    /**
     * `updateFeedbackSettings`: not found for an unknown id; otherwise the
     * patch is merged into the stored settings, the row rewritten when it
     * changed, and the merged view returned.
     */
    method UpdateFeedbackSettings(id: string, body: UpdateFeedbackSettingsRequest, now: int)
      returns (r: Result<FeedbackSettings, ServiceError>)
      requires repository.Valid()
      requires Unboxable(body.channels)
      modifies repository
      ensures repository.Valid()
      ensures var before := old(repository.rows);
        var k := IndexOfId(before, id);
        if k == -1 then
          r == Err(NotFoundError(id)) && repository.rows == before
        else
          var after := MergedRow(before[k], body, now);
          if after == before[k] || Storable(RemoveAt(before, k), after) then
            r == Ok(ViewOf(after)) && repository.rows == before[k := after]
          else
            r == Err(StorageError) && repository.rows == before
    {
      var row := repository.FindById(id);
      if row.None? {
        return Err(NotFoundError(id));
      }
      var entity := new FeedbackSettingsEntity.FromState(row.value);
      var merged := MergeFeedbackSettings(entity, Some(body), now);
      assert entity.State() == MergedRow(row.value, body, now);
      var ok := repository.PersistAndFlush(entity, now);
      if !ok {
        return Err(StorageError);
      }
      r := Ok(ViewOf(entity.State()));
    }

    /** `getFeedbackSettingsById`: the view of the row with that id, or not found. */
    function GetFeedbackSettingsById(id: string): (r: Result<FeedbackSettings, ServiceError>)
      reads repository
      ensures r.Err? <==> forall i :: 0 <= i < |repository.rows| ==> repository.rows[i].id != Some(id)
      ensures r.Err? ==> r.error == NotFoundError(id)
      ensures r.Ok? ==> exists i :: 0 <= i < |repository.rows| && repository.rows[i].id == Some(id) &&
                                   r.value == ViewOf(repository.rows[i])
    {
      match repository.FindById(id)
      case None => Err(NotFoundError(id))
      case Some(row) => Ok(ViewOf(row))
    }

    /** `deleteFeedbackSettings`: not found for an unknown id; otherwise that row, and only it, is removed. */
    method DeleteFeedbackSettings(id: string) returns (r: Result<(), ServiceError>)
      requires repository.Valid()
      modifies repository
      ensures repository.Valid()
      ensures old(repository.FindById(id)).None? ==> r == Err(NotFoundError(id)) && repository.rows == old(repository.rows)
      ensures old(repository.FindById(id)).Some? ==> (r == Ok(()) &&
        |repository.rows| == |old(repository.rows)| - 1 &&
        forall x :: x in repository.rows <==> x in old(repository.rows) && x.id != Some(id))
    {
      var found := GetFeedbackSettingsById(id);
      if found.Err? {
        return Err(found.error);
      }
      var _ := repository.DeleteById(id);
      r := Ok(());
    }

    /**
     * `getFeedbackSettings`: the requested page of the rows matching the
     * search filters; every view shown is of a matching row.
     */
    function GetFeedbackSettings(personId: Option<string>, organizationId: Option<string>, page: int, limit: int)
      : (r: SearchResult)
      reads repository
      requires page >= 1 && limit >= 1
      ensures r == SearchPage(FindByPersonIdAndOrganizationId(repository.rows, personId, organizationId), page, limit)
      ensures r.metaData.totalRecords ==
              |FindByPersonIdAndOrganizationId(repository.rows, personId, organizationId)|
      ensures forall v :: v in r.feedbackSettings ==>
        exists row :: row in repository.rows && MatchesSearch(row, personId, organizationId) && v == ViewOf(row)
    {
      var matches := FindByPersonIdAndOrganizationId(repository.rows, personId, organizationId);
      var r := SearchPage(matches, page, limit);
      forall v | v in r.feedbackSettings
        ensures exists row :: row in repository.rows && MatchesSearch(row, personId, organizationId) && v == ViewOf(row)
      {
        var i :| 0 <= i < |r.feedbackSettings| && r.feedbackSettings[i] == v;
        var row := matches[PageStart(page, limit) + i];
        assert row in matches;
      }
      r
    }
  }

  // ---------------------------------------------------------------------------
  // Properties of the service

  /**
   * The existence check keeps owners unique: a row for a person with no
   * stored settings for that organization id (or none, for personal
   * settings) can be appended without creating a second row for one pair.
   * The unique constraint of the table alone does not give this, since it
   * lets two personal rows of one person through.
   */
  lemma CreateKeepsOwnersUnique(rows: seq<EntityState>, row: EntityState)
    requires UniqueOwners(rows)
    requires row.personId.Some?
    requires !ExistsByPersonIdAndOrganizationId(rows, row.personId, row.organizationId)
    ensures UniqueOwners(rows + [row])
  {
    ExistsIffOwnerStored(rows, row.personId.value, row.organizationId);
    var r := rows + [row];
    forall i, j | 0 <= i < j < |r| ensures (r[i].personId, r[i].organizationId) != (r[j].personId, r[j].organizationId) {
      if j == |rows| {
        assert r[i] == rows[i];
      }
    }
  }

  /** Two personal rows of one person meet the table's unique constraint. */
  lemma TableAloneAllowsTwoPersonalRows(a: EntityState, b: EntityState)
    requires a.personId == b.personId && a.organizationId.None? && b.organizationId.None?
    ensures !UniqueConstraintCollides(a, b) && !UniqueOwners([a, b])
  {
    assert [a, b][0] == a && [a, b][1] == b;
  }

  /**
   * A create request that passes validation, for a pair with no stored
   * settings, is always stored: the channels are unique and the pair collides
   * with no row.
   */
  lemma ValidCreateIsStored(rows: seq<EntityState>, body: CreateFeedbackSettingsRequest, newId: string, now: int,
                            at: Violations.PropertyPath, isUuid: string -> bool, isEmail: string -> bool)
    requires ValidRows(rows)
    requires forall i :: 0 <= i < |rows| ==> rows[i].id != Some(newId)
    requires ValidateCreate(Some(body), at, isUuid, isEmail) == {}
    requires !ExistsByPersonIdAndOrganizationId(rows, body.personId, body.organizationId)
    ensures Unboxable(body.channels) && Storable(rows, NewRow(body, newId, now))
  {
    ValidCreateIsUnboxable(body, at, isUuid, isEmail);
    var b := at + [Violations.Named("body")];
    assert ChannelListViolations(body.channels, b, isEmail) == {};
    UniqueRequestIsStorable(body.channels);
    ExistsIffOwnerStored(rows, body.personId.value, body.organizationId);
  }

  /**
   * An update whose requested channels are distinct ignoring letter case is
   * always stored: the merged channels stay unique and the ids do not change.
   */
  lemma CaseDistinctUpdateIsStored(rows: seq<EntityState>, k: nat, body: UpdateFeedbackSettingsRequest, now: int)
    requires ValidRows(rows) && k < |rows|
    requires Unboxable(body.channels)
    requires KeysDistinctIgnoringCase(ToFeedbackChannelEmbeddables(body.channels))
    ensures Storable(RemoveAt(rows, k), MergedRow(rows[k], body, now))
  {
    StorableAmongOthers(rows, k);
    var row := rows[k];
    if body.channels.Some? {
      MergeKeepsChannelKeysUnique(row.feedbackChannels.value, ToFeedbackChannelEmbeddables(body.channels));
    }
  }

  /**
   * The patch that passes validation but merges into duplicate channels is
   * refused when written: the update of a row holding the one stored channel
   * fails.
   */
  lemma ClashingUpdateIsRefused(d: string, variant: string, others: seq<EntityState>, row: EntityState, now: int)
    requires d != variant && Strings.EqualsIgnoreCase(d, variant)
    requires row.feedbackChannels == Some(ClashStored(d))
    ensures Unboxable(ClashPatch(d, variant).channels)
    ensures MergedRow(row, ClashPatch(d, variant), now) != row
    ensures !Storable(others, MergedRow(row, ClashPatch(d, variant), now))
  {
    ClashMerge(d, variant);
    var merged := ClashStored(d) + [Embeddables.FeedbackChannelEmbeddable(Some(ContactMethods.EMAIL), Some(d), false)];
    assert |merged| != |row.feedbackChannels.value|;
    assert MergedRow(row, ClashPatch(d, variant), now).feedbackChannels == Some(merged);
    DuplicateKeysBreakConstraint(merged);
  }

  lemma DuplicateKeysBreakConstraint(cs: seq<Embeddables.FeedbackChannelEmbeddable>)
    requires |cs| == 2 && cs[0].contactMethod == cs[1].contactMethod && cs[0].destination == cs[1].destination
    ensures !UniqueChannelKeys(cs) <==> cs[0].contactMethod.Some? && cs[0].destination.Some?
  {
  }
}
