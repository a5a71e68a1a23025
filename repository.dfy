/**
 * `FeedbackSettingsRepository`: the settings table and its two custom queries.
 * The table is a sequence of rows (`EntityState` values) in insertion order.
 * The search filters and the existence count are functions over the rows.
 * The inherited Panache operations that change the table (`persist`,
 * `persistAndFlush`, `deleteById`) are methods of the class; each enforces the
 * table's declared constraints the way the database would, by refusing the
 * write.
 */
module Repository {
  import opened Wrappers
  import opened Strings
  import opened Entity
  import opened MappingUtils

  // ---------------------------------------------------------------------------
  // findByPersonIdAndOrganizationId

  /**
   * One search filter. A blank filter value (null, empty or whitespace only)
   * switches the filter off. Otherwise the column must hold that value. The
   * filter condition is a SQL `like`; wildcards in the value are not modelled,
   * so `like` is equality here, and a null column never matches.
   */
  predicate FilterAccepts(filter: Option<string>, column: Option<string>)
  {
    IsBlank(filter) || column == filter
  }

  /** A row passes both filters of a search. */
  predicate MatchesSearch(row: EntityState, personId: Option<string>, organizationId: Option<string>)
  {
    FilterAccepts(organizationId, row.organizationId) && FilterAccepts(personId, row.personId)
  }

  /**
   * The rows the search query returns: every row passing both filters, each
   * as often as it is stored, in table order.
   */
  function FindByPersonIdAndOrganizationId(rows: seq<EntityState>, personId: Option<string>, organizationId: Option<string>)
    : (r: seq<EntityState>)
    ensures IsSubsequence(r, rows)
    ensures forall x :: multiset(r)[x] == if MatchesSearch(x, personId, organizationId) then multiset(rows)[x] else 0
    ensures forall x :: x in r <==> x in rows && MatchesSearch(x, personId, organizationId)
    ensures |r| <= |rows|
    ensures (forall i :: 0 <= i < |rows| ==> MatchesSearch(rows[i], personId, organizationId)) ==> r == rows
  {
    if |rows| == 0 then []
    else
      assert rows == [rows[0]] + rows[1..];
      assert multiset(rows) == multiset{rows[0]} + multiset(rows[1..]);
      var rest := FindByPersonIdAndOrganizationId(rows[1..], personId, organizationId);
      if MatchesSearch(rows[0], personId, organizationId) then [rows[0]] + rest else rest
  }

  /** With both filters blank, the search returns the whole table. */
  lemma FindWithoutFiltersReturnsAll(rows: seq<EntityState>, personId: Option<string>, organizationId: Option<string>)
    requires IsBlank(personId) && IsBlank(organizationId)
    ensures FindByPersonIdAndOrganizationId(rows, personId, organizationId) == rows
  {
  }

  /**
   * With only a person filter, the search returns every row of that person,
   * personal settings and organization representative settings alike.
   */
  lemma FindByPersonOnly(rows: seq<EntityState>, personId: string, organizationId: Option<string>, x: EntityState)
    requires !IsBlank(Some(personId)) && IsBlank(organizationId)
    ensures x in FindByPersonIdAndOrganizationId(rows, Some(personId), organizationId) <==>
            x in rows && x.personId == Some(personId)
  {
  }

  /** With only an organization filter, the search returns every row of that organization. */
  lemma FindByOrganizationOnly(rows: seq<EntityState>, personId: Option<string>, organizationId: string, x: EntityState)
    requires IsBlank(personId) && !IsBlank(Some(organizationId))
    ensures x in FindByPersonIdAndOrganizationId(rows, personId, Some(organizationId)) <==>
            x in rows && x.organizationId == Some(organizationId)
  {
  }

  /**
   * A blank filter value is the same as no filter: the search gives the same
   * rows for a whitespace-only value as for null.
   */
  lemma {:induction false} BlankFilterIsAbsent(rows: seq<EntityState>, blank: string, personId: Option<string>,
                                               organizationId: Option<string>)
    requires IsBlank(Some(blank))
    ensures FindByPersonIdAndOrganizationId(rows, Some(blank), organizationId) ==
            FindByPersonIdAndOrganizationId(rows, None, organizationId)
    ensures FindByPersonIdAndOrganizationId(rows, personId, Some(blank)) ==
            FindByPersonIdAndOrganizationId(rows, personId, None)
    decreases |rows|
  {
    if |rows| > 0 {
      BlankFilterIsAbsent(rows[1..], blank, personId, organizationId);
      assert MatchesSearch(rows[0], Some(blank), organizationId) == MatchesSearch(rows[0], None, organizationId);
      assert MatchesSearch(rows[0], personId, Some(blank)) == MatchesSearch(rows[0], personId, None);
    }
  }

  // ---------------------------------------------------------------------------
  // existsByPersonIdAndOrganizationId

  /**
   * The SQL `=` of a column and a parameter: true only when both are non-null
   * and equal, since a comparison with null is never true.
   */
  predicate SqlEquals(column: Option<string>, parameter: Option<string>)
  {
    column.Some? && parameter.Some? && column == parameter
  }

  /**
   * The condition the existence query counts. With a null organization id the
   * query asks for a personal row (`organization_id is null`). Otherwise it
   * asks for a row with both ids equal.
   */
  predicate ExistsQueryHolds(row: EntityState, personId: Option<string>, organizationId: Option<string>)
  {
    if organizationId.None? then SqlEquals(row.personId, personId) && row.organizationId.None?
    else SqlEquals(row.personId, personId) && SqlEquals(row.organizationId, organizationId)
  }

  /** `count(query, ...)`: the number of rows the condition holds for. */
  function CountWhere(rows: seq<EntityState>, personId: Option<string>, organizationId: Option<string>): (n: nat)
    ensures n <= |rows|
    ensures n > 0 <==> exists i :: 0 <= i < |rows| && ExistsQueryHolds(rows[i], personId, organizationId)
  {
    if |rows| == 0 then 0
    else
      var rest := CountWhere(rows[1..], personId, organizationId);
      assert forall i :: 0 < i < |rows| ==> rows[i] == rows[1..][i - 1];
      (if ExistsQueryHolds(rows[0], personId, organizationId) then 1 else 0) + rest
  }

  predicate ExistsByPersonIdAndOrganizationId(rows: seq<EntityState>, personId: Option<string>, organizationId: Option<string>)
  {
    CountWhere(rows, personId, organizationId) > 0
  }

  /**
   * For a non-null person id, both branches of the query ask the same thing:
   * does some row hold exactly this (personId, organizationId) pair, where a
   * null organization id must meet a null column.
   */
  lemma ExistsIffOwnerStored(rows: seq<EntityState>, personId: string, organizationId: Option<string>)
    ensures ExistsByPersonIdAndOrganizationId(rows, Some(personId), organizationId) <==>
            exists i :: 0 <= i < |rows| && rows[i].personId == Some(personId) && rows[i].organizationId == organizationId
  {
    if ExistsByPersonIdAndOrganizationId(rows, Some(personId), organizationId) {
      var i :| 0 <= i < |rows| && ExistsQueryHolds(rows[i], Some(personId), organizationId);
      assert rows[i].personId == Some(personId) && rows[i].organizationId == organizationId;
    }
    if exists i :: 0 <= i < |rows| && rows[i].personId == Some(personId) && rows[i].organizationId == organizationId {
      var i :| 0 <= i < |rows| && rows[i].personId == Some(personId) && rows[i].organizationId == organizationId;
      assert ExistsQueryHolds(rows[i], Some(personId), organizationId);
    }
  }

  /** A null person id matches nothing, since `person_id = null` is never true. */
  lemma NullPersonNeverExists(rows: seq<EntityState>, organizationId: Option<string>)
    ensures !ExistsByPersonIdAndOrganizationId(rows, None, organizationId)
  {
  }

  /**
   * A personal row does not count for a representative query, and a
   * representative row does not count for a personal one.
   */
  lemma PersonalAndRepresentativeAreSeparate(personId: string, organizationId: string)
    ensures !ExistsByPersonIdAndOrganizationId([EmptyState.(personId := Some(personId))], Some(personId), Some(organizationId))
    ensures !ExistsByPersonIdAndOrganizationId(
      [EmptyState.(personId := Some(personId), organizationId := Some(organizationId))], Some(personId), None)
  {
  }

  // ---------------------------------------------------------------------------
  // The table

  /**
   * The table's unique constraint on (person_id, organization_id). SQL treats
   * nulls as distinct, so two rows collide only when the organization id is
   * non-null and both columns are equal.
   */
  predicate UniqueConstraintCollides(a: EntityState, b: EntityState)
  {
    a.personId.Some? && a.organizationId.Some? && a.personId == b.personId && a.organizationId == b.organizationId
  }

  /**
   * A row as the table holds it: it has an id, a (possibly empty) channel list
   * as a loaded element collection always has, and meets the declared column
   * constraints.
   */
  predicate WellFormed(s: EntityState)
  {
    s.id.Some? && s.feedbackChannels.Some? && RowConstraints(s)
  }

  /**
   * A row can be inserted next to `others`: it has an id none of them has, it
   * meets the declared column constraints, and it does not collide with any of
   * them.
   */
  predicate Storable(others: seq<EntityState>, s: EntityState)
  {
    WellFormed(s) &&
    forall i :: 0 <= i < |others| ==> others[i].id != s.id && !UniqueConstraintCollides(others[i], s)
  }

  /** The position of the row with id `id`, or -1. */
  function IndexOfId(rows: seq<EntityState>, id: string): (k: int)
    ensures -1 <= k < |rows|
    ensures k >= 0 ==> rows[k].id == Some(id)
    ensures k == -1 <==> forall i :: 0 <= i < |rows| ==> rows[i].id != Some(id)
  {
    if |rows| == 0 then -1
    else if rows[|rows| - 1].id == Some(id) then |rows| - 1
    else IndexOfId(rows[..|rows| - 1], id)
  }

  /** The table without the row at `k`. */
  function RemoveAt(rows: seq<EntityState>, k: nat): (r: seq<EntityState>)
    requires k < |rows|
    ensures |r| == |rows| - 1
    ensures forall i :: 0 <= i < k ==> r[i] == rows[i]
    ensures forall i :: k <= i < |r| ==> r[i] == rows[i + 1]
  {
    rows[..k] + rows[k + 1..]
  }

  class FeedbackSettingsRepository {
    var rows: seq<EntityState>

    predicate Valid()
      reads this
    {
      ValidRows(rows)
    }

    constructor Empty()
      ensures rows == [] && Valid()
    {
      rows := [];
    }

    /** `findByIdOptional`: the row with that id, if any. */
    function FindById(id: string): (r: Option<EntityState>)
      reads this
      ensures r.None? <==> forall i :: 0 <= i < |rows| ==> rows[i].id != Some(id)
      ensures r.Some? ==> r.value in rows && r.value.id == Some(id)
    {
      var k := IndexOfId(rows, id);
      if k == -1 then None else Some(rows[k])
    }

    /**
     * `persist` of a new entity: the generated id `newId` (a fresh UUID) is
     * assigned, the `@PrePersist` hook stamps `created`, and the row is
     * inserted unless a constraint refuses it, in which case the table is
     * unchanged and `ok` is false.
     */
    method Persist(e: FeedbackSettingsEntity, newId: string, now: int) returns (ok: bool)
      requires Valid()
      requires forall i :: 0 <= i < |rows| ==> rows[i].id != Some(newId)
      modifies this, e
      ensures e.State() == old(e.State()).(id := Some(newId), created := Some(TruncateToMillis(now)))
      ensures ok <==> Storable(old(rows), e.State())
      ensures rows == if ok then old(rows) + [e.State()] else old(rows)
      ensures Valid()
    {
      e.SetId(Some(newId));
      e.PrePersist(now);
      var s := e.State();
      ok := Storable(rows, s);
      if ok {
        rows := rows + [s];
      }
    }

    /**
     * `persistAndFlush` of an entity loaded from the row with its id. When its
     * fields differ from the row the entity is dirty: the `@PreUpdate` hook
     * stamps `modified` and the row is rewritten, unless a constraint refuses
     * it. A clean entity is not written at all.
     */
    method PersistAndFlush(e: FeedbackSettingsEntity, now: int) returns (ok: bool)
      requires Valid()
      requires e.id.Some? && FindById(e.id.value).Some?
      modifies this, e
      ensures var k := IndexOfId(old(rows), old(e.id).value);
        var dirty := old(e.State()) != old(rows)[k];
        var stamped := if dirty then old(e.State()).(modified := Some(TruncateToMillis(now))) else old(e.State());
        e.State() == stamped &&
        (ok <==> !dirty || Storable(RemoveAt(old(rows), k), stamped)) &&
        rows == if ok then old(rows)[k := stamped] else old(rows)
      ensures Valid()
    {
      var k := IndexOfId(rows, e.id.value);
      if e.State() == rows[k] {
        return true;
      }
      e.PreUpdate(now);
      var s := e.State();
      var others := RemoveAt(rows, k);
      ok := Storable(others, s);
      if ok {
        ReplaceKeepsValid(rows, k, s);
        rows := rows[k := s];
      }
    }

    /**
     * `deleteById`: the row with that id is removed and every other row is
     * kept in order; `deleted` says whether there was one.
     */
    method DeleteById(id: string) returns (deleted: bool)
      requires Valid()
      modifies this
      ensures deleted <==> old(FindById(id)).Some?
      ensures rows == if deleted then RemoveAt(old(rows), IndexOfId(old(rows), id)) else old(rows)
      ensures forall x :: x in rows <==> x in old(rows) && x.id != Some(id)
      ensures Valid()
    {
      var k := IndexOfId(rows, id);
      deleted := k != -1;
      if deleted {
        RemoveKeepsValid(rows, k);
        rows := RemoveAt(rows, k);
      }
    }
  }

  /**
   * The invariant of the table: every row is well formed, and no two rows
   * share an id or collide on the unique constraint.
   */
  predicate ValidRows(rows: seq<EntityState>)
  {
    (forall i :: 0 <= i < |rows| ==> WellFormed(rows[i])) &&
    (forall i, j :: 0 <= i < j < |rows| ==> rows[i].id != rows[j].id && !UniqueConstraintCollides(rows[i], rows[j]))
  }

  /** Each row of a valid table can be stored next to all the others. */
  lemma StorableAmongOthers(rows: seq<EntityState>, k: nat)
    requires ValidRows(rows) && k < |rows|
    ensures Storable(RemoveAt(rows, k), rows[k])
  {
    var others := RemoveAt(rows, k);
    forall i | 0 <= i < |others| ensures others[i].id != rows[k].id && !UniqueConstraintCollides(others[i], rows[k]) {
      if i < k {
        assert others[i] == rows[i];
      } else {
        assert others[i] == rows[i + 1];
      }
    }
  }

  /** Replacing a row by one storable next to the others keeps the table valid. */
  lemma ReplaceKeepsValid(rows: seq<EntityState>, k: nat, s: EntityState)
    requires ValidRows(rows) && k < |rows|
    requires Storable(RemoveAt(rows, k), s)
    ensures ValidRows(rows[k := s])
  {
    var others := RemoveAt(rows, k);
    var r := rows[k := s];
    forall i, j | 0 <= i < j < |r| ensures r[i].id != r[j].id && !UniqueConstraintCollides(r[i], r[j]) {
      if i == k {
        assert r[j] == others[j - 1];
      } else if j == k {
        assert r[i] == others[i];
      }
    }
  }

  /** Removing a row keeps the table valid. */
  lemma RemoveKeepsValid(rows: seq<EntityState>, k: nat)
    requires ValidRows(rows) && k < |rows|
    ensures ValidRows(RemoveAt(rows, k))
  {
    var r := RemoveAt(rows, k);
    forall i, j | 0 <= i < j < |r| ensures r[i].id != r[j].id && !UniqueConstraintCollides(r[i], r[j]) {
      var si := if i < k then i else i + 1;
      var sj := if j < k then j else j + 1;
      assert r[i] == rows[si] && r[j] == rows[sj];
    }
  }
}
