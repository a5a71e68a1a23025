# Feedback settings service: a Dafny model

The feedback-settings service stores, per person, how that person wants feedback:
a list of channels, each a contact method (SMS or EMAIL), a destination and a
`sendFeedback` flag. A row of settings belongs either to the person alone
(personal settings, no organization id) or to the person as the representative
of one organization. Clients create, read, search, patch and delete these rows
over REST. Requests are checked by Bean Validation before they reach the
service, and a failed check becomes a 400 response that lists every violation.

This project models the core of that service in Dafny:

- **`ContactMethods`**: the contact-method enum and its case-insensitive `toEnum`.
- **`Embeddables` and `MappingUtils`**: the stored channel value and the
  reconciliation helpers that compute which channels a patch adds and removes.
- **`Entity`**: the JPA entity as a class with mutable fields, its fluent
  setters, the `prePersist`/`preUpdate` hooks and `equals`. The table constraints
  are stated as predicates.
- **`Violations`**: the `ConstraintViolationExceptionMapper`. This covers
  property-path rendering, the sorted detail lines and the response constants.
- **`RequestedChannels`, `UniqueChannels`, `CreateRequests`, `UpdateRequests`**:
  the bean constraints of the request types. Each constraint is a function from
  a request to the set of violations it reports. `UniqueChannels` also covers
  the custom `UniqueFeedbackChannels` validator.
- **`Mapper`**: the request→entity→view mappers and the imperative
  `mergeFeedbackSettings`, which edits the entity's channel list in place.
- **`Repository`**: the search filters and the existence query of the Panache
  repository. It also models the table as a class holding a sequence of rows;
  the unique constraints decide whether a write is accepted.
- **`Service`**: `FeedbackSettingsService`, paging included, as a class over
  the repository.
- **`PostFailures`**: the worked example of posting a request whose only
  channel is all-null. It proves the exact detail lines of the 400 response.
- **`Wrappers`, `Sequences`, `Strings`**: helper modules. They hold
  Option/Result, a generic map over sequences, `equalsIgnoreCase` (with
  case folded on ASCII letters only), Java's blankness, `indexOf` and the lexicographic string order used by `sorted()`.

The source has two notions of a channel's identity. The uniqueness
validator of a request keys a channel by contact method and destination,
compared exactly (`UniqueFeedbackChannelsConstraintValidator.java:23`). The
table's channel constraint (`FeedbackSettingsEntity.java:64-68`) uses the same
key, but with SQL semantics: a null contact method or destination never equals
anything, so only channels whose key parts are both non-null can collide. The
reconciliation match of a merge, `existsInList`, compares the destination ignoring case and also compares the
`sendFeedback` flag (`MappingUtils.java:74-76`). The model keeps both notions
as the code has them. A flipped flag is therefore a removal plus an addition
(`MappingUtils.FlagChangeIsRemoveAndAdd`).

A noteworthy consequence, proved as a lemma: a patch that passes every
request constraint can merge into a channel list that holds the same
(contact method, destination) pair twice. The stored list is
`(EMAIL, d, true)` and the patch is `(EMAIL, D, true), (EMAIL, d, false)`,
where `D` differs from `d` only in case. The patch is valid because the
uniqueness validator compares destinations case-sensitively. The merge keeps the
stored channel, because it matches the first requested one ignoring case. The
merge also adds the second requested channel, because its flag differs. The
table's unique constraint then refuses the write
(`Mapper.ValidPatchCanBreakChannelUniqueness`,
`Service.ClashingUpdateIsRefused`). When requested keys are distinct ignoring
case, the merge keeps keys unique (`Mapper.MergeKeepsChannelKeysUnique`) and
the update is stored (`Service.CaseDistinctUpdateIsStored`).

Source paths in the table are relative to the repository root.

The error values the service contracts refer to (`Service.NotFoundError`,
`Service.ConflictError`, `Service.StorageError`) and the message texts
(`Service.NotFoundMessage`, `Service.PersonConflictMessage`) are definitions,
not properties, and have no rows of their own.

## Model

| member | source | states |
|---|---|---|
| ContactMethods.Values | src/main/java/se/sundsvall/feedbacksettings/ContactMethod.java:8 | the enum has exactly the two constants SMS and EMAIL |
| ContactMethods.FindIgnoringCase | src/main/java/se/sundsvall/feedbacksettings/ContactMethod.java:11-13 | a hit is a constant whose name equals the value ignoring case; a miss means no constant's name does |
| ContactMethods.ToEnum | src/main/java/se/sundsvall/feedbacksettings/ContactMethod.java:10-17 | succeeds iff the value is non-null and names a constant ignoring case; otherwise the error is "Invalid value for enum ContactMethod: " followed by the value or "null" |
| ContactMethods.NamesDistinctIgnoringCase | src/main/java/se/sundsvall/feedbacksettings/ContactMethod.java:8-12 | two constants' names are equal ignoring case iff they are the same constant, so the case-insensitive lookup is unambiguous |
| ContactMethods.ToEnumOfName | src/test/java/se/sundsvall/feedbacksettings/ContactMethodTest.java:12-17 | every constant's own name converts back to it (round trip) |
| ContactMethods.ToEnumIgnoresCase | src/main/java/se/sundsvall/feedbacksettings/ContactMethod.java:12 | two spellings differing only in case both convert, to the same constant, or both fail |
| ContactMethods.ToEnumExamples | src/test/java/se/sundsvall/feedbacksettings/ContactMethodTest.java:19-24 | "sms" and "Email" convert; "UNKNOWN" and null yield the documented error texts |
| MappingUtils.MatchesIsEquivalence | src/main/java/se/sundsvall/feedbacksettings/service/util/MappingUtils.java:73-76 | the channel match (destination ignoring case, same method, same flag) is reflexive, symmetric and transitive |
| MappingUtils.ExistsInList | src/main/java/se/sundsvall/feedbacksettings/service/util/MappingUtils.java:71-77 | true iff some element of the list (a null list read as empty) matches the channel |
| MappingUtils.Unmatched | src/main/java/se/sundsvall/feedbacksettings/service/util/MappingUtils.java:38-40 | an order-preserving subsequence holding every unmatched element with its multiplicity and no matched one |
| MappingUtils.Matched | src/main/java/se/sundsvall/feedbacksettings/service/util/MappingUtils.java:38-40 | an order-preserving subsequence holding every matched element with its multiplicity and no unmatched one |
| MappingUtils.Removed | src/main/java/se/sundsvall/feedbacksettings/service/util/MappingUtils.java:33-41 | empty for a null request; otherwise exactly the stored channels with no match in the request, in stored order and multiplicity |
| MappingUtils.Added | src/main/java/se/sundsvall/feedbacksettings/service/util/MappingUtils.java:58-69 | the whole request when the stored list is null; empty for a null request; otherwise exactly the requested channels with no stored match, in request order |
| MappingUtils.CaseOnlyDifferenceIsNoChange | src/main/java/se/sundsvall/feedbacksettings/service/util/MappingUtils.java:74 | a requested channel that differs from a stored one only in destination case is neither added nor does it cause removal |
| MappingUtils.FlagChangeIsRemoveAndAdd | src/main/java/se/sundsvall/feedbacksettings/service/util/MappingUtils.java:76 | flipping only the flag removes the stored channel and adds the requested one |
| MappingUtils.MutualMatchMeansNoDelta | src/main/java/se/sundsvall/feedbacksettings/service/util/MappingUtils.java:33-69 | when every channel on either side matches one on the other side, nothing is added or removed |
| MappingUtils.EmptyRequestRemovesAll | src/main/java/se/sundsvall/feedbacksettings/service/util/MappingUtils.java:35-40 | an empty (non-null) request removes every stored channel and adds none |
| Entity.TruncateToMillis | src/main/java/se/sundsvall/feedbacksettings/integration/db/model/FeedbackSettingsEntity.java:160-168 | the stamp is a whole number of milliseconds, at most the instant and less than one millisecond before it |
| Entity.TruncateIsIdempotent | src/main/java/se/sundsvall/feedbacksettings/integration/db/model/FeedbackSettingsEntity.java:160-168 | truncating an already truncated stamp changes nothing |
| Entity.FeedbackSettingsEntity.Create | src/main/java/se/sundsvall/feedbacksettings/integration/db/model/FeedbackSettingsEntity.java:78-80 | a new entity has every field null |
| Entity.FeedbackSettingsEntity.FromState | src/main/java/se/sundsvall/feedbacksettings/integration/db/model/FeedbackSettingsEntity.java:51-76 | an entity loaded from a row holds exactly that row's fields |
| Entity.FeedbackSettingsEntity.SetId | src/main/java/se/sundsvall/feedbacksettings/integration/db/model/FeedbackSettingsEntity.java:86-88 | only the id changes |
| Entity.FeedbackSettingsEntity.WithId | src/main/java/se/sundsvall/feedbacksettings/integration/db/model/FeedbackSettingsEntity.java:90-93 | only the id changes, and the same object is returned for chaining |
| Entity.FeedbackSettingsEntity.SetPersonId | src/main/java/se/sundsvall/feedbacksettings/integration/db/model/FeedbackSettingsEntity.java:99-101 | only the person id changes |
| Entity.FeedbackSettingsEntity.WithPersonId | src/main/java/se/sundsvall/feedbacksettings/integration/db/model/FeedbackSettingsEntity.java:103-106 | only the person id changes; the same object is returned |
| Entity.FeedbackSettingsEntity.SetOrganizationId | src/main/java/se/sundsvall/feedbacksettings/integration/db/model/FeedbackSettingsEntity.java:112-114 | only the organization id changes |
| Entity.FeedbackSettingsEntity.WithOrganizationId | src/main/java/se/sundsvall/feedbacksettings/integration/db/model/FeedbackSettingsEntity.java:116-119 | only the organization id changes; the same object is returned |
| Entity.FeedbackSettingsEntity.SetFeedbackChannels | src/main/java/se/sundsvall/feedbacksettings/integration/db/model/FeedbackSettingsEntity.java:125-127 | only the channel list changes |
| Entity.FeedbackSettingsEntity.WithFeedbackChannels | src/main/java/se/sundsvall/feedbacksettings/integration/db/model/FeedbackSettingsEntity.java:129-132 | only the channel list changes; the same object is returned |
| Entity.FeedbackSettingsEntity.SetCreated | src/main/java/se/sundsvall/feedbacksettings/integration/db/model/FeedbackSettingsEntity.java:138-140 | only `created` changes |
| Entity.FeedbackSettingsEntity.WithCreated | src/main/java/se/sundsvall/feedbacksettings/integration/db/model/FeedbackSettingsEntity.java:142-145 | only `created` changes; the same object is returned |
| Entity.FeedbackSettingsEntity.SetModified | src/main/java/se/sundsvall/feedbacksettings/integration/db/model/FeedbackSettingsEntity.java:151-153 | only `modified` changes |
| Entity.FeedbackSettingsEntity.WithModified | src/main/java/se/sundsvall/feedbacksettings/integration/db/model/FeedbackSettingsEntity.java:155-158 | only `modified` changes; the same object is returned |
| Entity.FeedbackSettingsEntity.PrePersist | src/main/java/se/sundsvall/feedbacksettings/integration/db/model/FeedbackSettingsEntity.java:160-163 | `created` becomes the current instant truncated to milliseconds; nothing else changes |
| Entity.FeedbackSettingsEntity.PreUpdate | src/main/java/se/sundsvall/feedbacksettings/integration/db/model/FeedbackSettingsEntity.java:165-168 | `modified` becomes the current instant truncated to milliseconds; nothing else changes |
| Entity.FeedbackSettingsEntity.Equals | src/main/java/se/sundsvall/feedbacksettings/integration/db/model/FeedbackSettingsEntity.java:175-187 | equal iff the other entity is non-null and every field, timestamps included, is equal |
| Entity.TimestampsTakePartInEquality | src/main/java/se/sundsvall/feedbacksettings/integration/db/model/FeedbackSettingsEntity.java:180-186 | two entities agreeing on everything else are equal exactly when their timestamps agree |
| Violations.ViolationDetails | src/main/java/se/sundsvall/feedbacksettings/api/exception/mapper/ConstraintViolationExceptionMapper.java:47-50 | the detail lines are sorted and are a permutation of the "field: message" lines of the violations |
| Violations.ToResponse | src/main/java/se/sundsvall/feedbacksettings/api/exception/mapper/ConstraintViolationExceptionMapper.java:28-45 | message "Request validation failed", HTTP and root code 400, root cause "Constraint violation", the application as service id, the sorted violation lines, then "Request: " and the path as the last line |
| Violations.ResponseIgnoresOrder | src/main/java/se/sundsvall/feedbacksettings/api/exception/mapper/ConstraintViolationExceptionMapper.java:47-48 | the response depends only on the set of violations, not on the order they are reported in |
| Violations.FieldNameOfRootNode | src/main/java/se/sundsvall/feedbacksettings/api/exception/mapper/ConstraintViolationExceptionMapper.java:53-54 | a path with a single node (no dot) is shown whole |
| Violations.NullPathIsUnknownField | src/main/java/se/sundsvall/feedbacksettings/api/exception/mapper/ConstraintViolationExceptionMapper.java:55-57 | a path that renders as "null" is shown as "Unknown field" |
| Violations.FieldNameDropsFirstNode | src/main/java/se/sundsvall/feedbacksettings/api/exception/mapper/ConstraintViolationExceptionMapper.java:53-54 | for a longer path the first node (the method name) and its dot are dropped |
| Violations.TrimAfterFirstDot | src/main/java/se/sundsvall/feedbacksettings/api/exception/mapper/ConstraintViolationExceptionMapper.java:54 | cutting after the first dot of `a.b`, where `a` has no dot, leaves exactly `b` |
| RequestedChannels.ValidateChannel | src/main/java/se/sundsvall/feedbacksettings/api/model/RequestedFeedbackChannel.java:14-26 | a null contact method, a null flag and a non-conforming destination are each reported at its own path iff it occurs; every reported violation is one of these three; no violations iff all three hold |
| RequestedChannels.Reported | src/main/java/se/sundsvall/feedbacksettings/api/model/RequestedFeedbackChannel.java:14-26 | each of three distinct candidate violations is present iff its condition fails, and nothing else is |
| RequestedChannels.FieldPathsApart | src/main/java/se/sundsvall/feedbacksettings/api/model/RequestedFeedbackChannel.java:14-26 | the class-level and the two field-level violation paths lie under the channel and are pairwise distinct |
| RequestedChannels.MobileNumberExamples | src/test/java/se/sundsvall/feedbacksettings/api/FeedbackSettingsResourceFailuresTest.java:165-189 | ten-digit numbers starting 070, 073, 076 or 079 conform; blank, dashed, too short, too long, other prefixes and a country-code form do not |
| RequestedChannels.NullChannelViolations | src/test/java/se/sundsvall/feedbacksettings/api/FeedbackSettingsResourceFailuresTest.java:123-128 | an all-null channel reports exactly the two not-null violations and the format violation |
| UniqueChannels.DistinctKeys | src/main/java/se/sundsvall/feedbacksettings/api/validation/impl/UniqueFeedbackChannelsConstraintValidator.java:21-24 | the set of (method, destination) keys of the non-null elements; never larger than the list |
| UniqueChannels.NullAndEmptyAreValid | src/main/java/se/sundsvall/feedbacksettings/api/validation/impl/UniqueFeedbackChannelsConstraintValidator.java:19 | a null list and an empty list are both accepted |
| UniqueChannels.ValidIffNoNullsAndDistinctKeys | src/main/java/se/sundsvall/feedbacksettings/api/validation/impl/UniqueFeedbackChannelsConstraintValidator.java:18-28 | the count comparison accepts a list iff it has no null element and no two elements share a key |
| UniqueChannels.ValidityIgnoresOrder | src/main/java/se/sundsvall/feedbacksettings/api/validation/impl/UniqueFeedbackChannelsConstraintValidator.java:21-27 | reordering the list does not change the verdict |
| UniqueChannels.FlagIsNotCompared | src/main/java/se/sundsvall/feedbacksettings/api/validation/impl/UniqueFeedbackChannelsConstraintValidator.java:23 | two channels differing only in their flag are rejected as duplicates |
| UniqueChannels.DestinationIsCaseSensitive | src/main/java/se/sundsvall/feedbacksettings/api/validation/impl/UniqueFeedbackChannelsConstraintValidator.java:23 | two channels differing only in destination case are accepted |
| UniqueChannels.NullElementIsInvalid | src/main/java/se/sundsvall/feedbacksettings/api/validation/impl/UniqueFeedbackChannelsConstraintValidator.java:21-27 | a list holding a null element is rejected |
| CreateRequests.ValidateUuid | src/main/java/se/sundsvall/feedbacksettings/api/model/CreateFeedbackSettingsRequest.java:18-25 | a non-null id that is not a UUID yields exactly one "must be a valid UUID" violation at its path; null or well-formed yields none |
| CreateRequests.ElementViolations | src/main/java/se/sundsvall/feedbacksettings/api/model/CreateFeedbackSettingsRequest.java:27-29 | exactly the channel violations of every non-null element from the given index on, at that element's path |
| CreateRequests.ChannelListViolations | src/main/java/se/sundsvall/feedbacksettings/api/model/CreateFeedbackSettingsRequest.java:27-29 | nothing for a null list; the uniqueness violation iff the validator rejects the list; otherwise exactly the element violations |
| CreateRequests.ValidateBody | src/main/java/se/sundsvall/feedbacksettings/api/model/CreateFeedbackSettingsRequest.java:18-29 | personId not-null and UUID violations and the organizationId UUID violation each iff their condition fails, plus the channel violations; exactly these and nothing else, all below the body's path; none iff all hold |
| CreateRequests.ValidateCreate | src/main/java/se/sundsvall/feedbacksettings/api/model/CreateFeedbackSettingsRequest.java:18-29 | a null body yields exactly "body: must not be null"; otherwise exactly the id violations and the channel-list violations, all under "body"; none iff every field constraint holds |
| UpdateRequests.ValidateUpdate | src/main/java/se/sundsvall/feedbacksettings/api/model/UpdateFeedbackSettingsRequest.java:15-17 | a null body yields the not-null violation; otherwise exactly the uniqueness violation (iff the list is not unique) and the violations of each non-null element at its path; none iff the list is null, or unique with every element valid |
| UpdateRequests.ChannelsValidatedAsInCreate | src/test/java/se/sundsvall/feedbacksettings/api/FeedbackSettingsResourceFailuresTest.java:338-341 | a patch's channels are checked exactly as a creation request's with a valid person id |
| Mapper.NonNulls | src/main/java/se/sundsvall/feedbacksettings/service/mapper/FeedbackSettingsMapper.java:36-37 | keeps exactly the non-null elements; a list without nulls is kept whole and in order |
| Mapper.ToEmbeddable | src/main/java/se/sundsvall/feedbacksettings/service/mapper/FeedbackSettingsMapper.java:38-41 | the stored channel carries the request's method, destination and flag |
| Mapper.ToEmbeddablesOf | src/main/java/se/sundsvall/feedbacksettings/service/mapper/FeedbackSettingsMapper.java:38-42 | maps each channel in order |
| Mapper.ToFeedbackChannelEmbeddables | src/main/java/se/sundsvall/feedbacksettings/service/mapper/FeedbackSettingsMapper.java:34-43 | empty for a null list; otherwise one stored channel per non-null requested channel, in order |
| Mapper.ValidCreateIsUnboxable | src/main/java/se/sundsvall/feedbacksettings/api/model/RequestedFeedbackChannel.java:24-26 | a creation request with no violations has no null flag, so mapping it cannot fail |
| Mapper.ValidUpdateIsUnboxable | src/main/java/se/sundsvall/feedbacksettings/api/model/RequestedFeedbackChannel.java:24-26 | the same for a patch |
| Mapper.ValidChannelsAreUnboxable | src/main/java/se/sundsvall/feedbacksettings/api/model/RequestedFeedbackChannel.java:24-26 | a channel list with no violations has no null flag |
| Mapper.NullFlagIsReported | src/main/java/se/sundsvall/feedbacksettings/api/model/RequestedFeedbackChannel.java:24-26 | a non-null element with a null flag always produces a violation |
| Mapper.UniqueRequestIsStorable | src/main/java/se/sundsvall/feedbacksettings/integration/db/model/FeedbackSettingsEntity.java:63-68 | a list the uniqueness validator accepts maps to channels that satisfy the table's channel constraint |
| Mapper.ToFeedbackSettingsEntity | src/main/java/se/sundsvall/feedbacksettings/service/mapper/FeedbackSettingsMapper.java:25-32 | null for a null request; otherwise a fresh entity with the request's ids and mapped channels and no id or timestamps |
| Mapper.ToFeedbackChannel | src/main/java/se/sundsvall/feedbacksettings/service/mapper/FeedbackSettingsMapper.java:60-63 | the view channel carries the stored method, destination and flag |
| Mapper.ToFeedbackChannels | src/main/java/se/sundsvall/feedbacksettings/service/mapper/FeedbackSettingsMapper.java:57-65 | empty for a null list; otherwise one view channel per stored channel, in order |
| Mapper.ToFeedbackSettings | src/main/java/se/sundsvall/feedbacksettings/service/mapper/FeedbackSettingsMapper.java:45-55 | null iff the entity is null; otherwise the view carries the entity's ids, mapped channels and timestamps |
| Mapper.ToFeedbackSettingsList | src/main/java/se/sundsvall/feedbacksettings/service/mapper/FeedbackSettingsMapper.java:67-71 | empty for a null list; otherwise the view of each entity, in order |
| Mapper.ViewChannelsRoundTrip | src/main/java/se/sundsvall/feedbacksettings/service/mapper/FeedbackSettingsMapper.java:57-65 | the view channels give back the stored channels field by field |
| Mapper.RemoveAll | src/main/java/se/sundsvall/feedbacksettings/service/mapper/FeedbackSettingsMapper.java:81 | `removeAll` keeps, in order, exactly the elements not equal to any removed one, each with its original number of copies |
| Mapper.RemoveAllOfConcat | src/main/java/se/sundsvall/feedbacksettings/service/mapper/FeedbackSettingsMapper.java:80-81 | removing from a concatenation removes from each part |
| Mapper.RemoveAllIsMatched | src/main/java/se/sundsvall/feedbacksettings/service/mapper/FeedbackSettingsMapper.java:81 | when the removed list holds exactly the unmatched elements, removal leaves the matched ones |
| Mapper.RemoveAllOfDisjoint | src/main/java/se/sundsvall/feedbacksettings/service/mapper/FeedbackSettingsMapper.java:80-81 | added channels are never removed again, since none of them equals a removed one |
| Mapper.MergedIsKeptThenAdded | src/main/java/se/sundsvall/feedbacksettings/service/mapper/FeedbackSettingsMapper.java:78-81 | add-then-remove yields the stored channels with a match in the request, in order, followed by the requested channels without a stored match |
| Mapper.MergeFeedbackSettings | src/main/java/se/sundsvall/feedbacksettings/service/mapper/FeedbackSettingsMapper.java:73-88 | a null patch or null list changes nothing; otherwise the channel list becomes the merge and `modified` is stamped exactly when the list changed; nothing else changes |
| Mapper.EquivalentRequestChangesNothing | src/main/java/se/sundsvall/feedbacksettings/service/mapper/FeedbackSettingsMapper.java:84-86 | a request matching the stored list both ways leaves it as it was, so `modified` is not stamped |
| Mapper.MatchedAll | src/main/java/se/sundsvall/feedbacksettings/service/util/MappingUtils.java:38-40 | when every element is matched, all are kept |
| Mapper.MergedComesFromEitherSide | src/main/java/se/sundsvall/feedbacksettings/service/mapper/FeedbackSettingsMapper.java:80-81 | every merged channel was stored or requested |
| Mapper.RequestedIsRepresented | src/main/java/se/sundsvall/feedbacksettings/service/mapper/FeedbackSettingsMapper.java:80-81 | every requested channel has a matching channel in the merge |
| Mapper.SubsequenceKeepsUniqueKeys | src/main/java/se/sundsvall/feedbacksettings/integration/db/model/FeedbackSettingsEntity.java:67-68 | dropping channels keeps channel keys unique |
| Mapper.KeptAndAddedKeysDiffer | src/main/java/se/sundsvall/feedbacksettings/service/mapper/FeedbackSettingsMapper.java:80-81 | with requested keys distinct ignoring case, a kept channel and an added one never share a key |
| Mapper.MergeKeepsChannelKeysUnique | src/main/java/se/sundsvall/feedbacksettings/service/mapper/FeedbackSettingsMapper.java:73-88 | unique stored keys and requested keys distinct ignoring case give a merge with unique keys |
| Mapper.DistinctIgnoringCaseIsUnique | src/main/java/se/sundsvall/feedbacksettings/integration/db/model/FeedbackSettingsEntity.java:67-68 | keys distinct ignoring case are distinct |
| Mapper.KeptThenAddedIsUnique | src/main/java/se/sundsvall/feedbacksettings/service/mapper/FeedbackSettingsMapper.java:80-81 | the kept part and the added part, each unique, concatenate to a unique list |
| Mapper.CaseVariantsExist | src/main/java/se/sundsvall/feedbacksettings/service/util/MappingUtils.java:74 | there are distinct destinations that are equal ignoring case |
| Mapper.ValidPatchCanBreakChannelUniqueness | src/main/java/se/sundsvall/feedbacksettings/service/mapper/FeedbackSettingsMapper.java:73-88 | a stored list with unique keys and a patch with no violations can merge into a list with a duplicate key |
| Mapper.ClashPatchIsValid | src/main/java/se/sundsvall/feedbacksettings/api/model/UpdateFeedbackSettingsRequest.java:15-17 | the clashing patch passes validation |
| Mapper.ClashPatchIsUnique | src/main/java/se/sundsvall/feedbacksettings/api/validation/impl/UniqueFeedbackChannelsConstraintValidator.java:18-28 | the clashing patch's keys are distinct case-sensitively |
| Mapper.ClashPatchElementsAreValid | src/main/java/se/sundsvall/feedbacksettings/api/model/RequestedFeedbackChannel.java:14-26 | the clashing patch's channels have no field violations |
| Mapper.ClashMerge | src/main/java/se/sundsvall/feedbacksettings/service/mapper/FeedbackSettingsMapper.java:78-81 | the clashing merge keeps the stored channel and adds the flag-changed one with the same key |
| Repository.FindByPersonIdAndOrganizationId | src/main/java/se/sundsvall/feedbacksettings/integration/db/FeedbackSettingsRepository.java:17-28 | an order-preserving subsequence of the table holding every row that passes each non-blank filter, with its multiplicity, and no other row; all rows when no filter applies |
| Repository.FindWithoutFiltersReturnsAll | src/main/java/se/sundsvall/feedbacksettings/integration/db/FeedbackSettingsRepository.java:18-27 | with both filters blank every row is returned |
| Repository.FindByPersonOnly | src/main/java/se/sundsvall/feedbacksettings/integration/db/FeedbackSettingsRepository.java:23-25 | with only the person filter, a row is found iff its person id equals it, whatever its organization |
| Repository.FindByOrganizationOnly | src/main/java/se/sundsvall/feedbacksettings/integration/db/FeedbackSettingsRepository.java:20-22 | with only the organization filter, a row is found iff its organization id equals it |
| Repository.BlankFilterIsAbsent | src/main/java/se/sundsvall/feedbacksettings/integration/db/FeedbackSettingsRepository.java:20-25 | a blank filter value acts as no filter |
| Repository.CountWhere | src/main/java/se/sundsvall/feedbacksettings/integration/db/FeedbackSettingsRepository.java:30-35 | the count is positive iff some row satisfies the query |
| Repository.ExistsIffOwnerStored | src/main/java/se/sundsvall/feedbacksettings/integration/db/FeedbackSettingsRepository.java:30-35 | true iff a row has that person id and the same organization id, where null matches only null |
| Repository.NullPersonNeverExists | src/main/java/se/sundsvall/feedbacksettings/integration/db/FeedbackSettingsRepository.java:32-34 | with SQL null comparison a null person id never matches |
| Repository.PersonalAndRepresentativeAreSeparate | src/main/java/se/sundsvall/feedbacksettings/integration/db/FeedbackSettingsRepository.java:31-34 | personal settings do not count as representative settings of the same person, nor the reverse |
| Repository.IndexOfId | src/main/java/se/sundsvall/feedbacksettings/integration/db/model/FeedbackSettingsEntity.java:51-55 | the position of the row with that id, or -1 iff none has it |
| Repository.RemoveAt | src/main/java/se/sundsvall/feedbacksettings/service/FeedbackSettingsService.java:88 | the rows without the one at that position, others in order |
| Repository.FeedbackSettingsRepository.Empty | src/main/java/se/sundsvall/feedbacksettings/integration/db/model/FeedbackSettingsEntity.java:33-35 | an empty table satisfies every constraint |
| Repository.FeedbackSettingsRepository.FindById | src/main/java/se/sundsvall/feedbacksettings/service/FeedbackSettingsService.java:47 | the row with that id, or absent iff no row has it |
| Repository.FeedbackSettingsRepository.Persist | src/main/java/se/sundsvall/feedbacksettings/service/FeedbackSettingsService.java:40 | the entity gets its id and `created` stamp; the row is appended iff it satisfies the table constraints, else the table is unchanged; constraints are kept |
| Repository.FeedbackSettingsRepository.PersistAndFlush | src/main/java/se/sundsvall/feedbacksettings/service/FeedbackSettingsService.java:52 | an unchanged entity is a no-op; a changed one is stamped `modified` and replaces its row iff the result satisfies the constraints |
| Repository.FeedbackSettingsRepository.DeleteById | src/main/java/se/sundsvall/feedbacksettings/service/FeedbackSettingsService.java:88 | removes exactly the row with that id, reporting whether there was one |
| Repository.StorableAmongOthers | src/main/java/se/sundsvall/feedbacksettings/integration/db/model/FeedbackSettingsEntity.java:33-35 | in a valid table every row satisfies the constraints against all the others |
| Repository.ReplaceKeepsValid | src/main/java/se/sundsvall/feedbacksettings/integration/db/model/FeedbackSettingsEntity.java:33-35 | replacing a row by one storable among the others keeps the table valid |
| Repository.RemoveKeepsValid | src/main/java/se/sundsvall/feedbacksettings/integration/db/model/FeedbackSettingsEntity.java:33-35 | deleting a row keeps the table valid |
| Service.MessagesNameTheirSubject | src/test/java/se/sundsvall/feedbacksettings/service/FeedbackSettingsServiceTest.java:108-147 | the not-found and the personal-conflict messages each identify their id: different ids never give the same message |
| Service.MergedRow | src/main/java/se/sundsvall/feedbacksettings/service/FeedbackSettingsService.java:50-52 | a patch without channels leaves the row as it was; otherwise the channel list becomes the merge of the stored list with the mapped request; id, owner and `created` are kept; `modified` is stamped exactly when the channel list changed |
| Service.PageCount | src/main/java/se/sundsvall/feedbacksettings/service/FeedbackSettingsService.java:76 | one page when there are no records; otherwise the least number of pages of that size that holds all records |
| Service.PageOf | src/main/java/se/sundsvall/feedbacksettings/service/FeedbackSettingsService.java:71 | at most `size` consecutive rows from `start`; full unless the rows run out |
| Service.SearchPage | src/main/java/se/sundsvall/feedbacksettings/service/FeedbackSettingsService.java:64-81 | metadata echoes page and limit with total records, page count and shown count; past the last page the list is empty; otherwise it is the page's slice |
| Service.EveryMatchIsOnItsPage | src/main/java/se/sundsvall/feedbacksettings/service/FeedbackSettingsService.java:71 | the j-th match appears on page j / limit + 1 at position j mod limit |
| Service.PageIsEmptyIffPastLast | src/main/java/se/sundsvall/feedbacksettings/service/FeedbackSettingsService.java:69-71 | a page is empty iff it lies past the last page or nothing matched |
| Service.PagesBeforeLastAreFull | src/main/java/se/sundsvall/feedbacksettings/service/FeedbackSettingsService.java:71 | every page before the last holds exactly `limit` items |
| Service.FeedbackSettingsService.constructor | src/main/java/se/sundsvall/feedbacksettings/service/FeedbackSettingsService.java:32-33 | the service works on the given repository |
| Service.FeedbackSettingsService.CreateFeedbackSettings | src/main/java/se/sundsvall/feedbacksettings/service/FeedbackSettingsService.java:35-43 | a conflict when settings exist for the owner pair; otherwise the new row is stored and its view returned, or a storage error leaves the table unchanged |
| Service.FeedbackSettingsService.UpdateFeedbackSettings | src/main/java/se/sundsvall/feedbacksettings/service/FeedbackSettingsService.java:45-55 | not found for an unknown id; otherwise the merged row replaces the stored one and its view is returned, or a storage error leaves the table unchanged |
| Service.FeedbackSettingsService.GetFeedbackSettingsById | src/main/java/se/sundsvall/feedbacksettings/service/FeedbackSettingsService.java:57-62 | not found iff no row has the id; otherwise the view of that row |
| Service.FeedbackSettingsService.DeleteFeedbackSettings | src/main/java/se/sundsvall/feedbacksettings/service/FeedbackSettingsService.java:83-89 | not found and no change for an unknown id; otherwise exactly that row is removed |
| Service.FeedbackSettingsService.GetFeedbackSettings | src/main/java/se/sundsvall/feedbacksettings/service/FeedbackSettingsService.java:64-81 | the result is the paging of the search's matches (so the paging lemmas apply to it): the total counts the matching rows, and every shown view is of a matching row |
| Service.CreateKeepsOwnersUnique | src/main/java/se/sundsvall/feedbacksettings/service/FeedbackSettingsService.java:97-105 | the existence check keeps at most one row per (person, organization) pair, null organization included |
| Service.TableAloneAllowsTwoPersonalRows | src/main/java/se/sundsvall/feedbacksettings/integration/db/model/FeedbackSettingsEntity.java:33-35 | the table's unique constraint alone lets two personal rows of one person through, so the check is needed |
| Service.ValidCreateIsStored | src/main/java/se/sundsvall/feedbacksettings/service/FeedbackSettingsService.java:35-43 | a valid request for an owner pair with no settings is always accepted by the table |
| Service.CaseDistinctUpdateIsStored | src/main/java/se/sundsvall/feedbacksettings/service/FeedbackSettingsService.java:45-55 | a patch whose keys are distinct ignoring case always merges into a storable row |
| Service.ClashingUpdateIsRefused | src/main/java/se/sundsvall/feedbacksettings/service/FeedbackSettingsService.java:50-52 | the clashing valid patch changes the row into one the table refuses |
| Service.DuplicateKeysBreakConstraint | src/main/java/se/sundsvall/feedbacksettings/integration/db/model/FeedbackSettingsEntity.java:67-68 | two channels with one key violate the channel constraint exactly when neither key part is null |
| PostFailures.NullSettingsResponse | src/test/java/se/sundsvall/feedbacksettings/api/FeedbackSettingsResourceFailuresTest.java:102-131 | posting a request whose only channel is all-null yields the four detail lines of the test, in order, then "Request: /settings", whatever order the violations arrive in |
| PostFailures.NullSettingsViolations | src/test/java/se/sundsvall/feedbacksettings/api/FeedbackSettingsResourceFailuresTest.java:123-128 | that request has exactly four violations: contact method, flag, destination format and person id |
| PostFailures.RenderedNullSettings | src/test/java/se/sundsvall/feedbacksettings/api/FeedbackSettingsResourceFailuresTest.java:123-128 | those four violations render as the test's detail lines |
| PostFailures.NullSettingsLines | src/test/java/se/sundsvall/feedbacksettings/api/FeedbackSettingsResourceFailuresTest.java:123-128 | the four lines are already in sorted order and match the expected texts |
| PostFailures.DetailsAreSorted | src/main/java/se/sundsvall/feedbacksettings/api/exception/mapper/ConstraintViolationExceptionMapper.java:48 | the expected lines are in the string order `sorted()` uses |
| PostFailures.SingletonListViolations | src/main/java/se/sundsvall/feedbacksettings/api/model/CreateFeedbackSettingsRequest.java:27-29 | a one-element list reports exactly the violations of its element |
| PostFailures.NullBodyViolations | src/main/java/se/sundsvall/feedbacksettings/api/model/CreateFeedbackSettingsRequest.java:18-29 | a body with null ids reports the person-id violation plus the channel violations |
| PostFailures.ChannelFieldLine | src/main/java/se/sundsvall/feedbacksettings/api/exception/mapper/ConstraintViolationExceptionMapper.java:48-54 | a field violation of the first channel renders as "body.channels[0].field: message" |
| PostFailures.ChannelLine | src/main/java/se/sundsvall/feedbacksettings/api/exception/mapper/ConstraintViolationExceptionMapper.java:48-54 | a class-level violation of the first channel renders as "body.channels[0]: message" |
| PostFailures.PersonIdLine | src/main/java/se/sundsvall/feedbacksettings/api/exception/mapper/ConstraintViolationExceptionMapper.java:48-54 | the person-id violation renders as "body.personId: message" |
| Strings.Sort | src/main/java/se/sundsvall/feedbacksettings/api/exception/mapper/ConstraintViolationExceptionMapper.java:48 | the result is sorted and a permutation of the input |
| Strings.SortedPermutationUnique | src/main/java/se/sundsvall/feedbacksettings/api/exception/mapper/ConstraintViolationExceptionMapper.java:48 | two sorted permutations of one multiset are equal, so the sorted output is determined |
| Strings.SortIgnoresOrder | src/main/java/se/sundsvall/feedbacksettings/api/exception/mapper/ConstraintViolationExceptionMapper.java:48 | sorting two permutations of one multiset gives the same list |
| Strings.EqualsIgnoreCaseIsEquivalence | src/main/java/se/sundsvall/feedbacksettings/service/util/MappingUtils.java:74 | comparison ignoring case is reflexive, symmetric and transitive |
| MappingUtils.Matches | src/main/java/se/sundsvall/feedbacksettings/service/util/MappingUtils.java:73-76 | two channels match when their destinations are equal ignoring case (both null counts as equal) and their contact methods and flags are equal |
| UniqueChannels.IsValid | src/main/java/se/sundsvall/feedbacksettings/api/validation/impl/UniqueFeedbackChannelsConstraintValidator.java:18-28 | a null list is valid; otherwise the number of distinct keys of the non-null elements equals the list's length (characterised by ValidIffNoNullsAndDistinctKeys) |
| Mapper.Merged | src/main/java/se/sundsvall/feedbacksettings/service/mapper/FeedbackSettingsMapper.java:78-81 | the list after `addAll(added)` then `removeAll(removed)`, the removed list computed on the grown list (characterised by MergedIsKeptThenAdded) |
| Violations.FieldName | src/main/java/se/sundsvall/feedbacksettings/api/exception/mapper/ConstraintViolationExceptionMapper.java:52-59 | the rendered path after its first dot, or "Unknown field" when that is "null" |
| Violations.Line | src/main/java/se/sundsvall/feedbacksettings/api/exception/mapper/ConstraintViolationExceptionMapper.java:48 | a detail line is the field name, ": " and the message |
| RequestedChannels.IsMobileNumber | src/test/java/se/sundsvall/feedbacksettings/api/FeedbackSettingsResourceFailuresTest.java:188 | the pattern 07[02369]nnnnnnn: ten digits, starting 070, 072, 073, 076 or 079 |
| RequestedChannels.DestinationConforms | src/main/java/se/sundsvall/feedbacksettings/api/model/RequestedFeedbackChannel.java:14 | SMS needs a mobile number and EMAIL a well-formed address; a missing contact method or destination never conforms |
| Repository.FilterAccepts | src/main/java/se/sundsvall/feedbacksettings/integration/db/FeedbackSettingsRepository.java:20-25 | a blank filter value switches the filter off; otherwise the column must equal the value |
| Repository.MatchesSearch | src/main/java/se/sundsvall/feedbacksettings/integration/db/FeedbackSettingsRepository.java:17-28 | a row passes the search when it passes both the organization and the person filter |
| Repository.ExistsByPersonIdAndOrganizationId | src/main/java/se/sundsvall/feedbacksettings/integration/db/FeedbackSettingsRepository.java:30-35 | the query's count is positive (characterised by ExistsIffOwnerStored) |
| Repository.UniqueConstraintCollides | src/main/java/se/sundsvall/feedbacksettings/integration/db/model/FeedbackSettingsEntity.java:33-35 | two rows collide on (person_id, organization_id) only when both are non-null and equal, since SQL treats nulls as distinct |
| Repository.Storable | src/main/java/se/sundsvall/feedbacksettings/integration/db/model/FeedbackSettingsEntity.java:33-76 | a row can be written next to the others when its id is new, it meets the column constraints, and it collides with none of them |
| Entity.UniqueChannelKeys | src/main/java/se/sundsvall/feedbacksettings/integration/db/model/FeedbackSettingsEntity.java:64-68 | no two channels of one row collide: equal contact method and destination, both non-null, compared exactly |
| Entity.NullKeyPartsNeverCollide | src/main/java/se/sundsvall/feedbacksettings/integration/db/model/FeedbackSettingsEntity.java:64-68 | any number of copies of a channel whose contact method or destination is null meets the channel constraint, since SQL nulls are distinct |
| Entity.EqualKeysCollide | src/main/java/se/sundsvall/feedbacksettings/integration/db/model/FeedbackSettingsEntity.java:64-68 | a channel with a non-null key collides with another exactly when their (contact method, destination) pairs are equal |
| Entity.RowConstraints | src/main/java/se/sundsvall/feedbacksettings/integration/db/model/FeedbackSettingsEntity.java:57-73 | `person_id` and `created` are not null and the channels have unique keys |
| Service.NewRow | src/main/java/se/sundsvall/feedbacksettings/service/FeedbackSettingsService.java:39-40 | the row a create writes: the generated id, the request's ids, its mapped channels and `created` stamped |
| Strings.BlankExamples | src/main/java/se/sundsvall/feedbacksettings/integration/db/FeedbackSettingsRepository.java:20-23 | null, empty and whitespace-only values are blank, Unicode separators included; the non-breaking spaces and text are not |

## Left out

- Strings.EqualsIgnoreCase: folds case on the ASCII letters only. Java's `equalsIgnoreCase` folds every character through `Character.toUpperCase` and `toLowerCase`, for example "ſms" equals "SMS" and "Åsa" equals "åsa" in Java but not here. UTF-16 lengths are not modelled either. This makes ContactMethods.ToEnum reject such non-ASCII case variants that the source accepts. It also makes MappingUtils.ExistsInList, Removed and Added, and hence Mapper.MergeFeedbackSettings, treat such destinations as different channels where the source would match them.
- Strings.LessEq: compares characters as Unicode scalar values. Java's `compareTo` compares UTF-16 code units, so characters above U+FFFF sort differently against U+E000..U+FFFF. Detail lines holding such characters may be ordered differently.
- HTTP and JAX-RS plumbing is not modelled. This covers resource methods, the URI-info lookup of the request path (a parameter) and the application name (a parameter). It also covers logging and the exception mappers other than the constraint-violation one.
- UUID and e-mail well-formedness are not interpreted. They are parameters (`isUuid`, `isEmail`), because the validators behind `@ValidUuid` and the e-mail branch of the destination check are library code.
- The destination-format validator implementation is not part of this model. The SMS rule is the one its message states and the failure tests show: ten digits starting 070, 072, 073, 076 or 079. A null destination is treated as non-conforming for either method.
- Search filters use SQL `like`. The model treats the filter value as an exact match: `%` and `_` wildcards are not modelled.
- Id generation and the clock are not modelled. The new UUID and the current instant are parameters. The instant is an integer count of nanoseconds, truncated to milliseconds as the hooks do. Time zones are not modelled.
- Panache's `pageCount()` is not part of this model. It is taken as one page when nothing matched and otherwise the ceiling of total over limit. Floating-point rounding and `int` truncation for very large counts are not modelled.
- The search query has no `ORDER BY`, so the database may return rows in any order. The model returns them in table (insertion) order, and paging is stated for that order.
- Concurrency and transactions are not modelled: each service method runs alone. This leaves out the race between the existence check and the insert.
- Hibernate fires `@PrePersist` and `@PreUpdate` on its own; the model calls them explicitly inside `Persist` and `PersistAndFlush`. The flush in `PersistAndFlush` treats an entity as dirty when it differs from its stored row.
- A write the database refuses is modelled as `Service.StorageError`. That is the 500 that the unhandled persistence exception would become through the default mapper.
- ServiceConstants is not part of this model. The not-found and personal-conflict texts are taken from the service tests. The representative-conflict text is kept structured (person id and organization id) rather than spelled out.
- Entity.FeedbackSettingsEntity.Equals: the source compares `id` with `==` (reference equality on strings); the model compares ids by value.
- The `FeedbackChannelEmbeddable` class is not part of this model. Its fields (nullable contact method, nullable destination, primitive flag) and value equality are inferred from its test, and its fluent setters are not modelled.
- Mapper.ToFeedbackChannelEmbeddables: requires every non-null requested channel to have a non-null `sendFeedback`. Unboxing a null flag throws in the source, and that exception is not modelled as an outcome. `Mapper.ValidCreateIsUnboxable` and `Mapper.ValidUpdateIsUnboxable` show that validated requests always meet this.
- Mapper.MergeFeedbackSettings: a stored entity whose channel list is null makes the source throw when it copies the list. The model returns `false` and changes nothing. Stored lists holding null elements are not modelled.
- The request beans' getters, setters, `hashCode` and `toString` are not modelled. Their `equals` methods are modelled as datatype equality.
- The paging parameters' `@Min(1)` constraints and defaults (page 1, limit 20) are preconditions and constants (`Service.DefaultPage`, `Service.DefaultLimit`); their violation responses are not modelled.
- Hibernate's handling of the element collection (delete and reinsert of rows) is not modelled. A row is stored as one value with its channel list.
