/**
 * `CreateFeedbackSettingsRequest` and its constraints, collected the way bean
 * validation collects them: every constraint is checked and every violation
 * reported. The body itself must not be null. `personId` is required and must
 * be a UUID, `organizationId` is an optional UUID, and `channels` may be absent
 * but must be unique and hold only valid channels. UUID well-formedness is the
 * `isUuid` parameter; a null id always passes the UUID check.
 */
module CreateRequests {
  import opened Wrappers
  import opened Violations
  import opened RequestedChannels
  import UniqueChannels

  datatype CreateFeedbackSettingsRequest = CreateFeedbackSettingsRequest(
    personId: Option<string>,
    organizationId: Option<string>,
    channels: Option<seq<Option<RequestedFeedbackChannel>>>)

  const UuidMessage := "must be a valid UUID"
  const UniqueMessage :=
    "the collection contains two or more elements with equal contactMethod and destination, these values must be unique"

  /** `@ValidUuid`: null passes; otherwise the value must parse as a UUID. */
  function ValidateUuid(id: Option<string>, at: PropertyPath, isUuid: string -> bool): (vs: set<ConstraintViolation>)
    ensures vs == {} <==> id.None? || isUuid(id.value)
    ensures vs != {} ==> vs == {ConstraintViolation(Some(at), UuidMessage)}
  {
    if id.Some? && !isUuid(id.value) then {ConstraintViolation(Some(at), UuidMessage)} else {}
  }

  /** The path of channel element `i` below `at`: "<at>.channels[i]". */
  function ElementPath(at: PropertyPath, i: nat): PropertyPath
  {
    at + [Element("channels", i)]
  }

  /** `p` lies below "<at>.channels" or below one of its elements "<at>.channels[i]". */
  predicate UnderChannels(p: Option<PropertyPath>, at: PropertyPath)
  {
    Under(p, at) && |p.value| > |at| && p.value[|at|].name == "channels"
  }

  lemma ElementPathIsUnderChannels(p: Option<PropertyPath>, at: PropertyPath, i: nat)
    requires Under(p, ElementPath(at, i))
    ensures UnderChannels(p, at) && p != Some(at + [Named("channels")])
  {
    var q := p.value;
    assert q[..|at| + 1] == ElementPath(at, i);
    assert q[|at|] == ElementPath(at, i)[|at|];
    assert q[..|at|] == ElementPath(at, i)[..|at|];
  }

  lemma SiblingIsNotUnderChannels(at: PropertyPath, name: string)
    requires name != "channels"
    ensures !UnderChannels(Some(at + [Named(name)]), at)
  {
    assert (at + [Named(name)])[|at|] == Named(name);
  }

  /** `v` is a violation of the non-null element at some index `j` from `i` on. */
  predicate ViolatesElement(v: ConstraintViolation, l: seq<Option<RequestedFeedbackChannel>>, at: PropertyPath,
                            isEmail: string -> bool, i: nat)
  {
    exists j :: i <= j < |l| && l[j].Some? && v in ValidateChannel(l[j].value, ElementPath(at, j), isEmail)
  }

  /** The violations of the non-null elements from index `i` on (`List<@Valid RequestedFeedbackChannel>`). */
  function ElementViolations(l: seq<Option<RequestedFeedbackChannel>>, at: PropertyPath, isEmail: string -> bool, i: nat)
    : (vs: set<ConstraintViolation>)
    requires i <= |l|
    ensures forall v :: v in vs <==> ViolatesElement(v, l, at, isEmail, i)
    ensures forall v :: v in vs ==> UnderChannels(v.propertyPath, at) && v.propertyPath != Some(at + [Named("channels")])
    decreases |l| - i
  {
    if i == |l| then {}
    else
      var rest := ElementViolations(l, at, isEmail, i + 1);
      var here := if l[i].Some? then ValidateChannel(l[i].value, ElementPath(at, i), isEmail) else {};
      forall v ensures v in here + rest <==> ViolatesElement(v, l, at, isEmail, i) {
        if ViolatesElement(v, l, at, isEmail, i) && v !in here {
          var j :| i <= j < |l| && l[j].Some? && v in ValidateChannel(l[j].value, ElementPath(at, j), isEmail);
          assert j != i;
          assert ViolatesElement(v, l, at, isEmail, i + 1);
        }
      }
      forall v | v in here
        ensures UnderChannels(v.propertyPath, at) && v.propertyPath != Some(at + [Named("channels")])
      {
        ElementPathIsUnderChannels(v.propertyPath, at, i);
      }
      here + rest
  }

  /**
   * The violations of a channel list found at `at`: one on "<at>.channels" when
   * the list is not unique, and those of each non-null element on
   * "<at>.channels[i]…". An absent list has none.
   */
  function ChannelListViolations(channels: Option<seq<Option<RequestedFeedbackChannel>>>, at: PropertyPath, isEmail: string -> bool)
    : (vs: set<ConstraintViolation>)
    ensures channels.None? ==> vs == {}
    ensures ConstraintViolation(Some(at + [Named("channels")]), UniqueMessage) in vs <==> !UniqueChannels.IsValid(channels)
    ensures forall v :: v in vs <==>
      (v == ConstraintViolation(Some(at + [Named("channels")]), UniqueMessage) && !UniqueChannels.IsValid(channels)) ||
      ViolatesElement(v, channels.GetOr([]), at, isEmail, 0)
    ensures forall v :: v in vs ==> UnderChannels(v.propertyPath, at)
  {
    var unique := if UniqueChannels.IsValid(channels) then {}
                   else {ConstraintViolation(Some(at + [Named("channels")]), UniqueMessage)};
    ListPathIsUnderChannels(at);
    unique + ElementViolations(channels.GetOr([]), at, isEmail, 0)
  }

  lemma ListPathIsUnderChannels(at: PropertyPath)
    ensures UnderChannels(Some(at + [Named("channels")]), at)
  {
    assert (at + [Named("channels")])[..|at|] == at;
  }

  /**
   * The violations of a non-null request body found at `b`, given those of its
   * channel list, which all lie below "<b>.channels".
   */
  function ValidateBody(req: CreateFeedbackSettingsRequest, b: PropertyPath, channels: set<ConstraintViolation>,
                        isUuid: string -> bool): (vs: set<ConstraintViolation>)
    requires forall v :: v in channels ==> UnderChannels(v.propertyPath, b)
    ensures ConstraintViolation(Some(b + [Named("personId")]), NotNullMessage) in vs <==> req.personId.None?
    ensures ConstraintViolation(Some(b + [Named("personId")]), UuidMessage) in vs <==>
      req.personId.Some? && !isUuid(req.personId.value)
    ensures ConstraintViolation(Some(b + [Named("organizationId")]), UuidMessage) in vs <==>
      req.organizationId.Some? && !isUuid(req.organizationId.value)
    ensures channels <= vs
    ensures forall v :: v in vs <==>
      (v == ConstraintViolation(Some(b + [Named("personId")]), NotNullMessage) && req.personId.None?) ||
      (v == ConstraintViolation(Some(b + [Named("personId")]), UuidMessage) &&
         req.personId.Some? && !isUuid(req.personId.value)) ||
      (v == ConstraintViolation(Some(b + [Named("organizationId")]), UuidMessage) &&
         req.organizationId.Some? && !isUuid(req.organizationId.value)) ||
      v in channels
    ensures forall v :: v in vs ==> Under(v.propertyPath, b)
    ensures vs == {} <==>
      req.personId.Some? && isUuid(req.personId.value) &&
      (req.organizationId.None? || isUuid(req.organizationId.value)) && channels == {}
  {
    var person := b + [Named("personId")];
    var organization := b + [Named("organizationId")];
    SiblingIsAbsentFromChannels(b, "personId", channels);
    SiblingIsAbsentFromChannels(b, "organizationId", channels);
    assert person != organization by { assert person[|b|] != organization[|b|]; }
    FieldPathIsUnder(b, "personId");
    FieldPathIsUnder(b, "organizationId");
    (if req.personId.None? then {ConstraintViolation(Some(person), NotNullMessage)} else {}) +
    ValidateUuid(req.personId, person, isUuid) +
    ValidateUuid(req.organizationId, organization, isUuid) +
    channels
  }

  lemma FieldPathIsUnder(b: PropertyPath, name: string)
    ensures Under(Some(b + [Named(name)]), b)
  {
    assert (b + [Named(name)])[..|b|] == b;
  }

  lemma SiblingIsAbsentFromChannels(b: PropertyPath, name: string, channels: set<ConstraintViolation>)
    requires name != "channels"
    requires forall v :: v in channels ==> UnderChannels(v.propertyPath, b)
    ensures forall m :: ConstraintViolation(Some(b + [Named(name)]), m) !in channels
  {
    SiblingIsNotUnderChannels(b, name);
  }

  /**
   * All violations of a create call whose method node is `at` (the request
   * body lives at "<at>.body"). A null body gives exactly one violation.
   */
  function ValidateCreate(body: Option<CreateFeedbackSettingsRequest>, at: PropertyPath,
                          isUuid: string -> bool, isEmail: string -> bool): (vs: set<ConstraintViolation>)
    ensures body.None? ==> vs == {ConstraintViolation(Some(at + [Named("body")]), NotNullMessage)}
    ensures body.Some? ==> var b := at + [Named("body")];
      (ConstraintViolation(Some(b + [Named("personId")]), NotNullMessage) in vs <==> body.value.personId.None?) &&
      (ConstraintViolation(Some(b + [Named("personId")]), UuidMessage) in vs <==>
         body.value.personId.Some? && !isUuid(body.value.personId.value)) &&
      (ConstraintViolation(Some(b + [Named("organizationId")]), UuidMessage) in vs <==>
         body.value.organizationId.Some? && !isUuid(body.value.organizationId.value)) &&
      ChannelListViolations(body.value.channels, b, isEmail) <= vs
    ensures body.Some? ==> var b := at + [Named("body")];
      forall v :: v in vs <==>
        (v == ConstraintViolation(Some(b + [Named("personId")]), NotNullMessage) && body.value.personId.None?) ||
        (v == ConstraintViolation(Some(b + [Named("personId")]), UuidMessage) &&
           body.value.personId.Some? && !isUuid(body.value.personId.value)) ||
        (v == ConstraintViolation(Some(b + [Named("organizationId")]), UuidMessage) &&
           body.value.organizationId.Some? && !isUuid(body.value.organizationId.value)) ||
        v in ChannelListViolations(body.value.channels, b, isEmail)
    ensures body.Some? ==> forall v :: v in vs ==> Under(v.propertyPath, at + [Named("body")])
    ensures vs == {} <==>
      body.Some? && body.value.personId.Some? && isUuid(body.value.personId.value) &&
      (body.value.organizationId.None? || isUuid(body.value.organizationId.value)) &&
      ChannelListViolations(body.value.channels, at + [Named("body")], isEmail) == {}
  {
    match body
    case None => {ConstraintViolation(Some(at + [Named("body")]), NotNullMessage)}
    case Some(req) =>
      var b := at + [Named("body")];
      ValidateBody(req, b, ChannelListViolations(req.channels, b, isEmail), isUuid)
  }
}
