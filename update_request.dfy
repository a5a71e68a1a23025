/**
 * `UpdateFeedbackSettingsRequest`: a patch carries only an optional channel
 * list, unique and with valid elements, so channel violations (and a null
 * body) are all that validation can report.
 */
module UpdateRequests {
  import opened Wrappers
  import opened Violations
  import opened RequestedChannels
  import opened CreateRequests

  datatype UpdateFeedbackSettingsRequest = UpdateFeedbackSettingsRequest(
    channels: Option<seq<Option<RequestedFeedbackChannel>>>)

  /**
   * All violations of a patch call whose method node is `at` (the body lives
   * at "<at>.body"): the uniqueness violation of the list and those of its
   * non-null elements, so a patch is accepted exactly when its list is null,
   * or unique with every element valid.
   */
  function ValidateUpdate(body: Option<UpdateFeedbackSettingsRequest>, at: PropertyPath, isEmail: string -> bool)
    : (vs: set<ConstraintViolation>)
    ensures body.None? ==> vs == {ConstraintViolation(Some(at + [Named("body")]), NotNullMessage)}
    ensures body.Some? ==> forall v :: v in vs ==> UnderChannels(v.propertyPath, at + [Named("body")])
    ensures body.Some? ==>
      (ConstraintViolation(Some(at + [Named("body"), Named("channels")]), UniqueMessage) in vs <==>
       !UniqueChannels.IsValid(body.value.channels))
    ensures body.Some? ==> forall v :: v in vs <==>
      (v == ConstraintViolation(Some(at + [Named("body"), Named("channels")]), UniqueMessage) &&
       !UniqueChannels.IsValid(body.value.channels)) ||
      ViolatesElement(v, body.value.channels.GetOr([]), at + [Named("body")], isEmail, 0)
    ensures body.Some? && body.value.channels.None? ==> vs == {}
    ensures vs == {} <==> (
      body.Some? && UniqueChannels.IsValid(body.value.channels) &&
      forall j :: 0 <= j < |body.value.channels.GetOr([])| && body.value.channels.GetOr([])[j].Some? ==>
        ValidateChannel(body.value.channels.GetOr([])[j].value, ElementPath(at + [Named("body")], j), isEmail) == {})
  {
    match body
    case None => {ConstraintViolation(Some(at + [Named("body")]), NotNullMessage)}
    case Some(req) =>
      assert at + [Named("body")] + [Named("channels")] == at + [Named("body"), Named("channels")];
      ChannelListViolations(req.channels, at + [Named("body")], isEmail)
  }

  /**
   * Each channel is validated exactly as in a create request: a create body
   * with a valid person id and no organization reports exactly the violations
   * of a patch body with the same channels.
   */
  lemma ChannelsValidatedAsInCreate(channels: Option<seq<Option<RequestedFeedbackChannel>>>, personId: string,
                                    at: PropertyPath, isUuid: string -> bool, isEmail: string -> bool)
    requires isUuid(personId)
    ensures ValidateCreate(Some(CreateFeedbackSettingsRequest(Some(personId), None, channels)), at, isUuid, isEmail) ==
            ValidateUpdate(Some(UpdateFeedbackSettingsRequest(channels)), at, isEmail)
  {
  }
}
