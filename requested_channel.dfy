/**
 * `RequestedFeedbackChannel`: a channel as it arrives in a request, with its
 * declared constraints. `contactMethod` and `sendFeedback` must not be null; the
 * destination has no field constraint of its own and is checked by the
 * class-level destination-format constraint, whose violation is reported on the
 * channel's own path.
 */
module RequestedChannels {
  import opened Wrappers
  import opened ContactMethods
  import opened Violations

  datatype RequestedFeedbackChannel = RequestedFeedbackChannel(
    contactMethod: Option<ContactMethod>,
    destination: Option<string>,
    sendFeedback: Option<bool>)

  const NotNullMessage := "must not be null"
  const NotCompliableMessage := "format for destination is not compliable with provided contact method"
  const SmsPatternMessage := "destination must match pattern 07[02369]nnnnnnn when provided contact method is SMS"
  const EmailMessage := "destination must be a well-formed email address when provided contact method is EMAIL"

  predicate IsDigit(c: char)
  {
    '0' <= c <= '9'
  }

  /** The pattern `07[02369]nnnnnnn`: a Swedish mobile number of exactly ten digits. */
  predicate IsMobileNumber(s: string)
  {
    |s| == 10 && s[0] == '0' && s[1] == '7' && s[2] in "02369" &&
    forall i :: 3 <= i < 10 ==> IsDigit(s[i])
  }

  /**
   * The destination-format check: SMS needs a mobile number, EMAIL a
   * well-formed address (`isEmail`), and a missing contact method never
   * conforms. A null destination does not conform either.
   */
  predicate DestinationConforms(ch: RequestedFeedbackChannel, isEmail: string -> bool)
  {
    match ch.contactMethod
    case None => false
    case Some(SMS) => ch.destination.Some? && IsMobileNumber(ch.destination.value)
    case Some(EMAIL) => ch.destination.Some? && isEmail(ch.destination.value)
  }

  /** The message of the destination-format violation, chosen by the contact method. */
  function FormatMessage(m: Option<ContactMethod>): string
  {
    match m
    case None => NotCompliableMessage
    case Some(SMS) => SmsPatternMessage
    case Some(EMAIL) => EmailMessage
  }

  /** `p` lies at or below `at`. */
  predicate Under(p: Option<PropertyPath>, at: PropertyPath)
  {
    p.Some? && |at| <= |p.value| && p.value[..|at|] == at
  }

  /**
   * The violations of one channel found at path `at`: every constraint is
   * checked, none short-circuits another.
   */
  function ValidateChannel(ch: RequestedFeedbackChannel, at: PropertyPath, isEmail: string -> bool)
    : (vs: set<ConstraintViolation>)
    ensures ConstraintViolation(Some(at + [Named("contactMethod")]), NotNullMessage) in vs <==> ch.contactMethod.None?
    ensures ConstraintViolation(Some(at + [Named("sendFeedback")]), NotNullMessage) in vs <==> ch.sendFeedback.None?
    ensures ConstraintViolation(Some(at), FormatMessage(ch.contactMethod)) in vs <==> !DestinationConforms(ch, isEmail)
    ensures forall v :: v in vs ==>
      v == ConstraintViolation(Some(at + [Named("contactMethod")]), NotNullMessage) ||
      v == ConstraintViolation(Some(at + [Named("sendFeedback")]), NotNullMessage) ||
      v == ConstraintViolation(Some(at), FormatMessage(ch.contactMethod))
    ensures forall v :: v in vs ==> Under(v.propertyPath, at)
    ensures |vs| <= 3
    ensures vs == {} <==> ch.contactMethod.Some? && ch.sendFeedback.Some? && DestinationConforms(ch, isEmail)
  {
    var cm := at + [Named("contactMethod")];
    var sf := at + [Named("sendFeedback")];
    FieldPathsApart(at);
    Reported(ConstraintViolation(Some(cm), NotNullMessage), ch.contactMethod.None?,
             ConstraintViolation(Some(sf), NotNullMessage), ch.sendFeedback.None?,
             ConstraintViolation(Some(at), FormatMessage(ch.contactMethod)), !DestinationConforms(ch, isEmail))
  }

  /** The violations among three distinct candidates whose constraints fail: each is reported when its flag is set. */
  function Reported(a: ConstraintViolation, failsA: bool, b: ConstraintViolation, failsB: bool,
                    c: ConstraintViolation, failsC: bool): (vs: set<ConstraintViolation>)
    requires a != b && a != c && b != c
    ensures (a in vs <==> failsA) && (b in vs <==> failsB) && (c in vs <==> failsC)
    ensures forall v :: v in vs ==> v == a || v == b || v == c
    ensures |vs| <= 3
    ensures vs == {} <==> !failsA && !failsB && !failsC
  {
    var sa: set<ConstraintViolation> := if failsA then {a} else {};
    var sb: set<ConstraintViolation> := if failsB then {b} else {};
    var sc: set<ConstraintViolation> := if failsC then {c} else {};
    assert |sa| <= 1 && |sb| <= 1 && |sc| <= 1;
    assert |sa + sb| <= 2;
    sa + sb + sc
  }

  /** The two field paths of a channel lie below it and are distinct from it and from each other. */
  lemma FieldPathsApart(at: PropertyPath)
    ensures Under(Some(at + [Named("contactMethod")]), at) && Under(Some(at + [Named("sendFeedback")]), at)
    ensures Under(Some(at), at)
    ensures at + [Named("contactMethod")] != at && at + [Named("sendFeedback")] != at
    ensures at + [Named("contactMethod")] != at + [Named("sendFeedback")]
  {
    var cm := at + [Named("contactMethod")];
    var sf := at + [Named("sendFeedback")];
    assert cm[..|at|] == at && sf[..|at|] == at && at[..|at|] == at;
    assert cm[|at|] != sf[|at|];
  }

  /** The mobile numbers the pattern accepts and rejects. */
  lemma MobileNumberExamples()
    ensures IsMobileNumber("0701234567")
    ensures IsMobileNumber("0731234567") && IsMobileNumber("0761234567") && IsMobileNumber("0791234567")
    ensures !IsMobileNumber("") && !IsMobileNumber(" ")
    ensures !IsMobileNumber("070-1234567") && !IsMobileNumber("070123456") && !IsMobileNumber("07012345678")
    ensures !IsMobileNumber("0711234567") && !IsMobileNumber("0741234567") && !IsMobileNumber("0751234567")
    ensures !IsMobileNumber("0771234567") && !IsMobileNumber("0781234567") && !IsMobileNumber("46701234567")
  {
  }

  /** A channel with every field null breaks all three constraints. */
  lemma NullChannelViolations(at: PropertyPath, isEmail: string -> bool)
    ensures ValidateChannel(RequestedFeedbackChannel(None, None, None), at, isEmail) == {
      ConstraintViolation(Some(at + [Named("contactMethod")]), NotNullMessage),
      ConstraintViolation(Some(at + [Named("sendFeedback")]), NotNullMessage),
      ConstraintViolation(Some(at), NotCompliableMessage)}
  {
  }
}
