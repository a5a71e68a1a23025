/**
 * Validation and rendering composed: a create request rejected by the
 * constraints of the resource's create method and rendered by the constraint
 * violation mapper. The violations of the call are found below the method
 * node (named after the resource method, "postFeedbackSettings"); the
 * rendering trims that node away, so the response does not depend on its name.
 *
 * Several lemmas below take the request, the violation set or the expected
 * lines as parameters tied by a `requires x == …`, and the channel path text
 * is written as a concatenation. Both keep the solver from expanding these
 * literal values character by character, which would make each proof far
 * more expensive; the statements are the same as with the values inlined.
 */
module PostFailures {
  import opened Wrappers
  import opened Strings
  import opened Sequences
  import opened Violations
  import opened RequestedChannels
  import opened CreateRequests

  /** A create request whose only channel has every field null, and no ids. */
  const NullSettings := CreateFeedbackSettingsRequest(None, None,
    Some([Some(RequestedFeedbackChannel(None, None, None))]))

  /** The path of the request's first channel below the method node `m`. */
  function ChannelPath(m: string): PropertyPath
  {
    ElementPath([Named(m), Named("body")], 0)
  }

  function ContactMethodNull(m: string): ConstraintViolation
  {
    ConstraintViolation(Some(ChannelPath(m) + [Named("contactMethod")]), NotNullMessage)
  }

  function SendFeedbackNull(m: string): ConstraintViolation
  {
    ConstraintViolation(Some(ChannelPath(m) + [Named("sendFeedback")]), NotNullMessage)
  }

  function FormatBroken(m: string): ConstraintViolation
  {
    ConstraintViolation(Some(ChannelPath(m)), NotCompliableMessage)
  }

  function PersonIdNull(m: string): ConstraintViolation
  {
    ConstraintViolation(Some([Named(m), Named("body"), Named("personId")]), NotNullMessage)
  }

  /** The rendered path of the request's first channel, kept as a concatenation of its path parts (see above). */
  const ChannelText := "body" + "." + "channels" + "[" + "0" + "]"

  /** The detail lines of the rejection, in the order the response lists them. */
  function NullSettingsDetails(notNull: string, notCompliable: string): seq<string>
  {
    [ChannelText + "." + "contactMethod" + ": " + notNull,
     ChannelText + "." + "sendFeedback" + ": " + notNull,
     ChannelText + ": " + notCompliable,
     "body.personId: " + notNull,
     "Request: " + "/settings"]
  }

  /**
   * Posting `NullSettings` to "/settings" is rejected with exactly these
   * details: the four violations sorted by their lines, then the request
   * path. This holds for every order in which the violation set is iterated,
   * and for any method node name without a '.'.
   */
  lemma NullSettingsResponse(m: string, vs: seq<ConstraintViolation>, isUuid: string -> bool, isEmail: string -> bool,
                             app: string)
    requires '.' !in m
    requires multiset(vs) == multiset(ValidateCreate(Some(NullSettings), [Named(m)], isUuid, isEmail))
    ensures ToResponse(vs, "/settings", app).technicalDetails.details ==
            NullSettingsDetails(NotNullMessage, NotCompliableMessage)
  {
    NullSettingsViolations(m, isUuid, isEmail);
    RenderedNullSettings(m, vs, app, [ContactMethodNull(m), SendFeedbackNull(m), FormatBroken(m), PersonIdNull(m)],
      NullSettingsDetails(NotNullMessage, NotCompliableMessage));
  }

  lemma RenderedNullSettings(m: string, vs: seq<ConstraintViolation>, app: string,
                             canonical: seq<ConstraintViolation>, expected: seq<string>)
    requires '.' !in m
    requires canonical == [ContactMethodNull(m), SendFeedbackNull(m), FormatBroken(m), PersonIdNull(m)]
    requires expected == NullSettingsDetails(NotNullMessage, NotCompliableMessage)
    requires multiset(vs) == multiset({ContactMethodNull(m), SendFeedbackNull(m), FormatBroken(m), PersonIdNull(m)})
    ensures ToResponse(vs, "/settings", app).technicalDetails.details == expected
  {
    CanonicalOrder(m, canonical);
    NullSettingsLines(m, canonical);
    RenderedInOrder(vs, canonical, "/settings", app, expected);
  }

  /**
   * When the lines of some arrangement of the violations are already sorted,
   * the response lists exactly those lines and then the request path: sorting
   * leaves no choice.
   */
  lemma RenderedInOrder(vs: seq<ConstraintViolation>, canonical: seq<ConstraintViolation>, requestPath: string,
                        app: string, expected: seq<string>)
    requires multiset(vs) == multiset(canonical)
    requires Sorted(Lines(canonical))
    requires expected == Lines(canonical) + ["Request: " + requestPath]
    ensures ToResponse(vs, requestPath, app).technicalDetails.details == expected
  {
    var details := ToResponse(vs, requestPath, app).technicalDetails.details;
    var n := |vs|;
    assert |canonical| == |multiset(canonical)| == n;
    MapSeqPermutation(Line, vs, canonical);
    SortedPermutationUnique(details[..n], Lines(canonical));
    assert details == details[..n] + [details[n]];
  }

  /** The four violations are distinct, so listing them once each gives the multiset of the set. */
  lemma CanonicalOrder(m: string, canonical: seq<ConstraintViolation>)
    requires canonical == [ContactMethodNull(m), SendFeedbackNull(m), FormatBroken(m), PersonIdNull(m)]
    ensures multiset(canonical) == multiset({ContactMethodNull(m), SendFeedbackNull(m), FormatBroken(m), PersonIdNull(m)})
  {
    var paths := seq(4, i requires 0 <= i < 4 => canonical[i].propertyPath.value);
    assert paths[0][3] == Named("contactMethod") && paths[1][3] == Named("sendFeedback");
    assert |paths[2]| == 3 && |paths[0]| == 4 && |paths[1]| == 4;
    assert paths[3][2] == Named("personId") && paths[2][2] == Element("channels", 0);
  }

  /** The violations: both not-null checks and the format check of the channel, and the missing person id. */
  lemma NullSettingsViolations(m: string, isUuid: string -> bool, isEmail: string -> bool)
    ensures ValidateCreate(Some(NullSettings), [Named(m)], isUuid, isEmail) ==
            {ContactMethodNull(m), SendFeedbackNull(m), FormatBroken(m), PersonIdNull(m)}
  {
    ViolationsOfNullRequest(m, isUuid, isEmail, NullSettings, ValidateCreate(Some(NullSettings), [Named(m)], isUuid, isEmail));
  }

  lemma ViolationsOfNullRequest(m: string, isUuid: string -> bool, isEmail: string -> bool,
                                r: CreateFeedbackSettingsRequest, vs: set<ConstraintViolation>)
    requires r == NullSettings
    requires vs == ValidateCreate(Some(r), [Named(m)], isUuid, isEmail)
    ensures vs == {ContactMethodNull(m), SendFeedbackNull(m), FormatBroken(m), PersonIdNull(m)}
  {
    var b := [Named(m)] + [Named("body")];
    NullBodyViolations([Named(m)], r, isUuid, isEmail);
    NullListViolations(b, r.channels.value, isEmail);
    NullChannelViolationsBelow(m, isEmail);
    PersonIdPath(m);
    UnionOfFour(vs, ChannelListViolations(r.channels, b, isEmail),
      ValidateChannel(RequestedFeedbackChannel(None, None, None), ElementPath(b, 0), isEmail),
      ConstraintViolation(Some(b + [Named("personId")]), NotNullMessage),
      ContactMethodNull(m), SendFeedbackNull(m), FormatBroken(m), PersonIdNull(m));
  }

  lemma NullChannelViolationsBelow(m: string, isEmail: string -> bool)
    ensures ValidateChannel(RequestedFeedbackChannel(None, None, None), ElementPath([Named(m)] + [Named("body")], 0), isEmail) ==
            {ContactMethodNull(m), SendFeedbackNull(m), FormatBroken(m)}
  {
    assert [Named(m)] + [Named("body")] == [Named(m), Named("body")];
    NullChannelViolations(ChannelPath(m), isEmail);
  }

  lemma PersonIdPath(m: string)
    ensures ConstraintViolation(Some([Named(m)] + [Named("body")] + [Named("personId")]), NotNullMessage) == PersonIdNull(m)
  {
    assert [Named(m)] + [Named("body")] + [Named("personId")] == [Named(m), Named("body"), Named("personId")];
  }

  lemma UnionOfFour<T>(s: set<T>, c: set<T>, v: set<T>, x: T, a: T, b: T, d: T, e: T)
    requires s == {x} + c && c == v && v == {a, b, d} && x == e
    ensures s == {a, b, d, e}
  {
  }

  /** A body without ids whose channel list is present is rejected for its person id and its channels. */
  lemma NullBodyViolations(at: PropertyPath, r: CreateFeedbackSettingsRequest, isUuid: string -> bool,
                           isEmail: string -> bool)
    requires r.personId.None? && r.organizationId.None? && r.channels.Some?
    ensures ValidateCreate(Some(r), at, isUuid, isEmail) ==
            {ConstraintViolation(Some(at + [Named("body")] + [Named("personId")]), NotNullMessage)} +
            ChannelListViolations(r.channels, at + [Named("body")], isEmail)
  {
  }

  /** A list holding one all-null channel is unique; its only violations are the channel's own. */
  lemma NullListViolations(b: PropertyPath, l: seq<Option<RequestedFeedbackChannel>>, isEmail: string -> bool)
    requires l == [Some(RequestedFeedbackChannel(None, None, None))]
    ensures ChannelListViolations(Some(l), b, isEmail) == ValidateChannel(l[0].value, ElementPath(b, 0), isEmail)
  {
    SingletonListViolations(b, l[0].value, isEmail);
  }

  /** A list of one channel is unique; its only violations are that channel's own. */
  lemma SingletonListViolations(b: PropertyPath, ch: RequestedFeedbackChannel, isEmail: string -> bool)
    ensures ChannelListViolations(Some([Some(ch)]), b, isEmail) == ValidateChannel(ch, ElementPath(b, 0), isEmail)
  {
    SingletonIsUnique(ch);
    SingletonElementViolations(b, ch, isEmail);
    UniqueListViolations(Some([Some(ch)]), b, isEmail);
  }

  lemma UniqueListViolations(channels: Option<seq<Option<RequestedFeedbackChannel>>>, b: PropertyPath,
                             isEmail: string -> bool)
    requires UniqueChannels.IsValid(channels)
    ensures ChannelListViolations(channels, b, isEmail) == ElementViolations(channels.GetOr([]), b, isEmail, 0)
  {
  }

  lemma SingletonIsUnique(ch: RequestedFeedbackChannel)
    ensures UniqueChannels.IsValid(Some([Some(ch)]))
  {
    UniqueChannels.ValidIffNoNullsAndDistinctKeys([Some(ch)]);
  }

  lemma SingletonElementViolations(b: PropertyPath, ch: RequestedFeedbackChannel, isEmail: string -> bool)
    ensures ElementViolations([Some(ch)], b, isEmail, 0) == ValidateChannel(ch, ElementPath(b, 0), isEmail)
  {
    assert ElementViolations([Some(ch)], b, isEmail, 1) == {};
  }

  /** Each violation's line is its path after the method node, then its message; the lines come out sorted. */
  lemma NullSettingsLines(m: string, canonical: seq<ConstraintViolation>)
    requires '.' !in m
    requires canonical == [ContactMethodNull(m), SendFeedbackNull(m), FormatBroken(m), PersonIdNull(m)]
    ensures Sorted(Lines(canonical))
    ensures NullSettingsDetails(NotNullMessage, NotCompliableMessage) == Lines(canonical) + ["Request: " + "/settings"]
  {
    var ls := Lines(canonical);
    LinesOfFour(canonical);
    ChannelFieldLine(m, "contactMethod", NotNullMessage);
    ChannelFieldLine(m, "sendFeedback", NotNullMessage);
    ChannelLine(m, NotCompliableMessage);
    PersonIdLine(m, NotNullMessage);
    DetailsAreSorted(NotNullMessage, NotCompliableMessage, ls);
  }

  lemma LinesOfFour(vs: seq<ConstraintViolation>)
    requires |vs| == 4
    ensures Lines(vs) == [Line(vs[0]), Line(vs[1]), Line(vs[2]), Line(vs[3])]
  {
    MapSeqOfFour(Line, vs);
  }

  lemma MapSeqOfFour<A, B>(f: A -> B, s: seq<A>)
    requires |s| == 4
    ensures MapSeq(f, s) == [f(s[0]), f(s[1]), f(s[2]), f(s[3])]
  {
    var r := MapSeq(f, s);
    assert r[0] == f(s[0]) && r[1] == f(s[1]) && r[2] == f(s[2]) && r[3] == f(s[3]);
  }

  lemma PathTextCons(n: PathNode, rest: PropertyPath)
    requires |rest| > 0
    ensures PathText([n] + rest) == NodeText(n) + "." + PathText(rest)
  {
    assert ([n] + rest)[1..] == rest;
  }

  lemma {:induction false} PathTextSnoc(p: PropertyPath, n: PathNode)
    requires |p| > 0
    ensures PathText(p + [n]) == PathText(p) + "." + NodeText(n)
    decreases |p|
  {
    if |p| == 1 {
      assert (p + [n])[1..] == [n];
    } else {
      assert (p + [n])[1..] == p[1..] + [n];
      PathTextSnoc(p[1..], n);
    }
  }

  lemma ChannelNodeText()
    ensures NodeText(Element("channels", 0)) == "channels[0]"
  {
    assert NatToString(0) == "0";
  }

  /** The rendering of the first channel's path after the method node. */
  lemma ChannelPathText()
    ensures PathText([Named("body"), Element("channels", 0)]) == ChannelText
  {
    ChannelNodeText();
    PathTextCons(Named("body"), [Element("channels", 0)]);
    assert [Named("body")] + [Element("channels", 0)] == [Named("body"), Element("channels", 0)];
  }

  /** Below a method node without a '.', a violation's line starts with the rest of its path. */
  lemma LineBelowMethod(m: string, rest: PropertyPath, message: string)
    requires '.' !in m && |rest| > 0
    requires |PathText(rest)| > 4
    ensures Line(ConstraintViolation(Some([Named(m)] + rest), message)) == PathText(rest) + ": " + message
  {
    FieldNameDropsFirstNode(Named(m), rest, message);
  }

  /** The line of a violation on a field of the first channel. */
  lemma ChannelFieldLine(m: string, field: string, message: string)
    requires '.' !in m
    ensures Line(ConstraintViolation(Some(ChannelPath(m) + [Named(field)]), message)) ==
            ChannelText + "." + field + ": " + message
  {
    var channel := [Named("body"), Element("channels", 0)];
    ChannelPathText();
    PathTextSnoc(channel, Named(field));
    assert ChannelPath(m) + [Named(field)] == [Named(m)] + (channel + [Named(field)]);
    LineBelowMethod(m, channel + [Named(field)], message);
  }

  /** The line of a violation on the first channel itself. */
  lemma ChannelLine(m: string, message: string)
    requires '.' !in m
    ensures Line(ConstraintViolation(Some(ChannelPath(m)), message)) == ChannelText + ": " + message
  {
    var channel := [Named("body"), Element("channels", 0)];
    ChannelPathText();
    assert ChannelPath(m) == [Named(m)] + channel;
    LineBelowMethod(m, channel, message);
  }

  /** The line of a violation on the person id. */
  lemma PersonIdLine(m: string, message: string)
    requires '.' !in m
    ensures Line(ConstraintViolation(Some([Named(m), Named("body"), Named("personId")]), message)) ==
            "body.personId: " + message
  {
    var rest := [Named("body"), Named("personId")];
    PathTextCons(Named("body"), [Named("personId")]);
    assert [Named("body")] + [Named("personId")] == rest;
    assert PathText(rest) == "body.personId";
    assert [Named(m), Named("body"), Named("personId")] == [Named(m)] + rest;
    LineBelowMethod(m, rest, message);
  }

  /** The four lines are in `compareTo` order, whatever the messages. */
  lemma DetailsAreSorted(notNull: string, notCompliable: string, d: seq<string>)
    requires d == [ChannelText + "." + "contactMethod" + ": " + notNull, ChannelText + "." + "sendFeedback" + ": " + notNull,
                   ChannelText + ": " + notCompliable, "body.personId: " + notNull]
    ensures Sorted(d)
  {
    assert d[0][..17] == d[1][..17];
    LessEqAfterPrefix(d[0], d[1], 17);
    assert d[1][..16] == d[2][..16];
    LessEqAfterPrefix(d[1], d[2], 16);
    assert d[2][..5] == d[3][..5];
    LessEqAfterPrefix(d[2], d[3], 5);
    LessEqTransitive(d[0], d[1], d[2]);
    LessEqTransitive(d[1], d[2], d[3]);
    LessEqTransitive(d[0], d[2], d[3]);
  }

  /** Two strings sharing their first `k` characters compare by the character at `k`. */
  lemma {:induction false} LessEqAfterPrefix(a: string, b: string, k: nat)
    requires k < |a| && k < |b| && a[..k] == b[..k] && a[k] < b[k]
    ensures LessEq(a, b)
    decreases k
  {
    if k > 0 {
      assert a[0] == a[..k][0] == b[..k][0] == b[0];
      assert a[1..][..k - 1] == a[..k][1..] == b[..k][1..] == b[1..][..k - 1];
      LessEqAfterPrefix(a[1..], b[1..], k - 1);
    }
  }
}
