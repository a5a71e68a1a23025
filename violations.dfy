/**
 * Constraint violations and their rendering into an error response
 * (`ConstraintViolationExceptionMapper`): each violation becomes the line
 * "<field>: <message>", where the field is the property path after its first
 * '.', the lines are sorted, and "Request: <path>" closes the list.
 */
module Violations {
  import opened Wrappers
  import opened Strings
  import opened Sequences

  /** One node of a property path: a property, or an element of an indexed property ("channels[0]"). */
  datatype PathNode = Named(name: string) | Element(name: string, index: nat)

  type PropertyPath = seq<PathNode>

  /** A violated constraint: where (possibly null), and the constraint's message. */
  datatype ConstraintViolation = ConstraintViolation(propertyPath: Option<PropertyPath>, message: string)

  function NodeText(n: PathNode): string
  {
    match n
    case Named(name) => name
    case Element(name, i) => name + "[" + NatToString(i) + "]"
  }

  /** The rendered path: node texts joined with '.'. */
  function PathText(p: PropertyPath): string
  {
    if |p| == 0 then ""
    else if |p| == 1 then NodeText(p[0])
    else NodeText(p[0]) + "." + PathText(p[1..])
  }

  /** `String.valueOf(propertyPath)`: a null path renders as "null". */
  function PathString(p: Option<PropertyPath>): string
  {
    match p
    case None => "null"
    case Some(q) => PathText(q)
  }

  /**
   * `mapPropertyPathToFieldName`: the rendered path after its first '.' (all of
   * it when there is none), with "null" replaced by "Unknown field".
   */
  function FieldName(v: ConstraintViolation): string
  {
    var s := PathString(v.propertyPath);
    var trimmed := s[IndexOf(s, '.') + 1..];
    if trimmed == "null" then "Unknown field" else trimmed
  }

  /** `format("%s: %s", field, message)`. */
  function Line(v: ConstraintViolation): string
  {
    FieldName(v) + ": " + v.message
  }

  function Lines(vs: seq<ConstraintViolation>): seq<string>
  {
    MapSeq(Line, vs)
  }

  /** `getConstraintViolationDetails`: one line per violation, sorted. */
  function ViolationDetails(vs: seq<ConstraintViolation>): (ds: seq<string>)
    ensures Sorted(ds)
    ensures multiset(ds) == multiset(Lines(vs))
  {
    Sort(Lines(vs))
  }

  datatype TechnicalDetails = TechnicalDetails(
    rootCode: int, rootCause: string, serviceId: string, details: seq<string>)

  datatype ServiceErrorResponse = ServiceErrorResponse(
    message: string, httpCode: int, technicalDetails: TechnicalDetails)

  const BadRequest := 400

  /**
   * `toResponse`: "Request validation failed", 400 as HTTP and root code,
   * "Constraint violation" as root cause, and the details: the sorted lines
   * followed by exactly one "Request: <path>". `vs` is the violation set in
   * its iteration order.
   */
  function ToResponse(vs: seq<ConstraintViolation>, requestPath: string, applicationName: string)
    : (r: ServiceErrorResponse)
    ensures r.message == "Request validation failed"
    ensures r.httpCode == BadRequest && r.technicalDetails.rootCode == BadRequest
    ensures r.technicalDetails.rootCause == "Constraint violation"
    ensures r.technicalDetails.serviceId == applicationName
    ensures |r.technicalDetails.details| == |vs| + 1
    ensures r.technicalDetails.details[|vs|] == "Request: " + requestPath
    ensures Sorted(r.technicalDetails.details[..|vs|])
    ensures multiset(r.technicalDetails.details[..|vs|]) == multiset(Lines(vs))
  {
    var lines := ViolationDetails(vs);
    var details := lines + ["Request: " + requestPath];
    assert |lines| == |multiset(lines)| == |multiset(Lines(vs))| == |vs|;
    assert details[..|vs|] == lines;
    ServiceErrorResponse(
      "Request validation failed", BadRequest,
      TechnicalDetails(BadRequest, "Constraint violation", applicationName, details))
  }

  /**
   * The response does not depend on the order in which the violation set is
   * iterated: two arrangements of the same violations render identically.
   */
  lemma ResponseIgnoresOrder(a: seq<ConstraintViolation>, b: seq<ConstraintViolation>, requestPath: string, app: string)
    requires multiset(a) == multiset(b)
    ensures ToResponse(a, requestPath, app) == ToResponse(b, requestPath, app)
  {
    MapSeqPermutation(Line, a, b);
    SortIgnoresOrder(Lines(a), Lines(b));
  }

  /** A path of one node has no '.' to trim: its field name is the whole node text. */
  lemma FieldNameOfRootNode(n: PathNode, message: string)
    requires '.' !in NodeText(n) && NodeText(n) != "null"
    ensures FieldName(ConstraintViolation(Some([n]), message)) == NodeText(n)
  {
  }

  /** A violation without a path is reported against "Unknown field". */
  lemma NullPathIsUnknownField(message: string)
    ensures Line(ConstraintViolation(None, message)) == "Unknown field: " + message
  {
    assert '.' !in "null";
  }

  /**
   * When the first node's text has no '.', the field name is the rendering of
   * the rest of the path: the resource method's name is trimmed away.
   */
  lemma FieldNameDropsFirstNode(first: PathNode, rest: PropertyPath, message: string)
    requires |rest| > 0
    requires '.' !in NodeText(first)
    requires PathText(rest) != "null"
    ensures FieldName(ConstraintViolation(Some([first] + rest), message)) == PathText(rest)
  {
    var p := [first] + rest;
    assert p[1..] == rest;
    assert PathText(p) == NodeText(first) + "." + PathText(rest);
    TrimAfterFirstDot(NodeText(first), PathText(rest));
  }

  /** Cutting `a + "." + b` after its first '.' leaves `b` when `a` has no '.'. */
  lemma TrimAfterFirstDot(a: string, b: string)
    requires '.' !in a
    ensures var s := a + "." + b; s[IndexOf(s, '.') + 1..] == b
  {
    var s := a + "." + b;
    var k := IndexOf(s, '.');
    assert s[|a|] == '.';
    assert s[..|a|] == a;
    assert k == |a|;
    assert s[|a| + 1..] == b;
  }
}
