/** The tracing segment as far as the request handler touches it: the inputs it
    is created from, the completion flags, the recorded response status and the
    calls that close it. */
module Segments {
  import opened Js

  /** The flags a segment can carry. A flag that was never set is absent
      (the JavaScript property does not exist), so flags form a set. */
  datatype Flag = ErrorFlag | FaultFlag | ThrottleFlag

  /** The two causes the SDK's status lookup can report. */
  datatype Cause = ErrorCause | FaultCause

  /** `segment[cause] = true` sets the flag named by the cause. */
  function CauseFlag(c: Cause): (f: Flag)
    ensures f != ThrottleFlag
  {
    match c
    case ErrorCause => ErrorFlag
    case FaultCause => FaultFlag
  }

  /** The SDK's `getCauseTypeFromHttpStatus`, which is not part of this model:
      any function from status code to an optional cause. */
  type CauseLookup = int -> Option<Cause>

  /** The two facts about the lookup that the unstubbed unit tests pin down:
      429 is an error, 200 has no cause. */
  predicate AgreesWithTests(lookup: CauseLookup) {
    lookup(TooManyRequests) == Some(ErrorCause) && lookup(200) == None
  }

  const TooManyRequests := 429

  /** The error object handed to `segment.close(error)`. */
  datatype ErrorValue = ErrorValue(message: string)

  /** A segment. `name`, `rootId` and `parentId` are what the constructor was
      given; `responses` logs each `segment.http.close(res)` by the status it
      recorded and `closes` logs each `segment.close(...)` by its error argument,
      so that a second close is visible rather than overwritten. */
  datatype Segment = Segment(
    id: string,
    name: string,
    rootId: Option<string>,
    parentId: Option<string>,
    flags: set<Flag>,
    responses: seq<int>,
    closes: seq<Option<ErrorValue>>)

  /** `new Segment(name, root, parent)`: no flags, no response, not closed. */
  function NewSegment(id: string, name: string, root: Option<string>, parent: Option<string>): (s: Segment)
    ensures s.id == id && s.name == name && s.rootId == root && s.parentId == parent
    ensures s.flags == {} && s.responses == [] && s.closes == []
  {
    Segment(id, name, root, parent, {}, [], [])
  }

  /** The flags the completion handler sets for a final status: throttle for
      exactly 429, and the flag of whatever cause the lookup reports. */
  function CompletionFlags(status: int, lookup: CauseLookup): (flags: set<Flag>)
    ensures ThrottleFlag in flags <==> status == TooManyRequests
    ensures ErrorFlag in flags <==> lookup(status) == Some(ErrorCause)
    ensures FaultFlag in flags <==> lookup(status) == Some(FaultCause)
  {
    var throttle: set<Flag> := if status == TooManyRequests then {ThrottleFlag} else {};
    var cause: set<Flag> := match lookup(status)
      case Some(c) => {CauseFlag(c)}
      case None => {};
    throttle + cause
  }

  /** `segment.close(error)`: logs one close with its (optional) error and adds
      `sdkFlags`, the flags the SDK's own close sets while capturing the error.
      Which flags those are is not part of this model, so they are an input. */
  function Close(s: Segment, err: Option<ErrorValue>, sdkFlags: set<Flag>): (r: Segment)
    ensures |r.closes| == |s.closes| + 1 && r.closes[|s.closes|] == err
    ensures r.closes[..|s.closes|] == s.closes
    ensures r.flags == s.flags + sdkFlags && r.responses == s.responses
  {
    s.(closes := s.closes + [err], flags := s.flags + sdkFlags)
  }

  /** A lookup that reports 4xx as an error and 5xx as a fault, and no cause
      for any other status. */
  function StandardLookup(status: int): Option<Cause> {
    if 400 <= status < 500 then Some(ErrorCause)
    else if 500 <= status < 600 then Some(FaultCause)
    else None
  }

  /** The standard lookup meets the facts the unit tests rely on, so lemmas that
      assume those facts are about a lookup that exists. */
  lemma StandardLookupAgreesWithTests()
    ensures AgreesWithTests(StandardLookup)
  {
  }

  /** Under the standard lookup the completion flags are: throttle and error at
      429, error alone for the rest of 4xx, fault alone for 5xx, and nothing
      otherwise. */
  lemma StandardCompletionFlags(status: int)
    ensures status == TooManyRequests ==> CompletionFlags(status, StandardLookup) == {ThrottleFlag, ErrorFlag}
    ensures 400 <= status < 500 && status != TooManyRequests ==> CompletionFlags(status, StandardLookup) == {ErrorFlag}
    ensures 500 <= status < 600 ==> CompletionFlags(status, StandardLookup) == {FaultFlag}
    ensures !(400 <= status < 600) ==> CompletionFlags(status, StandardLookup) == {}
  {
    var f := CompletionFlags(status, StandardLookup);
    if status == TooManyRequests {
      assert f == {ThrottleFlag, ErrorFlag};
    } else if 400 <= status < 500 {
      assert f == {ErrorFlag};
    } else if 500 <= status < 600 {
      assert f == {FaultFlag};
    } else {
      assert f == {};
    }
  }
}
