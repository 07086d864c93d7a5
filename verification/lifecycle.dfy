/** Runs of the per-request lifecycle: any interleaving of the response's
    `finish`/`close` events and the framework's error hook, applied to the state
    `createRequestHandler` leaves behind, and what such a run does to the segment. */
module Lifecycle {
  import opened Js
  import opened PluginSetup
  import opened Segments
  import opened Handler

  /** One thing that can happen to a request after the handler returned: the
      response emits `finish` or `close` while its status code is `status`, or
      the framework reports an error (`resolves` says whether the SDK found a
      segment for the request, `sdkFlags` are the flags the SDK's close sets
      for that error). */
  datatype Step =
    | Completion(event: Event, status: int)
    | RequestError(resolves: bool, err: ErrorValue, sdkFlags: set<Flag>)

  function Apply(ex: Exchange, step: Step, lookup: CauseLookup): Exchange {
    match step
    case Completion(e, status) => Emit(ex, e, status, lookup)
    case RequestError(resolves, err, sdkFlags) => HandleError(ex, resolves, err, sdkFlags)
  }

  function Run(ex: Exchange, steps: seq<Step>, lookup: CauseLookup): Exchange
    decreases |steps|
  {
    if |steps| == 0 then ex else Run(Apply(ex, steps[0], lookup), steps[1..], lookup)
  }

  /** The status code at the first completion event of a run, if there is one. */
  function FirstCompletion(steps: seq<Step>): Option<int>
    decreases |steps|
  {
    if |steps| == 0 then None
    else if steps[0].Completion? then Some(steps[0].status)
    else FirstCompletion(steps[1..])
  }

  /** The number of error reports in a run for which a segment resolved. */
  function ResolvedErrors(steps: seq<Step>): nat
    decreases |steps|
  {
    if |steps| == 0 then 0
    else (if steps[0].RequestError? && steps[0].resolves then 1 else 0) + ResolvedErrors(steps[1..])
  }

  /** The flags the SDK's closes with an error add during a run. */
  function ErrorCloseFlags(steps: seq<Step>): set<Flag>
    decreases |steps|
  {
    if |steps| == 0 then {}
    else (if steps[0].RequestError? && steps[0].resolves then steps[0].sdkFlags else {}) + ErrorCloseFlags(steps[1..])
  }

  /** The number of closes without an error, that is, the closes `endSegment` made. */
  function PlainCloses(closes: seq<Option<ErrorValue>>): nat
    decreases |closes|
  {
    if |closes| == 0 then 0
    else PlainCloses(closes[..|closes| - 1]) + (if closes[|closes| - 1].None? then 1 else 0)
  }

  lemma PlainClosesAppend(closes: seq<Option<ErrorValue>>, c: Option<ErrorValue>)
    ensures PlainCloses(closes + [c]) == PlainCloses(closes) + (if c.None? then 1 else 0)
  {
    assert (closes + [c])[..|closes|] == closes;
  }

  /** The status a run closes the segment with: the first completion's, unless
      the latch was already set before the run. */
  function NewlyEnded(ex: Exchange, steps: seq<Step>): Option<int> {
    if ex.didEnd then None else FirstCompletion(steps)
  }

  function AddedFlags(ended: Option<int>, lookup: CauseLookup): set<Flag> {
    match ended
    case Some(status) => CompletionFlags(status, lookup)
    case None => {}
  }

  function AddedResponses(ended: Option<int>): seq<int> {
    match ended
    case Some(status) => [status]
    case None => []
  }

  /** The invariant of a request's state: `endSegment` is listening on both
      events, and the latch is set exactly when `endSegment` recorded one
      response and made one close. */
  predicate Consistent(ex: Exchange) {
    && ex.listeners == Listeners
    && |ex.segment.responses| == PlainCloses(ex.segment.closes)
    && |ex.segment.responses| == (if ex.didEnd then 1 else 0)
  }

  /** What any run does: the latch ends up set iff it was set or the run holds a
      completion event; the recorded response is the first completion status
      when the run is the one that closes, and the flags are that status's
      completion flags plus those the SDK's error closes set; `endSegment`
      closes at most once while every resolving error report closes again; the
      request, the context calls and the segment's identity are untouched. */
  lemma RunEffect(ex: Exchange, steps: seq<Step>, lookup: CauseLookup)
    requires ex.listeners == Listeners
    ensures var r := Run(ex, steps, lookup);
      && r.request == ex.request && r.listeners == ex.listeners && r.cls == ex.cls
      && r.segment.id == ex.segment.id && r.segment.name == ex.segment.name
      && r.segment.rootId == ex.segment.rootId && r.segment.parentId == ex.segment.parentId
      && r.didEnd == (ex.didEnd || FirstCompletion(steps).Some?)
      && r.segment.flags == ex.segment.flags + AddedFlags(NewlyEnded(ex, steps), lookup) + ErrorCloseFlags(steps)
      && r.segment.responses == ex.segment.responses + AddedResponses(NewlyEnded(ex, steps))
      && PlainCloses(r.segment.closes) ==
           PlainCloses(ex.segment.closes) + (if NewlyEnded(ex, steps).Some? then 1 else 0)
      && |r.segment.closes| ==
           |ex.segment.closes| + (if NewlyEnded(ex, steps).Some? then 1 else 0) + ResolvedErrors(steps)
  {
    RunFrame(ex, steps, lookup);
    RunFlags(ex, steps, lookup);
    RunCloses(ex, steps, lookup);
  }

  /** A completion event reaches `endSegment` from any state listening on both events. */
  lemma ApplyCompletion(ex: Exchange, e: Event, status: int, lookup: CauseLookup)
    requires ex.listeners == Listeners
    ensures Apply(ex, Completion(e, status), lookup) == EndSegment(ex, status, lookup)
  {
    assert e in Listeners by {
      if e == Finish { assert Listeners[0] == e; } else { assert Listeners[1] == e; }
    }
  }

  /** The part of a run's effect that does not concern closes and flags. */
  lemma {:induction false} RunFrame(ex: Exchange, steps: seq<Step>, lookup: CauseLookup)
    requires ex.listeners == Listeners
    ensures var r := Run(ex, steps, lookup);
      && r.request == ex.request && r.listeners == ex.listeners && r.cls == ex.cls
      && r.segment.id == ex.segment.id && r.segment.name == ex.segment.name
      && r.segment.rootId == ex.segment.rootId && r.segment.parentId == ex.segment.parentId
      && r.didEnd == (ex.didEnd || FirstCompletion(steps).Some?)
      && r.segment.responses == ex.segment.responses + AddedResponses(NewlyEnded(ex, steps))
    decreases |steps|
  {
    if |steps| == 0 {
      assert Run(ex, steps, lookup) == ex;
    } else {
      var next := Apply(ex, steps[0], lookup);
      var rest := steps[1..];
      assert Run(ex, steps, lookup) == Run(next, rest, lookup);
      match steps[0]
      case Completion(e, status) =>
        ApplyCompletion(ex, e, status, lookup);
        assert FirstCompletion(steps) == Some(status);
        RunFrame(next, rest, lookup);
      case RequestError(resolves, err, sdkFlags) =>
        assert FirstCompletion(steps) == FirstCompletion(rest);
        RunFrame(next, rest, lookup);
    }
  }

  /** The part of a run's effect that concerns flags. */
  lemma {:induction false} RunFlags(ex: Exchange, steps: seq<Step>, lookup: CauseLookup)
    requires ex.listeners == Listeners
    ensures Run(ex, steps, lookup).segment.flags ==
      ex.segment.flags + AddedFlags(NewlyEnded(ex, steps), lookup) + ErrorCloseFlags(steps)
    decreases |steps|
  {
    if |steps| > 0 {
      var next := Apply(ex, steps[0], lookup);
      var rest := steps[1..];
      assert Run(ex, steps, lookup) == Run(next, rest, lookup);
      match steps[0]
      case Completion(e, status) =>
        ApplyCompletion(ex, e, status, lookup);
        assert FirstCompletion(steps) == Some(status);
        assert NewlyEnded(next, rest) == None;
        assert ErrorCloseFlags(steps) == ErrorCloseFlags(rest);
        RunFlags(next, rest, lookup);
      case RequestError(resolves, err, sdkFlags) =>
        assert FirstCompletion(steps) == FirstCompletion(rest);
        assert ErrorCloseFlags(steps) == (if resolves then sdkFlags else {}) + ErrorCloseFlags(rest);
        RunFlags(next, rest, lookup);
    }
  }

  /** The part of a run's effect that concerns closes. */
  lemma {:induction false} RunCloses(ex: Exchange, steps: seq<Step>, lookup: CauseLookup)
    requires ex.listeners == Listeners
    ensures var r := Run(ex, steps, lookup);
      && PlainCloses(r.segment.closes) ==
           PlainCloses(ex.segment.closes) + (if NewlyEnded(ex, steps).Some? then 1 else 0)
      && |r.segment.closes| ==
           |ex.segment.closes| + (if NewlyEnded(ex, steps).Some? then 1 else 0) + ResolvedErrors(steps)
    decreases |steps|
  {
    if |steps| > 0 {
      var next := Apply(ex, steps[0], lookup);
      var rest := steps[1..];
      assert Run(ex, steps, lookup) == Run(next, rest, lookup);
      match steps[0]
      case Completion(e, status) =>
        ApplyCompletion(ex, e, status, lookup);
        assert FirstCompletion(steps) == Some(status);
        assert NewlyEnded(next, rest) == None;
        assert ResolvedErrors(steps) == ResolvedErrors(rest);
        RunCloses(next, rest, lookup);
        if !ex.didEnd {
          PlainClosesAppend(ex.segment.closes, None);
        }
      case RequestError(resolves, err, sdkFlags) =>
        assert FirstCompletion(steps) == FirstCompletion(rest);
        assert ResolvedErrors(steps) == (if resolves then 1 else 0) + ResolvedErrors(rest);
        RunCloses(next, rest, lookup);
        if resolves {
          PlainClosesAppend(ex.segment.closes, Some(err));
        }
    }
  }

  /** The handler leaves a consistent state, and every run preserves it. */
  lemma HandlerStartsConsistent(request: Request, sdk: Sdk, continueSignal: JsValue)
    ensures Consistent(HandleRequest(request, sdk, continueSignal).exchange)
  {
  }

  lemma RunPreservesConsistent(ex: Exchange, steps: seq<Step>, lookup: CauseLookup)
    requires Consistent(ex)
    ensures Consistent(Run(ex, steps, lookup))
  {
    RunEffect(ex, steps, lookup);
  }

  /** Both events reach the same closure: from the handler's state, `finish` and
      `close` have the same effect. */
  lemma FinishAndCloseShareHandler(ex: Exchange, status: int, lookup: CauseLookup)
    requires ex.listeners == Listeners
    ensures Emit(ex, Finish, status, lookup) == Emit(ex, CloseEvent, status, lookup)
    ensures Emit(ex, Finish, status, lookup) == EndSegment(ex, status, lookup)
  {
  }

  /** Closing once: any non-empty sequence of `finish`/`close` events, in any
      order and with any repetition, closes the segment the handler created
      exactly once, records exactly one response, the one of the first event's
      status, and sets exactly that status's flags. */
  lemma CloseOnce(request: Request, sdk: Sdk, continueSignal: JsValue, steps: seq<Step>, lookup: CauseLookup)
    requires |steps| > 0
    requires forall i :: 0 <= i < |steps| ==> steps[i].Completion?
    ensures var ex := HandleRequest(request, sdk, continueSignal).exchange;
      var r := Run(ex, steps, lookup);
      && r == EndSegment(ex, steps[0].status, lookup)
      && r.segment.closes == [None]
      && r.segment.responses == [steps[0].status]
      && r.segment.flags == CompletionFlags(steps[0].status, lookup)
  {
    var ex := HandleRequest(request, sdk, continueSignal).exchange;
    var first := EndSegment(ex, steps[0].status, lookup);
    assert Apply(ex, steps[0], lookup) == first by {
      assert steps[0].Completion?;
      FinishAndCloseShareHandler(ex, steps[0].status, lookup);
      if steps[0].event == Finish {
        assert Apply(ex, steps[0], lookup) == Emit(ex, Finish, steps[0].status, lookup);
      } else {
        assert Apply(ex, steps[0], lookup) == Emit(ex, CloseEvent, steps[0].status, lookup);
      }
    }
    assert Run(ex, steps, lookup) == Run(first, steps[1..], lookup);
    StatusLatched(first, steps[1..], lookup);
  }

  lemma {:induction false} CompletionsResolveNothing(steps: seq<Step>)
    requires forall i :: 0 <= i < |steps| ==> steps[i].Completion?
    ensures ResolvedErrors(steps) == 0
    ensures ErrorCloseFlags(steps) == {}
    decreases |steps|
  {
    if |steps| > 0 {
      assert steps[0].Completion?;
      CompletionsResolveNothing(steps[1..]);
    }
  }

  /** Once the latch is set no completion event changes anything: a status
      change before a later event has no effect. */
  lemma StatusLatched(ex: Exchange, steps: seq<Step>, lookup: CauseLookup)
    requires ex.listeners == Listeners && ex.didEnd
    requires forall i :: 0 <= i < |steps| ==> steps[i].Completion?
    ensures Run(ex, steps, lookup) == ex
  {
    RunEffect(ex, steps, lookup);
    CompletionsResolveNothing(steps);
    var r := Run(ex, steps, lookup);
    assert r.segment.closes == ex.segment.closes;
    assert r.segment == ex.segment;
  }

  /** Two runs whose first completion event carries the same status leave the
      same recorded response and latch, whatever statuses follow, and the same
      flags when their error closes add the same flags (in particular when
      neither run has an error report with a resolving segment). */
  lemma FlagsDependOnFirstStatusOnly(ex: Exchange, s1: seq<Step>, s2: seq<Step>, lookup: CauseLookup)
    requires ex.listeners == Listeners
    requires FirstCompletion(s1) == FirstCompletion(s2)
    ensures ErrorCloseFlags(s1) == ErrorCloseFlags(s2) ==>
      Run(ex, s1, lookup).segment.flags == Run(ex, s2, lookup).segment.flags
    ensures Run(ex, s1, lookup).segment.responses == Run(ex, s2, lookup).segment.responses
    ensures Run(ex, s1, lookup).didEnd == Run(ex, s2, lookup).didEnd
  {
    RunEffect(ex, s1, lookup);
    RunEffect(ex, s2, lookup);
  }

  /** A 429 sets the throttle flag, and with the lookup's answer for 429 the
      error flag as well. */
  lemma TooManyRequestsFlags(ex: Exchange, lookup: CauseLookup)
    requires AgreesWithTests(lookup)
    requires !ex.didEnd
    ensures ThrottleFlag in EndSegment(ex, TooManyRequests, lookup).segment.flags
    ensures ErrorFlag in EndSegment(ex, TooManyRequests, lookup).segment.flags
  {
  }

  /** Whatever cause the lookup reports becomes a flag; when it reports none
      (as for 200) no flag is added, unless the status is 429. */
  lemma CauseBecomesFlag(ex: Exchange, status: int, lookup: CauseLookup)
    requires !ex.didEnd
    ensures lookup(status).Some? ==> CauseFlag(lookup(status).value) in EndSegment(ex, status, lookup).segment.flags
    ensures lookup(status).None? && status != TooManyRequests ==>
      EndSegment(ex, status, lookup).segment.flags == ex.segment.flags
  {
  }

  lemma OkAddsNoFlag(ex: Exchange, lookup: CauseLookup)
    requires AgreesWithTests(lookup)
    requires !ex.didEnd
    ensures EndSegment(ex, 200, lookup).segment.flags == ex.segment.flags
  {
    CauseBecomesFlag(ex, 200, lookup);
  }

  /** `handleError` is not guarded by the latch: an error report and a
      completion event both close the segment, in either order, and the flags
      are the status's completion flags plus those of the SDK's error close. */
  lemma ErrorAndCompletionBothClose(request: Request, sdk: Sdk, continueSignal: JsValue,
                                    err: ErrorValue, sdkFlags: set<Flag>, e: Event, status: int, lookup: CauseLookup)
    ensures var ex := HandleRequest(request, sdk, continueSignal).exchange;
      var a := Run(ex, [RequestError(true, err, sdkFlags), Completion(e, status)], lookup);
      var b := Run(ex, [Completion(e, status), RequestError(true, err, sdkFlags)], lookup);
      && a.segment.closes == [Some(err), None]
      && b.segment.closes == [None, Some(err)]
      && a.segment.flags == b.segment.flags == CompletionFlags(status, lookup) + sdkFlags
  {
    var ex := HandleRequest(request, sdk, continueSignal).exchange;
    var failed := RequestError(true, err, sdkFlags);
    var done := Completion(e, status);
    // error report first, then the completion event
    var a1 := HandleError(ex, true, err, sdkFlags);
    var a2 := EndSegment(a1, status, lookup);
    ApplyCompletion(a1, e, status, lookup);
    assert [failed, done][1..] == [done];
    assert Run(ex, [failed, done], lookup) == Run(a1, [done], lookup);
    assert Run(a1, [done], lookup) == Run(a2, [], lookup) == a2;
    // completion event first, then the error report
    var b1 := EndSegment(ex, status, lookup);
    var b2 := HandleError(b1, true, err, sdkFlags);
    ApplyCompletion(ex, e, status, lookup);
    assert [done, failed][1..] == [failed];
    assert Run(ex, [done, failed], lookup) == Run(b1, [failed], lookup);
    assert Run(b1, [failed], lookup) == Run(b2, [], lookup) == b2;
  }

  /** Without a resolvable segment, error reports change nothing. */
  lemma {:induction false} UnresolvedErrorsAreNoOps(ex: Exchange, steps: seq<Step>, lookup: CauseLookup)
    requires forall i :: 0 <= i < |steps| ==> steps[i].RequestError? && !steps[i].resolves
    ensures Run(ex, steps, lookup) == ex
    decreases |steps|
  {
    if |steps| > 0 {
      assert Apply(ex, steps[0], lookup) == ex;
      UnresolvedErrorsAreNoOps(ex, steps[1..], lookup);
    }
  }

  /** `handleResponse` after the handler: in automatic mode it exits exactly
      the context the handler entered; in manual mode it leaves the state alone
      when `request.app` exists and throws when it does not. */
  lemma ResponseExitsEnteredContext(request: Request, sdk: Sdk, continueSignal: JsValue)
    ensures var ex := HandleRequest(request, sdk, continueSignal).exchange;
      && (sdk.automaticMode ==>
            HandleResponse(ex) == Returned(ex.(cls := ex.cls + [Exit(sdk.namespace, sdk.newContext)])))
      && (!sdk.automaticMode && request.app.Some? && request.app.value.xrayNamespace.None? ==>
            HandleResponse(ex) == Returned(ex))
      && (!sdk.automaticMode && request.app.None? ==> HandleResponse(ex) == ThrewTypeError)
  {
  }

  /** `setup` reads the mode from `isAutomaticMode`: a caller passing
      `automaticMode: false` still gets automatic mode, so the handler stores
      the context handles and leaves `request.segment` as it was. */
  lemma AutomaticModeOptionIgnored(request: Request, sdk: Sdk, continueSignal: JsValue, pkg: Option<PackageInfo>)
    requires sdk.automaticMode == Setup(map["automaticMode" := Bool(false)], pkg).automaticMode
    ensures HandleRequest(request, sdk, continueSignal).exchange.request.segment == request.segment
    ensures HandleRequest(request, sdk, continueSignal).exchange.request.app.Some?
  {
    AutomaticModeKeyIgnored(pkg, Bool(false));
  }
}
