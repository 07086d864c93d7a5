/** The per-request lifecycle built by `createRequestHandler`: the segment it
    creates, the `endSegment` closure registered on the response's `finish` and
    `close` events with its `didEnd` latch, where the segment is stored in each
    mode, and the `handleResponse` and `handleError` hooks. */
module Handler {
  import opened Js
  import opened Segments

  /** The two response events `endSegment` is registered on. */
  datatype Event = Finish | CloseEvent

  /** An opaque handle to an object of the continuation-local storage library
      (a namespace or a context). */
  datatype Handle = Handle(id: nat)

  /** The raw node.js streams of a request. */
  datatype Emitter = RawRequest | RawResponse

  /** A call into the continuation-local storage library, logged in order. The
      library's own effect (propagating the context) is not part of this model. */
  datatype ClsCall =
    | BindEmitter(ns: Handle, emitter: Emitter)
    | Enter(ns: Handle, ctx: Handle)
    | SetSegment(segmentId: string)
    | Exit(ns: Handle, ctx: Handle)

  /** hapi's `request.app` bag: the two properties the plugin writes and
      whatever else the application keeps there. */
  datatype App = App(xrayNamespace: Option<Handle>, xrayContext: Option<Handle>, rest: map<string, JsValue>)

  /** The parts of a hapi request the plugin reads or writes. `app` is `None`
      when `request.app` is undefined; `segment` is the id of the segment held
      in `request.segment`, if any. */
  datatype Request = Request(headers: map<string, string>, app: Option<App>, segment: Option<string>)

  /** The trace header fields `processHeaders` extracts. */
  datatype TraceHeader = TraceHeader(root: Option<string>, parent: Option<string>)

  /** Everything the handler obtains from the tracing SDK, which is not part of
      this model: header parsing, name resolution, the fresh segment's id, the
      current mode, the namespace and the context it creates. */
  datatype Sdk = Sdk(
    processHeaders: Request -> TraceHeader,
    resolveName: Option<string> -> string,
    newSegmentId: string,
    automaticMode: bool,
    namespace: Handle,
    newContext: Handle)

  /** The state of one request after `createRequestHandler` ran: the request
      object, the segment, the `didEnd` latch captured by `endSegment`, the
      response events `endSegment` listens to and the log of context calls. */
  datatype Exchange = Exchange(
    request: Request,
    segment: Segment,
    didEnd: bool,
    listeners: seq<Event>,
    cls: seq<ClsCall>)

  /** What the handler returns to hapi, and the state it leaves behind. */
  datatype Started = Started(exchange: Exchange, returned: JsValue)

  /** `endSegment` is registered on `finish` and then on `close`. */
  const Listeners: seq<Event> := [Finish, CloseEvent]

  /** `request.headers.host`. */
  function Host(r: Request): Option<string> {
    if "host" in r.headers then Some(r.headers["host"]) else None
  }

  /** The `request.app` the automatic branch leaves: the existing bag (or a new
      empty one) with both handles written into it. */
  function StoreHandles(app: Option<App>, ns: Handle, ctx: Handle): (a: App)
    ensures a.xrayNamespace == Some(ns) && a.xrayContext == Some(ctx)
    ensures app.Some? ==> a.rest == app.value.rest
    ensures app.None? ==> a.rest == map[]
  {
    var bag := match app
      case Some(existing) => existing
      case None => App(None, None, map[]);
    bag.(xrayNamespace := Some(ns), xrayContext := Some(ctx))
  }

  /** The request handler: create the segment from the header and the resolved
      name, register `endSegment`, store the segment according to the mode and
      return `h.continue` (passed in as `continueSignal`). */
  function HandleRequest(request: Request, sdk: Sdk, continueSignal: JsValue): (r: Started)
    ensures r.returned == continueSignal
    ensures r.exchange.segment.id == sdk.newSegmentId
    ensures r.exchange.segment.name == sdk.resolveName(Host(request))
    ensures r.exchange.segment.rootId == sdk.processHeaders(request).root
    ensures r.exchange.segment.parentId == sdk.processHeaders(request).parent
    ensures r.exchange.segment.flags == {} && r.exchange.segment.responses == [] && r.exchange.segment.closes == []
    ensures !r.exchange.didEnd && r.exchange.listeners == [Finish, CloseEvent]
    ensures r.exchange.request.headers == request.headers
    ensures sdk.automaticMode ==>
      && r.exchange.request.segment == request.segment
      && r.exchange.request.app.Some?
      && r.exchange.request.app.value.xrayNamespace == Some(sdk.namespace)
      && r.exchange.request.app.value.xrayContext == Some(sdk.newContext)
      && (request.app.Some? ==> r.exchange.request.app.value.rest == request.app.value.rest)
      && (request.app.None? ==> r.exchange.request.app.value.rest == map[])
      && r.exchange.cls == [BindEmitter(sdk.namespace, RawRequest), BindEmitter(sdk.namespace, RawResponse),
                            Enter(sdk.namespace, sdk.newContext), SetSegment(sdk.newSegmentId)]
    ensures !sdk.automaticMode ==>
      && r.exchange.request.segment == Some(r.exchange.segment.id)
      && r.exchange.request.app == request.app
      && r.exchange.cls == []
  {
    var header := sdk.processHeaders(request);
    var name := sdk.resolveName(Host(request));
    var segment := NewSegment(sdk.newSegmentId, name, header.root, header.parent);
    var stored :=
      if sdk.automaticMode then
        var ns := sdk.namespace;
        var ctx := sdk.newContext;
        Exchange(request.(app := Some(StoreHandles(request.app, ns, ctx))), segment, false, Listeners,
                 [BindEmitter(ns, RawRequest), BindEmitter(ns, RawResponse), Enter(ns, ctx), SetSegment(segment.id)])
      else
        Exchange(request.(segment := Some(segment.id)), segment, false, Listeners, []);
    Started(stored, continueSignal)
  }

  /** `endSegment`, invoked with the response's status code at the time the
      event fires. The first call sets the throttle flag for 429 and the flag of
      the looked-up cause, records the response and closes the segment; every
      later call finds the latch set and does nothing. */
  function EndSegment(ex: Exchange, status: int, lookup: CauseLookup): (r: Exchange)
    ensures ex.didEnd ==> r == ex
    ensures r.didEnd
    ensures !ex.didEnd ==>
      && r.segment.flags == ex.segment.flags + CompletionFlags(status, lookup)
      && r.segment.responses == ex.segment.responses + [status]
      && r.segment.closes == ex.segment.closes + [None]
    ensures r.request == ex.request && r.listeners == ex.listeners && r.cls == ex.cls
    ensures r.segment.id == ex.segment.id && r.segment.name == ex.segment.name
    ensures r.segment.rootId == ex.segment.rootId && r.segment.parentId == ex.segment.parentId
  {
    if ex.didEnd then ex
    else
      var throttled :=
        if status == TooManyRequests then ex.segment.(flags := ex.segment.flags + {ThrottleFlag})
        else ex.segment;
      var flagged :=
        match lookup(status)
        case Some(cause) => throttled.(flags := throttled.flags + {CauseFlag(cause)})
        case None => throttled;
      var recorded := flagged.(responses := flagged.responses + [status]);
      ex.(didEnd := true, segment := Close(recorded, None, {}))
  }

  /** The response emits an event: the listener registered on it runs, if any. */
  function Emit(ex: Exchange, e: Event, status: int, lookup: CauseLookup): (r: Exchange)
    ensures e in ex.listeners ==> r == EndSegment(ex, status, lookup)
    ensures e !in ex.listeners ==> r == ex
  {
    if e in ex.listeners then EndSegment(ex, status, lookup) else ex
  }

  /** What `handleResponse` did: returned normally, or threw because
      `request.app` was undefined and could not be destructured. */
  datatype Outcome = Returned(exchange: Exchange) | ThrewTypeError

  /** `handleResponse`: exit the context when both handles are present in
      `request.app`, otherwise do nothing. */
  function HandleResponse(ex: Exchange): (o: Outcome)
    ensures o.ThrewTypeError? <==> ex.request.app.None?
    ensures o.Returned? && ex.request.app.value.xrayNamespace.Some? && ex.request.app.value.xrayContext.Some? ==>
      o.exchange.cls == ex.cls + [Exit(ex.request.app.value.xrayNamespace.value, ex.request.app.value.xrayContext.value)]
    ensures o.Returned? && (ex.request.app.value.xrayNamespace.None? || ex.request.app.value.xrayContext.None?) ==>
      o.exchange == ex
    ensures o.Returned? ==> o.exchange.(cls := ex.cls) == ex
  {
    match ex.request.app
    case None => ThrewTypeError
    case Some(app) =>
      match (app.xrayNamespace, app.xrayContext)
      case (Some(ns), Some(ctx)) => Returned(ex.(cls := ex.cls + [Exit(ns, ctx)]))
      case _ => Returned(ex)
  }

  /** `handleError`: close the segment with the error when the SDK resolves a
      segment for the request (`resolves`, the outcome of `resolveSegment`),
      otherwise do nothing. It does not consult the `didEnd` latch. `sdkFlags`
      are the flags the SDK's close sets for the error. */
  function HandleError(ex: Exchange, resolves: bool, err: ErrorValue, sdkFlags: set<Flag>): (r: Exchange)
    ensures resolves ==> r.segment.closes == ex.segment.closes + [Some(err)]
    ensures resolves ==> r.segment.flags == ex.segment.flags + sdkFlags
    ensures resolves ==>
      r == ex.(segment := r.segment) && r.segment == ex.segment.(closes := r.segment.closes, flags := r.segment.flags)
    ensures !resolves ==> r == ex
  {
    if resolves then ex.(segment := Close(ex.segment, Some(err), sdkFlags)) else ex
  }
}
