# hapi-xray request lifecycle, in Dafny

This project models the core of `hapi-xray`, a hapi plugin that traces each
HTTP request as an AWS X-Ray segment. For each request the handler built by
`createRequestHandler` does four things:

- It creates a segment from the parsed trace header and the resolved name.
- It registers one `endSegment` closure on both the response's `finish` and
  `close` events.
- It stores the segment. In automatic mode the namespace and context handles
  go into `request.app`. In manual mode the segment goes onto `request.segment`.
- It returns `h.continue`.

`endSegment` is guarded by a `didEnd` latch, so only the first completion event
closes the segment. That first call does four things in order:

- It sets the throttle flag for status 429.
- It sets the flag of the cause the SDK's status lookup reports.
- It records the response.
- It closes the segment.

`handleResponse` exits the context when both handles are present.
`handleError` closes the segment with the error whenever a segment resolves,
without consulting the latch. `setup` merges the caller's options over the
defaults. It takes the segment name from `segmentName`, or generates
`name_version` from the package manifest.

Modules:

- `Js` (js.dfy): optional values, JavaScript values and their truthiness, `||`.
- `PluginSetup` (setup.dfy): option merge, generated segment name and its
  parse-back partner, `setup`.
- `Segments` (segment.dfy): segment record, flags, causes, the completion flags
  of a status, and a standard 4xx/5xx lookup.
- `Handler` (handler.dfy): the request handler, `endSegment`, event dispatch,
  `handleResponse`, `handleError`.
- `Lifecycle` (lifecycle.dfy): runs of completion events and error reports, the
  state invariant, and the close-once and latching theorems.

The model has these inputs:

- The tracing SDK's status lookup (`getCauseTypeFromHttpStatus`) is a function
  parameter `int -> Option<Cause>`. The two facts the unstubbed unit tests pin
  down (429 is an error, 200 has no cause) are the predicate
  `Segments.AgreesWithTests`. The lemmas that need those facts require it.
- `processHeaders` and `resolveName`, the new segment's id, the current mode,
  the namespace and the new context are fields of an `Sdk` input record.
- `resolveSegment` in `handleError` is the input `resolves`.
- The flags the SDK's close sets when it captures an error are an input
  `sdkFlags` of each error report.
- The package manifest is an optional `PackageInfo` argument. `None` means that
  no `package.json` exists.

## Model

| member | source | states |
|---|---|---|
| PluginSetup.MergeOptions | lib/xray.js:9-25 | the merged options hold every caller key with the caller's value (even `undefined`), and every default key the caller did not supply with its default value |
| PluginSetup.CreateSegmentName | lib/xray.js:173-181 | the generated name is never empty; it is `service` when there is no manifest; otherwise it is the effective package name (`name`, or `service` when missing or empty), then `_`, then the effective version (`version`, or `v1`), for every package name including ones that hold `_` |
| PluginSetup.SegmentNameRoundTrip | lib/xray.js:173-181 | splitting the generated name at its first underscore gives back the effective package name (`name` or `service`) and version (`version` or `v1`) when the name has no underscore; with no manifest there is nothing to split |
| PluginSetup.SegmentNameStartsWithPackageName | lib/xray.js:178 | a generated name starts with the package's own non-empty name |
| PluginSetup.SegmentName | lib/xray.js:31 | the name is the `segmentName` option itself when that is truthy, and the generated name otherwise; either way it is truthy |
| PluginSetup.Setup | lib/xray.js:24-47 | in terms of the caller's options: `segmentName` wins when truthy; automatic mode is on unless `isAutomaticMode` is supplied falsy; a logger is installed unless `logger` is supplied falsy (the console by default); the caller's `plugins` value is configured exactly when it is truthy; AWS capture happens exactly when `captureAWS` is truthy |
| PluginSetup.SetupDefaults | lib/xray.js:9-38 | with no options the plugin is in automatic mode, logs to the console, configures no plugins, does not capture AWS calls and uses the generated name |
| PluginSetup.AutomaticModeKeyIgnored | lib/xray.js:34-38 | an `automaticMode` option of any value leaves the plugin in automatic mode |
| Segments.CompletionFlags | lib/xray.js:89-96 | the throttle flag is set iff the status is 429; the error flag iff the lookup reports an error; the fault flag iff it reports a fault |
| Segments.StandardLookupAgreesWithTests | test/unit/xray.test.js:248-269 | a 4xx-error/5xx-fault lookup meets the facts the tests rely on, so lemmas that assume them are not vacuous |
| Segments.StandardCompletionFlags | lib/xray.js:89-96 | with a 4xx/5xx lookup the flags are throttle and error at 429, error alone for other 4xx, fault alone for 5xx, none otherwise |
| Handler.StoreHandles | lib/xray.js:121-125 | the automatic branch writes both handles into `request.app`, keeping the existing bag's other properties or starting from an empty bag |
| Handler.HandleRequest | lib/xray.js:54-134 | the handler returns `h.continue`; the new segment has the SDK's id, the name resolved from the host header, and the root and parent parsed from the header, with no flags, no recorded response and no close; `endSegment` listens on `finish` and `close` with the latch clear; automatic mode stores both handles in `request.app` (keeping an existing bag's other properties, or starting from an empty bag), leaves `request.segment` alone and binds, enters and sets the segment in the context; manual mode puts the segment on `request.segment` and leaves `request.app` and the context alone |
| Handler.EndSegment | lib/xray.js:77-99 | with the latch set nothing changes; otherwise the latch is set, the completion flags of the status are added, exactly that status is recorded and one close without error is made, and nothing else about the request changes |
| Handler.HandleResponse | lib/xray.js:138-144 | throws iff `request.app` is undefined; exits the context iff both handles are present; otherwise, and apart from that exit, changes nothing |
| Handler.HandleError | lib/xray.js:146-150 | when a segment resolves, one close carrying the error is added, the flags the SDK's close sets for the error are added, and nothing else changes; otherwise nothing changes |
| Lifecycle.RunEffect | lib/xray.js:75-99 | for any interleaving of completion events and error reports: the latch ends set iff it was set or a completion occurred; the recorded response is the first completion's status when the run is the one that closes; the flags added are that status's completion flags plus the flags of the SDK's error closes; `endSegment` adds at most one close; every resolving error report adds one close; request, context calls and segment identity are untouched |
| Lifecycle.HandlerStartsConsistent | lib/xray.js:54-117 | the handler's state satisfies the invariant: both events are listened to, and the latch is set iff one response was recorded and one plain close was made |
| Lifecycle.RunPreservesConsistent | lib/xray.js:75-99 | every run of events and error reports preserves that invariant |
| Lifecycle.FinishAndCloseShareHandler | lib/xray.js:116-117 | `finish` and `close` run the same `endSegment` closure |
| Lifecycle.CloseOnce | lib/xray.js:75-99 | any non-empty sequence of `finish`/`close` events, in any order and with any repetition, equals one `endSegment` call at the first status: one close, one recorded response and exactly that status's flags |
| Lifecycle.StatusLatched | lib/xray.js:83-87 | once the latch is set, any further completion events, whatever the status, leave the state unchanged |
| Lifecycle.FlagsDependOnFirstStatusOnly | lib/xray.js:83-98 | two runs whose first completion has the same status end with the same recorded response and latch, and with the same flags when their error closes add the same flags |
| Lifecycle.TooManyRequestsFlags | lib/xray.js:89-96 | at 429, with the tested lookup, both the throttle and the error flags end up set |
| Lifecycle.CauseBecomesFlag | lib/xray.js:93-96 | whatever cause the lookup reports becomes a flag; when it reports none and the status is not 429, the flags are unchanged |
| Lifecycle.OkAddsNoFlag | lib/xray.js:89-96 | at 200, with the tested lookup, no flag is added |
| Lifecycle.ErrorAndCompletionBothClose | lib/xray.js:146-150 | an error report with a resolving segment and a completion event both close the segment, in either order, and the flags are the status's completion flags plus those of the SDK's error close |
| Lifecycle.UnresolvedErrorsAreNoOps | lib/xray.js:146-150 | error reports for which no segment resolves change nothing |
| Lifecycle.ResponseExitsEnteredContext | lib/xray.js:138-144 | after the handler, in automatic mode `handleResponse` exits exactly the context the handler entered; in manual mode it does nothing when `request.app` exists without handles, and throws when `request.app` is undefined |
| Lifecycle.AutomaticModeOptionIgnored | lib/xray.js:119-132 | after `setup({ automaticMode: false })` the handler still takes the automatic branch, so `request.app` gets the handles and `request.segment` is left as it was |

## Code and test differences

- The mode option is read as `isAutomaticMode` (lib/xray.js:21, 34). The unit
  tests at test/unit/xray.test.js:46-49 and 109-121 pass `automaticMode: false`
  and expect manual mode. As written, that key is ignored and the plugin stays
  in automatic mode. The model follows the code: see
  `PluginSetup.AutomaticModeKeyIgnored` and `Lifecycle.AutomaticModeOptionIgnored`.
- The code adds the throttle flag itself at 429 and then sets whatever cause
  the SDK lookup reports. Its `endSegment` never passes an error to the
  close. `handleError` closes with the error whenever a segment resolves, with
  no special case for any status.
- `handleResponse` destructures `request.app`, so it throws a `TypeError` when
  `request.app` is undefined. The model keeps that as `ThrewTypeError`.

## Left out

- The tracing SDK's internals are not modelled. This covers header parsing,
  name resolution, sampling (`resolveSampling`), id and time generation,
  `IncomingRequestData`, the effect of `segment.http.close` beyond recording
  the status, the effect of `segment.close` beyond logging the call and its
  error (end time, error capture, submission), `resolveSegment` and
  `getCauseTypeFromHttpStatus`. They are foreign code, so the model takes them
  as inputs.
- The continuation-local storage calls `bindEmitter`, `enter`, `exit` and
  `setSegment` are logged in order but not given semantics. The context
  `createContext` returns is the input `Sdk.newContext`, and the call itself
  is not logged. The purpose of these calls is asynchronous context
  propagation, which a pure model does not have.
- Reading `package.json` is I/O. The manifest is passed in, and only string or
  missing `name` and `version` fields are modelled.
- Logging calls (lib/xray.js:27-28, 67-73, 101-113, 152-164) are side effects
  only. `setup` records only which logger would be installed.
- `AWSXray.config(plugins)` and `captureAWS` are thin foreign calls. `setup`
  records the plugin value it would pass to `config`, and whether
  `captureAWS` would be called.
- `res.req = req` (lib/xray.js:61) links two foreign objects and has no effect
  in the model.
- JavaScript numbers are integers here. NaN and fractional values of options
  are not modelled, and the status code is always an integer.
- `handleError` receives an error object. Calling it with `undefined` is not
  modelled.
- Handler.HandleError: the SDK's close with an error also captures the error,
  and that capture may set flags (the fault flag, for one). Which flags it
  sets is SDK behaviour that is not part of this model. Each error report
  therefore carries those flags as an input, and the model adds them
  unchanged.
- Handler.HandleError: a resolved segment is assumed to be the request's own.
  The model has one segment per request and does not model a lookup that finds
  another request's segment.
- lib/plugin.js and lib/index.js are hapi registration glue. example/basic.js
  is a demo server.
