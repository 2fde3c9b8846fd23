# exoframe-faas function registry, modelled in Dafny

exoframe-faas keeps every deployed function in one in-memory dictionary,
`functions`, keyed by route. Each record holds:

- the function's name, type and route;
- its loaded code and its descriptor (`exoframe.json`);
- its folder, its log, a cleanup, and (for workers) a worker handle.

`registerFunction` loads a folder and expands the descriptor into a route
and a type. When the route is taken, it first removes the function that
carries the new descriptor's *name*. It then stores a fresh record and
activates it by type:

- `http`: nothing to activate;
- `worker`: a worker thread, with a terminate cleanup;
- `trigger`: the initializer runs and a bus listener is added, with an
  unsubscribe-then-teardown cleanup;
- any other type: nothing to activate.

`removeFunction` finds a record by name, runs its cleanup, deletes its key
and deletes its folder. The queries (`listFunctions`,
`getLogsForFunction`), the per-route logger, the HTTP dispatch guard and a
trigger's fan-out filter all read the same dictionary.

The model is split into modules:

- `JsValues` covers the JavaScript values the core inspects: truthiness
  and `String.prototype.trim`'s whitespace set.
- `Descriptors` covers the descriptor and its expansion into an effective
  route and type.
- `FunctionTable` covers records, `Cleanup`, and the table. The table is a
  map plus its keys in `Object.keys` order. The module also holds the
  read-only queries (first-match lookup, logs, listing) and the log append.
- `Dispatch` is the guard in the GET handler: call the handler, or answer
  404.
- `FanOut` is the filter in `handleTrigger`.
- `RegistrySpec` holds the whole state and its invariant. The state is the
  table, the message bus, the set of worker threads started and not yet
  terminated, a trace of foreign effects and a fresh-identity counter. The
  invariant says that every worker record's worker has not been terminated,
  and that every trigger record's listener is still on the bus. A worker
  thread that exits on its own is not tracked. It also says that no two records
  share a worker or a listener. The module gives each state-changing operation as a function of
  the old state.
- `Host.Registry` is the dictionary as a class with fields. Its methods
  change those fields in place. Each one is proved to move the state exactly
  as its `RegistrySpec` function says. The four public operations
  (`Remove`, `Register`, `Log`, `HandleTrigger`) are also proved to keep
  the invariant. The helpers `RunCleanup`, `InstallRecord`,
  `ActivateStored` and `InvokeAll` only match their state functions.
- `RegistryProperties` holds what registration, removal and the queries
  promise about each other.

The model leaves several things to its inputs instead of performing them:

- Loading code and descriptors is an input: `Loaded`, or `None` when a
  `require` throws.
- Timestamps are an input string.
- The outcome of a trigger initializer is an input: it returns a teardown,
  returns none, or throws.
- Worker threads, bus listeners, teardown calls, folder deletion and handler
  invocations are recorded, in order, as `Effect`s in a trace.
- Worker and listener identities come from a counter.

## Replacing a route

The comment at src/index.js:66 says the intent: when the route already
exists, remove the old version. The code at src/index.js:67-69 does
something narrower. It removes the first record whose name equals the NEW
descriptor's name. Two consequences follow:

- When the route's occupant has a different name, the occupant is
  overwritten without its cleanup. A worker keeps running and a trigger
  listener stays on the bus.
- A namesake stored at another route is removed instead.

The model follows the code: see `RegisterOverwritesOtherName` and
`RegisterRemovesNamesakeElsewhere`.

Two more behaviours of the code are kept as written:

- A teardown that throws is not caught (src/index.js:122-124), so the
  removal that called it rejects before deleting the record.
- A type other than http, worker or trigger is registered as an inert
  record (src/index.js:128). It is not rejected.

## Model

| member | source | states |
|---|---|---|
| JsValues.TrimEmptyIffAllWhitespace | src/index.js:54 | `s.trim()` is empty exactly when every character of `s` is ECMAScript whitespace or a line terminator |
| JsValues.TrimStartEmptyIffAllWhitespace | src/index.js:54 | stripping leading whitespace leaves nothing iff the string is all whitespace |
| JsValues.Trim | src/index.js:54 | the result is a contiguous piece of the input with only whitespace before and after it, and whose first and last characters are not whitespace |
| JsValues.TrimStartIsSuffix | src/index.js:54 | stripping leading whitespace leaves a suffix of the input, and what it removed is all whitespace |
| JsValues.TrimEndIsPrefix | src/index.js:54 | stripping trailing whitespace leaves a prefix of the input, and what it removed is all whitespace |
| JsValues.Truthy | src/index.js:153 | a value is falsy exactly when it is undefined, null, false, 0 or the empty string |
| JsValues.IsBlankFolder | src/index.js:54-56 | the ignore guard fires exactly for a missing folder or one made only of whitespace |
| Descriptors.Expand | src/index.js:64 | route defaults to "/"+name and type to "http"; each field present in the descriptor's `function` object overrides its default independently |
| Descriptors.DefaultRouteShape | src/index.js:64 | a default route starts with '/' and so is never the key "undefined" |
| FunctionTable.Without | src/index.js:45 | deleting a key from the key order keeps every other key, keeps them distinct and shortens the order by one |
| FunctionTable.KeyCountIsSize | src/index.js:9 | a well-formed table has exactly as many keys in its order as records |
| FunctionTable.Store | src/index.js:72 | assignment by route replaces in place when the key exists (order unchanged) and otherwise appends the key |
| FunctionTable.StoreThenUpdate | src/index.js:94-95 | updating fields of the record just stored equals storing the updated record |
| FunctionTable.Delete | src/index.js:45 | `delete` drops exactly that key from the map and the order and keeps the table well formed |
| FunctionTable.ReplaceMovesToEnd | src/index.js:45 | deleting a route and storing under it again keeps the size and all other records and moves the route to the end |
| FunctionTable.FindFrom | src/index.js:26 | the index found is the first key, in order, whose record has the name; none found means no key from there on has it |
| FunctionTable.FindRoute | src/index.js:35-36 | corrected lookup: first matching route in key order, and None exactly when no record has the name |
| FunctionTable.FindRouteAsWritten | src/index.js:26-27 | lookup as written: a failed `find` still reads the key "undefined" |
| FunctionTable.UnknownNameHitsUndefinedRoute | src/index.js:35-37 | with a record at route "undefined", a name nobody has is found by the as-written lookup but not by the corrected one |
| FunctionTable.AsWrittenAgreesElsewhere | src/index.js:26-27 | the two lookups differ iff the name is unknown and a record sits at "undefined" |
| FunctionTable.GetLogs | src/index.js:25-32 | the log of the first record in key order with that name; undefined exactly when no record has it |
| FunctionTable.ListFunctions | src/index.js:20-23 | one formatted `{config, route, type}` per key, in key order, as many as there are records |
| FunctionTable.ListingCoversEveryRecord | src/index.js:20-23 | every record appears in the listing exactly once, at its key's position |
| FunctionTable.LogLine | src/index.js:15 | the line reads back as the timestamp, one space, the message and a final newline |
| FunctionTable.AppendLog | src/index.js:15 | push onto the route's log only; every other record and the key order unchanged; a missing route fails |
| FunctionTable.LogIsAppendOnly | src/index.js:15 | the old log is a prefix of the new one and the single new line is timestamp, space, message, newline |
| Dispatch.Decide | src/index.js:148-159 | the handler is called iff a record exists at exactly that route with type "http"; otherwise 404 with the fixed message |
| Dispatch.AfterHandler | src/index.js:152-156 | a body is sent iff the handler's result is truthy, and it is that result |
| Dispatch.NonHttpRouteIsNotFound | src/index.js:149 | a worker, trigger or custom record at the route still answers the 404 |
| FanOut.Subscribers | src/index.js:108-110 | the filter keeps only keys whose record's type is the topic, keeps every such key, and keeps them in key order |
| FanOut.SubscribersFrom | src/index.js:108-110 | every selected key holds a record whose type is the topic, and comes from the scanned suffix |
| FanOut.SubscribersFromCount | src/index.js:108-110 | each key is selected once if its record's type is the topic and never otherwise |
| FanOut.SubscriberSelectedOnce | src/index.js:107-116 | one run of a listener's `handleTrigger` selects every record of the trigger's type exactly once and no other record |
| RegistrySpec.Subscribe | src/index.js:117 | adds the listener to the topic, keeps every existing subscription and adds no other |
| RegistrySpec.Unsubscribe | src/index.js:120 | removes exactly that listener from that topic: every other subscription stays and none is added |
| RegistrySpec.CleanupEffects | src/index.js:95-125 | the noop cleanup given at line 18 does nothing; a worker is terminated; a trigger first removes its listener and then calls the teardown only if one was returned |
| RegistrySpec.AfterCleanup | src/index.js:42 | running a cleanup leaves the table and the identity counter alone, appends exactly its effects, stops a terminated worker, takes a removed listener off the bus and nothing else off it |
| RegistrySpec.RemoveSpec | src/index.js:34-50 | answers true iff some record has the name; on false the state is unchanged; on true exactly one key goes and no new key appears, and the bus and the set of live workers change exactly as the removed record's cleanup says (its listener unsubscribed, its worker terminated, nothing else) |
| RegistrySpec.JoinPath | src/index.js:58 | the folder path reads back as the root, one "/", and the folder name |
| RegistrySpec.FreshRecord | src/index.js:72-81 | the stored record has the descriptor's name, the expanded route and type, the loaded code, the whole descriptor as config, the joined folder, an empty log, a noop cleanup and no worker |
| RegistrySpec.Activate | src/index.js:86-128 | only the worker handle and the cleanup change; a worker spawns with a terminate cleanup; a trigger initializes and then subscribes under its name with the teardown flag, or rejects inert when the initializer throws; http and other types do nothing |
| RegistrySpec.Install | src/index.js:71-128 | the activated record sits at its route, the trace grows by exactly the activation's effects, the bus gains exactly the new listener (if any) and keeps all others, the running workers gain exactly the new worker (if any), and the counter moves on by one |
| RegistrySpec.RegisterSpec | src/index.js:52-129 | a blank folder resolves and changes nothing; a failed load rejects and changes nothing; otherwise the route holds a record with the new name and type, and the call rejects iff a trigger initializer threw |
| RegistrySpec.LogSpec | src/index.js:15 | succeeds iff a record is at the route; only that record's log changes, by one appended line; nothing changes on failure |
| RegistrySpec.Invocations | src/index.js:112-115 | one handler call per selected key, in the given order, each with that key's handler and the payload |
| RegistrySpec.InitialInv | src/index.js:9 | the empty registry satisfies the invariant |
| RegistrySpec.AfterCleanupKeepsOthers | src/index.js:42 | running one record's cleanup leaves every other record's worker running and its listener on the bus, because no two records share either |
| RegistrySpec.RemovePreservesInv | src/index.js:34-50 | removal keeps the table well formed; every remaining worker record's worker is still running and every remaining trigger record's listener is still subscribed; no two records share a worker or a listener |
| RegistrySpec.InstallPreservesInv | src/index.js:71-128 | storing and activating a fresh record (no cleanup, no worker) under its route, free or occupied, keeps the invariant |
| RegistrySpec.RegisterPreservesInv | src/index.js:52-129 | registration keeps the invariant in every branch |
| RegistrySpec.LogPreservesInv | src/index.js:15 | logging keeps the invariant |
| RegistryProperties.RemoveUnknownChangesNothing | src/index.js:35-39 | an unknown name answers false and leaves table, logs, bus and trace as they were |
| RegistryProperties.RemoveKnownRunsCleanupOnce | src/index.js:34-50 | the first record with the name has its cleanup run once and then its folder deleted; only its key goes; size drops by one; answer true; the bus loses only its listener and the live workers only its worker |
| RegistryProperties.RemovedRouteIsNotFound | src/index.js:45 | after removal the route answers 404 |
| RegistryProperties.RemoveShrinksListing | src/index.js:20-23 | removing a known name shortens the listing by exactly one |
| RegistryProperties.RegisterBlankFolderIsNoop | src/index.js:54-56 | a missing or whitespace-only folder changes nothing and resolves |
| RegistryProperties.RegisterLoadFailureIsNoop | src/index.js:61-62 | a throwing `require` changes nothing and rejects |
| RegistryProperties.RegisterInstallsRecord | src/index.js:72-128 | the route holds a record built from the inputs with an empty log, activated by type (worker handle and terminate, trigger subscription and teardown, noop otherwise); rejection happens exactly when a trigger initializer throws |
| RegistryProperties.ReRegisterInstallsAfterRemove | src/index.js:67-72 | re-registering the route's own function installs into the state its removal left |
| RegistryProperties.ReRegisterSameNameReplaces | src/index.js:67-81 | re-registering the same name keeps the table size and all other records and moves the route to the end |
| RegistryProperties.ReRegisterCleansUpFirst | src/index.js:67-69 | the old record's cleanup and folder deletion complete before the new record's activation effects; an old listener ends unsubscribed |
| RegistryProperties.RegisterOverwritesOtherName | src/index.js:67-72 | an occupant with another name is overwritten in place without its cleanup; the bus and the running workers only gain the new record's listener or worker, so the occupant's listener and worker stay |
| RegistryProperties.RegisterRemovesNamesakeElsewhere | src/index.js:67-69 | a namesake at another route is removed instead, and the overwritten occupant's cleanup never runs; size drops by one |
| RegistryProperties.RegisterFreeRouteAppends | src/index.js:71-81 | a free route is appended to the key order; size grows by one; every other record unchanged; the bus and the running workers only gain the new record's listener or worker |
| RegistryProperties.RegisteredRouteDispatch | src/index.js:149 | after registration the route dispatches to the new handler iff its type is "http" |
| RegistryProperties.FirstRegistrationHasEmptyLog | src/index.js:79 | a first-time name's logs are found and empty |
| Host.Registry.constructor | src/index.js:9 | the registry starts empty and valid |
| Host.Registry.RunCleanup | src/index.js:42 | performs the cleanup's effects as `AfterCleanup` specifies |
| Host.Registry.Remove | src/index.js:34-50 | in-place removal matches `RemoveSpec` and keeps the invariant |
| Host.Registry.Register | src/index.js:52-129 | in-place registration matches `RegisterSpec` and keeps the invariant |
| Host.Registry.InstallRecord | src/index.js:71-84 | stores the record and activates it with the next fresh identity, as `Install` specifies |
| Host.Registry.ActivateStored | src/index.js:86-128 | worker: handle and terminate cleanup; trigger: initializer, subscription and cleanup, or rejection; otherwise nothing |
| Host.Registry.Log | src/index.js:15 | in-place push matches `LogSpec` and keeps the invariant |
| Host.Registry.HandleTrigger | src/index.js:107-116 | invokes, in key order, exactly the handlers the fan-out filter selects, and keeps the invariant |
| Host.Registry.InvokeAll | src/index.js:112-115 | the `forEach` loop appends one handler call per selected key, in order, as `Invocations` specifies |

## Left out

- FunctionTable.GetLogs uses the corrected lookup `FindRoute`. For an
  unknown name while a record sits at the key "undefined", the source
  (src/index.js:26-31) returns that record's log. The model returns none.
- RegistrySpec.RemoveSpec uses the corrected lookup. For an unknown name
  while a record sits at "undefined", the source (src/index.js:35-49) runs
  that record's cleanup, deletes it, deletes its folder and returns true.
  The model answers false and changes nothing.
- RegistrySpec.RegisterSpec uses the corrected lookup in its removal step.
  Suppose the new route is held by an occupant with another name, no
  record carries the new name, and a record sits at "undefined". Then the
  source (src/index.js:67-68) removes the "undefined" record (cleanup,
  deletion, folder). The model removes nothing.
- Key order follows insertion only. JavaScript lists integer-like keys
  first, but routes are strings that usually start with '/'.
- Keys inherited from `Object.prototype` (`constructor`, `__proto__`) are
  not modelled. The table holds only its own entries.
- `require`, its module cache, `fs.readdirSync` and `loadFunctions` are
  left out. Loading is an input, because it is filesystem access and dynamic
  loading.
- `path.join` normalisation (`..`, doubled slashes) is left out. Paths are
  joined with "/".
- Descriptor override values must be strings. A `function` field that is
  set to `undefined`, or to a non-string, is not modelled.
- A descriptor without `name` is not modelled. JavaScript would give it the
  route "/undefined".
- `new Date().toISOString()` is an input string, and the message's
  stringification is left to the caller.
- JsValues.Truthy: numbers are integers, so NaN, -0 and fractions are not
  modelled.
- FunctionTable.GetLogs returns the log's value. JavaScript returns the
  live array, which the caller could mutate.
- Trigger initializers, HTTP handlers and worker code are user code. Only
  their calls and outcomes are recorded. Their own log lines and side
  effects are not.
- Async interleaving is left out. `loadFunctions` does not await its
  registrations, and operations can suspend. Every operation is modelled as
  atomic and sequential.
- A teardown that throws, and an HTTP handler that throws, are not
  modelled. The code catches neither.
- `src/worker.js` is not part of this model. A worker is an opaque handle
  whose cleanup is "terminate".
- The message bus module is not part of this model. It is a map from topic
  to listener ids, with no emission order or EventEmitter semantics.
- Fastify routing, the `reply` object and `setup`'s registration of the
  route are left out. Only the dispatch decision is modelled.
- One emission on a topic runs every listener subscribed to that topic,
  and each listener runs its own fan-out. So when two listeners share a
  topic, every subscriber is invoked once per listener. This happens after
  two trigger functions with the same name at different routes, or after a
  trigger occupant was overwritten and a trigger with its name registered
  again. The model states the fan-out of one listener run
  (Host.Registry.HandleTrigger); the emission itself is not modelled.
- Host.Registry.HandleTrigger: the invocation order is stated as key order
  through `Invocations`. The handlers' own effects are not modelled.
- Host.Registry.HandleTrigger: assumes every subscriber handler returns. In
  the source (src/index.js:112-115) `forEach` stops at the first handler
  that throws synchronously, and the exception escapes `messageBus.emit`,
  so the later subscribers are not invoked. The model always invokes all
  of them.
- `rmDir` is recorded as a `FolderDeleted` effect. No folder is deleted.
- The CLI in `bin/` and the re-exports in the root `index.js` are not part
  of this model.

## Findings

| source | as written | input that shows it | evidently intended | confidence | as-written member | corrected member |
|---|---|---|---|---|---|---|
| src/index.js:26-27, src/index.js:35-36, src/index.js:67-68 | `functions[Object.keys(functions).find(...)]` reads `functions["undefined"]` when no record has the name | a function whose descriptor sets `function.route` to "undefined" is registered; then either `getLogsForFunction("ghost-name")` returns its log, or `removeFunction({id: "ghost-name"})` removes it, or registering "ghost-name" onto a route held by another function removes it | an unknown name finds nothing | not executed | FunctionTable.UnknownNameHitsUndefinedRoute | FunctionTable.FindRoute |
