# APIService controller, modelled in Dafny

This project models the APIService controller of library-go's apiserver
operator (`pkg/operator/apiserver/controller/apiservice/apiservice_controller.go`).
On every sync the controller does the following:

- It reads the operator's management state. In `Unmanaged` or an
  unrecognised state it does nothing. In `Removed` it deletes every managed
  APIService.
- In `Managed` it deletes the disabled APIServices and then checks the
  precondition for the enabled ones.
- When the precondition holds, it applies the enabled APIServices. It then
  reports unavailable ones, or ones missing from discovery.
- Finally it writes the `APIServicesDegraded` and `APIServicesAvailable`
  operator conditions. It skips the write when the process is shutting down
  with an error to report.

Files:

- `wrappers.dfy`: `Option` and `Result`.
- `errors.dfy`: Go errors as a datatype, including `errors.NewAggregate`,
  which gives nil for an empty list.
- `sequences.dfy`: order-preserving traversals (`Map`, `FilterMap`,
  `FlatMap`) and their lemmas.
- `string_order.dfy`: byte-wise string order, the sort behind
  `sort.Sort(sort.StringSlice(...))`, and `strings.Join`.
- `apiservice_controller.dfy`: the data, the collaborators and the
  `Controller` class.
- `apiservice_properties.dfy`: what the controller promises, as lemmas.

Everything the controller asks of the outside world is a field of the
datatype `Env`. That covers the operator state, the lists to manage, the
lister cache, Delete and apply results, the precondition, discovery and the
status-write result. A `Controller` holds one `Env` and a `log` of every
call it makes to those collaborators. The class methods follow the Go
functions statement by statement:

- `Sync`
- `SyncManaged` (the Managed branch)
- `SyncDisabledAPIServices`, with one pass of its loop in `DisableOne`
- `SyncEnabledAPIServices`, with its loop in `ApplyEnabled`, one pass in
  `ApplyOne`, and the condition scan in `CheckAvailableCondition`
- `UpdateOperatorStatus`. The deferred status write is the code after a
  labelled block, so every `return` inside the Go body becomes a `break`
  out of that block.

Each method is proved to return what a specification function says and to
append exactly that function's calls to the log. The specification
functions are `SyncSpec`, `ManagedSync`, `DisabledErrs` and `DisabledCalls`,
`EnabledResult` and `EnabledCalls`, and `StatusResult` and `StatusCalls`.
The lemmas in `apiservice_properties.dfy` are stated over those functions,
so they hold of the methods.

Two behaviours of the code are easy to misread:

- A name in both the enabled and the disabled list is deleted on the
  disabled path and then applied again in the same sync. Neither list wins
  (`NameInBothLists`).
- `updateOperatorStatus` checks the enabled-path error after the
  precondition error and overwrites the reason. So if both were non-nil the
  reason would be `Error`, not `ErrorCheckingPrecondition`. `sync` never
  passes both. Under that discipline the reasons follow the order
  precondition error, not ready, enabled error (`AvailableReasonUnderSync`).
  The model follows the code (`AvailableCondition`).

## Model

| member | source | states |
|---|---|---|
| APIServiceController.Controller.Sync | pkg/operator/apiserver/controller/apiservice/apiservice_controller.go:153-189 | sync returns and calls exactly what SyncSpec gives: a state error is returned unchanged before any call; Unmanaged and unrecognised states return nil; Removed runs the disabled path on enabled ++ disabled; Managed lists, then runs SyncManaged |
| APIServiceController.Controller.SyncManaged | pkg/operator/apiserver/controller/apiservice/apiservice_controller.go:174-188 | the Managed branch: disabled path, then precondition, enabled path only when the precondition returned no error and ready, then the status update with the enabled error left nil otherwise |
| APIServiceController.Controller.SyncDisabledAPIServices | pkg/operator/apiserver/controller/apiservice/apiservice_controller.go:191-209 | the loop returns the aggregate of the per-APIService errors in list order (nil when there are none) and makes the per-APIService lookups and deletes in list order |
| APIServiceController.Controller.DisableOne | pkg/operator/apiserver/controller/apiservice/apiservice_controller.go:195-205 | one APIService: look it up; skip it if it is being deleted; otherwise Delete it; NotFound from either call is not an error |
| APIServiceController.DisableError | pkg/operator/apiserver/controller/apiservice/apiservice_controller.go:195-205 | an APIService yields an error iff the lister failed other than NotFound, or it was found, not being deleted, and Delete failed other than NotFound; the error is that lister error or that Delete error, never NotFound |
| APIServiceController.Controller.ApplyOne | pkg/operator/apiserver/controller/apiservice/apiservice_controller.go:216-231 | one pass: the APIService is defaulted and applied; the pass reports the apply error, or else the availability message of the applied object |
| APIServiceController.Controller.ApplyEnabled | pkg/operator/apiserver/controller/apiservice/apiservice_controller.go:212-232 | every enabled APIService is defaulted in place and applied in order, errors or not; the apply errors and availability messages are collected in order |
| APIServiceController.Controller.SyncEnabledAPIServices | pkg/operator/apiserver/controller/apiservice/apiservice_controller.go:211-254 | returns EnabledResult and makes EnabledCalls: apply errors win; else sorted availability messages; else, with a REST client, sorted discovery messages; else nil |
| APIServiceController.CheckAvailableCondition | pkg/operator/apiserver/controller/apiservice/apiservice_controller.go:224-231 | the scan stops at the first Available condition and yields the not-available message iff its status is not True |
| APIServiceController.FirstAvailableAt | pkg/operator/apiserver/controller/apiservice/apiservice_controller.go:224-231 | if no condition before k is Available and k is (or k is the end), the first Available condition is the one at k (or there is none) |
| APIServiceController.Defaulted | pkg/operator/apiserver/controller/apiservice/apiservice_controller.go:217 | defaulting the service reference sets a missing port to 443 and changes nothing else |
| APIServiceController.EnabledStep | pkg/operator/apiserver/controller/apiservice/apiservice_controller.go:215-231 | one more pass of the enabled loop appends exactly that pass's apply error or message |
| APIServiceController.DegradedCondition | pkg/operator/apiserver/controller/apiservice/apiservice_controller.go:81-129 | APIServicesDegraded is True with reason DisabledAPIServicesPresent and the error as message iff the disabled path failed, else False with no reason |
| APIServiceController.AvailableCondition | pkg/operator/apiserver/controller/apiservice/apiservice_controller.go:85-148 | APIServicesAvailable is True iff no precondition error, ready and no enabled error; the reason is ErrorCheckingPrecondition, PreconditionNotReady or Error exactly in the cases the code sets it, and empty iff True; the message is the precondition error, the text "PreconditionNotReady" or the enabled-path error to match the reason, and none when True |
| APIServiceController.Controller.UpdateOperatorStatus | pkg/operator/apiserver/controller/apiservice/apiservice_controller.go:73-151 | returns StatusResult and makes StatusCalls: the shutdown error with no write when the context is done and an error exists; otherwise one write of both conditions, whose error replaces the one returned |
| APIServiceController.Controller.GetAPIServicesToManage | pkg/operator/apiserver/controller/apiservice/apiservice_controller.go:164 | the lists to manage come from the collaborator, and the call is logged |
| APIServiceController.Controller.ListerGet | pkg/operator/apiserver/controller/apiservice/apiservice_controller.go:195 | the lister answers from its cache, a miss is NotFound, and the call is logged |
| APIServiceController.Controller.Delete | pkg/operator/apiserver/controller/apiservice/apiservice_controller.go:200 | Delete answers from the collaborator, and the call is logged |
| APIServiceController.Controller.CheckPrecondition | pkg/operator/apiserver/controller/apiservice/apiservice_controller.go:182 | the precondition answers from the collaborator, and the call is logged |
| APIServiceController.Controller.ApplyAPIService | pkg/operator/apiserver/controller/apiservice/apiservice_controller.go:218 | apply answers from the collaborator, and the call is logged |
| APIServiceController.Controller.CheckDiscovery | pkg/operator/apiserver/controller/apiservice/apiservice_controller.go:244 | discovery answers from the collaborator for the defaulted APIServices, and the call is logged |
| APIServiceController.Controller.UpdateStatus | pkg/operator/apiserver/controller/apiservice/apiservice_controller.go:113-118 | the status write carries both conditions, answers from the collaborator, and is logged |
| APIServiceProperties.DisabledErrsExact | pkg/operator/apiserver/controller/apiservice/apiservice_controller.go:195-205 | an error is collected iff it is not NotFound and, for some listed APIService, it is the lister's error, or Delete's error for an object the lister holds without a deletion timestamp |
| APIServiceProperties.DisabledNilIff | pkg/operator/apiserver/controller/apiservice/apiservice_controller.go:191-208 | the disabled path returns nil iff no APIService yields an error (so an empty list gives nil) |
| APIServiceProperties.DisabledCallKinds | pkg/operator/apiserver/controller/apiservice/apiservice_controller.go:194-205 | every APIService is looked up whatever happened before; Delete is sent for a name iff it is listed and the lister holds it without a deletion timestamp; no other call is made |
| APIServiceProperties.FirstAvailableWitness | pkg/operator/apiserver/controller/apiservice/apiservice_controller.go:224-231 | there is no first Available condition iff no condition is Available; otherwise it sits at an index with no Available condition before it |
| APIServiceProperties.UnavailabilityMessageIff | pkg/operator/apiserver/controller/apiservice/apiservice_controller.go:224-231 | an applied object yields a message iff its first Available condition is not True, and the message is "apiservices.apiregistration.k8s.io/<name>: not available: <message>" |
| APIServiceProperties.LaterConditionsIgnored | pkg/operator/apiserver/controller/apiservice/apiservice_controller.go:224-231 | conditions after the first Available one do not change the message |
| APIServiceProperties.ApplyErrsExact | pkg/operator/apiserver/controller/apiservice/apiservice_controller.go:218-222 | an error is collected iff applying some enabled APIService returned it |
| APIServiceProperties.AvailabilityMessagesExact | pkg/operator/apiserver/controller/apiservice/apiservice_controller.go:218-231 | a message is collected iff some APIService applied without error and its applied object yields that message |
| APIServiceProperties.EveryEnabledApplied | pkg/operator/apiserver/controller/apiservice/apiservice_controller.go:215-222 | a failed apply does not stop the loop: the first calls are the applies of every enabled APIService, defaulted, in order |
| APIServiceProperties.DiscoveryOnlyWhenClean | pkg/operator/apiserver/controller/apiservice/apiservice_controller.go:233-246 | discovery is called iff every apply succeeded, no applied object is unavailable and there is a REST client, and then with all the defaulted APIServices |
| APIServiceProperties.ApplyErrorsDecide | pkg/operator/apiserver/controller/apiservice/apiservice_controller.go:233-235 | the result is the aggregate of the apply errors iff some apply failed |
| APIServiceProperties.EnabledNilIff | pkg/operator/apiserver/controller/apiservice/apiservice_controller.go:211-254 | the enabled path returns nil iff every apply succeeded, every applied object is available, and discovery (with a REST client) reports nothing |
| APIServiceProperties.ReportMessagesSorted | pkg/operator/apiserver/controller/apiservice/apiservice_controller.go:236-239 | reported lines give nil iff there are none; otherwise the error text is the lines sorted ascending (a permutation of them) joined by newlines |
| APIServiceProperties.EnabledOrderIndependent | pkg/operator/apiserver/controller/apiservice/apiservice_controller.go:236-251 | when no apply fails, reordering the enabled list (with discovery reporting the same messages) does not change the result |
| APIServiceProperties.ReportOrderExample | pkg/operator/apiserver/controller/apiservice/apiservice_controller.go:236-238 | messages for b then a are reported as a, then b |
| APIServiceProperties.StatusErrorNilIff | pkg/operator/apiserver/controller/apiservice/apiservice_controller.go:124-150 | with the write succeeding, updateOperatorStatus returns nil iff no disabled error, no precondition error, and no enabled error unless not ready |
| APIServiceProperties.ShutdownSkipsStatusWrite | pkg/operator/apiserver/controller/apiservice/apiservice_controller.go:90-122 | shutting down (context done and an error present) means no write and the shutdown error whatever the write would answer; otherwise exactly one write, and its error replaces the result |
| APIServiceProperties.ShutdownErrorCarries | pkg/operator/apiserver/controller/apiservice/apiservice_controller.go:97-107 | the shutdown error holds exactly the present errors, each wrapped with what failed |
| APIServiceProperties.AvailableReasonUnderSync | pkg/operator/apiserver/controller/apiservice/apiservice_controller.go:131-148 | when the enabled path only runs after a clean, ready precondition, the reason is ErrorCheckingPrecondition, else PreconditionNotReady, else Error, else empty |
| APIServiceProperties.SyncIdleIff | pkg/operator/apiserver/controller/apiservice/apiservice_controller.go:154-172 | sync makes no call iff the state cannot be read, or is Unmanaged or unrecognised; the state error is returned as is; Unmanaged and unrecognised return nil |
| APIServiceProperties.RemovedOnlyDeletes | pkg/operator/apiserver/controller/apiservice/apiservice_controller.go:163-168 | in Removed the result is the disabled path's over enabled ++ disabled; Delete goes to exactly the listed, eligible names; only listing, lookups and deletes happen |
| APIServiceProperties.ManagedCallsSplit | pkg/operator/apiserver/controller/apiservice/apiservice_controller.go:179-188 | a Managed sync calls the disabled path, the precondition, the enabled path when the precondition passed, and the status update, in that order |
| APIServiceProperties.ManagedCallsAt | pkg/operator/apiserver/controller/apiservice/apiservice_controller.go:179-188 | the positions of the disabled-path calls, the precondition call and the enabled-path calls in a Managed sync |
| APIServiceProperties.ManagedCallOrder | pkg/operator/apiserver/controller/apiservice/apiservice_controller.go:181-188 | every lookup and delete comes before the precondition check; every apply, discovery call and status write comes after it |
| APIServiceProperties.ManagedApplyIff | pkg/operator/apiserver/controller/apiservice/apiservice_controller.go:182-186 | an APIService is applied iff the precondition returned no error and ready, and then every enabled APIService is applied |
| APIServiceProperties.ManagedStatusWrite | pkg/operator/apiserver/controller/apiservice/apiservice_controller.go:112-122 | in a Managed sync the status is written at most once, as the last call, iff not shutting down, with both conditions computed from the sync's errors |
| APIServiceProperties.NameInBothLists | pkg/operator/apiserver/controller/apiservice/apiservice_controller.go:174-186 | a name in both lists that the lister holds undeleted is deleted and later applied in the same Managed sync |
| StringOrder.SortStrings | pkg/operator/apiserver/controller/apiservice/apiservice_controller.go:237 | sorting keeps the same lines (a permutation) |
| StringOrder.SortStringsSorted | pkg/operator/apiserver/controller/apiservice/apiservice_controller.go:237 | the sorted lines are in ascending byte order |
| StringOrder.SortOrderIndependent | pkg/operator/apiserver/controller/apiservice/apiservice_controller.go:237 | two orderings of the same lines sort to the same sequence |

## Left out

- Controller wiring is not modelled: `NewAPIServiceController`, the informers, the 10-second resync and the factory registration. They are plumbing.
- The event recorder warning for an unrecognised state and the `klog` warning for an object being deleted are not modelled. Neither changes a result.
- Go's `context` is a boolean `ctxDone` ("the context is done").
- Real clients are not modelled. The lister, Delete, `ApplyAPIService`, the precondition, discovery and `v1helpers.UpdateStatus` are answers given in `Env`.
- Those answers are fixed for the sync. The lister is a cache read, so a Delete during the sync does not change what it returns.
- Apply, the precondition and discovery are functions of their input. Two calls with the same input get the same answer.
- Reading the operator state is an input and is not logged as a call.
- `newEndpointPrecondition` and `checkDiscoveryForByAPIServices` are not part of this model. They are abstract functions in `Env`.
- `Defaulted` stands in for kube-aggregator's `SetDefaults_ServiceReference`: it sets a missing port to 443. A nil service reference, on which the Go call panics, is not modelled: the reference is always present.
- The `changed` result of `ApplyAPIService` is not modelled. The controller ignores it.
- `DegradedCondition`: the message is the error value itself, not its rendered text, because error-to-text rendering (`Error()`, `%v`) is not modelled.
- `AvailableCondition`: the message is the error value itself, not its rendered text, for the same reason.
- `ShutdownError`: the wrapped errors keep the Go prefixes, but the enclosing "the operator is shutting down, skipping updating conditions, err = …" text is a constructor rather than a string.
- `ReportMessages`: `fmt.Errorf` receives the joined lines as its format string. A `%` verb inside a message would be expanded by `fmt`, and the model keeps the text as it is.
- `SortStrings`: `sort.Sort` on a string slice sorts in place. The model gives the sorted value. Both give ascending byte order, which for UTF-8 strings is code-point order, and the model uses code points.
