/** The APIService controller of library-go's apiserver operator: every sync
    it deletes the disabled APIServices, applies the enabled ones once their
    precondition holds, and reports the outcome as the APIServicesDegraded and
    APIServicesAvailable operator conditions.

    Everything the controller asks of the outside world (the operator client,
    the APIService lister and client, the precondition, discovery) is a field
    of `Env`; every such call the controller makes is appended to the
    controller's `log`. The functions below say, for a given `Env`, what each
    step returns and which calls it makes; the methods of `Controller` are the
    step-by-step code, proved to agree with them. */
module APIServiceController {
  import opened Wrappers
  import opened Errors
  import opened Sequences
  import opened StringOrder

  // ---------------------------------------------------------------- data

  /** The operator's management state. `Unrecognized` carries any other
      state name (such as "Force"), which the sync switch does not handle. */
  datatype ManagementState = Managed | Unmanaged | Removed | Unrecognized(value: string)

  /** Status of an APIService condition and of an operator condition. */
  datatype ConditionStatus = ConditionTrue | ConditionFalse | ConditionUnknown

  datatype APIServiceCondition = APIServiceCondition(condType: string, status: ConditionStatus, message: string)

  datatype ServiceReference = ServiceReference(namespace: string, name: string, port: Option<int>)

  /** An APIService object: its name, the service it routes to, whether it
      carries a deletion timestamp, and the conditions of its status. */
  datatype APIService = APIService(
    name: string,
    service: ServiceReference,
    deleting: bool,
    conditions: seq<APIServiceCondition>)

  /** The message of an operator condition: none, a fixed text, or the text
      of an error. */
  datatype ConditionMessage = NoMessage | Literal(text: string) | TextOf(err: Err)

  datatype OperatorCondition = OperatorCondition(
    condType: string,
    status: ConditionStatus,
    reason: string,
    message: ConditionMessage)

  datatype PreconditionResult = PreconditionResult(ready: bool, err: Option<Err>)

  datatype ManagedLists = ManagedLists(enabled: seq<APIService>, disabled: seq<APIService>)

  /** One call the controller makes to a collaborator. */
  datatype Call =
    | ListManagedCall                                // getAPIServicesToManageFn
    | ListerGetCall(name: string)                    // apiservicelister.Get
    | DeleteCall(name: string)                       // APIServices().Delete
    | PreconditionCall(enabled: seq<APIService>)     // preconditionForEnabledAPIServices
    | ApplyCall(desired: APIService)                 // resourceapply.ApplyAPIService
    | DiscoveryCall(enabled: seq<APIService>)        // checkDiscoveryForByAPIServices
    | UpdateStatusCall(degraded: OperatorCondition, available: OperatorCondition) // v1helpers.UpdateStatus

  /** What the collaborators answer during one sync. The lister is a cache
      read: a delete issued during the sync does not change what it returns. */
  datatype Env = Env(
    operatorState: Result<ManagementState, Err>,         // operatorClient.GetOperatorState
    toManage: Result<ManagedLists, Err>,                 // getAPIServicesToManageFn
    cache: map<string, APIService>,                      // objects the lister holds
    listerFaults: map<string, Err>,                      // lister errors other than a miss
    deleteFaults: map<string, Err>,                      // errors Delete returns, by name
    apply: APIService -> Result<APIService, Err>,        // ApplyAPIService: the object as stored, or an error
    precondition: seq<APIService> -> PreconditionResult, // preconditionForEnabledAPIServices
    hasRESTClient: bool,                                 // Discovery().RESTClient() != nil
    discovery: seq<APIService> -> seq<string>,           // messages for APIs missing from discovery
    statusWriteFault: Option<Err>)                       // error UpdateStatus returns

  const AvailableType := "Available"
  const DegradedConditionType := "APIServicesDegraded"
  const AvailableConditionType := "APIServicesAvailable"
  const DefaultServicePort := 443

  // ------------------------------------------------- disabled APIServices

  /** apiservicelister.Get: a configured fault, the cached object, or a miss. */
  function ListerLookup(env: Env, name: string): Result<APIService, Err> {
    if name in env.listerFaults then Fail(env.listerFaults[name])
    else if name in env.cache then Ok(env.cache[name])
    else Fail(NotFound(name))
  }

  function DeleteResult(env: Env, name: string): Option<Err> {
    if name in env.deleteFaults then Some(env.deleteFaults[name]) else None
  }

  /** The error syncDisabledAPIServices records for one APIService, if any. */
  function DisableError(env: Env, name: string): (r: Option<Err>)
    ensures r.Some? ==> !IsNotFound(r.value)
    ensures r.Some? <==>
      (name in env.listerFaults && !IsNotFound(env.listerFaults[name])) ||
      (name !in env.listerFaults && name in env.cache && !env.cache[name].deleting &&
       name in env.deleteFaults && !IsNotFound(env.deleteFaults[name]))
    ensures r.Some? ==>
      r.value == (if name in env.listerFaults then env.listerFaults[name] else env.deleteFaults[name])
  {
    match ListerLookup(env, name)
    case Ok(obj) =>
      if obj.deleting then None
      else (match DeleteResult(env, name)
            case Some(e) => if IsNotFound(e) then None else Some(e)
            case None => None)
    case Fail(e) => if IsNotFound(e) then None else Some(e)
  }

  /** The calls syncDisabledAPIServices makes for one APIService. */
  function DisableCalls(env: Env, name: string): seq<Call> {
    match ListerLookup(env, name)
    case Ok(obj) => if obj.deleting then [ListerGetCall(name)] else [ListerGetCall(name), DeleteCall(name)]
    case Fail(_) => [ListerGetCall(name)]
  }

  function DisableErrorOf(env: Env): APIService -> Option<Err> {
    (x: APIService) => DisableError(env, x.name)
  }

  function DisableCallsOf(env: Env): APIService -> seq<Call> {
    (x: APIService) => DisableCalls(env, x.name)
  }

  /** The errors syncDisabledAPIServices collects, in item order. */
  function DisabledErrs(env: Env, items: seq<APIService>): seq<Err> {
    FilterMap(DisableErrorOf(env), items)
  }

  function DisabledCalls(env: Env, items: seq<APIService>): seq<Call> {
    FlatMap(DisableCallsOf(env), items)
  }

  /** An APIService the disabled path sends a Delete for. */
  predicate DeleteEligible(env: Env, name: string) {
    name !in env.listerFaults && name in env.cache && !env.cache[name].deleting
  }

  // -------------------------------------------------- enabled APIServices

  /** SetDefaults_ServiceReference: a service reference without a port gets
      the default port. */
  function Defaulted(x: APIService): (r: APIService)
    ensures r.name == x.name && r.deleting == x.deleting && r.conditions == x.conditions
    ensures r.service.namespace == x.service.namespace && r.service.name == x.service.name
    ensures r.service.port == if x.service.port.Some? then x.service.port else Some(DefaultServicePort)
  {
    if x.service.port.Some? then x else x.(service := x.service.(port := Some(DefaultServicePort)))
  }

  function ApplyCallFor(x: APIService): Call {
    ApplyCall(Defaulted(x))
  }

  function ApplyOutcome(env: Env, x: APIService): Result<APIService, Err> {
    env.apply(Defaulted(x))
  }

  /** The first condition of type Available, if there is one. */
  function FirstAvailable(conds: seq<APIServiceCondition>): Option<APIServiceCondition> {
    if conds == [] then None
    else if conds[0].condType == AvailableType then Some(conds[0])
    else FirstAvailable(conds[1..])
  }

  ghost predicate IsFirstAvailable(conds: seq<APIServiceCondition>, k: int) {
    0 <= k < |conds| && conds[k].condType == AvailableType &&
    forall j :: 0 <= j < k ==> conds[j].condType != AvailableType
  }

  function NotAvailableMessage(name: string, message: string): string {
    "apiservices.apiregistration.k8s.io/" + name + ": not available: " + message
  }

  /** The availability message an applied APIService contributes, if any. */
  function UnavailabilityMessage(obj: APIService): Option<string> {
    match FirstAvailable(obj.conditions)
    case Some(c) => if c.status != ConditionTrue then Some(NotAvailableMessage(obj.name, c.message)) else None
    case None => None
  }

  function ApplyErrorOf(env: Env): APIService -> Option<Err> {
    (x: APIService) => match ApplyOutcome(env, x) case Fail(e) => Some(e) case Ok(_) => None
  }

  function MessageOf(env: Env): APIService -> Option<string> {
    (x: APIService) => match ApplyOutcome(env, x) case Ok(obj) => UnavailabilityMessage(obj) case Fail(_) => None
  }

  /** The apply errors of syncEnabledAPIServices, in item order. */
  function ApplyErrs(env: Env, items: seq<APIService>): seq<Err> {
    FilterMap(ApplyErrorOf(env), items)
  }

  /** The availability messages of syncEnabledAPIServices, in item order. */
  function AvailabilityMessages(env: Env, items: seq<APIService>): seq<string> {
    FilterMap(MessageOf(env), items)
  }

  /** Whether syncEnabledAPIServices goes on to ask discovery. */
  predicate ConsultsDiscovery(env: Env, items: seq<APIService>) {
    ApplyErrs(env, items) == [] && AvailabilityMessages(env, items) == [] && env.hasRESTClient
  }

  function MissingFromDiscovery(env: Env, items: seq<APIService>): seq<string> {
    if env.hasRESTClient then env.discovery(Map(Defaulted, items)) else []
  }

  /** fmt.Errorf of the sorted lines joined by newlines; nil for no lines. */
  function ReportMessages(lines: seq<string>): Option<Err> {
    if lines == [] then None else Some(Message(Join(SortStrings(lines), "\n")))
  }

  /** The error syncEnabledAPIServices returns. */
  function EnabledResult(env: Env, items: seq<APIService>): Option<Err> {
    var errs := ApplyErrs(env, items);
    if errs != [] then Some(Aggregate(errs))
    else
      var msgs := AvailabilityMessages(env, items);
      if msgs != [] then ReportMessages(msgs)
      else ReportMessages(MissingFromDiscovery(env, items))
  }

  /** The calls syncEnabledAPIServices makes. */
  function EnabledCalls(env: Env, items: seq<APIService>): seq<Call> {
    Map(ApplyCallFor, items) +
    (if ConsultsDiscovery(env, items) then [DiscoveryCall(Map(Defaulted, items))] else [])
  }

  // ------------------------------------------------------ operator status

  /** The APIServicesDegraded condition updateOperatorStatus writes. */
  function DegradedCondition(disabledErr: Option<Err>): (c: OperatorCondition)
    ensures c.condType == DegradedConditionType
    ensures c.status == ConditionTrue <==> disabledErr.Some?
    ensures c.status != ConditionTrue ==> c.status == ConditionFalse && c.reason == "" && c.message == NoMessage
    ensures disabledErr.Some? ==> c.reason == "DisabledAPIServicesPresent" && c.message == TextOf(disabledErr.value)
  {
    match disabledErr
    case Some(e) => OperatorCondition(DegradedConditionType, ConditionTrue, "DisabledAPIServicesPresent", TextOf(e))
    case None => OperatorCondition(DegradedConditionType, ConditionFalse, "", NoMessage)
  }

  /** The APIServicesAvailable condition updateOperatorStatus writes. Each
      check overwrites what an earlier one set, so an enabled-path error
      replaces a precondition error. */
  function AvailableCondition(precErr: Option<Err>, ready: bool, enabledErr: Option<Err>): (c: OperatorCondition)
    ensures c.condType == AvailableConditionType
    ensures c.status == ConditionTrue <==> precErr.None? && ready && enabledErr.None?
    ensures c.status != ConditionTrue ==> c.status == ConditionFalse
    ensures c.reason == "ErrorCheckingPrecondition" <==> precErr.Some? && enabledErr.None?
    ensures c.reason == "PreconditionNotReady" <==> precErr.None? && !ready
    ensures c.reason == "Error" <==> enabledErr.Some? && (precErr.Some? || ready)
    ensures c.reason == "" <==> c.status == ConditionTrue
    ensures c.message ==
      if c.reason == "Error" then TextOf(enabledErr.value)
      else if c.reason == "ErrorCheckingPrecondition" then TextOf(precErr.value)
      else if c.reason == "PreconditionNotReady" then Literal("PreconditionNotReady")
      else NoMessage
  {
    var c := OperatorCondition(AvailableConditionType, ConditionTrue, "", NoMessage);
    var c :=
      if precErr.Some? then c.(status := ConditionFalse, reason := "ErrorCheckingPrecondition", message := TextOf(precErr.value))
      else if !ready then c.(status := ConditionFalse, reason := "PreconditionNotReady", message := Literal("PreconditionNotReady"))
      else c;
    if (precErr.Some? || ready) && enabledErr.Some? then
      c.(status := ConditionFalse, reason := "Error", message := TextOf(enabledErr.value))
    else c
  }

  /** True when updateOperatorStatus gives up because the process is
      shutting down. */
  predicate ShutsDown(ctxDone: bool, disabledErr: Option<Err>, precErr: Option<Err>, enabledErr: Option<Err>) {
    (disabledErr.Some? || precErr.Some? || enabledErr.Some?) && ctxDone
  }

  function Context(prefix: string, e: Option<Err>): seq<Err> {
    match e case Some(x) => [Wrapped(prefix, x)] case None => []
  }

  /** The "shutting down" error, wrapping each sync error with what failed. */
  function ShutdownError(disabledErr: Option<Err>, precErr: Option<Err>, enabledErr: Option<Err>): Err {
    ShuttingDown(Aggregate(
      Context("failed to delete disabled APIs", disabledErr) +
      Context("failed to check precondition for enabled APIs", precErr) +
      Context("failed to reconcile enabled APIs", enabledErr)))
  }

  function Present(e: Option<Err>): seq<Err> {
    match e case Some(x) => [x] case None => []
  }

  /** The error updateOperatorStatus returns when the status write succeeds. */
  function StatusError(disabledErr: Option<Err>, precErr: Option<Err>, ready: bool, enabledErr: Option<Err>): Option<Err> {
    var errs := Present(disabledErr) + Present(precErr);
    if precErr.None? && !ready then NewAggregate(errs)
    else NewAggregate(errs + Present(enabledErr))
  }

  function StatusResult(env: Env, ctxDone: bool, disabledErr: Option<Err>, precErr: Option<Err>, ready: bool, enabledErr: Option<Err>): Option<Err> {
    if ShutsDown(ctxDone, disabledErr, precErr, enabledErr) then Some(ShutdownError(disabledErr, precErr, enabledErr))
    else if env.statusWriteFault.Some? then env.statusWriteFault
    else StatusError(disabledErr, precErr, ready, enabledErr)
  }

  function StatusCalls(ctxDone: bool, disabledErr: Option<Err>, precErr: Option<Err>, ready: bool, enabledErr: Option<Err>): seq<Call> {
    if ShutsDown(ctxDone, disabledErr, precErr, enabledErr) then []
    else [UpdateStatusCall(DegradedCondition(disabledErr), AvailableCondition(precErr, ready, enabledErr))]
  }

  // ----------------------------------------------------------------- sync

  datatype SyncOutcome = SyncOutcome(err: Option<Err>, calls: seq<Call>)

  /** Whether sync runs the enabled path for this precondition result. */
  predicate Gate(pre: PreconditionResult) {
    pre.err.None? && pre.ready
  }

  /** What one Managed sync returns and calls once the lists are known. */
  function ManagedSync(env: Env, ctxDone: bool, lists: ManagedLists): SyncOutcome {
    var disabledErr := NewAggregate(DisabledErrs(env, lists.disabled));
    var pre := env.precondition(lists.enabled);
    var enabledErr := if Gate(pre) then EnabledResult(env, lists.enabled) else None;
    var checked := DisabledCalls(env, lists.disabled) + [PreconditionCall(lists.enabled)];
    var reconciled := if Gate(pre) then checked + EnabledCalls(env, lists.enabled) else checked;
    SyncOutcome(
      StatusResult(env, ctxDone, disabledErr, pre.err, pre.ready, enabledErr),
      reconciled + StatusCalls(ctxDone, disabledErr, pre.err, pre.ready, enabledErr))
  }

  /** What sync returns and calls. */
  function SyncSpec(env: Env, ctxDone: bool): SyncOutcome {
    match env.operatorState
    case Fail(e) => SyncOutcome(Some(e), [])
    case Ok(Unmanaged) => SyncOutcome(None, [])
    case Ok(Unrecognized(_)) => SyncOutcome(None, [])
    case Ok(Removed) =>
      (match env.toManage
       case Fail(e) => SyncOutcome(Some(e), [ListManagedCall])
       case Ok(lists) =>
         var all := lists.enabled + lists.disabled;
         SyncOutcome(NewAggregate(DisabledErrs(env, all)), [ListManagedCall] + DisabledCalls(env, all)))
    case Ok(Managed) =>
      match env.toManage
      case Fail(e) => SyncOutcome(Some(e), [ListManagedCall])
      case Ok(lists) =>
        var o := ManagedSync(env, ctxDone, lists);
        SyncOutcome(o.err, [ListManagedCall] + o.calls)
  }

  // ----------------------------------------------------------- controller

  /** The inner loop of syncEnabledAPIServices: scan the conditions of an
      applied APIService up to the first Available one and report it unless
      its status is True. */
  method CheckAvailableCondition(obj: APIService) returns (m: Option<string>)
    ensures m == UnavailabilityMessage(obj)
  {
    var conds := obj.conditions;
    m := None;
    var k := 0;
    while k < |conds|
      invariant k <= |conds|
      invariant forall j :: 0 <= j < k ==> conds[j].condType != AvailableType
      invariant m == None
    {
      if conds[k].condType == AvailableType {
        if conds[k].status != ConditionTrue {
          m := Some(NotAvailableMessage(obj.name, conds[k].message));
        }
        break;
      }
      k := k + 1;
    }
    FirstAvailableAt(conds, k);
  }

  /** One pass of the loop of syncEnabledAPIServices extends what it has
      collected by what the pass reports. */
  lemma EnabledStep(env: Env, items: seq<APIService>, i: nat, applyErr: Option<Err>, message: Option<string>)
    requires i < |items|
    requires applyErr == ApplyErrorOf(env)(items[i]) && message == MessageOf(env)(items[i])
    ensures ApplyErrs(env, items[..i + 1]) == ApplyErrs(env, items[..i]) + Held(applyErr)
    ensures AvailabilityMessages(env, items[..i + 1]) == AvailabilityMessages(env, items[..i]) + Held(message)
  {
    FilterMapStep(ApplyErrorOf(env), items, i);
    FilterMapStep(MessageOf(env), items, i);
  }

  lemma {:induction false} FirstAvailableAt(conds: seq<APIServiceCondition>, k: nat)
    requires k <= |conds|
    requires forall j :: 0 <= j < k ==> conds[j].condType != AvailableType
    requires k < |conds| ==> conds[k].condType == AvailableType
    ensures FirstAvailable(conds) == if k < |conds| then Some(conds[k]) else None
    decreases k
  {
    if k > 0 {
      FirstAvailableAt(conds[1..], k - 1);
    }
  }

  class Controller {
    const env: Env
    var log: seq<Call>

    constructor (env: Env)
      ensures this.env == env && log == []
    {
      this.env := env;
      log := [];
    }

    method GetAPIServicesToManage() returns (r: Result<ManagedLists, Err>)
      modifies this
      ensures r == env.toManage && log == old(log) + [ListManagedCall]
    {
      r := env.toManage;
      log := log + [ListManagedCall];
    }

    method ListerGet(name: string) returns (r: Result<APIService, Err>)
      modifies this
      ensures r == ListerLookup(env, name) && log == old(log) + [ListerGetCall(name)]
    {
      r := ListerLookup(env, name);
      log := log + [ListerGetCall(name)];
    }

    method Delete(name: string) returns (r: Option<Err>)
      modifies this
      ensures r == DeleteResult(env, name) && log == old(log) + [DeleteCall(name)]
    {
      r := DeleteResult(env, name);
      log := log + [DeleteCall(name)];
    }

    method CheckPrecondition(enabled: seq<APIService>) returns (r: PreconditionResult)
      modifies this
      ensures r == env.precondition(enabled) && log == old(log) + [PreconditionCall(enabled)]
    {
      r := env.precondition(enabled);
      log := log + [PreconditionCall(enabled)];
    }

    method ApplyAPIService(desired: APIService) returns (r: Result<APIService, Err>)
      modifies this
      ensures r == env.apply(desired) && log == old(log) + [ApplyCall(desired)]
    {
      r := env.apply(desired);
      log := log + [ApplyCall(desired)];
    }

    method CheckDiscovery(enabled: seq<APIService>) returns (missing: seq<string>)
      modifies this
      ensures missing == env.discovery(enabled) && log == old(log) + [DiscoveryCall(enabled)]
    {
      missing := env.discovery(enabled);
      log := log + [DiscoveryCall(enabled)];
    }

    method UpdateStatus(degraded: OperatorCondition, available: OperatorCondition) returns (r: Option<Err>)
      modifies this
      ensures r == env.statusWriteFault && log == old(log) + [UpdateStatusCall(degraded, available)]
    {
      r := env.statusWriteFault;
      log := log + [UpdateStatusCall(degraded, available)];
    }

    /** syncDisabledAPIServices. */
    method SyncDisabledAPIServices(items: seq<APIService>) returns (err: Option<Err>)
      modifies this
      ensures err == NewAggregate(DisabledErrs(env, items))
      ensures log == old(log) + DisabledCalls(env, items)
    {
      var errs: seq<Err> := [];
      var i := 0;
      while i < |items|
        invariant 0 <= i <= |items|
        invariant errs == DisabledErrs(env, items[..i])
        invariant log == old(log) + DisabledCalls(env, items[..i])
      {
        FilterMapStep(DisableErrorOf(env), items, i);
        FlatMapStep(DisableCallsOf(env), items, i);
        AppendAssoc(old(log), DisabledCalls(env, items[..i]), DisableCallsOf(env)(items[i]));
        var e := DisableOne(items[i]);
        if e.Some? {
          errs := errs + [e.value];
        }
        assert errs == DisabledErrs(env, items[..i]) + Held(e);
        i := i + 1;
      }
      assert items[..i] == items;
      err := NewAggregate(errs);
    }

    /** One pass of the loop of syncDisabledAPIServices: look the APIService
        up in the lister and delete it unless it is gone or already being
        deleted; a NotFound answer from either is not an error. */
    method DisableOne(x: APIService) returns (e: Option<Err>)
      modifies this
      ensures e == DisableErrorOf(env)(x)
      ensures log == old(log) + DisableCallsOf(env)(x)
    {
      e := None;
      var name := x.name;
      var found := ListerGet(name);
      match found {
        case Ok(obj) =>
          if !obj.deleting {
            var deleteErr := Delete(name);
            if deleteErr.Some? && !IsNotFound(deleteErr.value) {
              e := deleteErr;
            }
          }
        case Fail(err) =>
          if !IsNotFound(err) {
            e := Some(err);
          }
      }
    }

    /** One pass of the loop of syncEnabledAPIServices: default the
        APIService, apply it, and read the result's Available condition. */
    method ApplyOne(x: APIService) returns (desired: APIService, applyErr: Option<Err>, message: Option<string>)
      modifies this
      ensures desired == Defaulted(x)
      ensures applyErr == ApplyErrorOf(env)(x) && message == MessageOf(env)(x)
      ensures log == old(log) + [ApplyCallFor(x)]
    {
      desired := Defaulted(x);
      var applied := ApplyAPIService(desired);
      match applied {
        case Fail(e) =>
          applyErr, message := Some(e), None;
        case Ok(obj) =>
          applyErr := None;
          message := CheckAvailableCondition(obj);
      }
    }

    /** The loop of syncEnabledAPIServices: every enabled APIService is
        defaulted and applied in order; apply errors and availability
        messages are collected. */
    method ApplyEnabled(items: seq<APIService>) returns (enabled: seq<APIService>, errs: seq<Err>, messages: seq<string>)
      modifies this
      ensures enabled == Map(Defaulted, items)
      ensures errs == ApplyErrs(env, items) && messages == AvailabilityMessages(env, items)
      ensures log == old(log) + Map(ApplyCallFor, items)
    {
      enabled := items;
      errs := [];
      messages := [];
      var i := 0;
      while i < |enabled|
        invariant 0 <= i <= |items| && |enabled| == |items|
        invariant enabled == Map(Defaulted, items[..i]) + items[i..]
        invariant errs == ApplyErrs(env, items[..i])
        invariant messages == AvailabilityMessages(env, items[..i])
        invariant log == old(log) + Map(ApplyCallFor, items[..i])
      {
        ghost var errs0, messages0 := errs, messages;
        ghost var log0 := log;
        var desired, applyErr, message := ApplyOne(items[i]);
        EnabledStep(env, items, i, applyErr, message);
        MapInPlaceStep(Defaulted, items, i);
        enabled := enabled[i := desired];
        if applyErr.Some? {
          errs := errs + [applyErr.value];
        } else if message.Some? {
          messages := messages + [message.value];
        }
        assert errs == errs0 + Held(applyErr) && messages == messages0 + Held(message);
        MapStep(ApplyCallFor, items, i);
        AppendAssoc(old(log), Map(ApplyCallFor, items[..i]), [ApplyCallFor(items[i])]);
        i := i + 1;
      }
      assert items[..i] == items;
      assert items[i..] == [];
    }

    /** syncEnabledAPIServices. */
    method SyncEnabledAPIServices(items: seq<APIService>) returns (err: Option<Err>)
      modifies this
      ensures err == EnabledResult(env, items)
      ensures log == old(log) + EnabledCalls(env, items)
    {
      var enabled, errs, messages := ApplyEnabled(items);
      if |errs| > 0 {
        return Some(Aggregate(errs));
      }
      if |messages| > 0 {
        messages := SortStrings(messages);
        return Some(Message(Join(messages, "\n")));
      }
      if env.hasRESTClient {
        var missing := CheckDiscovery(enabled);
        messages := messages + missing;
      }
      assert messages == MissingFromDiscovery(env, items);
      if |messages| > 0 {
        messages := SortStrings(messages);
        return Some(Message(Join(messages, "\n")));
      }
      return None;
    }

    /** updateOperatorStatus. The block labelled `conditions` is the body of
        the Go function after the deferred write is registered; leaving it,
        by `break` or by reaching its end, runs that write. */
    method UpdateOperatorStatus(
      ctxDone: bool,
      disabledErr: Option<Err>,
      precErr: Option<Err>,
      ready: bool,
      enabledErr: Option<Err>)
      returns (err: Option<Err>)
      modifies this
      ensures err == StatusResult(env, ctxDone, disabledErr, precErr, ready, enabledErr)
      ensures log == old(log) + StatusCalls(ctxDone, disabledErr, precErr, ready, enabledErr)
    {
      var errs: seq<Err> := [];
      var degraded := OperatorCondition(DegradedConditionType, ConditionFalse, "", NoMessage);
      var available := OperatorCondition(AvailableConditionType, ConditionTrue, "", NoMessage);

      if disabledErr.Some? || precErr.Some? || enabledErr.Some? {
        if ctxDone {
          if disabledErr.Some? {
            errs := errs + [Wrapped("failed to delete disabled APIs", disabledErr.value)];
          }
          assert errs == Context("failed to delete disabled APIs", disabledErr);
          if precErr.Some? {
            errs := errs + [Wrapped("failed to check precondition for enabled APIs", precErr.value)];
          }
          assert errs == Context("failed to delete disabled APIs", disabledErr) +
            Context("failed to check precondition for enabled APIs", precErr);
          if enabledErr.Some? {
            errs := errs + [Wrapped("failed to reconcile enabled APIs", enabledErr.value)];
          }
          assert errs == Context("failed to delete disabled APIs", disabledErr) +
            Context("failed to check precondition for enabled APIs", precErr) +
            Context("failed to reconcile enabled APIs", enabledErr);
          return Some(ShuttingDown(Aggregate(errs)));
        }
      }

      label conditions: {
        if disabledErr.Some? {
          degraded := degraded.(status := ConditionTrue, reason := "DisabledAPIServicesPresent", message := TextOf(disabledErr.value));
          errs := errs + [disabledErr.value];
        }
        assert errs == Present(disabledErr);
        if precErr.Some? {
          available := available.(status := ConditionFalse, reason := "ErrorCheckingPrecondition", message := TextOf(precErr.value));
          errs := errs + [precErr.value];
        } else if !ready {
          available := available.(status := ConditionFalse, reason := "PreconditionNotReady", message := Literal("PreconditionNotReady"));
          assert errs == Present(disabledErr) + Present(precErr);
          err := NewAggregate(errs);
          break conditions;
        }
        if enabledErr.Some? {
          available := available.(status := ConditionFalse, reason := "Error", message := TextOf(enabledErr.value));
          assert errs == Present(disabledErr) + Present(precErr);
          err := NewAggregate(errs + [enabledErr.value]);
          break conditions;
        }
        assert errs == Present(disabledErr) + Present(precErr);
        assert errs + Present(enabledErr) == errs;
        err := NewAggregate(errs);
      }

      // the deferred status write
      assert err == StatusError(disabledErr, precErr, ready, enabledErr);
      assert !ShutsDown(ctxDone, disabledErr, precErr, enabledErr);
      var updateErr := UpdateStatus(degraded, available);
      if updateErr.Some? {
        err := updateErr;
      }
    }

    /** sync. */
    method Sync(ctxDone: bool) returns (err: Option<Err>)
      modifies this
      ensures err == SyncSpec(env, ctxDone).err
      ensures log == old(log) + SyncSpec(env, ctxDone).calls
    {
      var state := env.operatorState;
      if state.Fail? {
        return Some(state.error);
      }
      match state.value {
        case Managed =>
        case Unmanaged =>
          return None;
        case Removed =>
          var lists := GetAPIServicesToManage();
          if lists.Fail? {
            return Some(lists.error);
          }
          err := SyncDisabledAPIServices(lists.value.enabled + lists.value.disabled);
          return;
        case Unrecognized(_) =>
          return None;
      }

      var lists := GetAPIServicesToManage();
      if lists.Fail? {
        return Some(lists.error);
      }
      err := SyncManaged(ctxDone, lists.value);
    }

    /** The Managed branch of sync once the lists are read: delete the
        disabled APIServices, check the precondition, apply the enabled ones
        if it holds, and report. */
    method SyncManaged(ctxDone: bool, lists: ManagedLists) returns (err: Option<Err>)
      modifies this
      ensures err == ManagedSync(env, ctxDone, lists).err
      ensures log == old(log) + ManagedSync(env, ctxDone, lists).calls
    {
      var enabledErr: Option<Err> := None;
      var disabledErr := SyncDisabledAPIServices(lists.disabled);
      var pre := CheckPrecondition(lists.enabled);
      ghost var calls := DisabledCalls(env, lists.disabled) + [PreconditionCall(lists.enabled)];
      AppendAssoc(old(log), DisabledCalls(env, lists.disabled), [PreconditionCall(lists.enabled)]);
      if pre.err.None? && pre.ready {
        enabledErr := SyncEnabledAPIServices(lists.enabled);
        AppendAssoc(old(log), calls, EnabledCalls(env, lists.enabled));
        calls := calls + EnabledCalls(env, lists.enabled);
      }
      ghost var status := StatusCalls(ctxDone, disabledErr, pre.err, pre.ready, enabledErr);
      err := UpdateOperatorStatus(ctxDone, disabledErr, pre.err, pre.ready, enabledErr);
      AppendAssoc(old(log), calls, status);
      assert calls + status == ManagedSync(env, ctxDone, lists).calls;
    }
  }
}
