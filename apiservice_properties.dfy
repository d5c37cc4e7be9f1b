/** What the APIService controller promises, stated over the functions that
    specify its steps; the methods of `Controller` are proved to follow
    those functions, so every lemma here holds of the code. */
module APIServiceProperties {
  import opened Wrappers
  import opened Errors
  import opened Sequences
  import opened StringOrder
  import opened APIServiceController

  // ------------------------------------------------- disabled APIServices

  /** The error the lister returns for `name`, or, for an object the lister
      holds without a deletion timestamp, the error Delete returns. */
  ghost predicate DisableFault(env: Env, name: string, e: Err) {
    (name in env.listerFaults && env.listerFaults[name] == e) ||
    (name !in env.listerFaults && name in env.cache && !env.cache[name].deleting &&
     name in env.deleteFaults && env.deleteFaults[name] == e)
  }

  /** The disabled path reports exactly the lister and Delete errors of the
      APIServices, never a NotFound: an object that is already gone counts
      as deleted. */
  lemma DisabledErrsExact(env: Env, items: seq<APIService>, e: Err)
    ensures e in DisabledErrs(env, items) <==>
      !IsNotFound(e) && exists i :: 0 <= i < |items| && DisableFault(env, items[i].name, e)
    ensures e in DisabledErrs(env, items) <==>
      exists i :: 0 <= i < |items| && DisableError(env, items[i].name) == Some(e)
  {
    FilterMapMember(DisableErrorOf(env), items, e);
    if !IsNotFound(e) && exists i :: 0 <= i < |items| && DisableFault(env, items[i].name, e) {
      var i :| 0 <= i < |items| && DisableFault(env, items[i].name, e);
      assert DisableErrorOf(env)(items[i]) == Some(e);
    }
  }

  /** syncDisabledAPIServices returns nil exactly when every APIService is
      settled: missing from the lister, already being deleted, or deleted
      (or found missing) by the Delete call. */
  lemma DisabledNilIff(env: Env, items: seq<APIService>)
    ensures NewAggregate(DisabledErrs(env, items)) == None <==>
      forall i :: 0 <= i < |items| ==> DisableError(env, items[i].name) == None
  {
    FilterMapEmpty(DisableErrorOf(env), items);
  }

  /** Every APIService is looked up; a Delete is sent for exactly those the
      lister holds without a deletion timestamp; no other call is made. */
  lemma DisabledCallKinds(env: Env, items: seq<APIService>, name: string)
    ensures ListerGetCall(name) in DisabledCalls(env, items) <==>
      exists i :: 0 <= i < |items| && items[i].name == name
    ensures DeleteCall(name) in DisabledCalls(env, items) <==>
      (exists i :: 0 <= i < |items| && items[i].name == name) && DeleteEligible(env, name)
    ensures forall c :: c in DisabledCalls(env, items) ==> c.ListerGetCall? || c.DeleteCall?
  {
    FlatMapMember(DisableCallsOf(env), items, ListerGetCall(name));
    FlatMapMember(DisableCallsOf(env), items, DeleteCall(name));
    forall c | c in DisabledCalls(env, items)
      ensures c.ListerGetCall? || c.DeleteCall?
    {
      FlatMapMember(DisableCallsOf(env), items, c);
    }
  }

  // -------------------------------------------------- enabled APIServices

  lemma {:induction false} FirstAvailableWitness(conds: seq<APIServiceCondition>)
    ensures FirstAvailable(conds).None? <==> forall j :: 0 <= j < |conds| ==> conds[j].condType != AvailableType
    ensures FirstAvailable(conds).Some? ==>
      exists k :: IsFirstAvailable(conds, k) && FirstAvailable(conds) == Some(conds[k])
    decreases |conds|
  {
    if conds != [] && conds[0].condType != AvailableType {
      var rest := conds[1..];
      FirstAvailableWitness(rest);
      assert forall j :: 0 < j < |conds| ==> conds[j] == rest[j - 1];
      if FirstAvailable(rest).Some? {
        var k :| IsFirstAvailable(rest, k) && FirstAvailable(rest) == Some(rest[k]);
        assert IsFirstAvailable(conds, k + 1);
      }
    } else if conds != [] {
      assert IsFirstAvailable(conds, 0);
    }
  }

  /** An applied APIService yields a message exactly when its first
      Available condition is not True, and the message names the object
      and carries that condition's message. */
  lemma UnavailabilityMessageIff(obj: APIService, text: string)
    ensures UnavailabilityMessage(obj) == Some(text) <==>
      exists k :: IsFirstAvailable(obj.conditions, k) && obj.conditions[k].status != ConditionTrue &&
        text == NotAvailableMessage(obj.name, obj.conditions[k].message)
  {
    FirstAvailableWitness(obj.conditions);
    if exists k :: IsFirstAvailable(obj.conditions, k) && obj.conditions[k].status != ConditionTrue &&
        text == NotAvailableMessage(obj.name, obj.conditions[k].message) {
      var k :| IsFirstAvailable(obj.conditions, k) && obj.conditions[k].status != ConditionTrue &&
        text == NotAvailableMessage(obj.name, obj.conditions[k].message);
      FirstAvailableAt(obj.conditions, k);
    }
  }

  /** Conditions after the first Available one are never read. */
  lemma LaterConditionsIgnored(obj: APIService, k: nat, later: seq<APIServiceCondition>)
    requires IsFirstAvailable(obj.conditions, k)
    ensures UnavailabilityMessage(obj.(conditions := obj.conditions[..k + 1] + later)) == UnavailabilityMessage(obj)
  {
    var conds := obj.conditions[..k + 1] + later;
    assert forall j :: 0 <= j <= k ==> conds[j] == obj.conditions[j];
    FirstAvailableAt(obj.conditions, k);
    FirstAvailableAt(conds, k);
  }

  /** ApplyAPIService succeeded for x and the object it returned is
      available (or has no Available condition). */
  predicate AppliedAvailable(env: Env, x: APIService) {
    ApplyOutcome(env, x).Ok? && UnavailabilityMessage(ApplyOutcome(env, x).value).None?
  }

  /** The apply errors are exactly the errors ApplyAPIService returned. */
  lemma ApplyErrsExact(env: Env, items: seq<APIService>, e: Err)
    ensures e in ApplyErrs(env, items) <==>
      exists i :: 0 <= i < |items| && ApplyOutcome(env, items[i]) == Fail(e)
  {
    FilterMapMember(ApplyErrorOf(env), items, e);
  }

  /** The availability messages come from the objects that were applied
      without error, one per object whose first Available condition is not
      True. */
  lemma AvailabilityMessagesExact(env: Env, items: seq<APIService>, m: string)
    ensures m in AvailabilityMessages(env, items) <==>
      exists i :: 0 <= i < |items| && ApplyOutcome(env, items[i]).Ok? &&
        UnavailabilityMessage(ApplyOutcome(env, items[i]).value) == Some(m)
  {
    FilterMapMember(MessageOf(env), items, m);
  }

  /** An apply error does not stop the loop: every enabled APIService is
      applied, defaulted, in list order, before anything else is asked. */
  lemma EveryEnabledApplied(env: Env, items: seq<APIService>)
    ensures |EnabledCalls(env, items)| >= |items|
    ensures forall i :: 0 <= i < |items| ==> EnabledCalls(env, items)[i] == ApplyCall(Defaulted(items[i]))
  {
    forall i | 0 <= i < |items|
      ensures EnabledCalls(env, items)[i] == ApplyCall(Defaulted(items[i]))
    {
      MapAt(ApplyCallFor, items, i);
    }
  }

  /** Discovery is asked once, with all the defaulted APIServices, and only
      when no apply failed and no APIService reported itself unavailable. */
  lemma DiscoveryOnlyWhenClean(env: Env, items: seq<APIService>, x: seq<APIService>)
    ensures DiscoveryCall(x) in EnabledCalls(env, items) <==>
      (forall i :: 0 <= i < |items| ==> AppliedAvailable(env, items[i])) &&
      env.hasRESTClient && x == Map(Defaulted, items)
  {
    FilterMapEmpty(ApplyErrorOf(env), items);
    FilterMapEmpty(MessageOf(env), items);
    MapMember(ApplyCallFor, items, DiscoveryCall(x));
  }

  /** A failed apply decides the result: the aggregate of the apply errors,
      in list order. */
  lemma ApplyErrorsDecide(env: Env, items: seq<APIService>)
    ensures EnabledResult(env, items) == Some(Aggregate(ApplyErrs(env, items))) <==>
      exists i :: 0 <= i < |items| && ApplyOutcome(env, items[i]).Fail?
  {
    FilterMapEmpty(ApplyErrorOf(env), items);
    if ApplyErrs(env, items) == [] {
      assert EnabledResult(env, items) != Some(Aggregate([]));
    }
  }

  /** syncEnabledAPIServices returns nil exactly when every apply succeeded,
      every applied object is available, and discovery (when there is a
      REST client) reports nothing missing. */
  lemma EnabledNilIff(env: Env, items: seq<APIService>)
    ensures EnabledResult(env, items) == None <==>
      (forall i :: 0 <= i < |items| ==> AppliedAvailable(env, items[i])) &&
      (env.hasRESTClient ==> env.discovery(Map(Defaulted, items)) == [])
  {
    FilterMapEmpty(ApplyErrorOf(env), items);
    FilterMapEmpty(MessageOf(env), items);
  }

  /** A reported text is the reported lines, sorted, joined by newlines. */
  lemma ReportMessagesSorted(lines: seq<string>)
    ensures ReportMessages(lines).None? <==> lines == []
    ensures lines != [] ==>
      ReportMessages(lines) == Some(Message(Join(SortStrings(lines), "\n"))) &&
      Sorted(SortStrings(lines)) && multiset(SortStrings(lines)) == multiset(lines)
  {
    SortStringsSorted(lines);
  }

  /** Once no apply failed, the result does not depend on the order of the
      enabled list: the messages are sorted before they are joined. */
  lemma EnabledOrderIndependent(env: Env, a: seq<APIService>, b: seq<APIService>)
    requires multiset(a) == multiset(b)
    requires ApplyErrs(env, a) == []
    requires env.hasRESTClient ==>
      multiset(env.discovery(Map(Defaulted, a))) == multiset(env.discovery(Map(Defaulted, b)))
    ensures ApplyErrs(env, b) == []
    ensures EnabledResult(env, a) == EnabledResult(env, b)
  {
    FilterMapPermutation(ApplyErrorOf(env), a, b);
    assert |multiset(ApplyErrs(env, b))| == 0;
    FilterMapPermutation(MessageOf(env), a, b);
    var ma, mb := AvailabilityMessages(env, a), AvailabilityMessages(env, b);
    assert |multiset(ma)| == |ma| && |multiset(mb)| == |mb|;
    if ma != [] {
      SortOrderIndependent(ma, mb);
    } else {
      var da, db := MissingFromDiscovery(env, a), MissingFromDiscovery(env, b);
      assert |multiset(da)| == |da| && |multiset(db)| == |db|;
      SortOrderIndependent(da, db);
    }
  }

  // ------------------------------------------------------ operator status

  /** updateOperatorStatus returns nil exactly when no error reached it,
      except that an enabled-path error is not reported when the
      precondition was merely not ready. */
  lemma StatusErrorNilIff(disabledErr: Option<Err>, precErr: Option<Err>, ready: bool, enabledErr: Option<Err>)
    ensures StatusError(disabledErr, precErr, ready, enabledErr) == None <==>
      disabledErr.None? && precErr.None? && (ready ==> enabledErr.None?)
  {
    var errs := Present(disabledErr) + Present(precErr);
    assert errs == [] <==> disabledErr.None? && precErr.None?;
    assert |errs + Present(enabledErr)| == |errs| + |Present(enabledErr)|;
  }

  /** When the process shuts down with an error to report, the conditions
      are left alone and the shutdown error is returned whatever the status
      write would have answered; otherwise exactly one status write is made
      and its error, if any, replaces the error being returned. */
  lemma ShutdownSkipsStatusWrite(
    env: Env, ctxDone: bool, disabledErr: Option<Err>, precErr: Option<Err>, ready: bool, enabledErr: Option<Err>)
    ensures ShutsDown(ctxDone, disabledErr, precErr, enabledErr) <==>
      ctxDone && (disabledErr.Some? || precErr.Some? || enabledErr.Some?)
    ensures StatusCalls(ctxDone, disabledErr, precErr, ready, enabledErr) == [] <==>
      ShutsDown(ctxDone, disabledErr, precErr, enabledErr)
    ensures ShutsDown(ctxDone, disabledErr, precErr, enabledErr) ==>
      StatusResult(env, ctxDone, disabledErr, precErr, ready, enabledErr) == Some(ShutdownError(disabledErr, precErr, enabledErr))
    ensures !ShutsDown(ctxDone, disabledErr, precErr, enabledErr) ==>
      |StatusCalls(ctxDone, disabledErr, precErr, ready, enabledErr)| == 1 &&
      StatusResult(env, ctxDone, disabledErr, precErr, ready, enabledErr) ==
        (if env.statusWriteFault.Some? then env.statusWriteFault else StatusError(disabledErr, precErr, ready, enabledErr))
  {
  }

  /** The shutdown error carries every error that reached
      updateOperatorStatus, each with what failed, in a fixed order. */
  lemma ShutdownErrorCarries(disabledErr: Option<Err>, precErr: Option<Err>, enabledErr: Option<Err>, e: Err)
    ensures e in ShutdownError(disabledErr, precErr, enabledErr).cause.errs <==>
      (disabledErr.Some? && e == Wrapped("failed to delete disabled APIs", disabledErr.value)) ||
      (precErr.Some? && e == Wrapped("failed to check precondition for enabled APIs", precErr.value)) ||
      (enabledErr.Some? && e == Wrapped("failed to reconcile enabled APIs", enabledErr.value))
  {
    var a := Context("failed to delete disabled APIs", disabledErr);
    var b := Context("failed to check precondition for enabled APIs", precErr);
    var c := Context("failed to reconcile enabled APIs", enabledErr);
    assert e in a + b + c <==> e in a || e in b || e in c;
  }

  /** Under the discipline sync keeps (the enabled path runs only when the
      precondition is met), the Available condition's reason names the
      first thing that went wrong: the precondition check, then readiness,
      then the enabled path. */
  lemma AvailableReasonUnderSync(pre: PreconditionResult, enabledErr: Option<Err>)
    requires enabledErr.Some? ==> Gate(pre)
    ensures AvailableCondition(pre.err, pre.ready, enabledErr).reason ==
      if pre.err.Some? then "ErrorCheckingPrecondition"
      else if !pre.ready then "PreconditionNotReady"
      else if enabledErr.Some? then "Error"
      else ""
  {
    var c := AvailableCondition(pre.err, pre.ready, enabledErr);
    if pre.err.None? && pre.ready && enabledErr.None? {
      assert c.status == ConditionTrue;
    }
  }

  // ----------------------------------------------------------------- sync

  /** sync makes no call at all exactly when the operator state cannot be
      read, or the operator is Unmanaged or in an unrecognised state; in the
      last two cases it returns nil. */
  lemma SyncIdleIff(env: Env, ctxDone: bool)
    ensures SyncSpec(env, ctxDone).calls == [] <==>
      env.operatorState.Fail? || env.operatorState.value.Unmanaged? || env.operatorState.value.Unrecognized?
    ensures env.operatorState.Fail? ==> SyncSpec(env, ctxDone).err == Some(env.operatorState.error)
    ensures env.operatorState.Ok? && (env.operatorState.value.Unmanaged? || env.operatorState.value.Unrecognized?) ==>
      SyncSpec(env, ctxDone).err == None
  {
  }

  /** In the Removed state every managed APIService, enabled or disabled, is
      deleted as on the disabled path; nothing is applied and no status is
      written. */
  lemma RemovedOnlyDeletes(env: Env, ctxDone: bool, name: string)
    requires env.operatorState == Ok(Removed) && env.toManage.Ok?
    ensures var all := env.toManage.value.enabled + env.toManage.value.disabled;
      SyncSpec(env, ctxDone).err == NewAggregate(DisabledErrs(env, all)) &&
      (DeleteCall(name) in SyncSpec(env, ctxDone).calls <==>
         (exists i :: 0 <= i < |all| && all[i].name == name) && DeleteEligible(env, name))
    ensures forall c :: c in SyncSpec(env, ctxDone).calls ==>
      c.ListManagedCall? || c.ListerGetCall? || c.DeleteCall?
  {
    var all := env.toManage.value.enabled + env.toManage.value.disabled;
    DisabledCallKinds(env, all, name);
  }

  /** The calls of a Managed sync after listing the managed APIServices,
      cut at the seams where ManagedSync puts them together. */
  lemma ManagedCallsSplit(env: Env, ctxDone: bool, lists: ManagedLists)
    ensures var pre := env.precondition(lists.enabled);
      var disabledErr := NewAggregate(DisabledErrs(env, lists.disabled));
      var enabledErr := if Gate(pre) then EnabledResult(env, lists.enabled) else None;
      ManagedSync(env, ctxDone, lists).calls ==
        DisabledCalls(env, lists.disabled) + [PreconditionCall(lists.enabled)] +
        (if Gate(pre) then EnabledCalls(env, lists.enabled) else []) +
        StatusCalls(ctxDone, disabledErr, pre.err, pre.ready, enabledErr)
  {
    var checked := DisabledCalls(env, lists.disabled) + [PreconditionCall(lists.enabled)];
    if !Gate(env.precondition(lists.enabled)) {
      assert checked + [] == checked;
    }
  }

  /** Where the disabled-path calls and the apply calls sit in the calls
      of a Managed sync. */
  lemma ManagedCallsAt(env: Env, ctxDone: bool, lists: ManagedLists)
    ensures var calls := ManagedSync(env, ctxDone, lists).calls;
      var d := DisabledCalls(env, lists.disabled);
      |d| < |calls| && calls[|d|] == PreconditionCall(lists.enabled) &&
      (forall k :: 0 <= k < |d| ==> calls[k] == d[k]) &&
      (Gate(env.precondition(lists.enabled)) ==>
        var e := EnabledCalls(env, lists.enabled);
        |d| + 1 + |e| <= |calls| && forall k :: 0 <= k < |e| ==> calls[|d| + 1 + k] == e[k])
  {
    ManagedCallsSplit(env, ctxDone, lists);
  }

  /** A Managed sync works through the disabled APIServices (lookups and
      deletes only), then checks the precondition, and only after that
      applies, asks discovery or writes the status. Before all of these
      sync lists the managed APIServices (see SyncSpec). */
  lemma ManagedCallOrder(env: Env, ctxDone: bool, lists: ManagedLists)
    ensures var calls := ManagedSync(env, ctxDone, lists).calls;
      var n := |DisabledCalls(env, lists.disabled)|;
      n < |calls| && calls[n] == PreconditionCall(lists.enabled) &&
      (forall j :: 0 <= j < n ==> calls[j].ListerGetCall? || calls[j].DeleteCall?) &&
      (forall j :: n < j < |calls| ==> calls[j].ApplyCall? || calls[j].DiscoveryCall? || calls[j].UpdateStatusCall?)
  {
    var calls := ManagedSync(env, ctxDone, lists).calls;
    var d := DisabledCalls(env, lists.disabled);
    var n := |d|;
    ManagedCallsSplit(env, ctxDone, lists);
    DisabledCallKinds(env, lists.disabled, "");
    forall j | 0 <= j < n
      ensures calls[j].ListerGetCall? || calls[j].DeleteCall?
    {
      assert calls[j] == d[j];
    }
    forall j | n < j < |calls|
      ensures calls[j].ApplyCall? || calls[j].DiscoveryCall? || calls[j].UpdateStatusCall?
    {
      var m := Map(ApplyCallFor, lists.enabled);
      if calls[j] in m {
        MapMember(ApplyCallFor, lists.enabled, calls[j]);
      }
    }
  }

  /** A Managed sync applies an APIService exactly when the precondition
      was met, and then it applies every enabled APIService, defaulted. */
  lemma ManagedApplyIff(env: Env, ctxDone: bool, lists: ManagedLists, x: APIService)
    ensures ApplyCall(x) in ManagedSync(env, ctxDone, lists).calls <==>
      Gate(env.precondition(lists.enabled)) &&
      exists i :: 0 <= i < |lists.enabled| && x == Defaulted(lists.enabled[i])
  {
    ManagedCallsSplit(env, ctxDone, lists);
    DisabledCallKinds(env, lists.disabled, "");
    MapMember(ApplyCallFor, lists.enabled, ApplyCall(x));
  }

  /** A Managed sync writes the status once, as its last call, with the
      conditions computed from what went wrong, unless it is shutting down
      with an error to report, in which case it writes nothing. */
  lemma ManagedStatusWrite(env: Env, ctxDone: bool, lists: ManagedLists)
    ensures var pre := env.precondition(lists.enabled);
      var disabledErr := NewAggregate(DisabledErrs(env, lists.disabled));
      var enabledErr := if Gate(pre) then EnabledResult(env, lists.enabled) else None;
      var calls := ManagedSync(env, ctxDone, lists).calls;
      (forall j :: 0 <= j < |calls| - 1 ==> !calls[j].UpdateStatusCall?) &&
      (calls[|calls| - 1].UpdateStatusCall? <==> !ShutsDown(ctxDone, disabledErr, pre.err, enabledErr)) &&
      (!ShutsDown(ctxDone, disabledErr, pre.err, enabledErr) ==>
        calls[|calls| - 1] == UpdateStatusCall(DegradedCondition(disabledErr), AvailableCondition(pre.err, pre.ready, enabledErr)))
  {
    var calls := ManagedSync(env, ctxDone, lists).calls;
    ManagedCallsSplit(env, ctxDone, lists);
    ManagedCallOrder(env, ctxDone, lists);
    var n := |DisabledCalls(env, lists.disabled)|;
    if Gate(env.precondition(lists.enabled)) {
      var e := EnabledCalls(env, lists.enabled);
      forall j | n < j < n + 1 + |e|
        ensures !calls[j].UpdateStatusCall?
      {
        assert calls[j] == e[j - n - 1];
        if e[j - n - 1] in Map(ApplyCallFor, lists.enabled) {
          MapMember(ApplyCallFor, lists.enabled, e[j - n - 1]);
        }
      }
    }
  }

  /** An APIService named in both lists is deleted on the disabled path and
      then applied again on the enabled path of the same sync: neither list
      takes precedence. */
  lemma NameInBothLists(env: Env, ctxDone: bool, lists: ManagedLists, i: nat, j: nat)
    requires i < |lists.enabled| && j < |lists.disabled|
    requires lists.enabled[i].name == lists.disabled[j].name
    requires DeleteEligible(env, lists.disabled[j].name)
    requires Gate(env.precondition(lists.enabled))
    ensures var calls := ManagedSync(env, ctxDone, lists).calls;
      exists a, b :: 0 <= a < b < |calls| &&
        calls[a] == DeleteCall(lists.disabled[j].name) && calls[b] == ApplyCall(Defaulted(lists.enabled[i]))
  {
    var name := lists.disabled[j].name;
    var d := DisabledCalls(env, lists.disabled);
    ManagedCallsAt(env, ctxDone, lists);
    DisabledCallKinds(env, lists.disabled, name);
    var a :| 0 <= a < |d| && d[a] == DeleteCall(name);
    EveryEnabledApplied(env, lists.enabled);
    var b := 1 + |d| + i;
    assert EnabledCalls(env, lists.enabled)[i] == ApplyCall(Defaulted(lists.enabled[i]));
  }

  /** Two unavailable APIServices collected in the order b, a are reported
      in the order a, b. */
  lemma ReportOrderExample()
    ensures ReportMessages([NotAvailableMessage("b", "down"), NotAvailableMessage("a", "down")]) ==
      Some(Message(NotAvailableMessage("a", "down") + "\n" + NotAvailableMessage("b", "down")))
  {
    var prefix, suffix := "apiservices.apiregistration.k8s.io/", ": not available: down";
    var a, b := NotAvailableMessage("a", "down"), NotAvailableMessage("b", "down");
    assert a == prefix + ("a" + suffix) && b == prefix + ("b" + suffix);
    LexLeCommonPrefix(prefix, "a" + suffix, "b" + suffix);
    LexLeCommonPrefix(prefix, "b" + suffix, "a" + suffix);
    SortPair(b, a);
    assert [a, b][1..] == [b];
  }
}
