/** The names, types and ranges that the subscription records have on the wire: just what each decoder
    accepts, and what it then returns. */
module Wire {
  import opened Lookup
  import opened Subscription
  import Instances

  predicate IntAt(j: Json, key: string, lo: int, hi: int, n: int) {
    j.JObj? && key in j.members && j.members[key] == JInt(n) && lo <= n <= hi
  }

  predicate StrAt(j: Json, key: string, s: string) { j.JObj? && key in j.members && j.members[key] == JStr(s) }

  /** The array of some integers, each taken as a 32 bit one. */
  predicate IntsOf(j: Json, ns: seq<int>) {
    j.JArr? && |j.elems| == |ns| && forall k :: 0 <= k < |ns| ==> j.elems[k].JInt? && Wrapped(j.elems[k].n, ns[k])
  }

  /** `m` is the 32 bit integer that differs from `n` by a multiple of 2^32. */
  predicate Wrapped(n: int, m: int) { Int32(m) && (n - m) % 0x1_0000_0000 == 0 }

  lemma Wraps(n: int, m: int)
    ensures ToInt32(n) == m <==> Wrapped(n, m)
    ensures Int32(n) ==> ToInt32(n) == n
  {
  }

  lemma IntsWire(j: Json, ns: seq<int>)
    ensures GetInts(j) == Some(ns) <==> IntsOf(j, ns)
  {
    hide ToInt32, Wrapped;
    if j.JArr? && |j.elems| == |ns| {
      forall k | 0 <= k < |ns| && j.elems[k].JInt?
        ensures ToInt32(j.elems[k].n) == ns[k] <==> Wrapped(j.elems[k].n, ns[k])
      {
        Wraps(j.elems[k].n, ns[k]);
      }
    }
    if IntsOf(j, ns) {
      assert GetInts(j).value == ns;
    }
    if GetInts(j) == Some(ns) {
      assert forall k :: 0 <= k < |ns| ==> GetInts(j).value[k] == ns[k];
    }
  }

  lemma EndpointWire(j: Json, e: Endpoint)
    ensures DecodeEndpoint(j) == Some(e) <==>
      IntAt(j, "HTTPPort", 0, 65535, e.httpPort) && StrAt(j, "Host", e.host) && IntAt(j, "RMRPort", 0, 65535, e.rmrPort)
    ensures EncodeEndpoint(e) ==
      JObj(map["HTTPPort" := JInt(e.httpPort), "Host" := JStr(e.host), "RMRPort" := JInt(e.rmrPort)])
  {
  }

  lemma DirectivesWire(j: Json, d: Directives)
    ensures DecodeDirectives(j) == Some(d) <==>
      && IntAt(j, "E2RetryCount", 0, 10, d.retryCount) && IntAt(j, "E2TimeoutTimerValue", 0, 10, d.timeoutTimer)
      && "RMRRoutingNeeded" in j.members && j.members["RMRRoutingNeeded"] == JBool(d.routingNeeded)
    ensures EncodeDirectives(d) == JObj(map[
      "E2RetryCount" := JInt(d.retryCount), "E2TimeoutTimerValue" := JInt(d.timeoutTimer),
      "RMRRoutingNeeded" := JBool(d.routingNeeded)])
  {
  }

  lemma NextWire(j: Json, a: SubsequentAction)
    ensures DecodeNext(j) == Some(a) <==>
      && StrAt(j, "SubsequentActionType", a.actionType) && StrAt(j, "TimeToWait", a.timeToWait)
      && a.actionType in {"wait", "continue"}
      && a.timeToWait in {"zero", "w1ms", "w2ms", "w5ms", "w10ms", "w20ms", "w30ms", "w40ms", "w50ms", "w100ms",
                          "w200ms", "w500ms", "w1s", "w2s", "w5s", "w10s", "w20s", "w60s"}
    ensures LooseNext(j) == Some(a) <==>
      StrAt(j, "SubsequentActionType", a.actionType) && StrAt(j, "TimeToWait", a.timeToWait)
    ensures EncodeNext(a) == JObj(map["SubsequentActionType" := JStr(a.actionType), "TimeToWait" := JStr(a.timeToWait)])
  {
  }

  /** All but the subsequent action. */
  ghost predicate ActionAt(j: Json, a: Action) {
    && IntAt(j, "ActionID", 0, 255, a.actionId) && StrAt(j, "ActionType", a.actionType)
    && a.actionType in {"policy", "insert", "report"}
    && (if "ActionDefinition" in j.members then IntsOf(j.members["ActionDefinition"], a.definition)
        else a.definition == [])
  }

  /** The two decoders: an absent subsequent action stays unset, one that is there is decoded. */
  lemma ActionWire(j: Json, a: Action)
    ensures DecodeAction(j, NEW_ACTION) == Some(a) <==>
      ActionAt(j, a) &&
      if "SubsequentAction" in j.members then DecodeNext(j.members["SubsequentAction"]) == Some(a.subsequent)
      else a.subsequent == SubsequentAction("", "")
    ensures LooseAction(j) == Some(a) <==>
      ActionAt(j, a) &&
      if "SubsequentAction" in j.members then LooseNext(j.members["SubsequentAction"]) == Some(a.subsequent)
      else a.subsequent == SubsequentAction("", "")
  {
    hide GetInts, IntsOf;
    if Has(j, DEFINITION) {
      IntsWire(j.members["ActionDefinition"], a.definition);
    }
  }

  /** What the encoder writes: nothing for an empty definition or a subsequent action not wholly set. */
  lemma ActionWritten(a: Action)
    ensures var j := EncodeAction(a);
      && j.JObj? && j.members.Keys ==
        {"ActionID", "ActionType"} + (if a.definition != [] then {"ActionDefinition"} else {})
        + (if a.subsequent.actionType != "" && a.subsequent.timeToWait != "" then {"SubsequentAction"} else {})
      && j.members["ActionID"] == JInt(a.actionId) && j.members["ActionType"] == JStr(a.actionType)
      && (a.definition != [] ==> j.members["ActionDefinition"] == PutInts(a.definition))
      && (a.subsequent.actionType != "" && a.subsequent.timeToWait != "" ==>
        j.members["SubsequentAction"] == EncodeNext(a.subsequent))
  {
    hide PutInts, EncodeNext;
    ActionKeysDiffer();
  }

  /** A detail decoded afresh. */
  lemma DetailWire(j: Json, d: Detail)
    ensures DecodeDetail(j, NEW_DETAIL) == Some(d) <==>
      && IntAt(j, "XappEventInstanceId", 0, 255, d.instanceId)
      && "EventTriggers" in j.members && IntsOf(j.members["EventTriggers"], d.triggers)
      && "ActionToBeSetupList" in j.members && j.members["ActionToBeSetupList"].JArr?
      && LooseActions(j.members["ActionToBeSetupList"].elems) == Some(d.actions)
    ensures EncodeDetail(d) == JObj(map[
      "XappEventInstanceId" := JInt(d.instanceId), "EventTriggers" := PutInts(d.triggers),
      "ActionToBeSetupList" := EncodeActions(d.actions)])
  {
    hide GetInts, IntsOf, LooseActions, PutInts, EncodeActions;
    if Has(j, TRIGGERS) {
      IntsWire(j.members["EventTriggers"], d.triggers);
    }
    if DetailSchema(j) && LooseActions(j.members[ACTIONS].elems).Some? {
      var actions := LooseActions(j.members[ACTIONS].elems).value;
      assert [] + actions == actions;
    }
  }

  /** A request decoded into `ref`: directives and a subscription id that are absent stay those of `ref`,
      and the details come after those of `ref`. */
  lemma ParamsWire(j: Json, ref: Params, p: Params)
    ensures DecodeParams(j, ref) == Some(p) <==>
      && j.JObj? && "ClientEndpoint" in j.members && DecodeEndpoint(j.members["ClientEndpoint"]) == Some(p.endpoint)
      && StrAt(j, "Meid", p.meid) && IntAt(j, "RANFunctionID", 0, 4095, p.ranFunctionId)
      && (if "SubscriptionId" in j.members then j.members["SubscriptionId"] == JStr(p.subscriptionId)
          else p.subscriptionId == ref.subscriptionId)
      && (if "E2SubscriptionDirectives" in j.members
          then DecodeDirectives(j.members["E2SubscriptionDirectives"]) == Some(p.directives)
          else p.directives == ref.directives)
      && "SubscriptionDetails" in j.members && j.members["SubscriptionDetails"].JArr?
      && DecodeDetails(j.members["SubscriptionDetails"].elems).Some?
      && p.details == ref.details + DecodeDetails(j.members["SubscriptionDetails"].elems).value
  {
    hide DecodeDetails;
  }

  /** What the encoder writes: directives only when both numbers are set, details only when there are any. */
  lemma ParamsWritten(p: Params)
    ensures var j := EncodeParams(p);
      var bothSet := p.directives.retryCount != -0x8000_0000 && p.directives.timeoutTimer != -0x8000_0000;
      && j.JObj? && j.members.Keys ==
        {"ClientEndpoint", "Meid", "RANFunctionID", "SubscriptionId"}
        + (if bothSet then {"E2SubscriptionDirectives"} else {})
        + (if p.details != [] then {"SubscriptionDetails"} else {})
      && j.members["ClientEndpoint"] == EncodeEndpoint(p.endpoint) && j.members["Meid"] == JStr(p.meid)
      && j.members["RANFunctionID"] == JInt(p.ranFunctionId)
      && j.members["SubscriptionId"] == JStr(p.subscriptionId)
      && (bothSet ==> j.members["E2SubscriptionDirectives"] == EncodeDirectives(p.directives))
      && (p.details != [] ==>
        && j.members["SubscriptionDetails"].JArr? && |j.members["SubscriptionDetails"].elems| == |p.details|
        && forall k :: 0 <= k < |p.details| ==>
          j.members["SubscriptionDetails"].elems[k] == EncodeDetail(p.details[k]))
  {
    hide EncodeDetail, EncodeEndpoint, EncodeDirectives;
  }

  lemma InstanceWire(j: Json, i: Instances.Instance)
    ensures Instances.DecodeInstance(j) == Some(i) <==>
      && InstanceAt(j, i) && "ErrorCause" in j.members && "ErrorSource" in j.members && "TimeoutType" in j.members
    ensures Instances.LooseInstance(j) == Some(i) <==> InstanceAt(j, i)
    ensures Instances.EncodeInstance(i) == JObj(map[
      "XappEventInstanceId" := JInt(i.xappId), "E2EventInstanceId" := JInt(i.e2Id), "ErrorCause" := JStr(i.errorCause),
      "ErrorSource" := JStr(i.errorSource), "TimeoutType" := JStr(i.timeoutType)])
  {
  }

  /** The fields of an instance; an error field that is absent is empty. */
  predicate InstanceAt(j: Json, i: Instances.Instance) {
    && IntAt(j, "XappEventInstanceId", 0, 65535, i.xappId) && IntAt(j, "E2EventInstanceId", 0, 65535, i.e2Id)
    && (if "ErrorCause" in j.members then j.members["ErrorCause"] == JStr(i.errorCause) else i.errorCause == "")
    && (if "ErrorSource" in j.members
        then j.members["ErrorSource"] == JStr(i.errorSource)
          && i.errorSource in {"SUBMGR", "RTMGR", "DBAAS", "ASN1", "E2Node"}
        else i.errorSource == "")
    && (if "TimeoutType" in j.members
        then j.members["TimeoutType"] == JStr(i.timeoutType)
          && i.timeoutType in {"E2-Timeout", "RTMGR-Timeout", "DBAAS-Timeout"}
        else i.timeoutType == "")
  }
}
