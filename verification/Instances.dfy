/** The subscription instances of a response: their decoders and encoder. */
module Instances {
  import opened Lookup
  import opened Subscription

  datatype Instance = Instance(xappId: int, e2Id: int, errorCause: string, errorSource: string, timeoutType: string)

  const NEW_INSTANCE := Instance(0, 0, "", "", "")
  const XAPP_ID := "XappEventInstanceId"
  const E2_ID := "E2EventInstanceId"
  const CAUSE := "ErrorCause"
  const SOURCE := "ErrorSource"
  const TIMEOUT := "TimeoutType"
  const SOURCES := ["SUBMGR", "RTMGR", "DBAAS", "ASN1", "E2Node"]
  const TIMEOUTS := ["E2-Timeout", "RTMGR-Timeout", "DBAAS-Timeout"]

  predicate InstanceSchema(j: Json) {
    && j.JObj? && Has(j, XAPP_ID) && Has(j, E2_ID)
    && IntProp(j, XAPP_ID, 0, 65535) && IntProp(j, E2_ID, 0, 65535)
    && StrProp(j, CAUSE) && EnumProp(j, SOURCE, SOURCES) && EnumProp(j, TIMEOUT, TIMEOUTS)
  }

  function StrOr(j: Json, key: string): string {
    if Has(j, key) && j.members[key].JStr? then j.members[key].s else ""
  }

  /** The single-record decoder; it throws for a missing error field, which the schema allows. */
  function DecodeInstance(j: Json): Option<Instance> {
    if !InstanceSchema(j) || !Has(j, CAUSE) || !Has(j, SOURCE) || !Has(j, TIMEOUT) then None
    else Some(Instance(ToInt32(j.members[XAPP_ID].n), ToInt32(j.members[E2_ID].n),
                       j.members[CAUSE].s, j.members[SOURCE].s, j.members[TIMEOUT].s))
  }

  /** What the key loop makes of an element. */
  function LooseInstance(j: Json): Option<Instance> {
    if !InstanceSchema(j) then None
    else Some(Instance(ToInt32(j.members[XAPP_ID].n), ToInt32(j.members[E2_ID].n),
                       StrOr(j, CAUSE), StrOr(j, SOURCE), StrOr(j, TIMEOUT)))
  }

  method InstanceFromItems(j: Json, keys: seq<string>) returns (r: Option<Instance>)
    requires j.JObj? ==> Lists(keys, j.members)
    ensures r == LooseInstance(j)
  {
    hide XAPP_ID, E2_ID, CAUSE, SOURCE, TIMEOUT, SOURCES, TIMEOUTS;
    KeysDiffer();
    var tmp := NEW_INSTANCE;
    if !InstanceSchema(j) {
      return None;
    }
    ghost var seen: set<string> := {};
    for i := 0 to |keys|
      invariant forall key :: key in seen <==> key in keys[..i]
      invariant tmp.xappId == if XAPP_ID in seen then ToInt32(j.members[XAPP_ID].n) else 0
      invariant tmp.e2Id == if E2_ID in seen then ToInt32(j.members[E2_ID].n) else 0
      invariant tmp.errorCause == if CAUSE in seen then StrOr(j, CAUSE) else ""
      invariant tmp.errorSource == if SOURCE in seen then StrOr(j, SOURCE) else ""
      invariant tmp.timeoutType == if TIMEOUT in seen then StrOr(j, TIMEOUT) else ""
    {
      var val := j.members[keys[i]];
      seen := seen + {keys[i]};
      if keys[i] == XAPP_ID {
        tmp := tmp.(xappId := ToInt32(val.n));
      } else if keys[i] == E2_ID {
        tmp := tmp.(e2Id := ToInt32(val.n));
      } else if keys[i] == CAUSE {
        tmp := tmp.(errorCause := val.s);
      } else if keys[i] == SOURCE {
        tmp := tmp.(errorSource := val.s);
      } else if keys[i] == TIMEOUT {
        tmp := tmp.(timeoutType := val.s);
      }
    }
    assert keys[..|keys|] == keys;
    r := Some(tmp);
  }

  lemma KeysDiffer()
    ensures XAPP_ID != E2_ID && XAPP_ID != CAUSE && XAPP_ID != SOURCE && XAPP_ID != TIMEOUT
    ensures E2_ID != CAUSE && E2_ID != SOURCE && E2_ID != TIMEOUT
    ensures CAUSE != SOURCE && CAUSE != TIMEOUT && SOURCE != TIMEOUT
  {
    assert |XAPP_ID| == 19 && |E2_ID| == 17 && |CAUSE| == 10 && |SOURCE| == 11 && |TIMEOUT| == 11;
    assert SOURCE[0] != TIMEOUT[0];
  }

  function EncodeInstance(i: Instance): Json {
    JObj(map[XAPP_ID := JInt(i.xappId), E2_ID := JInt(i.e2Id), CAUSE := JStr(i.errorCause),
             SOURCE := JStr(i.errorSource), TIMEOUT := JStr(i.timeoutType)])
  }

  /** The list decoder agrees wherever the single-record decoder accepts, and accepts in addition just
      the elements that leave out an error field. */
  lemma InstanceSingleAndList(j: Json)
    ensures DecodeInstance(j).Some? ==> LooseInstance(j) == DecodeInstance(j)
    ensures LooseInstance(j).Some? ==>
      (DecodeInstance(j).Some? <==> Has(j, CAUSE) && Has(j, SOURCE) && Has(j, TIMEOUT))
  {
  }

  /** An instance comes back if and only if its ids are in range and its error source and its timeout
      type are among the named ones; so one without an error, where both are empty, does not. */
  lemma InstanceBack(i: Instance)
    requires Int32(i.xappId) && Int32(i.e2Id)
    ensures DecodeInstance(EncodeInstance(i)) == Some(i) <==>
      && 0 <= i.xappId <= 65535 && 0 <= i.e2Id <= 65535 && i.errorSource in SOURCES && i.timeoutType in TIMEOUTS
    ensures LooseInstance(EncodeInstance(i)) == DecodeInstance(EncodeInstance(i))
  {
    hide SOURCES, TIMEOUTS, XAPP_ID, E2_ID, CAUSE, SOURCE, TIMEOUT;
    KeysDiffer();
    var j := EncodeInstance(i);
    assert Has(j, CAUSE) && Has(j, SOURCE) && Has(j, TIMEOUT);
    assert InstanceSchema(j) <==>
      0 <= i.xappId <= 65535 && 0 <= i.e2Id <= 65535 && i.errorSource in SOURCES && i.timeoutType in TIMEOUTS;
  }

  // ----- lists

  function LooseEach(elems: seq<Json>): seq<Option<Instance>> {
    seq(|elems|, k requires 0 <= k < |elems| => LooseInstance(elems[k]))
  }

  /** What the list decoder makes of the elements. */
  function LooseInstances(elems: seq<Json>): Option<seq<Instance>> { Collect(LooseEach(elems)) }

  lemma LooseMore(elems: seq<Json>, n: nat)
    requires n < |elems|
    ensures LooseEach(elems[..n + 1])[..n] == LooseEach(elems[..n])
    ensures LooseEach(elems[..n + 1])[n] == LooseInstance(elems[n])
    ensures LooseInstance(elems[n]).None? ==> LooseInstances(elems).None?
  {
    hide LooseInstance;
    assert LooseEach(elems)[n] == LooseInstance(elems[n]);
  }

  /** The list decoder, which appends to what is there. The keys of each element come in any order. */
  method InstancesFromJson(elems: seq<Json>, orders: seq<seq<string>>, ref: seq<Instance>)
    returns (r: Option<seq<Instance>>)
    requires |orders| == |elems|
    requires forall k :: 0 <= k < |elems| && elems[k].JObj? ==> Lists(orders[k], elems[k].members)
    ensures LooseInstances(elems).None? ==> r == None
    ensures LooseInstances(elems).Some? ==> r == Some(ref + LooseInstances(elems).value)
  {
    hide LooseInstance, Lists, LooseEach;
    var out := ref;
    NoInstances();
    for k := 0 to |elems|
      invariant LooseInstances(elems[..k]).Some? && out == ref + LooseInstances(elems[..k]).value
    {
      var tmp := InstanceFromItems(elems[k], orders[k]);
      LooseMore(elems, k);
      if tmp.None? {
        return None;
      }
      EachLength(elems[..k + 1]);
      out := out + [tmp.value];
    }
    assert elems[..|elems|] == elems;
    r := Some(out);
  }

  lemma NoInstances()
    ensures LooseInstances([]) == Some([])
  {
  }

  lemma EachLength(elems: seq<Json>)
    ensures |LooseEach(elems)| == |elems|
  {
  }

  /** When the single-record decoder accepts every element, the list decoder yields just those records in
      that order. */
  lemma InstanceListAgrees(elems: seq<Json>)
    requires forall k :: 0 <= k < |elems| ==> DecodeInstance(elems[k]).Some?
    ensures LooseInstances(elems).Some? && |LooseInstances(elems).value| == |elems|
    ensures forall k :: 0 <= k < |elems| ==> LooseInstances(elems).value[k] == DecodeInstance(elems[k]).value
  {
    hide LooseInstance, DecodeInstance;
    forall k | 0 <= k < |elems| ensures LooseEach(elems)[k] == DecodeInstance(elems[k]) {
      InstanceSingleAndList(elems[k]);
    }
  }

  /** The list encoder, which appends to an array or turns null into one. */
  method InstancesToJson(j: Json, ref: seq<Instance>) returns (r: Json)
    requires j.JNull? || j.JArr?
    ensures r == PutAll(j, EncodeEach(ref))
  {
    hide EncodeInstance, EncodeEach;
    r := j;
    EncodedMore([], NEW_INSTANCE);
    for i := 0 to |ref|
      invariant r == PutAll(j, EncodeEach(ref[..i]))
    {
      var tmp := EncodeInstance(ref[i]);
      r := JArr((if r.JNull? then [] else r.elems) + [tmp]);
      EncodedMore(ref[..i], ref[i]);
      assert ref[..i + 1] == ref[..i] + [ref[i]];
    }
    assert ref[..|ref|] == ref;
  }

  function EncodeEach(ref: seq<Instance>): seq<Json> {
    seq(|ref|, k requires 0 <= k < |ref| => EncodeInstance(ref[k]))
  }

  lemma EncodedMore(ref: seq<Instance>, i: Instance)
    ensures EncodeEach([]) == [] && EncodeEach(ref + [i]) == EncodeEach(ref) + [EncodeInstance(i)]
  {
    hide EncodeInstance;
  }

  /** A list comes back, in its order, if and only if each of its instances does. */
  lemma InstancesBack(ref: seq<Instance>)
    ensures LooseInstances(EncodeEach(ref)) == Some(ref) <==>
      forall k :: 0 <= k < |ref| ==> LooseInstance(EncodeInstance(ref[k])) == Some(ref[k])
  {
    hide LooseInstance, EncodeInstance;
    var each := LooseEach(EncodeEach(ref));
    assert forall k :: 0 <= k < |ref| ==> each[k] == LooseInstance(EncodeInstance(ref[k]));
    if forall k :: 0 <= k < |ref| ==> LooseInstance(EncodeInstance(ref[k])) == Some(ref[k]) {
      assert LooseInstances(EncodeEach(ref)).value == ref;
    }
    if LooseInstances(EncodeEach(ref)) == Some(ref) {
      forall k | 0 <= k < |ref| ensures LooseInstance(EncodeInstance(ref[k])) == Some(ref[k]) {
        assert each[k].value == ref[k];
      }
    }
  }
}
