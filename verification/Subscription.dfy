/** The subscription request records: encoders and decoders over a JSON value, with the schema each
    decoder checks first. A decoder answers None where the source throws. */
module Subscription {
  import opened Lookup

  datatype Json = JNull | JBool(b: bool) | JInt(n: int) | JStr(s: string) | JArr(elems: seq<Json>)
    | JObj(members: map<string, Json>)

  const INT_MIN := -0x8000_0000

  /** The conversion of a JSON integer to a 32 bit int. */
  function ToInt32(n: int): int { (n + 0x8000_0000) % 0x1_0000_0000 - 0x8000_0000 }

  predicate Int32(n: int) { -0x8000_0000 <= n < 0x8000_0000 }

  // ----- conversions of one value

  function GetInts(j: Json): Option<seq<int>> {
    if j.JArr? && forall k :: 0 <= k < |j.elems| ==> j.elems[k].JInt?
    then Some(seq(|j.elems|, k requires 0 <= k < |j.elems| && j.elems[k].JInt? => ToInt32(j.elems[k].n)))
    else None
  }

  function PutInts(ns: seq<int>): Json { JArr(seq(|ns|, k requires 0 <= k < |ns| => JInt(ns[k]))) }

  predicate Has(j: Json, key: string) { j.JObj? && key in j.members }

  /** A property with its type and range, where it is there at all. */
  predicate IntProp(j: Json, key: string, lo: int, hi: int) {
    Has(j, key) ==> j.members[key].JInt? && lo <= j.members[key].n <= hi
  }

  predicate StrProp(j: Json, key: string) { Has(j, key) ==> j.members[key].JStr? }

  predicate EnumProp(j: Json, key: string, values: seq<string>) {
    Has(j, key) ==> j.members[key].JStr? && j.members[key].s in values
  }

  predicate IntsProp(j: Json, key: string) { Has(j, key) ==> GetInts(j.members[key]).Some? }

  // ----- the records

  datatype SubsequentAction = SubsequentAction(actionType: string, timeToWait: string)

  datatype Action = Action(actionId: int, actionType: string, subsequent: SubsequentAction, definition: seq<int>)

  datatype Detail = Detail(instanceId: int, triggers: seq<int>, actions: seq<Action>)

  datatype Endpoint = Endpoint(httpPort: int, host: string, rmrPort: int)

  datatype Directives = Directives(retryCount: int, timeoutTimer: int, routingNeeded: bool)

  datatype Params = Params(
    endpoint: Endpoint, meid: string, ranFunctionId: int, subscriptionId: string,
    details: seq<Detail>, directives: Directives)

  const NO_ACTION := SubsequentAction("", "")
  const NEW_ACTION := Action(0, "", NO_ACTION, [])
  const NEW_DETAIL := Detail(0, [], [])

  const DEFINITION := "ActionDefinition"
  const ACTION_ID := "ActionID"
  const ACTION_TYPE := "ActionType"
  const SUBSEQUENT := "SubsequentAction"

  const ACTION_TYPES := ["policy", "insert", "report"]
  const NEXT_TYPES := ["wait", "continue"]
  const WAITS := ["zero", "w1ms", "w2ms", "w5ms", "w10ms", "w20ms", "w30ms", "w40ms", "w50ms", "w100ms", "w200ms",
                  "w500ms", "w1s", "w2s", "w5s", "w10s", "w20s", "w60s"]

  // ----- subsequent actions

  predicate NextSchema(j: Json) {
    && j.JObj? && Has(j, "SubsequentActionType") && Has(j, "TimeToWait")
    && EnumProp(j, "SubsequentActionType", NEXT_TYPES) && EnumProp(j, "TimeToWait", WAITS)
  }

  function DecodeNext(j: Json): Option<SubsequentAction> {
    if NextSchema(j)
    then Some(SubsequentAction(j.members["SubsequentActionType"].s, j.members["TimeToWait"].s))
    else None
  }

  function EncodeNext(a: SubsequentAction): Json {
    JObj(map["SubsequentActionType" := JStr(a.actionType), "TimeToWait" := JStr(a.timeToWait)])
  }

  /** What the list decoder makes of the member: no schema, only two strings. */
  function LooseNext(j: Json): Option<SubsequentAction> {
    if Has(j, "SubsequentActionType") && Has(j, "TimeToWait")
      && j.members["SubsequentActionType"].JStr? && j.members["TimeToWait"].JStr?
    then Some(SubsequentAction(j.members["SubsequentActionType"].s, j.members["TimeToWait"].s))
    else None
  }

  // ----- actions

  predicate ActionSchema(j: Json) {
    && j.JObj? && Has(j, ACTION_ID) && Has(j, ACTION_TYPE)
    && IntsProp(j, DEFINITION) && IntProp(j, ACTION_ID, 0, 255) && EnumProp(j, ACTION_TYPE, ACTION_TYPES)
    && (Has(j, SUBSEQUENT) ==> j.members[SUBSEQUENT].JObj?)
  }

  /** The single-record decoder. */
  function DecodeAction(j: Json, ref: Action): Option<Action> {
    if !ActionSchema(j) then None
    else
      var definition := if Has(j, DEFINITION) then GetInts(j.members[DEFINITION]).value else ref.definition;
      var next := if Has(j, SUBSEQUENT) then DecodeNext(j.members[SUBSEQUENT]) else Some(ref.subsequent);
      if next.None? then None
      else Some(Action(ToInt32(j.members[ACTION_ID].n), j.members[ACTION_TYPE].s, next.value, definition))
  }

  function EncodeAction(a: Action): Json {
    var j := map[ACTION_ID := JInt(a.actionId), ACTION_TYPE := JStr(a.actionType)];
    var j1 := if a.definition != [] then j[DEFINITION := PutInts(a.definition)] else j;
    JObj(if a.subsequent.actionType != "" && a.subsequent.timeToWait != ""
      then j1[SUBSEQUENT := EncodeNext(a.subsequent)]
      else j1)
  }

  /** What the key loop of the list decoder makes of an element, by its fields. */
  function LooseAction(j: Json): Option<Action> {
    if !ActionSchema(j) then None
    else
      var definition := if Has(j, DEFINITION) then GetInts(j.members[DEFINITION]).value else [];
      var next := if Has(j, SUBSEQUENT) then LooseNext(j.members[SUBSEQUENT]) else Some(NO_ACTION);
      if next.None? then None
      else Some(Action(ToInt32(j.members[ACTION_ID].n), j.members[ACTION_TYPE].s, next.value, definition))
  }

  /** The keys of an object in some order, each once. */
  ghost predicate Lists(keys: seq<string>, m: map<string, Json>) {
    && (forall key :: key in m <==> key in keys)
    && forall i, k :: 0 <= i < k < |keys| ==> keys[i] != keys[k]
  }

  lemma ActionKeysDiffer()
    ensures DEFINITION != ACTION_ID && DEFINITION != ACTION_TYPE && DEFINITION != SUBSEQUENT
    ensures ACTION_ID != ACTION_TYPE && ACTION_ID != SUBSEQUENT && ACTION_TYPE != SUBSEQUENT
  {
    assert |DEFINITION| == 16 && |ACTION_ID| == 8 && |ACTION_TYPE| == 10 && |SUBSEQUENT| == 16;
    assert DEFINITION[0] != SUBSEQUENT[0];
  }

  /** The key loop for one element, whatever order the keys come in. */
  method ActionFromItems(j: Json, keys: seq<string>) returns (r: Option<Action>)
    requires j.JObj? ==> Lists(keys, j.members)
    ensures r == LooseAction(j)
  {
    hide DEFINITION, ACTION_ID, ACTION_TYPE, SUBSEQUENT, ACTION_TYPES, GetInts, LooseNext;
    ActionKeysDiffer();
    var tmp := NEW_ACTION;
    if !ActionSchema(j) {
      return None;
    }
    ghost var seen: set<string> := {};
    for i := 0 to |keys|
      invariant forall key :: key in seen <==> key in keys[..i]
      invariant tmp.definition == if DEFINITION in seen then GetInts(j.members[DEFINITION]).value else []
      invariant tmp.actionId == if ACTION_ID in seen then ToInt32(j.members[ACTION_ID].n) else 0
      invariant tmp.actionType == if ACTION_TYPE in seen then j.members[ACTION_TYPE].s else ""
      invariant if SUBSEQUENT in seen then LooseNext(j.members[SUBSEQUENT]) == Some(tmp.subsequent)
        else tmp.subsequent == NO_ACTION
    {
      var val := j.members[keys[i]];
      seen := seen + {keys[i]};
      if keys[i] == DEFINITION {
        tmp := tmp.(definition := GetInts(val).value);
      } else if keys[i] == ACTION_ID {
        tmp := tmp.(actionId := ToInt32(val.n));
      } else if keys[i] == ACTION_TYPE {
        tmp := tmp.(actionType := val.s);
      } else if keys[i] == SUBSEQUENT {
        var next := LooseNext(val);
        if next.None? {
          return None;
        }
        tmp := tmp.(subsequent := next.value);
      }
    }
    assert keys[..|keys|] == keys;
    r := Some(tmp);
  }

  /** All the values, unless one is missing. */
  function Collect<T>(rs: seq<Option<T>>): (r: Option<seq<T>>)
    ensures r.Some? <==> forall k :: 0 <= k < |rs| ==> rs[k].Some?
    ensures r.Some? ==> |r.value| == |rs| && forall k :: 0 <= k < |rs| ==> rs[k].value == r.value[k]
  {
    if rs == [] then Some([])
    else
      var init := Collect(rs[..|rs| - 1]);
      if init.Some? && rs[|rs| - 1].Some? then Some(init.value + [rs[|rs| - 1].value]) else None
  }

  /** What the list decoder makes of the elements. */
  function LooseActions(elems: seq<Json>): Option<seq<Action>> {
    Collect(LooseEach(elems))
  }

  function LooseEach(elems: seq<Json>): seq<Option<Action>> {
    seq(|elems|, k requires 0 <= k < |elems| => LooseAction(elems[k]))
  }

  lemma LooseActionsMore(elems: seq<Json>, n: nat)
    requires n < |elems|
    ensures LooseActions(elems[..n + 1]) ==
      if LooseActions(elems[..n]).Some? && LooseAction(elems[n]).Some?
      then Some(LooseActions(elems[..n]).value + [LooseAction(elems[n]).value]) else None
  {
    hide LooseAction;
    assert LooseEach(elems[..n + 1])[..n] == LooseEach(elems[..n]);
  }

  lemma LooseActionsNone(elems: seq<Json>, n: nat)
    requires n <= |elems| && LooseActions(elems[..n]).None?
    ensures LooseActions(elems).None?
  {
    hide LooseAction;
    var k :| 0 <= k < n && LooseEach(elems[..n])[k].None?;
    assert LooseEach(elems)[k].None?;
  }

  /** The list decoder, which appends to what is there. The keys of each element come in any order. */
  method ActionsFromJson(elems: seq<Json>, orders: seq<seq<string>>, ref: seq<Action>) returns (r: Option<seq<Action>>)
    requires |orders| == |elems|
    requires forall k :: 0 <= k < |elems| && elems[k].JObj? ==> Lists(orders[k], elems[k].members)
    ensures LooseActions(elems).None? ==> r == None
    ensures LooseActions(elems).Some? ==> r == Some(ref + LooseActions(elems).value)
  {
    hide LooseAction, LooseActions, Lists;
    var out := ref;
    NoActions();
    for k := 0 to |elems|
      invariant LooseActions(elems[..k]).Some? && out == ref + LooseActions(elems[..k]).value
    {
      var tmp := ActionFromItems(elems[k], orders[k]);
      LooseActionsMore(elems, k);
      if tmp.None? {
        LooseActionsNone(elems, k + 1);
        return None;
      }
      out := out + [tmp.value];
    }
    assert elems[..|elems|] == elems;
    r := Some(out);
  }

  lemma NoActions()
    ensures LooseActions([]) == Some([])
  {
  }

  /** The single-record decoder and the list decoder agree wherever the former accepts; the list
      decoder accepts more only in that it does not check the schema of a subsequent action. */
  lemma SingleAndList(j: Json)
    ensures DecodeAction(j, NEW_ACTION).Some? ==> LooseAction(j) == DecodeAction(j, NEW_ACTION)
    ensures LooseAction(j).Some? ==>
      (DecodeAction(j, NEW_ACTION).Some? <==> (Has(j, SUBSEQUENT) ==> NextSchema(j.members[SUBSEQUENT])))
  {
  }

  /** Of a whole list: when the single-record decoder accepts every element, the list decoder yields just
      those records in that order. */
  lemma ActionListAgrees(elems: seq<Json>)
    requires forall k :: 0 <= k < |elems| ==> DecodeAction(elems[k], NEW_ACTION).Some?
    ensures LooseActions(elems).Some? && |LooseActions(elems).value| == |elems|
    ensures forall k :: 0 <= k < |elems| ==> LooseActions(elems).value[k] == DecodeAction(elems[k], NEW_ACTION).value
  {
    hide LooseAction, DecodeAction;
    forall k | 0 <= k < |elems| ensures LooseEach(elems)[k] == DecodeAction(elems[k], NEW_ACTION) {
      SingleAndList(elems[k]);
    }
  }

  /** The list encoder, which appends to an array or turns null into one. */
  method ActionsToJson(j: Json, ref: seq<Action>) returns (r: Json)
    requires j.JNull? || j.JArr?
    ensures r == PutAll(j, EncodeEachAction(ref))
  {
    hide EncodeAction, EncodeEachAction;
    r := j;
    EncodedMore([], NEW_ACTION);
    for i := 0 to |ref|
      invariant r == PutAll(j, EncodeEachAction(ref[..i]))
    {
      var tmp := EncodeAction(ref[i]);
      r := JArr((if r.JNull? then [] else r.elems) + [tmp]);
      EncodedMore(ref[..i], ref[i]);
      assert ref[..i + 1] == ref[..i] + [ref[i]];
    }
    assert ref[..|ref|] == ref;
  }

  function EncodeEachAction(ref: seq<Action>): seq<Json> {
    seq(|ref|, k requires 0 <= k < |ref| => EncodeAction(ref[k]))
  }

  lemma EncodedMore(ref: seq<Action>, a: Action)
    ensures EncodeEachAction([]) == [] && EncodeEachAction(ref + [a]) == EncodeEachAction(ref) + [EncodeAction(a)]
  {
    hide EncodeAction;
  }

  /** What pushing values one by one makes of an array, or of null. */
  function PutAll(j: Json, values: seq<Json>): (r: Json)
    requires j.JNull? || j.JArr?
    ensures r.JNull? || r.JArr?
  {
    if values == [] then j else JArr((if j.JNull? then [] else j.elems) + values)
  }

  function EncodeActions(ref: seq<Action>): Json {
    PutAll(JNull, EncodeEachAction(ref))
  }

  // ----- one action there and back

  predicate ActionInRange(a: Action) {
    && 0 <= a.actionId <= 255 && a.actionType in ACTION_TYPES
    && forall k :: 0 <= k < |a.definition| ==> Int32(a.definition[k])
  }

  /** Both fields of the subsequent action are set, or neither is. */
  predicate NextWhole(a: SubsequentAction) { (a.actionType != "" && a.timeToWait != "") || a == NO_ACTION }

  lemma IntsBack(ns: seq<int>)
    requires forall k :: 0 <= k < |ns| ==> Int32(ns[k])
    ensures GetInts(PutInts(ns)) == Some(ns)
  {
    var j := PutInts(ns);
    assert GetInts(j).value == ns;
  }

  lemma EncodedAction(a: Action)
    requires ActionInRange(a)
    ensures var j := EncodeAction(a);
      && ActionSchema(j) && j.members[ACTION_ID] == JInt(a.actionId) && j.members[ACTION_TYPE] == JStr(a.actionType)
      && (Has(j, DEFINITION) <==> a.definition != [])
      && (Has(j, DEFINITION) ==> GetInts(j.members[DEFINITION]) == Some(a.definition))
      && (Has(j, SUBSEQUENT) <==> a.subsequent.actionType != "" && a.subsequent.timeToWait != "")
      && (Has(j, SUBSEQUENT) ==> j.members[SUBSEQUENT] == EncodeNext(a.subsequent))
  {
    hide GetInts, PutInts;
    IntsBack(a.definition);
  }

  /** An action comes back from the list decoder if and only if its subsequent action is whole. */
  lemma ActionBack(a: Action)
    requires ActionInRange(a)
    ensures LooseAction(EncodeAction(a)).Some?
    ensures LooseAction(EncodeAction(a)) == Some(a) <==> NextWhole(a.subsequent)
  {
    hide EncodeAction, GetInts, ActionSchema;
    EncodedAction(a);
  }

  /** And from the single-record decoder, which checks the subsequent action against its schema. */
  lemma ActionBackSingle(a: Action)
    requires ActionInRange(a)
    ensures DecodeAction(EncodeAction(a), NEW_ACTION) == Some(a) <==>
      a.subsequent == NO_ACTION || (a.subsequent.actionType in NEXT_TYPES && a.subsequent.timeToWait in WAITS)
  {
    hide EncodeAction, GetInts, ActionSchema;
    EncodedAction(a);
    assert "" !in NEXT_TYPES && "" !in WAITS;
  }

  lemma ActionsBack(ref: seq<Action>)
    requires forall k :: 0 <= k < |ref| ==> ActionInRange(ref[k])
    ensures EncodeActions(ref).JArr? <==> ref != []
    ensures ref != [] ==> LooseActions(EncodeActions(ref).elems).Some?
    ensures ref != [] ==>
      (LooseActions(EncodeActions(ref).elems) == Some(ref) <==>
        forall k :: 0 <= k < |ref| ==> NextWhole(ref[k].subsequent))
  {
    hide EncodeAction, LooseAction, NextWhole, ActionInRange;
    if ref != [] {
      var elems := EncodeActions(ref).elems;
      assert elems == EncodeEachAction(ref);
      forall k | 0 <= k < |ref|
        ensures LooseAction(elems[k]).Some? && (LooseAction(elems[k]).value == ref[k] <==> NextWhole(ref[k].subsequent))
      {
        ActionBack(ref[k]);
      }
      var back := LooseActions(elems).value;
      if back == ref {
        forall k | 0 <= k < |ref| ensures NextWhole(ref[k].subsequent) {
          assert back[k] == LooseAction(elems[k]).value;
        }
      }
    }
  }

  // ----- details

  const EVENT_ID := "XappEventInstanceId"
  const TRIGGERS := "EventTriggers"
  const ACTIONS := "ActionToBeSetupList"

  lemma DetailKeysDiffer()
    ensures EVENT_ID != TRIGGERS && EVENT_ID != ACTIONS && TRIGGERS != ACTIONS
  {
    assert |EVENT_ID| == 19 && |TRIGGERS| == 13 && |ACTIONS| == 19 && EVENT_ID[0] != ACTIONS[0];
  }

  predicate DetailSchema(j: Json) {
    && j.JObj? && Has(j, EVENT_ID) && Has(j, TRIGGERS) && Has(j, ACTIONS)
    && IntProp(j, EVENT_ID, 0, 255) && IntsProp(j, TRIGGERS) && j.members[ACTIONS].JArr?
  }

  /** The single-record decoder; its action list goes through the list decoder too. */
  function DecodeDetail(j: Json, ref: Detail): Option<Detail> {
    if !DetailSchema(j) then None
    else
      match LooseActions(j.members[ACTIONS].elems)
      case None => None
      case Some(actions) =>
        Some(Detail(ToInt32(j.members[EVENT_ID].n), GetInts(j.members[TRIGGERS]).value, ref.actions + actions))
  }

  function EncodeDetail(d: Detail): Json {
    JObj(map[EVENT_ID := JInt(d.instanceId), TRIGGERS := PutInts(d.triggers),
             ACTIONS := EncodeActions(d.actions)])
  }

  /** The key loop for one element. `orders` are the key orders of the elements of its action list. */
  method DetailFromItems(j: Json, keys: seq<string>, orders: seq<seq<string>>) returns (r: Option<Detail>)
    requires j.JObj? ==> Lists(keys, j.members)
    requires DetailSchema(j) ==> var elems := j.members[ACTIONS].elems;
      |orders| == |elems| && forall k :: 0 <= k < |elems| && elems[k].JObj? ==> Lists(orders[k], elems[k].members)
    ensures r == DecodeDetail(j, NEW_DETAIL)
  {
    hide LooseActions, GetInts, EVENT_ID, TRIGGERS, ACTIONS;
    DetailKeysDiffer();
    var tmp := NEW_DETAIL;
    if !DetailSchema(j) {
      return None;
    }
    ghost var actions := LooseActions(j.members[ACTIONS].elems);
    ghost var seen: set<string> := {};
    for i := 0 to |keys|
      invariant forall key :: key in seen <==> key in keys[..i]
      invariant tmp.instanceId == if EVENT_ID in seen then ToInt32(j.members[EVENT_ID].n) else 0
      invariant tmp.triggers == if TRIGGERS in seen then GetInts(j.members[TRIGGERS]).value else []
      invariant if ACTIONS in seen then actions == Some(tmp.actions) else tmp.actions == []
    {
      var val := j.members[keys[i]];
      KeyOnce(keys, i);
      seen := seen + {keys[i]};
      if keys[i] == EVENT_ID {
        tmp := tmp.(instanceId := ToInt32(val.n));
      } else if keys[i] == TRIGGERS {
        tmp := tmp.(triggers := GetInts(val).value);
      } else if keys[i] == ACTIONS {
        var data := ActionsFromJson(val.elems, orders, tmp.actions);
        if data.None? {
          return None;
        }
        tmp := tmp.(actions := data.value);
        assert [] + actions.value == actions.value;
      }
    }
    assert keys[..|keys|] == keys;
    assert NEW_DETAIL.actions + tmp.actions == tmp.actions;
    r := Some(tmp);
  }

  lemma KeyOnce(keys: seq<string>, i: nat)
    requires i < |keys| && forall i, k :: 0 <= i < k < |keys| ==> keys[i] != keys[k]
    ensures keys[i] !in keys[..i]
  {
  }

  function DecodeEach(elems: seq<Json>): seq<Option<Detail>> {
    seq(|elems|, k requires 0 <= k < |elems| => DecodeDetail(elems[k], NEW_DETAIL))
  }

  /** What the list decoder makes of the elements. */
  function DecodeDetails(elems: seq<Json>): Option<seq<Detail>> { Collect(DecodeEach(elems)) }

  /** The key orders of a detail and of the actions in it. */
  datatype Order = Order(keys: seq<string>, actions: seq<seq<string>>)

  ghost predicate Orders(j: Json, o: Order) {
    && (j.JObj? ==> Lists(o.keys, j.members))
    && (DetailSchema(j) ==> var elems := j.members[ACTIONS].elems;
      |o.actions| == |elems|
      && forall k :: 0 <= k < |elems| && elems[k].JObj? ==> Lists(o.actions[k], elems[k].members))
  }

  /** The list decoder; every element's keys in any order. */
  method DetailsFromJson(elems: seq<Json>, orders: seq<Order>, ref: seq<Detail>) returns (r: Option<seq<Detail>>)
    requires |orders| == |elems| && forall k :: 0 <= k < |elems| ==> Orders(elems[k], orders[k])
    ensures DecodeDetails(elems).None? ==> r == None
    ensures DecodeDetails(elems).Some? ==> r == Some(ref + DecodeDetails(elems).value)
  {
    hide DecodeDetail, Lists, DetailSchema;
    var out := ref;
    assert DecodeEach(elems[..0]) == [];
    for n := 0 to |elems|
      invariant DecodeDetails(elems[..n]).Some? && out == ref + DecodeDetails(elems[..n]).value
    {
      var tmp := DetailFromItems(elems[n], orders[n].keys, orders[n].actions);
      assert DecodeEach(elems[..n + 1])[..n] == DecodeEach(elems[..n]);
      if tmp.None? {
        assert DecodeEach(elems)[n].None?;
        return None;
      }
      out := out + [tmp.value];
    }
    assert elems[..|elems|] == elems;
    r := Some(out);
  }

  predicate DetailInRange(d: Detail) {
    && 0 <= d.instanceId <= 255 && (forall k :: 0 <= k < |d.triggers| ==> Int32(d.triggers[k]))
    && forall k :: 0 <= k < |d.actions| ==> ActionInRange(d.actions[k])
  }

  /** There are actions, and every subsequent action is whole. */
  predicate DetailWhole(d: Detail) {
    d.actions != [] && forall k :: 0 <= k < |d.actions| ==> NextWhole(d.actions[k].subsequent)
  }

  lemma DetailBack(d: Detail)
    requires DetailInRange(d)
    ensures DecodeDetail(EncodeDetail(d), NEW_DETAIL).Some? <==> d.actions != []
    ensures DecodeDetail(EncodeDetail(d), NEW_DETAIL) == Some(d) <==> DetailWhole(d)
  {
    hide GetInts, PutInts, EncodeActions, LooseActions, ActionInRange, NextWhole;
    IntsBack(d.triggers);
    ActionsBack(d.actions);
    if d.actions != [] {
      var actions := LooseActions(EncodeActions(d.actions).elems).value;
      assert [] + actions == actions;
    }
  }

  // ----- the request

  predicate EndpointSchema(j: Json) {
    && j.JObj? && Has(j, "HTTPPort") && Has(j, "Host") && Has(j, "RMRPort")
    && IntProp(j, "HTTPPort", 0, 65535) && StrProp(j, "Host") && IntProp(j, "RMRPort", 0, 65535)
  }

  function DecodeEndpoint(j: Json): Option<Endpoint> {
    if EndpointSchema(j)
    then Some(Endpoint(ToInt32(j.members["HTTPPort"].n), j.members["Host"].s, ToInt32(j.members["RMRPort"].n)))
    else None
  }

  function EncodeEndpoint(e: Endpoint): Json {
    JObj(map["HTTPPort" := JInt(e.httpPort), "Host" := JStr(e.host), "RMRPort" := JInt(e.rmrPort)])
  }

  predicate DirectivesSchema(j: Json) {
    && j.JObj? && Has(j, "E2TimeoutTimerValue") && Has(j, "E2RetryCount") && Has(j, "RMRRoutingNeeded")
    && IntProp(j, "E2RetryCount", 0, 10) && IntProp(j, "E2TimeoutTimerValue", 0, 10)
    && j.members["RMRRoutingNeeded"].JBool?
  }

  function DecodeDirectives(j: Json): Option<Directives> {
    if DirectivesSchema(j)
    then Some(Directives(ToInt32(j.members["E2RetryCount"].n),
      ToInt32(j.members["E2TimeoutTimerValue"].n),
      j.members["RMRRoutingNeeded"].b))
    else None
  }

  function EncodeDirectives(d: Directives): Json {
    JObj(map["E2RetryCount" := JInt(d.retryCount), "E2TimeoutTimerValue" := JInt(d.timeoutTimer),
             "RMRRoutingNeeded" := JBool(d.routingNeeded)])
  }

  predicate ParamsSchema(j: Json) {
    && j.JObj? && Has(j, "ClientEndpoint") && Has(j, "Meid") && Has(j, "RANFunctionID") && Has(j, "SubscriptionDetails")
    && StrProp(j, "SubscriptionId") && StrProp(j, "Meid") && IntProp(j, "RANFunctionID", 0, 4095)
    && j.members["ClientEndpoint"].JObj?
    && (Has(j, "E2SubscriptionDirectives") ==> j.members["E2SubscriptionDirectives"].JObj?)
    && j.members["SubscriptionDetails"].JArr?
  }

  /** The decoder of the whole request into `ref`; what the value does not hold stays. */
  method ParamsFromJson(j: Json, orders: seq<Order>, ref: Params) returns (r: Option<Params>)
    requires ParamsSchema(j) ==> var elems := j.members["SubscriptionDetails"].elems;
      |orders| == |elems| && forall k :: 0 <= k < |elems| ==> Orders(elems[k], orders[k])
    ensures r == DecodeParams(j, ref)
  {
    hide DecodeDetails, Orders, EndpointSchema, DirectivesSchema;
    var out := ref;
    if !ParamsSchema(j) {
      return None;
    }
    var endpoint := DecodeEndpoint(j.members["ClientEndpoint"]);
    if endpoint.None? {
      return None;
    }
    out := out.(endpoint := endpoint.value);
    if Has(j, "E2SubscriptionDirectives") {
      var directives := DecodeDirectives(j.members["E2SubscriptionDirectives"]);
      if directives.None? {
        return None;
      }
      out := out.(directives := directives.value);
    }
    if Has(j, "SubscriptionId") {
      out := out.(subscriptionId := j.members["SubscriptionId"].s);
    }
    out := out.(meid := j.members["Meid"].s, ranFunctionId := ToInt32(j.members["RANFunctionID"].n));
    var details := DetailsFromJson(j.members["SubscriptionDetails"].elems, orders, out.details);
    if details.None? {
      return None;
    }
    out := out.(details := details.value);
    r := Some(out);
  }

  function DecodeParams(j: Json, ref: Params): Option<Params> {
    if !ParamsSchema(j) then None
    else
      var endpoint := DecodeEndpoint(j.members["ClientEndpoint"]);
      var directives :=
        if Has(j, "E2SubscriptionDirectives") then DecodeDirectives(j.members["E2SubscriptionDirectives"])
        else Some(ref.directives);
      var id := if Has(j, "SubscriptionId") then j.members["SubscriptionId"].s else ref.subscriptionId;
      var details := DecodeDetails(j.members["SubscriptionDetails"].elems);
      if endpoint.None? || directives.None? || details.None? then None
      else Some(
        Params(endpoint.value, j.members["Meid"].s, ToInt32(j.members["RANFunctionID"].n), id,
        ref.details + details.value, directives.value))
  }

  function EncodeEach(ds: seq<Detail>): seq<Json> { seq(|ds|, k requires 0 <= k < |ds| => EncodeDetail(ds[k])) }

  predicate DirectivesSet(d: Directives) { d.retryCount != INT_MIN && d.timeoutTimer != INT_MIN }

  function EncodeParams(p: Params): Json {
    var j := map["ClientEndpoint" := EncodeEndpoint(p.endpoint), "Meid" := JStr(p.meid),
                 "RANFunctionID" := JInt(p.ranFunctionId), "SubscriptionId" := JStr(p.subscriptionId)];
    var j1 :=
      if DirectivesSet(p.directives) then j["E2SubscriptionDirectives" := EncodeDirectives(p.directives)] else j;
    JObj(if p.details != [] then j1["SubscriptionDetails" := JArr(EncodeEach(p.details))] else j1)
  }

  /** The encoder of the whole request, appending the details one by one. */
  method ParamsToJson(p: Params) returns (r: Json)
    ensures r == EncodeParams(p)
  {
    hide EncodeDetail, EncodeEndpoint, EncodeDirectives;
    var j := map["ClientEndpoint" := EncodeEndpoint(p.endpoint), "Meid" := JStr(p.meid),
                 "RANFunctionID" := JInt(p.ranFunctionId), "SubscriptionId" := JStr(p.subscriptionId)];
    if p.directives.retryCount != INT_MIN && p.directives.timeoutTimer != INT_MIN {
      j := j["E2SubscriptionDirectives" := EncodeDirectives(p.directives)];
    }
    ghost var head := j;
    for i := 0 to |p.details|
      invariant j == if i == 0 then head else head["SubscriptionDetails" := JArr(EncodeEach(p.details[..i]))]
    {
      var tmp := EncodeDetail(p.details[i]);
      var list :=
        if "SubscriptionDetails" in j && j["SubscriptionDetails"].JArr? then j["SubscriptionDetails"].elems else [];
      assert EncodeEach(p.details[..i + 1]) == EncodeEach(p.details[..i]) + [tmp];
      j := j["SubscriptionDetails" := JArr(list + [tmp])];
    }
    assert p.details[..|p.details|] == p.details;
    r := JObj(j);
  }

  predicate ParamsInRange(p: Params) {
    && 0 <= p.endpoint.httpPort <= 65535 && 0 <= p.endpoint.rmrPort <= 65535 && 0 <= p.ranFunctionId <= 4095
    && (DirectivesSet(p.directives) ==> 0 <= p.directives.retryCount <= 10 && 0 <= p.directives.timeoutTimer <= 10)
    && forall k :: 0 <= k < |p.details| ==> DetailInRange(p.details[k])
  }

  /** A request into which nothing was decoded. The routing flag has no initial value. */
  predicate Blank(p: Params) {
    p.details == [] && p.directives.retryCount == INT_MIN && p.directives.timeoutTimer == INT_MIN
  }

  lemma DetailsBack(ds: seq<Detail>)
    requires forall k :: 0 <= k < |ds| ==> DetailInRange(ds[k])
    ensures DecodeDetails(EncodeEach(ds)).Some? <==> forall k :: 0 <= k < |ds| ==> ds[k].actions != []
    ensures DecodeDetails(EncodeEach(ds)) == Some(ds) <==> forall k :: 0 <= k < |ds| ==> DetailWhole(ds[k])
  {
    hide DecodeDetail, EncodeDetail, DetailInRange;
    var each := DecodeEach(EncodeEach(ds));
    forall k | 0 <= k < |ds|
      ensures (each[k].Some? <==> ds[k].actions != []) && (each[k] == Some(ds[k]) <==> DetailWhole(ds[k]))
    {
      DetailBack(ds[k]);
    }
    if forall k :: 0 <= k < |ds| ==> DetailWhole(ds[k]) {
      assert DecodeDetails(EncodeEach(ds)).value == ds;
    }
    if DecodeDetails(EncodeEach(ds)) == Some(ds) {
      forall k | 0 <= k < |ds| ensures DetailWhole(ds[k]) {
        assert each[k] == Some(ds[k]);
      }
    }
  }

  lemma EncodedParams(p: Params)
    requires 0 <= p.ranFunctionId <= 4095
    ensures var j := EncodeParams(p);
      && (ParamsSchema(j) <==> p.details != [])
      && Has(j, "ClientEndpoint") && j.members["ClientEndpoint"] == EncodeEndpoint(p.endpoint)
      && Has(j, "Meid") && j.members["Meid"] == JStr(p.meid)
      && Has(j, "RANFunctionID") && j.members["RANFunctionID"] == JInt(p.ranFunctionId)
      && Has(j, "SubscriptionId") && j.members["SubscriptionId"] == JStr(p.subscriptionId)
      && (Has(j, "E2SubscriptionDirectives") <==> DirectivesSet(p.directives))
      && (DirectivesSet(p.directives) ==> j.members["E2SubscriptionDirectives"] == EncodeDirectives(p.directives))
      && (p.details != [] ==>
        Has(j, "SubscriptionDetails") && j.members["SubscriptionDetails"] == JArr(EncodeEach(p.details)))
  {
    hide EncodeEach, DirectivesSet;
  }

  lemma DirectivesBack(d: Directives)
    requires 0 <= d.retryCount <= 10 && 0 <= d.timeoutTimer <= 10
    ensures DecodeDirectives(EncodeDirectives(d)) == Some(d)
  {
  }

  lemma EndpointBack(e: Endpoint)
    requires 0 <= e.httpPort <= 65535 && 0 <= e.rmrPort <= 65535
    ensures DecodeEndpoint(EncodeEndpoint(e)) == Some(e)
  {
  }

  /** A request in range comes back from its encoding, into a blank one, if and only if it has details,
      each with actions whose subsequent actions are whole, and its directives are set or are those of
      the blank request. */
  lemma RequestBack(p: Params, blank: Params)
    requires ParamsInRange(p) && Blank(blank)
    ensures DecodeParams(EncodeParams(p), blank) == Some(p) <==>
      && p.details != [] && (forall k :: 0 <= k < |p.details| ==> DetailWhole(p.details[k]))
      && (DirectivesSet(p.directives) || p.directives == blank.directives)
  {
    hide DecodeDetails, EncodeEach, DetailInRange, DetailWhole, EncodeParams, ParamsSchema, DecodeEndpoint,
      DecodeDirectives,
      EncodeEndpoint, EncodeDirectives;
    DetailsBack(p.details);
    EncodedParams(p);
    EndpointBack(p.endpoint);
    if DirectivesSet(p.directives) {
      DirectivesBack(p.directives);
    }
    if p.details != [] && DecodeDetails(EncodeEach(p.details)).Some? {
      var details := DecodeDetails(EncodeEach(p.details)).value;
      assert [] + details == details;
    }
  }
}
