/** The public functions of jwrapper: jw_new and the getters, proved to answer as the document does. */
module Jwrapper {
  import opened Document
  import opened Jsmn
  import opened Reading
  import opened Numbers
  import opened Memory
  import opened Accepts
  import opened Parser
  import opened Lookup
  import opened Partial

  // ----- getters

  /** A table and what it refers to are live, and every union holds what its type says. */
  ghost predicate Readable(m: Memory, st: Option<nat>) {
    st.Some? ==>
      && st.value in m.tabs
      && forall name :: name in m.tabs[st.value].obj ==>
        var id := m.tabs[st.value].obj[name];
        id in m.things && Typed(m, m.things[id]) &&
        (m.things[id].jsmnType == Array ==>
          forall i :: 0 <= i < |m.arrays[m.things[id].v.arr]| ==> Typed(m, m.arrays[m.things[id].v.arr][i]))
  }

  predicate Typed(m: Memory, th: Thing) {
    match th.jsmnType
    case Undefined => false
    case Object => th.v.TabPtr?
    case Array => th.v.ArrPtr? && th.v.arr in m.arrays && |m.arrays[th.v.arr]| == th.nele
    case String => th.v.TextPtr?
    case Primitive => th.v.Fv?
  }

  function SymGet(m: Memory, st: nat, name: string): Option<Thing>
    requires Readable(m, Some(st))
  {
    if name in m.tabs[st].obj then Some(m.things[m.tabs[st].obj[name]]) else None
  }

  function ThingOf(m: Memory, st: Option<nat>, name: string): Option<Thing>
    requires Readable(m, st)
  {
    if st.None? then None else SymGet(m, st.value, name)
  }

  function SussArray(m: Memory, st: Option<nat>, name: string): (r: Option<Thing>)
    requires Readable(m, st)
    ensures r.Some? ==> r.value.jsmnType == Array && Typed(m, r.value)
    ensures r.Some? ==> forall i :: 0 <= i < |m.arrays[r.value.v.arr]| ==> Typed(m, m.arrays[r.value.v.arr][i])
  {
    var jtp := ThingOf(m, st, name);
    if jtp.Some? && jtp.value.jsmnType == Array then jtp else None
  }

  function SussElement(m: Memory, st: Option<nat>, name: string, idx: int): (r: Option<Thing>)
    requires Readable(m, st)
    ensures r.Some? ==> Typed(m, r.value)
  {
    var jtp := SussArray(m, st, name);
    if jtp.Some? && 0 <= idx < jtp.value.nele then Some(m.arrays[jtp.value.v.arr][idx]) else None
  }

  function JwMissing(m: Memory, st: Option<nat>, name: string): bool
    requires Readable(m, st)
  {
    st.Some? && SymGet(m, st.value, name).None?
  }

  function JwExists(m: Memory, st: Option<nat>, name: string): bool
    requires Readable(m, st)
  {
    ThingOf(m, st, name).Some?
  }

  /** jw_is_value, jw_is_string, jw_is_bool and jw_is_null. */
  function JwIs(m: Memory, st: Option<nat>, name: string, prim: PrimType): bool
    requires Readable(m, st)
  {
    ThingOf(m, st, name).Some? && ThingOf(m, st, name).value.primType == prim
  }

  function JwString(m: Memory, st: Option<nat>, name: string): Option<Ptr>
    requires Readable(m, st)
  {
    var jtp := ThingOf(m, st, name);
    if jtp.Some? && jtp.value.jsmnType == String then Some(jtp.value.v.text) else None
  }

  function JwValue(m: Memory, st: Option<nat>, name: string): real
    requires Readable(m, st)
  {
    var jtp := ThingOf(m, st, name);
    if jtp.Some? && jtp.value.jsmnType == Primitive then jtp.value.v.fv else 0.0
  }

  function JwBlob(m: Memory, st: Option<nat>, name: string): Option<nat>
    requires Readable(m, st)
  {
    var jtp := ThingOf(m, st, name);
    if jtp.Some? && jtp.value.jsmnType == Object then Some(jtp.value.v.tab) else None
  }

  /** Only for elements that are not kept as pointers: the others' unions hold no double. */
  function JwBoolEle(m: Memory, st: Option<nat>, name: string, idx: int): bool
    requires Readable(m, st)
    requires SussElement(m, st, name, idx).Some? ==> SussElement(m, st, name, idx).value.v.Fv?
  {
    var jtp := SussElement(m, st, name, idx);
    jtp.Some? && Trunc(jtp.value.v.fv) != 0
  }

  function JwStringEle(m: Memory, st: Option<nat>, name: string, idx: int): Option<Ptr>
    requires Readable(m, st)
  {
    var jtp := SussElement(m, st, name, idx);
    if jtp.Some? && jtp.value.jsmnType == String then Some(jtp.value.v.text) else None
  }

  function JwValueEle(m: Memory, st: Option<nat>, name: string, idx: int): real
    requires Readable(m, st)
  {
    var jtp := SussElement(m, st, name, idx);
    if jtp.Some? && jtp.value.primType == PtValue && jtp.value.v.Fv? then jtp.value.v.fv else 0.0
  }

  /** jw_is_string_ele, jw_is_value_ele, jw_is_bool_ele and jw_is_null_ele. */
  function JwIsEle(m: Memory, st: Option<nat>, name: string, idx: int, prim: PrimType): bool
    requires Readable(m, st)
  {
    var jtp := SussElement(m, st, name, idx);
    jtp.Some? && jtp.value.primType == prim
  }

  function JwObjEle(m: Memory, st: Option<nat>, name: string, idx: int): Option<nat>
    requires Readable(m, st)
  {
    var jtp := SussElement(m, st, name, idx);
    if jtp.Some? && jtp.value.jsmnType == Object then Some(jtp.value.v.tab) else None
  }

  function JwArrayLen(m: Memory, st: Option<nat>, name: string): int
    requires Readable(m, st)
  {
    var jtp := SussArray(m, st, name);
    if jtp.Some? then jtp.value.nele else -1
  }

  // ----- the getters answer as the document does

  /** Table `t` holds the members `items`, somewhere in memory; what of the objects below breaks the
      rules it holds as dead tables. */
  ghost predicate Holds(m: Memory, t: nat, items: seq<Item>) {
    ItemsOk(items, true) && exists lo, b, o :: HasTab(m, lo, t, items, b, o)
  }

  ghost predicate IsDead(m: Memory, t: nat) { exists lo :: Dead(m, lo, t) }

  /** The table of an object: dead if the object breaks the rules. */
  ghost predicate Stands(m: Memory, t: nat, items: seq<Item>) {
    if LevelOk(items) then Holds(m, t, items) else IsDead(m, t)
  }

  lemma DeadUnreadable(m: Memory, t: nat)
    requires IsDead(m, t)
    ensures !Readable(m, Some(t))
  {
    var lo :| Dead(m, lo, t);
    if t in m.tabs {
      var name :| name in m.tabs[t].obj && Gone(m, lo, m.tabs[t].obj[name]);
    }
  }

  /** The C string at `p`. */
  ghost predicate Spells(m: Memory, p: Ptr, s: string) {
    p.buf in m.texts && 0 <= p.off <= |m.texts[p.buf]| && CStr(m.texts[p.buf], p.off) == s
  }

  /** What a thing shows of the value it was made from. */
  ghost predicate Shows(m: Memory, th: Thing, v: Value) {
    && Typed(m, th)
    && th.primType == (match v
                       case Num(_) => PtValue case True => PtBool case False => PtBool
                       case Null => PtNull case Str(_) => PtString case _ => PtUnknown)
    && (match v
        case Obj(_, items) => th.jsmnType == Object && Stands(m, th.v.tab, items)
        case Arr(_, items) => th.jsmnType == Array && th.nele == |items|
        case Str(raw) => th.jsmnType == String && Spells(m, th.v.text, raw)
        case _ => th.jsmnType == Primitive && th.v.fv == NumberOf(Some(v)))
  }

  lemma LeafShows(m: Memory, th: Thing, v: Value, b: nat, q: int)
    requires !v.Obj? && !v.Arr? && RepLeaf(m, th, v, b, q) && WellFormed(v)
    ensures Shows(m, th, v)
  {
    hide Strtod, CStr;
    if v.Str? {
      RawStringNoNul(v.raw);
      CStrIs(m.texts[b], q + 1, v.raw);
    }
  }

  lemma ValueShows(m: Memory, lo: nat, th: Thing, v: Value, b: nat, q: int)
    requires HasValue(m, lo, th, v, b, q) && WellFormed(v)
    ensures Shows(m, th, v)
  {
    hide HasTab, HasElems, RepLeaf, CStr, ItemOk, Strtod, LevelOk, Dead;
    if !v.Obj? && !v.Arr? {
      LeafShows(m, th, v, b, q);
    } else if v.Obj? && LevelOk(v.items) {
      assert HasTab(m, lo, th.v.tab, v.items, m.tabs[th.v.tab].mgt[JSON_SYM_NAME], 1);
    }
  }

  lemma ElemShows(m: Memory, lo: nat, th: Thing, v: Value, b: nat, q: int)
    requires HasElem(m, lo, th, v, b, q) && WellFormed(v)
    ensures Shows(m, th, v) && !v.Arr?
  {
    hide HasTab, RepLeaf, CStr, ItemOk, Strtod, LevelOk, Dead;
    if !v.Obj? {
      LeafShows(m, th, v, b, q);
    } else if LevelOk(v.items) {
      assert HasTab(m, lo, th.v.tab, v.items, b, q + 1);
    }
  }

  /** The thing of a name. */
  lemma ThingFound(m: Memory, lo: nat, t: nat, items: seq<Item>, b: nat, o: int, name: string)
    requires HasTab(m, lo, t, items, b, o) && ItemsOk(items, true)
    ensures t in m.tabs && (name in m.tabs[t].obj <==> Find(items, name).Some?)
    ensures name in m.tabs[t].obj ==>
      m.tabs[t].obj[name] in m.things && Shows(m, m.things[m.tabs[t].obj[name]], Find(items, name).value)
  {
    hide HasValue, Shows, ValPos, FindIn, ItemOk;
    if name in m.tabs[t].obj {
      var k := FindIn(items, |items|, name).value;
      assert HasMember(m, lo, m.tabs[t].obj[name], items, k, b, o);
      assert ItemOk(items[k], true);
      ItemOkParts(items[k], true);
      ValueShows(m, lo, m.things[m.tabs[t].obj[name]], items[k].val, b, ValPos(items, k, o));
    }
  }

  /** The element of a name and an index. */
  lemma ElementFound(m: Memory, lo: nat, t: nat, items: seq<Item>, b: nat, o: int, name: string, idx: int)
    requires HasTab(m, lo, t, items, b, o) && ItemsOk(items, true)
    requires FindElement(items, name, idx).Some?
    ensures t in m.tabs && name in m.tabs[t].obj && m.tabs[t].obj[name] in m.things
    ensures var th := m.things[m.tabs[t].obj[name]];
      && th.v.ArrPtr? && th.v.arr in m.arrays && idx < |m.arrays[th.v.arr]|
      && Shows(m, m.arrays[th.v.arr][idx], FindElement(items, name, idx).value)
      && !FindElement(items, name, idx).value.Arr?
  {
    hide Shows, ValPos, FindIn, RepLeaf, HasElem, ItemOk, HasOwned, Dead, LevelOk, HasMembers;
    var k := FindIn(items, |items|, name).value;
    MemberThere(m, lo, t, items, b, o, name);
    var v, th := items[k].val, m.things[m.tabs[t].obj[name]];
    var p := ValPos(v.items, idx, ValPos(items, k, o) + 1);
    assert HasElems(m, lo, m.arrays[th.v.arr], v.items, |v.items|, b, ValPos(items, k, o) + 1);
    assert HasElem(m, lo, m.arrays[th.v.arr][idx], v.items[idx].val, b, p);
    ElementWellFormed(items, k, idx);
    ElemShows(m, lo, m.arrays[th.v.arr][idx], v.items[idx].val, b, p);
  }

  lemma ElementWellFormed(items: seq<Item>, k: nat, idx: nat)
    requires ItemsOk(items, true) && k < |items| && items[k].val.Arr? && idx < |items[k].val.items|
    ensures WellFormed(items[k].val.items[idx].val)
  {
    hide RawString, KeyOk, ItemOk;
    assert ItemOk(items[k], true);
    ItemOkParts(items[k], true);
    assert ItemsOk(items[k].val.items, false);
    ItemOkParts(items[k].val.items[idx], false);
  }

  lemma HoldsReadable(m: Memory, t: nat, items: seq<Item>)
    requires Holds(m, t, items)
    ensures Readable(m, Some(t))
  {
    hide HasTab, Shows, Find, ItemOk, FindElement;
    var lo, b, o :| HasTab(m, lo, t, items, b, o);
    ThingFound(m, lo, t, items, b, o, "");
    forall name | name in m.tabs[t].obj
      ensures m.tabs[t].obj[name] in m.things && Typed(m, m.things[m.tabs[t].obj[name]])
      ensures var th := m.things[m.tabs[t].obj[name]]; th.jsmnType == Array ==>
        forall i :: 0 <= i < |m.arrays[th.v.arr]| ==> Typed(m, m.arrays[th.v.arr][i])
    {
      ThingFound(m, lo, t, items, b, o, name);
      ShownSound(m, m.things[m.tabs[t].obj[name]], Find(items, name).value);
      var th := m.things[m.tabs[t].obj[name]];
      if th.jsmnType == Array {
        forall i | 0 <= i < |m.arrays[th.v.arr]| ensures Typed(m, m.arrays[th.v.arr][i]) {
          ElementThere(items, name, i);
          ElementFound(m, lo, t, items, b, o, name, i);
          ShownSound(m, m.arrays[th.v.arr][i], FindElement(items, name, i).value);
        }
      }
    }
  }

  lemma ElementThere(items: seq<Item>, name: string, i: int)
    requires Find(items, name).Some? && Find(items, name).value.Arr? && 0 <= i < |Find(items, name).value.items|
    ensures FindElement(items, name, i).Some?
  {
  }

  lemma ShownSound(m: Memory, th: Thing, v: Value)
    requires Shows(m, th, v)
    ensures Typed(m, th) && (th.jsmnType == Array <==> v.Arr?) && (v.Arr? ==> th.nele == |v.items|)
  {
    hide Stands, Spells;
  }

  /** The thing an element getter finds is the one that shows the document's element. */
  lemma Sussed(m: Memory, t: nat, items: seq<Item>, name: string, idx: int)
    requires Holds(m, t, items)
    ensures Readable(m, Some(t))
    ensures var r, v := SussElement(m, Some(t), name, idx), FindElement(items, name, idx);
      (r.Some? <==> v.Some?) && (v.Some? ==> Shows(m, r.value, v.value) && !v.value.Arr?)
  {
    hide HasTab, Shows, Find, ItemOk, Readable, Typed;
    HoldsReadable(m, t, items);
    var lo, b, o :| HasTab(m, lo, t, items, b, o);
    ThingFound(m, lo, t, items, b, o, name);
    if name in m.tabs[t].obj {
      ShownSound(m, m.things[m.tabs[t].obj[name]], Find(items, name).value);
    }
    if FindElement(items, name, idx).Some? {
      ElementFound(m, lo, t, items, b, o, name, idx);
    }
  }

  lemma Got(m: Memory, t: nat, items: seq<Item>, name: string)
    requires Holds(m, t, items)
    ensures Readable(m, Some(t))
    ensures var r, v := SymGet(m, t, name), Find(items, name);
      (r.Some? <==> v.Some?) && (v.Some? ==> Shows(m, r.value, v.value))
  {
    hide HasTab, Shows, Find, ItemOk, Readable;
    HoldsReadable(m, t, items);
    var lo, b, o :| HasTab(m, lo, t, items, b, o);
    ThingFound(m, lo, t, items, b, o, name);
  }

  ghost predicate SameText(m: Memory, p: Option<Ptr>, s: Option<string>) {
    (p.Some? <==> s.Some?) && (p.Some? ==> Spells(m, p.value, s.value))
  }

  ghost predicate SameMembers(m: Memory, t: Option<nat>, items: Option<seq<Item>>) {
    (t.Some? <==> items.Some?) && (t.Some? ==> Stands(m, t.value, items.value))
  }

  /** Every getter for a member answers as the document does. */
  ghost predicate MemberAnswers(m: Memory, t: nat, items: seq<Item>, name: string)
    requires Readable(m, Some(t))
  {
    var v := Find(items, name);
    && JwExists(m, Some(t), name) == v.Some? && JwMissing(m, Some(t), name) == v.None?
    && JwIs(m, Some(t), name, PtValue) == IsNumber(v) && JwIs(m, Some(t), name, PtString) == IsText(v)
    && JwIs(m, Some(t), name, PtBool) == IsBool(v) && JwIs(m, Some(t), name, PtNull) == IsNull(v)
    && SameText(m, JwString(m, Some(t), name), TextOf(v))
    && JwValue(m, Some(t), name) == NumberOf(v)
    && SameMembers(m, JwBlob(m, Some(t), name), MembersOf(v))
    && JwArrayLen(m, Some(t), name) == LengthOf(v)
  }

  /** Every getter for an array element answers as the document does. */
  ghost predicate ElementAnswers(m: Memory, t: nat, items: seq<Item>, name: string, idx: int)
    requires Readable(m, Some(t))
  {
    var v := FindElement(items, name, idx);
    && JwIsEle(m, Some(t), name, idx, PtValue) == IsNumber(v) && JwIsEle(m, Some(t), name, idx, PtString) == IsText(v)
    && JwIsEle(m, Some(t), name, idx, PtBool) == IsBool(v) && JwIsEle(m, Some(t), name, idx, PtNull) == IsNull(v)
    && SameText(m, JwStringEle(m, Some(t), name, idx), TextOf(v))
    && (JwValueEle(m, Some(t), name, idx) == if IsNumber(v) then NumberOf(v) else 0.0)
    && SameMembers(m, JwObjEle(m, Some(t), name, idx), MembersOf(v))
    && (IsBool(v) || IsNumber(v) || IsNull(v) || v.None? ==>
      && (SussElement(m, Some(t), name, idx).Some? ==> SussElement(m, Some(t), name, idx).value.v.Fv?)
      && JwBoolEle(m, Some(t), name, idx) == (Trunc(NumberOf(v)) != 0))
  }

  lemma MemberLookup(m: Memory, t: nat, items: seq<Item>, name: string)
    requires Holds(m, t, items)
    ensures Readable(m, Some(t)) && MemberAnswers(m, t, items, name)
  {
    hide Holds, Stands, Spells, Readable, Strtod, Find;
    Got(m, t, items, name);
  }

  lemma ElementLookup(m: Memory, t: nat, items: seq<Item>, name: string, idx: int)
    requires Holds(m, t, items)
    ensures Readable(m, Some(t)) && ElementAnswers(m, t, items, name, idx)
  {
    hide Holds, Stands, Spells, Readable, Strtod, FindElement, SussElement;
    Sussed(m, t, items, name, idx);
  }

  ghost predicate AllAnswers(m: Memory, t: nat, items: seq<Item>)
    requires Readable(m, Some(t))
  {
    && (forall name :: MemberAnswers(m, t, items, name))
    && (forall name, idx :: ElementAnswers(m, t, items, name, idx))
  }

  lemma EveryAnswer(m: Memory, t: nat, items: seq<Item>)
    requires Holds(m, t, items)
    ensures Readable(m, Some(t)) && AllAnswers(m, t, items)
  {
    hide Holds, Readable, MemberAnswers, ElementAnswers;
    HoldsReadable(m, t, items);
    forall name ensures MemberAnswers(m, t, items, name) {
      MemberLookup(m, t, items, name);
    }
    forall name, idx ensures ElementAnswers(m, t, items, name, idx) {
      ElementLookup(m, t, items, name, idx);
    }
  }

  // ----- to any depth

  /** One selection, as jw_blob and jw_obj_ele make it. */
  function Select(m: Memory, st: nat, step: Step): Option<nat>
    requires Readable(m, Some(st))
  {
    match step
    case Member(name) => JwBlob(m, Some(st), name)
    case Element(name, idx) => JwObjEle(m, Some(st), name, idx)
  }

  lemma SelectAnswers(m: Memory, t: nat, items: seq<Item>, step: Step)
    requires Holds(m, t, items)
    ensures Readable(m, Some(t)) && SameMembers(m, Select(m, t, step), Enter(items, step))
  {
    hide Holds, Stands, Readable, JwBlob, JwObjEle, Find, FindElement;
    match step {
      case Member(name) => MemberLookup(m, t, items, name);
      case Element(name, idx) => ElementLookup(m, t, items, name, idx);
    }
  }

  /** Where a path of selections leads: to a table, nowhere, or to one that is released or refers
      to something released. */
  datatype Reached = Dangling | Nothing | Reached(tab: nat)

  ghost function Reach(m: Memory, t: nat, path: seq<Step>): Reached
    decreases |path|
  {
    if !Readable(m, Some(t)) then Dangling
    else if path == [] then Reached(t)
    else
      match Select(m, t, path[0])
      case None => Nothing
      case Some(sub) => Reach(m, sub, path[1..])
  }

  /** The path leads to the same object in memory and in the document, where every getter answers as
      that object does; if it enters an object that breaks the rules, it meets a released block. */
  ghost predicate Agrees(m: Memory, t: nat, items: seq<Item>, path: seq<Step>) {
    match Follow(items, path)
    case Spoiled => Reach(m, t, path) == Dangling
    case Missing => Reach(m, t, path) == Nothing
    case Found(sub) =>
      && Reach(m, t, path).Reached?
      && var t' := Reach(m, t, path).tab; Holds(m, t', sub) && Readable(m, Some(t')) && AllAnswers(m, t', sub)
  }

  /** To any depth. */
  lemma {:induction false} EveryLookup(m: Memory, t: nat, items: seq<Item>, path: seq<Step>)
    requires Stands(m, t, items)
    ensures Agrees(m, t, items, path)
    decreases |path|
  {
    hide Holds, Readable, AllAnswers, Enter, Select, LevelOk, IsDead;
    if !LevelOk(items) {
      DeadUnreadable(m, t);
    } else if path == [] {
      EveryAnswer(m, t, items);
    } else {
      SelectAnswers(m, t, items, path[0]);
      if Enter(items, path[0]).Some? {
        EveryLookup(m, Select(m, t, path[0]).value, Enter(items, path[0]).value, path[1..]);
      }
    }
  }

  // ----- jw_new

  /** Table `st` holds the whole of a good document: its own text follows it, then everything it refers
      to. */
  ghost predicate Root(m: Memory, st: nat, items: seq<Item>, o: int) {
    && Tidy(m) && ItemsOk(items, true) && Good(items) && st + 2 + Blocks(items, |items|) <= m.next
    && st in m.tabs && m.tabs[st].mgt == map[JSON_SYM_NAME := st + 1] && st + 1 in m.texts
    && RepTab(m, st, items, st + 1, o, st + 2)
  }

  /** The same for the document parsed last: nothing has been allocated since. */
  ghost predicate NewRoot(m: Memory, st: nat, items: seq<Item>, o: int) {
    Root(m, st, items, o) && m.next == st + 2 + Blocks(items, |items|)
  }

  /** The blocks there were are as they were. */
  ghost predicate Untouched(m: Memory, m': Memory) {
    && m.next <= m'.next && Keeps(m.texts, m'.texts, m.next, m.next) && Keeps(m.tabs, m'.tabs, m.next, m.next)
    && Keeps(m.things, m'.things, m.next, m.next) && Keeps(m.arrays, m'.arrays, m.next, m.next)
  }

  /** The memory jw_new hands to the parser. */
  function NewMemory(m: Memory, json: string): Memory {
    var m1 := SymAlloc(m);
    m1.(texts := m1.texts[m.next + 1 := json + [NUL]], next := m.next + 2)
  }

  lemma WholeText(json: string)
    requires NoNul(json)
    ensures CStr(json + [NUL], 0) == json
  {
    assert (json + [NUL])[0..|json|] == json;
    CStrIs(json + [NUL], 0, json);
  }

  lemma NewReady(m: Memory, json: string)
    requires Tidy(m) && NoNul(json)
    ensures var m1 := NewMemory(m, json);
      && m.next + 1 in m1.texts && |m1.texts[m.next + 1]| == |json| + 1 && CStr(m1.texts[m.next + 1], 0) == json
      && Callable(m1, m.next, Ptr(m.next + 1, 0), json) && m1.tabs[m.next].mgt == map[]
  {
    hide CStr;
    WholeText(json);
    TidyNext(m);
  }

  /** Whatever the parser does to the new table and the new text. */
  lemma NewUntouched(m: Memory, json: string, m2: Memory)
    requires Tidy(m) && Only(NewMemory(m, json), m2, m.next, m.next + 1, 0, |json|)
    ensures Untouched(m, m2) && m.next + 1 in m2.texts
    ensures Untouched(m, m2.(texts := m2.texts - {m.next + 1}))
    ensures m.next in m2.tabs ==>
      m2.tabs[m.next].mgt == map[] && Untouched(m, PutMgt(m2, m.next, JSON_SYM_NAME, m.next + 1))
  {
    hide Untouched;
    NewBefore(m, json, m2);
    FreedUntouched(m, m2, m.next + 1);
    if m.next in m2.tabs {
      PutUntouched(m, m2, m.next, JSON_SYM_NAME, m.next + 1);
    }
  }

  lemma NewBefore(m: Memory, json: string, m2: Memory)
    requires Tidy(m) && Only(NewMemory(m, json), m2, m.next, m.next + 1, 0, |json|)
    ensures Untouched(m, m2)
  {
  }

  lemma FreedUntouched(m: Memory, m2: Memory, b: nat)
    requires Untouched(m, m2) && b >= m.next
    ensures Untouched(m, m2.(texts := m2.texts - {b}))
  {
  }

  lemma PutUntouched(m: Memory, m2: Memory, t: nat, name: string, b: nat)
    requires Untouched(m, m2) && t in m2.tabs && t >= m.next
    ensures Untouched(m, PutMgt(m2, t, name, b))
  {
  }

  lemma TidyFreed(m: Memory, b: nat)
    requires Tidy(m)
    ensures Tidy(m.(texts := m.texts - {b}))
  {
  }

  lemma RootStored(m: Memory, m2: Memory, json: string)
    requires ObjectText(json) && m2.next == m.next + 2 + Blocks(Members(json), |Members(json)|)
    requires Tidy(m2) && m.next in m2.tabs && m2.tabs[m.next].mgt == map[] && m.next + 1 in m2.texts
    requires RepTab(m2, m.next, Members(json), m.next + 1, Inside(json), m.next + 2) && Good(Members(json))
    ensures NewRoot(PutMgt(m2, m.next, JSON_SYM_NAME, m.next + 1), m.next, Members(json), Inside(json))
  {
    hide RepMembers, ReadDoc, Index, Blocks, Len, WellFormed, ItemOk;
    var t, m3, items := m.next, PutMgt(m2, m.next, JSON_SYM_NAME, m.next + 1), Members(json);
    ReadDocSound(json);
    MembersWellFormed(ReadDoc(json).val.val);
    assert Agree(m2, m3, t + 2, t + 2 + Blocks(items, |items|));
    MembersFrame(m2, m3, items, |items|, t + 1, Inside(json), t + 2);
  }

  lemma MembersWellFormed(v: Value)
    requires v.Obj? && WellFormed(v)
    ensures ItemsOk(v.items, true)
  {
  }

  /** Table `st` has the document and its own text, whatever the objects further down do. */
  ghost predicate Hung(m: Memory, st: nat, items: seq<Item>) {
    Holds(m, st, items) && m.tabs[st].mgt == map[JSON_SYM_NAME := st + 1] && st + 1 in m.texts
  }

  lemma HungStored(m: Memory, m2: Memory, json: string)
    requires ObjectText(json) && m.next in m2.tabs && m2.tabs[m.next].mgt == map[] && m.next + 1 in m2.texts
    requires HasTab(m2, m.next + 2, m.next, Members(json), m.next + 1, Inside(json))
    ensures Hung(PutMgt(m2, m.next, JSON_SYM_NAME, m.next + 1), m.next, Members(json))
  {
    hide HasMembers, ReadDoc, Len, WellFormed, ItemOk, Settled;
    var t, m3, items := m.next, PutMgt(m2, m.next, JSON_SYM_NAME, m.next + 1), Members(json);
    ReadDocSound(json);
    MembersWellFormed(ReadDoc(json).val.val);
    PutSettled(m2, t, JSON_SYM_NAME, t + 1, t + 2);
    assert TextAgree(m2, m3, t + 1, Inside(json), Inside(json) + Len(items, |items|) - 1);
    MembersStay(m2, m3, t + 2, t + 2, m2.tabs[t].obj, items, |items|, t + 1, Inside(json));
    assert HasTab(m3, t + 2, t, items, t + 1, Inside(json));
  }

  lemma PutSettled(m: Memory, t: nat, name: string, b: nat, lo: nat)
    requires t in m.tabs && t < lo
    ensures Settled(m, PutMgt(m, t, name, b), lo)
  {
  }

  /** What jw_new makes of a text. NULL comes of an object that breaks the rules of its own level; any
      other object has its table, and that of a good one has all its blocks in document order. Of texts
      whose tokens are not known only the first line speaks. */
  ghost predicate NewPost(m0: Memory, m1: Memory, json: string, st: Option<nat>) {
    && Tidy(m1) && Untouched(m0, m1) && (st.Some? ==> st.value == m0.next && st.value in m1.tabs)
    && (ObjectText(json) ==>
      && (st.Some? <==> LevelOk(Members(json)))
      && (st.Some? ==> Hung(m1, m0.next, Members(json)))
      && (Good(Members(json)) ==> NewRoot(m1, m0.next, Members(json), Inside(json))))
    && (OtherText(json) && st.Some? ==> NewRoot(m1, m0.next, [], 0))
  }

  lemma NewFailed(m: Memory, json: string, m1: Memory, m2: Memory)
    requires Tidy(m) && m1 == NewMemory(m, json) && ParsePost(m1, m2, m.next, Ptr(m.next + 1, 0), json, false)
    ensures NewPost(m, m2.(texts := m2.texts - {m.next + 1}), json, None)
  {
    hide Tidy, Untouched, ReadDoc, RepTab, HasTab, Dead, Only, GoodValue, Blocks, Flat, TailOk, Root, Hung;
    NewUntouched(m, json, m2);
    TidyFreed(m2, m.next + 1);
  }

  lemma NewMade(m: Memory, json: string, m1: Memory, m2: Memory)
    requires Tidy(m) && m1 == NewMemory(m, json) && ParsePost(m1, m2, m.next, Ptr(m.next + 1, 0), json, true)
    ensures m.next in m2.tabs && NewPost(m, PutMgt(m2, m.next, JSON_SYM_NAME, m.next + 1), json, Some(m.next))
  {
    hide Tidy, Untouched, ReadDoc, RepTab, HasTab, Dead, Only, GoodValue, Blocks, Flat, TailOk, Root, Hung;
    NewUntouched(m, json, m2);
    TidyPut(m2, m.next, JSON_SYM_NAME, m.next + 1);
    if ObjectText(json) {
      HungStored(m, m2, json);
      if Good(Members(json)) {
        RootStored(m, m2, json);
      }
    } else if Known(json) {
      EmptyRoot(m, json);
    }
  }

  lemma EmptyRoot(m: Memory, json: string)
    requires Tidy(m)
    ensures NewRoot(PutMgt(NewMemory(m, json), m.next, JSON_SYM_NAME, m.next + 1), m.next, [], 0)
  {
  }

  lemma TidyPut(m: Memory, t: nat, name: string, b: nat)
    requires Tidy(m) && t in m.tabs
    ensures Tidy(PutMgt(m, t, name, b))
  {
  }

  /** jw_new; NULL in, NULL out. */
  method JwNew(h: Heap, json: Option<string>, junk: Token) returns (st: Option<nat>)
    requires Tidy(h.mem)
    requires json.Some? ==> NoNul(json.value) && JunkOk(json.value, junk)
    modifies h
    ensures json.None? ==> st.None? && h.mem == old(h.mem)
    ensures json.Some? ==> NewPost(old(h.mem), h.mem, json.value, st)
    ensures json.Some? && OtherText(json.value) ==> (st.Some? <==> Passes(json.value, junk))
  {
    hide Tidy, CStr, Callable, ParsePost, JunkOk, NewPost, OtherText, Passes;
    if json.None? {
      return None;
    }
    ghost var m0, text := h.mem, json.value;
    NewReady(m0, text);
    var t := h.mem.next;
    h.mem := SymAlloc(h.mem);
    h.mem := h.mem.(texts := h.mem.texts[t + 1 := json.value + [NUL]], next := t + 2);
    ghost var m1 := h.mem;
    var ok := ParseObject(h, t, Ptr(t + 1, 0), junk);
    if !ok {
      NewFailed(m0, text, m1, h.mem);
      h.mem := h.mem.(texts := h.mem.texts - {t + 1});
      st := None;
    } else {
      NewMade(m0, text, m1, h.mem);
      h.mem := PutMgt(h.mem, t, JSON_SYM_NAME, t + 1);
      st := Some(t);
    }
  }

  // ----- the main results

  lemma RootHolds(m: Memory, st: nat, items: seq<Item>, o: int)
    requires Root(m, st, items, o)
    ensures Holds(m, st, items) && LevelOk(items)
  {
    hide RepTab, Tidy, Blocks, HasTab, Good, LevelOk;
    GoodLevel(items);
    RepHasTab(m, st + 2, st, items, st + 1, o, st + 2);
  }

  /** Exactly what jw_new gets right. It returns NULL for an object that breaks the rules of its own
      level. From the table of any other, a path of selections meets something released exactly when it
      enters an object of the document that breaks the rules; every other path ends where it ends in the
      document, and there every getter answers alike. */
  lemma NewExact(m0: Memory, m1: Memory, json: string, st: Option<nat>)
    requires NewPost(m0, m1, json, st) && ObjectText(json)
    ensures st.Some? <==> LevelOk(Members(json))
    ensures st.Some? ==> forall path :: Agrees(m1, st.value, Members(json), path)
  {
    hide ReadDoc, Tidy, Untouched, Root, Holds, Agrees, LevelOk, Good;
    if st.Some? {
      forall path ensures Agrees(m1, st.value, Members(json), path) {
        EveryLookup(m1, st.value, Members(json), path);
      }
    }
  }

  /** So with unique names jw_new gets the whole document right if and only if it is good. */
  lemma NewWhole(m0: Memory, m1: Memory, json: string, st: Option<nat>)
    requires NewPost(m0, m1, json, st) && ObjectText(json) && UniqueNames(Members(json))
    ensures Good(Members(json)) <==> st.Some? && forall path :: Reach(m1, st.value, path) != Dangling
  {
    hide ReadDoc, Tidy, Untouched, Root, Hung, UniqueNames, GoodValue, LevelOk, Reach, Follow, Agrees;
    var items := Members(json);
    NewExact(m0, m1, json, st);
    if Good(items) {
      GoodLevel(items);
      forall path ensures Reach(m1, st.value, path) != Dangling {
        GoodClean(items, path);
        assert Agrees(m1, st.value, items, path);
        AgreesClean(m1, st.value, items, path);
      }
    } else if st.Some? {
      var path := SpoiledPath(items);
      assert Agrees(m1, st.value, items, path);
      AgreesClean(m1, st.value, items, path);
    }
  }

  lemma AgreesClean(m: Memory, t: nat, items: seq<Item>, path: seq<Step>)
    requires Agrees(m, t, items, path)
    ensures Reach(m, t, path) == Dangling <==> Follow(items, path) == Spoiled
  {
  }

  function OneMember(name: string, v: Value): Value { Obj("", [Item("", Key(name, "", ""), v, "")]) }

  lemma OneMemberText(name: string, v: Value)
    ensures Render(OneMember(name, v)) == "{\"" + name + "\":" + Render(v) + "}"
  {
    hide ItemText;
    var o := OneMember(name, v);
    ItemPlain(o.items[0]);
    assert RenderItems(o.items, 1) == ItemText(o.items[0]);
  }

  lemma ItemPlain(it: Item)
    requires it.lead == "" && it.trail == "" && it.key.Key? && it.key.beforeColon == "" && it.key.afterColon == ""
    ensures ItemText(it) == "\"" + it.key.name + "\":" + Render(it.val)
  {
    hide Render;
    assert KeyText(it.key) == "\"" + it.key.name + "\":";
  }

  lemma OneMemberOk(name: string, v: Value)
    requires RawString(name) && WellFormed(v)
    ensures WellFormed(OneMember(name, v)) && Count(OneMember(name, v)) == 2 + Count(v)
  {
    hide RawString;
    var o := OneMember(name, v);
    assert ItemOk(o.items[0], true);
    assert CountItems(o.items, 1) == CountItems(o.items, 0) + CountItem(o.items[0]);
  }

  lemma NestedRead(v: Value)
    requires WellFormed(v) && Count(v) == 1
    ensures var text := "{\"a\":{\"b\":" + Render(v) + "}}";
      ObjectText(text) && Members(text) == OneMember("a", OneMember("b", v)).items
  {
    hide ReadDoc, Render, Count, WellFormed;
    var inner := OneMember("b", v);
    var outer := OneMember("a", inner);
    OneMemberText("b", v);
    OneMemberText("a", inner);
    assert RawString("b") && RawString("a");
    OneMemberOk("b", v);
    OneMemberOk("a", inner);
    assert Render(outer) == "{\"a\":{\"b\":" + Render(v) + "}}";
    ReadRendered(outer);
  }

  /** A document that jw_new refuses though it is an object with unique names: its last token is a
      number inside a nested object. */
  lemma TailNumberRefused()
    ensures var text := "{\"a\":{\"b\":1}}";
      && ObjectText(text) && UniqueNames(Members(text)) && !LevelOk(Members(text))
      && forall m0, m1, st :: NewPost(m0, m1, text, st) ==> st.None?
  {
    hide ReadDoc, Tidy, Untouched;
    NestedRead(Num("1"));
    assert Render(Num("1")) == "1" && "{\"a\":{\"b\":" + "1" + "}}" == "{\"a\":{\"b\":1}}";
    assert Tail(OneMember("b", Num("1")));
  }

  /** The same document with a string for the number is parsed and answers at every depth. */
  lemma TailStringAccepted()
    ensures var text := "{\"a\":{\"b\":\"1\"}}";
      && ObjectText(text) && Good(Members(text))
      && forall m0, m1, st :: NewPost(m0, m1, text, st) ==>
        st.Some? && forall path :: Agrees(m1, st.value, Members(text), path)
  {
    hide ReadDoc, Tidy, Untouched, Agrees, NewPost;
    var text := "{\"a\":{\"b\":\"1\"}}";
    assert RawString("1");
    NestedRead(Str("1"));
    assert Render(Str("1")) == "\"1\"" && "{\"a\":{\"b\":" + "\"1\"" + "}}" == text;
    assert Good(OneMember("b", Str("1")).items);
    assert Good(OneMember("a", OneMember("b", Str("1"))).items);
    forall m0, m1, st | NewPost(m0, m1, text, st)
      ensures st.Some? && forall path :: Agrees(m1, st.value, Members(text), path)
    {
      NewExact(m0, m1, text, st);
    }
  }

  lemma GoodLevel(items: seq<Item>)
    requires Good(items)
    ensures LevelOk(items)
  {
  }
}
