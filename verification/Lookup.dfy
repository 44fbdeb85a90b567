/** Looking members up in a document: what the getters are meant to answer. */
module Lookup {
  import opened Document
  import opened Numbers
  import opened Memory
  import opened Accepts

  datatype Option<+T> = None | Some(value: T)

  /** The last of the first `n` members called `name`. */
  function FindIn(items: seq<Item>, n: nat, name: string): (r: Option<nat>)
    requires n <= |items|
    ensures r.Some? ==>
      r.value < n && Name(items[r.value]) == name && forall k :: r.value < k < n ==> Name(items[k]) != name
    ensures r.None? ==> forall k :: 0 <= k < n ==> Name(items[k]) != name
  {
    if n == 0 then None
    else if Name(items[n - 1]) == name then Some(n - 1)
    else FindIn(items, n - 1, name)
  }

  /** The value of the member called `name`; the last one counts. */
  function Find(items: seq<Item>, name: string): Option<Value> {
    match FindIn(items, |items|, name)
    case None => None
    case Some(k) => Some(items[k].val)
  }

  function FindElement(items: seq<Item>, name: string, idx: int): Option<Value> {
    match Find(items, name)
    case Some(Arr(_, elems)) => if 0 <= idx < |elems| then Some(elems[idx].val) else None
    case _ => None
  }

  predicate IsNumber(v: Option<Value>) { v.Some? && v.value.Num? }

  predicate IsText(v: Option<Value>) { v.Some? && v.value.Str? }

  predicate IsBool(v: Option<Value>) { v.Some? && (v.value.True? || v.value.False?) }

  predicate IsNull(v: Option<Value>) { v.Some? && v.value.Null? }

  function TextOf(v: Option<Value>): Option<string> {
    match v
    case Some(Str(raw)) => Some(raw)
    case _ => None
  }

  function MembersOf(v: Option<Value>): Option<seq<Item>> {
    match v
    case Some(Obj(_, items)) => Some(items)
    case _ => None
  }

  function LengthOf(v: Option<Value>): int {
    match v
    case Some(Arr(_, items)) => |items|
    case _ => -1
  }

  /** The number a value is kept as: booleans as 1 and 0, null as 0. */
  function NumberOf(v: Option<Value>): real {
    match v
    case Some(Num(text)) => Strtod(text)
    case Some(True) => 1.0
    case _ => 0.0
  }

  /** One selection of a nested object. */
  datatype Step = Member(name: string) | Element(name: string, idx: int)

  function Enter(items: seq<Item>, step: Step): Option<seq<Item>> {
    match step
    case Member(name) => MembersOf(Find(items, name))
    case Element(name, idx) => MembersOf(FindElement(items, name, idx))
  }

  /** The object a whole path of selections leads to. */
  function Descend(items: seq<Item>, path: seq<Step>): Option<seq<Item>>
    decreases |path|
  {
    if path == [] then Some(items)
    else
      match Enter(items, path[0])
      case None => None
      case Some(sub) => Descend(sub, path[1..])
  }

  lemma {:induction false} DescendMore(items: seq<Item>, path: seq<Step>, step: Step)
    ensures Descend(items, path + [step]) ==
      if Descend(items, path).Some? then Enter(Descend(items, path).value, step) else None
    decreases |path|
  {
    hide Enter;
    if path == [] {
      assert ([] + [step])[1..] == [];
    } else {
      assert (path + [step])[1..] == path[1..] + [step];
      assert (path + [step])[0] == path[0];
      match Enter(items, path[0]) {
        case None =>
        case Some(sub) => DescendMore(sub, path[1..], step);
      }
    }
  }

  /** The same where not every object can be entered: a path is spoiled once it comes to an object that
      breaks the rules of its level. */
  datatype Trail = Spoiled | Missing | Found(items: seq<Item>)

  function Follow(items: seq<Item>, path: seq<Step>): Trail
    decreases |path|
  {
    if !LevelOk(items) then Spoiled
    else if path == [] then Found(items)
    else
      match Enter(items, path[0])
      case None => Missing
      case Some(sub) => Follow(sub, path[1..])
  }

  /** No path is spoiled. */
  ghost predicate Clean(items: seq<Item>) { forall path :: Follow(items, path) != Spoiled }

  lemma EnterGood(items: seq<Item>, step: Step)
    requires Good(items) && Enter(items, step).Some?
    ensures Good(Enter(items, step).value)
  {
    hide LevelOk, FindIn;
    var k := FindIn(items, |items|, step.name).value;
    assert GoodValue(items[k].val);
    if step.Element? {
      assert GoodElem(items[k].val.items[step.idx].val);
    }
  }

  lemma {:induction false} GoodClean(items: seq<Item>, path: seq<Step>)
    requires Good(items)
    ensures Follow(items, path) != Spoiled
    decreases |path|
  {
    hide GoodValue, Enter;
    if path != [] && Enter(items, path[0]).Some? {
      EnterGood(items, path[0]);
      GoodClean(Enter(items, path[0]).value, path[1..]);
    }
  }

  /** Without repeated names every object is reached by some path. */
  lemma {:induction false} SpoiledPath(items: seq<Item>) returns (path: seq<Step>)
    requires !Good(items) && UniqueNames(items)
    ensures Follow(items, path) == Spoiled
    decreases items
  {
    hide GoodValue, Enter, UniqueIn;
    path := [];
    if LevelOk(items) {
      var k :| 0 <= k < |items| && !GoodValue(items[k].val);
      assert UniqueIn(items[k].val);
      path := SpoiledBelow(items, k);
    }
  }

  lemma SpoiledBelow(items: seq<Item>, k: nat) returns (path: seq<Step>)
    requires k < |items| && LevelOk(items) && !GoodValue(items[k].val) && UniqueIn(items[k].val)
    requires forall i, j :: 0 <= i < j < |items| ==> Name(items[i]) != Name(items[j])
    ensures Follow(items, path) == Spoiled
    decreases items, 0
  {
    hide Good, FindIn, UniqueNames;
    var v, name := items[k].val, Name(items[k]);
    assert FindIn(items, |items|, name) == Some(k);
    if v.Obj? {
      var rest := SpoiledPath(v.items);
      path := [Member(name)] + rest;
      assert path[1..] == rest && path[0] == Member(name);
    } else {
      var i :| 0 <= i < |v.items| && !GoodElem(v.items[i].val);
      assert Flat(v) && UniqueElem(v.items[i].val);
      var rest := SpoiledPath(v.items[i].val.items);
      path := [Element(name, i)] + rest;
      assert path[1..] == rest && path[0] == Element(name, i);
    }
  }

  lemma CleanLevel(items: seq<Item>)
    requires Clean(items)
    ensures LevelOk(items)
  {
    assert Follow(items, []) != Spoiled;
  }

  lemma CleanEnter(items: seq<Item>, step: Step)
    requires Clean(items) && Enter(items, step).Some?
    ensures Clean(Enter(items, step).value)
  {
    hide Enter, LevelOk;
    var sub := Enter(items, step).value;
    CleanLevel(items);
    forall path ensures Follow(sub, path) != Spoiled {
      assert ([step] + path)[1..] == path && ([step] + path)[0] == step;
      assert Follow(items, [step] + path) != Spoiled;
    }
  }
}
