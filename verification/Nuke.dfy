/** jw_nuke: which blocks of a parsed document are released, each once, and which are lost because a
    later member of the same name took their place in the table. */
module Nuke {
  import opened Document
  import opened Jsmn
  import opened Memory
  import opened Accepts
  import opened Parser

  /** Memory with the blocks in `s` released. */
  ghost function Without(m: Memory, s: set<nat>): Memory {
    m.(texts := m.texts - s, tabs := m.tabs - s, things := m.things - s, arrays := m.arrays - s)
  }

  /** The serial numbers from `lo` up to `hi`. */
  ghost function Span(lo: nat, hi: nat): (s: set<nat>)
    ensures forall id :: id in s <==> lo <= id < hi
    decreases hi
  {
    if hi <= lo then {} else Span(lo, hi - 1) + {hi - 1}
  }

  // ----- what a table does not refer to any more

  /** A later member has the name, so the table does not refer to this one. */
  predicate Shadowed(items: seq<Item>, k: nat)
    requires k < |items|
  {
    exists j :: k < j < |items| && Name(items[j]) == Name(items[k])
  }

  /** The blocks of the first `n` members that nothing refers to: all those of a shadowed member, and
      at any depth below the others. */
  ghost function Lost(items: seq<Item>, n: nat, a: nat): set<nat>
    requires n <= |items|
    decreases items, n
  {
    if n == 0 then {}
    else
      Lost(items, n - 1, a) +
      if Shadowed(items, n - 1) then Span(a + Blocks(items, n - 1), a + Blocks(items, n))
      else LostValue(items[n - 1].val, a + Blocks(items, n - 1))
  }

  /** Those below the thing at `id`. */
  ghost function LostValue(v: Value, id: nat): set<nat>
    decreases v, 0
  {
    match v
    case Obj(_, items) => Lost(items, |items|, id + 3)
    case Arr(_, items) => LostElems(items, |items|, id + 2)
    case _ => {}
  }

  ghost function LostElems(items: seq<Item>, n: nat, a: nat): set<nat>
    requires n <= |items|
    decreases items, n
  {
    if n == 0 then {} else LostElems(items, n - 1, a) + LostElem(items[n - 1].val, a + ElemsBlocks(items, n - 1))
  }

  ghost function LostElem(v: Value, a: nat): set<nat>
    decreases v, 0
  {
    if v.Obj? then Lost(v.items, |v.items|, a + 1) else {}
  }

  lemma {:induction false} LostWithin(items: seq<Item>, n: nat, a: nat)
    requires n <= |items|
    ensures Lost(items, n, a) <= Span(a, a + Blocks(items, n))
    decreases items, n
  {
    hide ValueBlocks, LostValue;
    if n > 0 {
      LostWithin(items, n - 1, a);
      LostValueWithin(items[n - 1].val, a + Blocks(items, n - 1));
      assert Blocks(items, n) == Blocks(items, n - 1) + ValueBlocks(items[n - 1].val);
    }
  }

  lemma LostValueWithin(v: Value, id: nat)
    ensures LostValue(v, id) <= Span(id + 1, id + ValueBlocks(v))
    decreases v, 0
  {
    hide Lost, LostElems, Blocks, ElemsBlocks;
    match v {
      case Obj(_, items) => LostWithin(items, |items|, id + 3);
      case Arr(_, items) => LostElemsWithin(items, |items|, id + 2);
      case _ =>
    }
  }

  lemma {:induction false} LostElemsWithin(items: seq<Item>, n: nat, a: nat)
    requires n <= |items|
    ensures LostElems(items, n, a) <= Span(a, a + ElemsBlocks(items, n))
    decreases items, n
  {
    hide LostElem, ElemBlocks;
    if n > 0 {
      LostElemsWithin(items, n - 1, a);
      LostElemWithin(items[n - 1].val, a + ElemsBlocks(items, n - 1));
    }
  }

  lemma LostElemWithin(v: Value, a: nat)
    ensures LostElem(v, a) <= Span(a, a + ElemBlocks(v))
    decreases v, 0
  {
    hide Lost, Blocks;
    if v.Obj? {
      LostWithin(v.items, |v.items|, a + 1);
    }
  }

  /** Member by member. */
  lemma {:induction false} LostOf(items: seq<Item>, n: nat, a: nat, k: nat, id: nat)
    requires k < n <= |items| && Owns(items, k, a, id)
    ensures id in Lost(items, n, a) <==> Shadowed(items, k) || id in LostValue(items[k].val, a + Blocks(items, k))
  {
    hide Shadowed, LostValue, Blocks;
    BlocksMonotone(items, k + 1, n);
    LostWithin(items, n - 1, a);
    LostValueWithin(items[n - 1].val, a + Blocks(items, n - 1));
    if k < n - 1 {
      BlocksMonotone(items, k + 1, n - 1);
      LostOf(items, n - 1, a, k, id);
    } else {
      NextBlocks(items, k);
    }
  }

  lemma NextBlocks(items: seq<Item>, k: nat)
    requires k < |items|
    ensures Blocks(items, k + 1) == Blocks(items, k) + ValueBlocks(items[k].val)
  {
  }

  /** Nothing is lost if and only if no object has a name twice. */
  lemma {:induction false} NothingLost(items: seq<Item>, a: nat)
    ensures Lost(items, |items|, a) == {} <==> UniqueNames(items)
    decreases items, 1
  {
    hide Lost, Whole;
    LostEach(items, |items|, a);
    forall k | 0 <= k < |items| ensures Whole(items, k, a) <==> !Shadowed(items, k) && UniqueIn(items[k].val) {
      NothingLostAt(items, k, a);
    }
    UniqueEach(items);
  }

  lemma NothingLostAt(items: seq<Item>, k: nat, a: nat)
    requires k < |items|
    ensures Whole(items, k, a) <==> !Shadowed(items, k) && UniqueIn(items[k].val)
    decreases items, 0
  {
    hide Shadowed, UniqueIn, LostValue;
    NothingLostBelow(items[k].val, a + Blocks(items, k));
  }

  lemma UniqueEach(items: seq<Item>)
    ensures UniqueNames(items) <==> forall k :: 0 <= k < |items| ==> !Shadowed(items, k) && UniqueIn(items[k].val)
  {
    hide UniqueIn, Name;
    if UniqueNames(items) {
      forall k | 0 <= k < |items| ensures !Shadowed(items, k) {
      }
    } else if forall k :: 0 <= k < |items| ==> UniqueIn(items[k].val) {
      var j, k :| 0 <= j < k < |items| && Name(items[j]) == Name(items[k]);
      ShadowedBy(items, j, k);
    }
  }

  /** Nothing is lost of member `k`. */
  ghost predicate Whole(items: seq<Item>, k: nat, a: nat)
    requires k < |items|
  {
    !Shadowed(items, k) && LostValue(items[k].val, a + Blocks(items, k)) == {}
  }

  lemma {:induction false} LostEach(items: seq<Item>, n: nat, a: nat)
    requires n <= |items|
    ensures Lost(items, n, a) == {} <==> forall k :: 0 <= k < n ==> Whole(items, k, a)
  {
    hide Whole;
    if n > 0 {
      LostEach(items, n - 1, a);
      LostStep(items, n - 1, a);
    }
  }

  lemma LostStep(items: seq<Item>, k: nat, a: nat)
    requires k < |items|
    ensures Lost(items, k + 1, a) == {} <==> Lost(items, k, a) == {} && Whole(items, k, a)
  {
    hide Shadowed, LostValue, ValueBlocks, Blocks;
    NextBlocks(items, k);
    if Shadowed(items, k) {
      assert a + Blocks(items, k) in Lost(items, k + 1, a);
    } else {
      assert Lost(items, k + 1, a) == Lost(items, k, a) + LostValue(items[k].val, a + Blocks(items, k));
      assert Lost(items, k, a) <= Lost(items, k + 1, a);
      assert LostValue(items[k].val, a + Blocks(items, k)) <= Lost(items, k + 1, a);
    }
  }

  lemma NothingLostBelow(v: Value, id: nat)
    ensures LostValue(v, id) == {} <==> UniqueIn(v)
    decreases v, 1
  {
    hide Lost, LostElems, UniqueNames;
    match v {
      case Obj(_, items) => NothingLost(items, id + 3);
      case Arr(_, items) => NothingLostElems(items, |items|, id + 2);
      case _ =>
    }
  }

  lemma {:induction false} NothingLostElems(items: seq<Item>, n: nat, a: nat)
    requires n <= |items|
    ensures LostElems(items, n, a) == {} <==> forall k :: 0 <= k < n ==> UniqueElem(items[k].val)
    decreases items, n
  {
    hide Lost, UniqueNames, ElemsBlocks;
    if n > 0 {
      NothingLostElems(items, n - 1, a);
      var v := items[n - 1].val;
      if v.Obj? {
        NothingLost(v.items, a + ElemsBlocks(items, n - 1) + 1);
      }
    }
  }

  // ----- which thing a name refers to

  /** The last member of a name in the table. */
  lemma {:induction false} IndexLast(items: seq<Item>, n: nat, a: nat, name: string) returns (k: nat)
    requires n <= |items| && name in Index(items, n, a)
    ensures k < n && Name(items[k]) == name && Index(items, n, a)[name] == a + Blocks(items, k)
    ensures forall j :: k < j < n ==> Name(items[j]) != name
  {
    hide Name, Blocks;
    if name == Name(items[n - 1]) {
      k := n - 1;
    } else {
      k := IndexLast(items, n - 1, a, name);
    }
  }

  lemma {:induction false} IndexHas(items: seq<Item>, n: nat, a: nat, k: nat)
    requires k < n <= |items|
    ensures Name(items[k]) in Index(items, n, a)
  {
    if k < n - 1 {
      IndexHas(items, n - 1, a, k);
    }
  }

  // ----- releasing blocks; each must be live

  method FreeThing(h: Heap, id: nat)
    requires id in h.mem.things
    modifies h
    ensures h.mem == old(h.mem).(things := old(h.mem).things - {id})
  {
    h.mem := h.mem.(things := h.mem.things - {id});
  }

  method FreeArray(h: Heap, id: nat)
    requires id in h.mem.arrays
    modifies h
    ensures h.mem == old(h.mem).(arrays := old(h.mem).arrays - {id})
  {
    h.mem := h.mem.(arrays := h.mem.arrays - {id});
  }

  method FreeText(h: Heap, id: nat)
    requires id in h.mem.texts
    modifies h
    ensures h.mem == old(h.mem).(texts := old(h.mem).texts - {id})
  {
    h.mem := h.mem.(texts := h.mem.texts - {id});
  }

  method SymFree(h: Heap, id: nat)
    requires id in h.mem.tabs
    modifies h
    ensures h.mem == old(h.mem).(tabs := old(h.mem).tabs - {id})
  {
    h.mem := h.mem.(tabs := h.mem.tabs - {id});
  }

  lemma WithoutAgree(m: Memory, s: set<nat>, lo: nat, hi: nat)
    requires forall id :: id in s ==> !(lo <= id < hi)
    ensures Agree(m, Without(m, s), lo, hi)
  {
  }

  lemma WithoutText(m: Memory, s: set<nat>, b: nat, lo: int, hi: int)
    requires b !in s
    ensures TextAgree(m, Without(m, s), b, lo, hi)
  {
  }

  lemma MinusTwice<T>(a: map<nat, T>, s: set<nat>, t: set<nat>)
    ensures a - s - t == a - (s + t)
  {
  }

  lemma MinusOther<T>(a: map<nat, T>, s: set<nat>, id: nat)
    requires id !in a
    ensures a - (s + {id}) == a - s
  {
  }

  lemma WithoutTwice(m: Memory, s: set<nat>, t: set<nat>)
    ensures Without(Without(m, s), t) == Without(m, s + t)
  {
    MinusTwice(m.texts, s, t);
    MinusTwice(m.tabs, s, t);
    MinusTwice(m.things, s, t);
    MinusTwice(m.arrays, s, t);
  }

  lemma WithoutNone(m: Memory)
    ensures Without(m, {}) == m
  {
    assert m.texts - {} == m.texts && m.tabs - {} == m.tabs && m.things - {} == m.things && m.arrays - {} == m.arrays;
  }

  lemma WithoutTidy(m: Memory, s: set<nat>)
    requires Tidy(m)
    ensures Tidy(Without(m, s))
  {
  }

  // ----- one block more

  lemma ThingReleased(m0: Memory, s: set<nat>, id: nat)
    requires Tidy(m0) && id in m0.things && id !in s
    ensures var m := Without(m0, s); id in m.things && m.(things := m.things - {id}) == Without(m0, s + {id})
  {
    MinusTwice(m0.things, s, {id});
    MinusOther(m0.texts, s, id);
    MinusOther(m0.tabs, s, id);
    MinusOther(m0.arrays, s, id);
  }

  lemma TableReleased(m0: Memory, s: set<nat>, id: nat)
    requires Tidy(m0) && id in m0.tabs && id !in s
    ensures var m := Without(m0, s); id in m.tabs && m.(tabs := m.tabs - {id}) == Without(m0, s + {id})
  {
    MinusTwice(m0.tabs, s, {id});
    MinusOther(m0.texts, s, id);
    MinusOther(m0.things, s, id);
    MinusOther(m0.arrays, s, id);
  }

  lemma TextReleased(m0: Memory, s: set<nat>, id: nat)
    requires Tidy(m0) && id in m0.texts && id !in s
    ensures var m := Without(m0, s); id in m.texts && m.(texts := m.texts - {id}) == Without(m0, s + {id})
  {
    MinusTwice(m0.texts, s, {id});
    MinusOther(m0.tabs, s, id);
    MinusOther(m0.things, s, id);
    MinusOther(m0.arrays, s, id);
  }

  lemma ThingMarked(m0: Memory, s: set<nat>, id: nat, kind: Kind)
    requires Tidy(m0) && id in m0.things && id !in s
    ensures var m := Without(m0, s);
      && id in m.things
      && var m' := SetThing(m, id, m.things[id].(jsmnType := kind));
         id in m'.things && m'.(things := m'.things - {id}) == Without(m0, s + {id})
  {
    ThingReleased(m0, s, id);
    var m := Without(m0, s);
    var m' := SetThing(m, id, m.things[id].(jsmnType := kind));
    assert m'.things - {id} == m.things - {id};
  }

  // ----- the array loop

  /** The memory in the array loop of nix_things: `s` is released, the array holds `ths`. */
  ghost function Nixing(m0: Memory, a: nat, ths: seq<Thing>, s: set<nat>): Memory {
    Without(m0, s).(arrays := Without(m0, s).arrays[a := ths])
  }

  lemma NixingNone(m0: Memory, a: nat)
    requires a in m0.arrays
    ensures Nixing(m0, a, m0.arrays[a], {}) == m0
  {
    WithoutNone(m0);
    assert m0.arrays[a := m0.arrays[a]] == m0.arrays;
  }

  lemma NixingHas(m0: Memory, a: nat, ths: seq<Thing>, s: set<nat>)
    ensures a in Nixing(m0, a, ths, s).arrays && Nixing(m0, a, ths, s).arrays[a] == ths
  {
  }

  lemma NixingTidy(m0: Memory, a: nat, ths: seq<Thing>, s: set<nat>)
    requires Tidy(m0) && a in m0.arrays
    ensures Tidy(Nixing(m0, a, ths, s))
  {
  }

  /** What the element objects not yet reached need is untouched. */
  lemma NixingKeeps(m0: Memory, a: nat, ths: seq<Thing>, s: set<nat>, hi: nat, th: Thing, v: Value, b: nat, q: int)
    requires RepElem(m0, th, v, b, q, hi) && b < a && s <= Span(a + 1, hi) && a < hi
    ensures RepElem(Nixing(m0, a, ths, s), th, v, b, q, hi)
  {
    hide RepElem, Render;
    var m := Nixing(m0, a, ths, s);
    assert Agree(m0, m, hi, hi + ElemBlocks(v));
    assert TextAgree(m0, m, b, q, q + |Render(v)|);
    ElemFrame(m0, m, th, v, b, q, hi);
  }

  lemma NixingMore(m0: Memory, a: nat, ths: seq<Thing>, s: set<nat>, t: set<nat>, ths': seq<Thing>)
    requires a !in t
    ensures var m := Without(Nixing(m0, a, ths, s), t);
      a in m.arrays && m.arrays[a] == ths && m.(arrays := m.arrays[a := ths']) == Nixing(m0, a, ths', s + t)
  {
    MinusTwice(m0.texts, s, t);
    MinusTwice(m0.tabs, s, t);
    MinusTwice(m0.things, s, t);
    MinusPut(m0.arrays, s, t, a, ths, ths');
  }

  lemma MinusPut<T>(a: map<nat, T>, s: set<nat>, t: set<nat>, id: nat, x: T, y: T)
    requires id !in t
    ensures var b := (a - s)[id := x] - t; id in b && b[id] == x && b[id := y] == (a - (s + t))[id := y]
  {
  }

  lemma NixedArray(m0: Memory, a: nat, ths: seq<Thing>, s: set<nat>)
    requires Tidy(m0) && a in m0.arrays
    ensures var m := Nixing(m0, a, ths, s); m.(arrays := m.arrays - {a}) == Without(m0, s + {a})
  {
    MinusOther(m0.texts, s, a);
    MinusOther(m0.tabs, s, a);
    MinusOther(m0.things, s, a);
    assert (m0.arrays - s)[a := ths] - {a} == m0.arrays - (s + {a});
  }

  // ----- what goes

  /** The blocks of the thing at `id`, but those that are lost. */
  ghost function ThingBlocks(v: Value, id: nat): set<nat> { Span(id, id + ValueBlocks(v)) - LostValue(v, id) }

  /** The blocks of table `st`, whose members' blocks start at `a`, but those that are lost. */
  ghost function TableBlocks(st: nat, items: seq<Item>, a: nat): set<nat> {
    Span(st, a + Blocks(items, |items|)) - Lost(items, |items|, a)
  }

  /** Those of the first `n` elements of an array. */
  ghost function ElemsGone(items: seq<Item>, n: nat, a: nat): set<nat>
    requires n <= |items|
  {
    Span(a, a + ElemsBlocks(items, n)) - LostElems(items, n, a)
  }

  lemma ElemsGoneZero(items: seq<Item>, a: nat)
    ensures ElemsGone(items, 0, a) == {} && ElemsBlocks(items, 0) == 0
  {
  }

  lemma ElemsGoneMore(items: seq<Item>, n: nat, a: nat)
    requires n < |items|
    ensures var v, lo := items[n].val, a + ElemsBlocks(items, n);
      && ElemsBlocks(items, n + 1) == ElemsBlocks(items, n) + ElemBlocks(v)
      && (v.Obj? ==> ElemsGone(items, n + 1, a) == ElemsGone(items, n, a) + TableBlocks(lo, v.items, lo + 1))
      && (!v.Obj? ==> ElemsGone(items, n + 1, a) == ElemsGone(items, n, a))
  {
    hide Lost, Blocks;
    var v, lo := items[n].val, a + ElemsBlocks(items, n);
    LostElemsWithin(items, n, a);
    LostElemWithin(v, lo);
    assert LostElems(items, n + 1, a) == LostElems(items, n, a) + LostElem(v, lo);
  }

  /** The array's own block, with the elements' after it. */
  lemma ArrayGone(v: Value, id: nat)
    requires v.Arr?
    ensures ElemsGone(v.items, |v.items|, id + 2) + {id + 1} + {id} == ThingBlocks(v, id)
    ensures id !in ElemsGone(v.items, |v.items|, id + 2) + {id + 1}
  {
    hide LostElems, ElemsBlocks;
    LostElemsWithin(v.items, |v.items|, id + 2);
  }

  lemma ObjectGone(v: Value, id: nat)
    requires v.Obj?
    ensures TableBlocks(id + 1, v.items, id + 3) + {id} == ThingBlocks(v, id)
    ensures id !in TableBlocks(id + 1, v.items, id + 3)
  {
    hide Lost, Blocks;
    LostWithin(v.items, |v.items|, id + 3);
  }

  lemma LeafGone(v: Value, id: nat)
    requires !v.Obj? && !v.Arr?
    ensures {} + {id} == ThingBlocks(v, id)
  {
  }

  /** nix_things for the thing at `id`, which represents `v`. */
  method NixThing(h: Heap, id: nat, ghost v: Value, ghost b: nat, ghost q: int)
    requires id in h.mem.things && RepValue(h.mem, h.mem.things[id], v, b, q, id + 1) && b < id && Tidy(h.mem)
    modifies h
    ensures h.mem == Without(old(h.mem), ThingBlocks(v, id))
    decreases v, 2
  {
    hide Without, Tidy, Span, RepTab, RepValue, Blocks, ThingBlocks, TableBlocks, ElemsGone;
    ghost var m0 := h.mem;
    var j := h.mem.things[id];
    ThingKind(m0, j, v, b, q, id + 1);
    if j.jsmnType == Array {
      NixArray(h, id, j, v, b, q);
      ArrayGone(v, id);
      ThingReleased(m0, ElemsGone(v.items, |v.items|, id + 2) + {id + 1}, id);
      FreeThing(h, id);
    } else if j.jsmnType == Object {
      JwNuke(h, j.v.tab, v.items, id + 2, 1, id + 3, true);
      ObjectGone(v, id);
      ThingMarked(m0, TableBlocks(id + 1, v.items, id + 3), id, Undefined);
      h.mem := SetThing(h.mem, id, h.mem.things[id].(jsmnType := Undefined));
      FreeThing(h, id);
    } else {
      LeafGone(v, id);
      WithoutNone(m0);
      ThingReleased(m0, {}, id);
      FreeThing(h, id);
    }
  }

  lemma ThingKind(m: Memory, th: Thing, v: Value, b: nat, q: int, a: nat)
    requires RepValue(m, th, v, b, q, a)
    ensures th.jsmnType == Array <==> v.Arr?
    ensures th.jsmnType == Object <==> v.Obj?
    ensures v.Obj? ==>
      th.v == TabPtr(a) && a in m.tabs && a + 1 in m.texts && m.tabs[a].mgt == map[JSON_SYM_NAME := a + 1]
    ensures v.Obj? ==> RepTab(m, a, v.items, a + 1, 1, a + 2)
  {
    hide RepTab, RepElems, CText;
  }

  /** The array arm: the tables of the element objects, then the array. */
  method NixArray(h: Heap, id: nat, j: Thing, ghost v: Value, ghost b: nat, ghost q: int)
    requires v.Arr? && RepValue(h.mem, j, v, b, q, id + 1) && b < id && Tidy(h.mem)
    modifies h
    ensures h.mem == Without(old(h.mem), ElemsGone(v.items, |v.items|, id + 2) + {id + 1})
    decreases v, 1
  {
    hide Without, Tidy, Span, RepTab, RepElem, Nixing, ElemBlocks, ValPos, ElemsBlocks, ElemsGone, TableBlocks;
    ghost var m0, a: nat := h.mem, id + 1;
    ArrayParts(m0, j, v, b, q, a);
    var i := 0;
    var arr := j.v.arr;
    ghost var ths := h.mem.arrays[arr];
    ElemsGoneZero(v.items, a + 1);
    NixingNone(m0, a);
    while i < j.nele
      invariant 0 <= i <= j.nele && |ths| == j.nele
      invariant h.mem == Nixing(m0, a, ths, ElemsGone(v.items, i, a + 1))
      invariant forall k :: i <= k < j.nele ==> ths[k] == m0.arrays[a][k]
    {
      ghost var s, lo := ElemsGone(v.items, i, a + 1), a + 1 + ElemsBlocks(v.items, i);
      ghost var e, p := v.items[i].val, ValPos(v.items, i, q + 1);
      ElementOf(m0, v, b, q, a, i);
      NixingHas(m0, a, ths, s);
      ElemsGoneMore(v.items, i, a + 1);
      if h.mem.arrays[arr][i].jsmnType == Object {
        ElemsGoneWithin(v.items, i, a + 1);
        NixingKeeps(m0, a, ths, s, lo, ths[i], e, b, p);
        NixingTidy(m0, a, ths, s);
        ElementTable(h.mem, ths[i], e, b, p, lo);
        JwNuke(h, h.mem.arrays[arr][i].v.tab, e.items, b, p + 1, lo + 1, false);
        ghost var ths' := ths[i := ths[i].(jsmnType := Undefined)];
        TableApart(lo, e.items, lo + 1, a);
        NixingMore(m0, a, ths, s, TableBlocks(lo, e.items, lo + 1), ths');
        h.mem := h.mem.(arrays :=
          h.mem.arrays[arr := h.mem.arrays[arr][i := h.mem.arrays[arr][i].(jsmnType := Undefined)]]);
        ths := ths';
      }
      i := i + 1;
    }
    NixingHas(m0, a, ths, ElemsGone(v.items, |v.items|, a + 1));
    NixedArray(m0, a, ths, ElemsGone(v.items, |v.items|, a + 1));
    FreeArray(h, arr);
  }

  lemma ElemsGoneWithin(items: seq<Item>, n: nat, a: nat)
    requires n <= |items|
    ensures ElemsGone(items, n, a) <= Span(a, a + ElemsBlocks(items, n))
  {
    hide ElemsBlocks, LostElems;
  }

  lemma TableApart(st: nat, items: seq<Item>, a: nat, id: nat)
    requires id < st
    ensures id !in TableBlocks(st, items, a)
  {
    hide Blocks, Lost;
  }

  lemma ArrayParts(m: Memory, th: Thing, v: Value, b: nat, q: int, a: nat)
    requires v.Arr? && RepValue(m, th, v, b, q, a)
    ensures th.nele == |v.items| && th.v == ArrPtr(a) && a in m.arrays && |m.arrays[a]| == |v.items|
    ensures RepElems(m, m.arrays[a], v.items, |v.items|, b, q + 1, a + 1)
  {
    hide RepElems;
  }

  lemma ElementOf(m: Memory, v: Value, b: nat, q: int, a: nat, i: nat)
    requires v.Arr? && i < |v.items| && a in m.arrays && |m.arrays[a]| == |v.items|
    requires RepElems(m, m.arrays[a], v.items, |v.items|, b, q + 1, a + 1)
    ensures RepElem(m, m.arrays[a][i], v.items[i].val, b, ValPos(v.items, i, q + 1), a + 1 + ElemsBlocks(v.items, i))
    ensures m.arrays[a][i].jsmnType == Object <==> v.items[i].val.Obj?
  {
    hide RepTab, ValPos, ElemsBlocks;
    assert RepElem(m, m.arrays[a][i], v.items[i].val, b, ValPos(v.items, i, q + 1), a + 1 + ElemsBlocks(v.items, i));
  }

  lemma ElementTable(m: Memory, th: Thing, v: Value, b: nat, q: int, a: nat)
    requires v.Obj? && RepElem(m, th, v, b, q, a)
    ensures th.v == TabPtr(a) && a in m.tabs && m.tabs[a].mgt == map[] && RepTab(m, a, v.items, b, q + 1, a + 1)
  {
    hide RepTab;
  }

  // ----- a table

  ghost predicate Owns(items: seq<Item>, k: nat, a: nat, id: nat)
    requires k < |items|
  {
    a + Blocks(items, k) <= id < a + Blocks(items, k + 1)
  }

  /** Of the members whose names are still to come nothing is released, of the others all but what is
      lost. */
  ghost predicate Partly(items: seq<Item>, a: nat, names: set<string>, gone: set<nat>) {
    && (forall id :: id in gone ==> a <= id < a + Blocks(items, |items|))
    && (forall k, id :: 0 <= k < |items| && Owns(items, k, a, id) ==>
      (id in gone <==> Name(items[k]) !in names && Kept(items, k, a, id)))
  }

  /** The table refers to the block, through member `k`. */
  ghost predicate Kept(items: seq<Item>, k: nat, a: nat, id: nat)
    requires k < |items|
  {
    !Shadowed(items, k) && id !in LostValue(items[k].val, a + Blocks(items, k))
  }

  lemma {:induction false} Cover(items: seq<Item>, n: nat, a: nat, id: nat) returns (k: nat)
    requires n <= |items| && a <= id < a + Blocks(items, n)
    ensures k < n && Owns(items, k, a, id)
  {
    hide ValueBlocks;
    if id >= a + Blocks(items, n - 1) {
      k := n - 1;
    } else {
      k := Cover(items, n - 1, a, id);
    }
  }

  lemma PartlyAll(items: seq<Item>, a: nat, gone: set<nat>)
    requires Partly(items, a, {}, gone)
    ensures gone == Span(a, a + Blocks(items, |items|)) - Lost(items, |items|, a)
  {
    hide Lost, Blocks, LostValue, Shadowed;
    forall id | a <= id < a + Blocks(items, |items|) ensures id in gone <==> id !in Lost(items, |items|, a) {
      var k := Cover(items, |items|, a, id);
      LostOf(items, |items|, a, k, id);
    }
  }

  lemma PartlyMore(items: seq<Item>, a: nat, names: set<string>, gone: set<nat>, k: nat)
    requires Partly(items, a, names, gone) && k < |items| && Name(items[k]) in names && !Shadowed(items, k)
    ensures Partly(items, a, names - {Name(items[k])}, gone + ThingBlocks(items[k].val, a + Blocks(items, k)))
  {
    hide Blocks, Name, LostValue, Shadowed;
    var names', gone' := names - {Name(items[k])}, gone + ThingBlocks(items[k].val, a + Blocks(items, k));
    BlocksMonotone(items, 0, k);
    BlocksMonotone(items, k + 1, |items|);
    NextBlocks(items, k);
    forall j, id | 0 <= j < |items| && Owns(items, j, a, id)
      ensures id in gone' <==> Name(items[j]) !in names' && Kept(items, j, a, id)
    {
      if j < k {
        BlocksMonotone(items, j + 1, k);
        if Name(items[j]) == Name(items[k]) {
          ShadowedBy(items, j, k);
        }
      } else if j > k {
        BlocksMonotone(items, k + 1, j);
        if Name(items[j]) == Name(items[k]) {
          ShadowedBy(items, k, j);
        }
      }
    }
  }

  lemma ShadowedBy(items: seq<Item>, k: nat, j: nat)
    requires k < j < |items| && Name(items[j]) == Name(items[k])
    ensures Shadowed(items, k)
  {
  }

  /** Table `st` and everything it refers to; an owned table has the text it was read from. */
  method JwNuke(h: Heap, st: nat, ghost items: seq<Item>, ghost b: nat, ghost o: int, ghost a: nat, ghost owned: bool)
    requires st in h.mem.tabs && RepTab(h.mem, st, items, b, o, a) && Tidy(h.mem)
    requires h.mem.tabs[st].mgt == if owned then map[JSON_SYM_NAME := st + 1] else map[]
    requires if owned then b == st + 1 && b in h.mem.texts && a == st + 2 else b < st && a == st + 1
    modifies h
    ensures h.mem == Without(old(h.mem), TableBlocks(st, items, a))
    decreases items, 2
  {
    hide Tidy, Span, RepMembers, Without, Partly, Blocks, Index, Name, TableBlocks, Lost;
    ghost var m0 := h.mem;
    var tab := h.mem.tabs[st];
    var names := tab.obj.Keys;
    ghost var gone: set<nat> := {};
    NothingGone(m0, items, a);
    while names != {}
      invariant names <= tab.obj.Keys
      invariant h.mem == Without(m0, gone) && Partly(items, a, names, gone)
      decreases |names|
    {
      var name :| name in names;
      gone := NixMember(h, m0, tab.obj[name], name, names, items, b, o, a, gone);
      names := names - {name};
    }
    PartlyAll(items, a, gone);
    TableLast(m0, st, items, a, owned);
    if JSON_SYM_NAME in tab.mgt {
      FreeText(h, tab.mgt[JSON_SYM_NAME]);
    }
    SymFree(h, st);
  }

  /** nix_things for the thing a name refers to. */
  method NixMember(h: Heap, ghost m0: Memory, id: nat, ghost name: string, ghost names: set<string>,
                   ghost items: seq<Item>, ghost b: nat, ghost o: int, ghost a: nat, ghost gone: set<nat>)
    returns (ghost gone': set<nat>)
    requires RepMembers(m0, items, |items|, b, o, a) && Tidy(m0) && b < a
    requires h.mem == Without(m0, gone) && Partly(items, a, names, gone) && name in names
    requires name in Index(items, |items|, a) && Index(items, |items|, a)[name] == id
    modifies h
    ensures h.mem == Without(m0, gone') && Partly(items, a, names - {name}, gone')
    decreases items, 1
  {
    hide Tidy, Span, RepMembers, Without, Partly, Blocks, Index, RepValue, Name, ValPos, ThingBlocks, Shadowed;
    ghost var k := IndexLast(items, |items|, a, name);
    NotShadowed(items, k);
    MemberUntouched(m0, items, a, b, o, names, gone, k);
    NixThing(h, id, items[k].val, b, ValPos(items, k, o));
    PartlyMore(items, a, names, gone, k);
    WithoutTwice(m0, gone, ThingBlocks(items[k].val, a + Blocks(items, k)));
    gone' := gone + ThingBlocks(items[k].val, a + Blocks(items, k));
  }

  lemma NotShadowed(items: seq<Item>, k: nat)
    requires k < |items| && forall j :: k < j < |items| ==> Name(items[j]) != Name(items[k])
    ensures !Shadowed(items, k)
  {
  }

  lemma NothingGone(m0: Memory, items: seq<Item>, a: nat)
    ensures Without(m0, {}) == m0
    ensures Partly(items, a, Index(items, |items|, a).Keys, {})
  {
    hide LostValue, Index, Blocks;
    WithoutNone(m0);
    forall k, id | 0 <= k < |items| && Owns(items, k, a, id) ensures Name(items[k]) in Index(items, |items|, a) {
      IndexHas(items, |items|, a, k);
    }
  }

  lemma MemberUntouched(
    m0: Memory, items: seq<Item>, a: nat, b: nat, o: int, names: set<string>, gone: set<nat>, k: nat)
    requires k < |items| && Name(items[k]) in names && Partly(items, a, names, gone)
    requires RepMembers(m0, items, |items|, b, o, a) && Tidy(m0) && b < a
    ensures var id, m := a + Blocks(items, k), Without(m0, gone);
      && id in m.things && Tidy(m) && RepValue(m, m.things[id], items[k].val, b, ValPos(items, k, o), id + 1)
  {
    hide Tidy, RepValue, ValPos, ValueBlocks, Agree, TextAgree, Render, Kept;
    var m, id := Without(m0, gone), a + Blocks(items, k);
    WithoutTidy(m0, gone);
    assert RepMember(m0, items, k, b, o, a);
    NextBlocks(items, k);
    forall i | i in gone ensures !(id <= i < a + Blocks(items, k + 1)) {
      assert id <= i < a + Blocks(items, k + 1) ==> Owns(items, k, a, i);
    }
    WithoutAgree(m0, gone, id, a + Blocks(items, k + 1));
    SameAt(m0, m, id, a + Blocks(items, k + 1), id);
    Narrow(m0, m, id, a + Blocks(items, k + 1), id + 1, a + Blocks(items, k + 1));
    WithoutText(m0, gone, b, ValPos(items, k, o), ValPos(items, k, o) + |Render(items[k].val)|);
    ValueFrame(m0, m, m0.things[id], items[k].val, b, ValPos(items, k, o), id + 1);
  }

  lemma TableLast(m0: Memory, st: nat, items: seq<Item>, a: nat, owned: bool)
    requires st in m0.tabs && Tidy(m0) && (owned ==> st + 1 in m0.texts) && a == if owned then st + 2 else st + 1
    ensures var m := Without(m0, Span(a, a + Blocks(items, |items|)) - Lost(items, |items|, a));
      && st in m.tabs && m.tabs[st] == m0.tabs[st]
      && (owned ==> st + 1 in m.texts)
      && var m1 := if owned then m.(texts := m.texts - {st + 1}) else m;
         st in m1.tabs && m1.(tabs := m1.tabs - {st}) == Without(m0, TableBlocks(st, items, a))
  {
    hide Tidy, Blocks, Lost;
    var s := Span(a, a + Blocks(items, |items|)) - Lost(items, |items|, a);
    LostWithin(items, |items|, a);
    if owned {
      TextReleased(m0, s, st + 1);
      TableReleased(m0, s + {st + 1}, st);
      assert s + {st + 1} + {st} == TableBlocks(st, items, a);
    } else {
      TableReleased(m0, s, st);
      assert s + {st} == TableBlocks(st, items, a);
    }
  }
}
