/** Where the tables of a good document are: the blocks were given out in document order, so the document
    and the number of its first block tell the table of every object in it. */
module Places {
  import opened Document
  import opened Jsmn
  import opened Memory
  import opened Accepts
  import opened Lookup
  import opened Partial
  import opened Jwrapper

  /** The table of the object a selection enters, and the first block of what that table refers to. */
  function Place(items: seq<Item>, a: nat, step: Step): (nat, nat)
    requires Enter(items, step).Some?
  {
    var k := FindIn(items, |items|, step.name).value;
    match step
    case Member(_) => (a + Blocks(items, k) + 1, a + Blocks(items, k) + 3)
    case Element(_, i) =>
      var t := a + Blocks(items, k) + 2 + ElemsBlocks(items[k].val.items, i);
      (t, t + 1)
  }

  /** The table of the object a path leads to from table `t`, whose things have numbers from `a` on. */
  function Where(items: seq<Item>, t: nat, a: nat, path: seq<Step>): nat
    requires Descend(items, path).Some?
    decreases |path|
  {
    if path == [] then t
    else Where(Enter(items, path[0]).value, Place(items, a, path[0]).0, Place(items, a, path[0]).1, path[1..])
  }

  /** A good document's table in its place. */
  ghost predicate Placed(m: Memory, t: nat, items: seq<Item>, a: nat) {
    && Good(items) && ItemsOk(items, true) && a + Blocks(items, |items|) <= m.next
    && exists b, o :: RepTab(m, t, items, b, o, a)
  }

  lemma PlacedHolds(m: Memory, t: nat, items: seq<Item>, a: nat)
    requires Placed(m, t, items, a)
    ensures Holds(m, t, items) && LevelOk(items) && Readable(m, Some(t))
  {
    hide RepTab, HasTab, ItemOk, GoodValue, LevelOk, Readable, Blocks;
    var b, o :| RepTab(m, t, items, b, o, a);
    RepHasTab(m, 0, t, items, b, o, a);
    HoldsReadable(m, t, items);
  }

  lemma PlaceSelected(m: Memory, t: nat, items: seq<Item>, a: nat, step: Step)
    requires Placed(m, t, items, a) && Enter(items, step).Some?
    ensures Readable(m, Some(t))
    ensures var (t', a') := Place(items, a, step);
      Select(m, t, step) == Some(t') && Placed(m, t', Enter(items, step).value, a')
  {
    hide RepMember, ItemOk, Good, LevelOk, Readable, Blocks, ElemsBlocks, Index, FindIn, ItemsOk;
    PlacedHolds(m, t, items, a);
    EnterGood(items, step);
    EnterOk(items, step);
    var b, o :| RepTab(m, t, items, b, o, a);
    var k := FindIn(items, |items|, step.name).value;
    IndexFinds(items, |items|, a, step.name);
    assert k < |items| && RepMembers(m, items, |items|, b, o, a);
    assert RepMember(m, items, k, b, o, a);
    if step.Member? {
      MemberPlaced(m, items, k, b, o, a);
    } else {
      var q := ElementPlaced(m, items, k, step.idx, b, o, a);
    }
  }

  lemma EnterOk(items: seq<Item>, step: Step)
    requires ItemsOk(items, true) && Enter(items, step).Some?
    ensures ItemsOk(Enter(items, step).value, true)
  {
    hide ItemOk, RawString, KeyOk, FindIn;
    var k := FindIn(items, |items|, step.name).value;
    assert ItemOk(items[k], true);
    ItemOkParts(items[k], true);
    if step.Element? {
      ElementWellFormed(items, k, step.idx);
    }
  }

  lemma MemberPlaced(m: Memory, items: seq<Item>, k: nat, b: nat, o: int, a: nat)
    requires k < |items| && RepMember(m, items, k, b, o, a) && items[k].val.Obj?
    requires a + Blocks(items, |items|) <= m.next
    ensures var v, id := items[k].val, a + Blocks(items, k);
      && id in m.things && m.things[id].jsmnType == Object && m.things[id].v == TabPtr(id + 1)
      && id + 3 + Blocks(v.items, |v.items|) <= m.next && RepTab(m, id + 1, v.items, id + 2, 1, id + 3)
  {
    hide RepTab, Blocks, ValPos;
    BlocksMonotone(items, k + 1, |items|);
    BlocksAfter(items, k);
  }

  lemma BlocksAfter(items: seq<Item>, k: nat)
    requires k < |items|
    ensures Blocks(items, k + 1) == Blocks(items, k) + ValueBlocks(items[k].val)
  {
  }

  lemma ElementPlaced(m: Memory, items: seq<Item>, k: nat, i: nat, b: nat, o: int, a: nat) returns (q: int)
    requires k < |items| && RepMember(m, items, k, b, o, a) && items[k].val.Arr?
    requires a + Blocks(items, |items|) <= m.next && i < |items[k].val.items| && items[k].val.items[i].val.Obj?
    ensures var v, id := items[k].val, a + Blocks(items, k);
      && id in m.things && m.things[id].jsmnType == Array && m.things[id].v == ArrPtr(id + 1)
      && m.things[id].nele == |v.items| && id + 1 in m.arrays && |m.arrays[id + 1]| == |v.items|
      && var t, e := id + 2 + ElemsBlocks(v.items, i), m.arrays[id + 1][i];
         && e.jsmnType == Object && e.v == TabPtr(t)
         && t + 1 + Blocks(v.items[i].val.items, |v.items[i].val.items|) <= m.next
         && RepTab(m, t, v.items[i].val.items, b, q, t + 1)
  {
    hide RepTab, Blocks, ElemsBlocks, ValPos, RepElem;
    BlocksMonotone(items, k + 1, |items|);
    BlocksAfter(items, k);
    var v, id := items[k].val, a + Blocks(items, k);
    BlocksMonotone(v.items, i + 1, |v.items|);
    NextElems(v.items, i);
    var t, p := id + 2 + ElemsBlocks(v.items, i), ValPos(v.items, i, ValPos(items, k, o) + 1);
    assert RepElems(m, m.arrays[id + 1], v.items, |v.items|, b, ValPos(items, k, o) + 1, id + 2);
    assert RepElem(m, m.arrays[id + 1][i], v.items[i].val, b, p, t);
    ElementTab(m, m.arrays[id + 1][i], v.items[i].val, b, p, t);
    q := p + 1;
  }

  lemma ElementTab(m: Memory, e: Thing, v: Value, b: nat, q: int, t: nat)
    requires v.Obj? && RepElem(m, e, v, b, q, t)
    ensures e.jsmnType == Object && e.v == TabPtr(t) && RepTab(m, t, v.items, b, q + 1, t + 1)
    ensures ElemBlocks(v) == 1 + Blocks(v.items, |v.items|)
  {
    hide RepTab, Blocks;
  }

  /** A path reaches the table in the place of the object it leads to. */
  lemma {:induction false} WhereReached(m: Memory, t: nat, items: seq<Item>, a: nat, path: seq<Step>)
    requires Placed(m, t, items, a) && Descend(items, path).Some?
    ensures var s := Where(items, t, a, path);
      Reach(m, t, path) == Reached(s) && Holds(m, s, Descend(items, path).value) && Readable(m, Some(s))
    ensures LevelOk(Descend(items, path).value)
    decreases |path|
  {
    hide Placed, Readable, Holds, Place, Select, Enter, LevelOk;
    PlacedHolds(m, t, items, a);
    if path != [] {
      PlaceSelected(m, t, items, a, path[0]);
      var (t', a') := Place(items, a, path[0]);
      WhereReached(m, t', Enter(items, path[0]).value, a', path[1..]);
    }
  }

  lemma {:induction false} ReachMore(m: Memory, t: nat, path: seq<Step>, step: Step)
    requires Reach(m, t, path).Reached?
    ensures Readable(m, Some(Reach(m, t, path).tab))
    ensures Reach(m, t, path + [step]) == match Select(m, Reach(m, t, path).tab, step)
      case None => Nothing
      case Some(x) => if Readable(m, Some(x)) then Reached(x) else Dangling
    decreases |path|
  {
    hide Readable, Select;
    if path == [] {
      assert ([] + [step])[1..] == [];
    } else {
      assert (path + [step])[1..] == path[1..] + [step];
      assert (path + [step])[0] == path[0];
      ReachMore(m, Select(m, t, path[0]).value, path[1..], step);
    }
  }

  /** One selection more: what jw_blob or jw_obj_ele finds from there. */
  lemma WhereMore(m: Memory, t: nat, items: seq<Item>, a: nat, path: seq<Step>, step: Step)
    requires Placed(m, t, items, a) && Descend(items, path).Some?
    ensures var s, longer := Where(items, t, a, path), path + [step];
      && Readable(m, Some(s))
      && Select(m, s, step) ==
        if Descend(items, longer).Some? then Some(Where(items, t, a, longer)) else None
  {
    hide Placed, Readable, Holds, Stands, Descend, Where, Select, Enter, Reach;
    var s, longer := Where(items, t, a, path), path + [step];
    WhereReached(m, t, items, a, path);
    DescendMore(items, path, step);
    ReachMore(m, t, path, step);
    SelectAnswers(m, s, Descend(items, path).value, step);
    if Descend(items, longer).Some? {
      WhereReached(m, t, items, a, longer);
    }
  }
}
