/** jw_nuke after jw_new: what is released, and exactly what is not. */
module Release {
  import opened Document
  import opened Jsmn
  import opened Memory
  import opened Accepts
  import opened Parser
  import opened Nuke
  import opened Lookup
  import opened Partial
  import opened Jwrapper

  /** The blocks in use. */
  function Live(m: Memory): set<nat> { m.texts.Keys + m.tabs.Keys + m.things.Keys + m.arrays.Keys }

  // ----- a representation takes up all its blocks

  lemma SpanSplit(lo: nat, mid: nat, hi: nat)
    requires lo <= mid <= hi
    ensures Span(lo, hi) == Span(lo, mid) + Span(mid, hi)
  {
  }

  lemma {:induction false} MembersLive(m: Memory, items: seq<Item>, n: nat, b: nat, o: int, a: nat)
    requires n <= |items| && RepMembers(m, items, |items|, b, o, a)
    ensures Span(a, a + Blocks(items, n)) <= Live(m)
    decreases items, n
  {
    hide RepMember, ValueBlocks, Live, Blocks;
    if n > 0 {
      MembersLive(m, items, n - 1, b, o, a);
      NextBlocks(items, n - 1);
      MemberLive(m, items, n - 1, b, o, a);
      SpanSplit(a, a + Blocks(items, n - 1), a + Blocks(items, n));
    } else {
      BlocksNone(items);
    }
  }

  lemma BlocksNone(items: seq<Item>)
    ensures Blocks(items, 0) == 0
  {
  }

  lemma MemberLive(m: Memory, items: seq<Item>, k: nat, b: nat, o: int, a: nat)
    requires k < |items| && RepMember(m, items, k, b, o, a)
    ensures Span(a + Blocks(items, k), a + Blocks(items, k + 1)) <= Live(m)
    decreases items, 0
  {
    hide RepValue, ValueBlocks, Blocks, ValPos;
    var id := a + Blocks(items, k);
    NextBlocks(items, k);
    ValueLive(m, m.things[id], items[k].val, b, ValPos(items, k, o), id + 1);
    SpanSplit(id, id + 1, a + Blocks(items, k + 1));
  }

  lemma ValueLive(m: Memory, th: Thing, v: Value, b: nat, q: int, a: nat)
    requires RepValue(m, th, v, b, q, a)
    ensures Span(a, a + ValueBlocks(v) - 1) <= Live(m)
    decreases v, 0
  {
    hide RepMembers, RepElems, Blocks, ElemsBlocks, RepLeaf, Index, ValueBlocks, Live;
    ValueBlocksOf(v);
    ValueHeads(m, th, v, b, q, a);
    match v {
      case Obj(_, items) =>
        MembersLive(m, items, |items|, a + 1, 1, a + 2);
        SpanSplit(a, a + 2, a + 2 + Blocks(items, |items|));
      case Arr(_, items) =>
        ElemsLive(m, m.arrays[a], items, |items|, b, q + 1, a + 1);
        SpanSplit(a, a + 1, a + 1 + ElemsBlocks(items, |items|));
      case _ =>
    }
  }

  lemma ValueBlocksOf(v: Value)
    ensures ValueBlocks(v) == match v
      case Obj(_, items) => 3 + Blocks(items, |items|)
      case Arr(_, items) => 2 + ElemsBlocks(items, |items|)
      case _ => 1
  {
    hide Blocks, ElemsBlocks;
  }

  lemma ValueHeads(m: Memory, th: Thing, v: Value, b: nat, q: int, a: nat)
    requires RepValue(m, th, v, b, q, a)
    ensures v.Obj? ==> Span(a, a + 2) <= Live(m)
    ensures v.Arr? ==> Span(a, a + 1) <= Live(m)
  {
    hide RepMembers, RepElems, RepLeaf, Index;
  }

  lemma {:induction false} ElemsLive(m: Memory, ths: seq<Thing>, items: seq<Item>, n: nat, b: nat, o: int, a: nat)
    requires n <= |items| == |ths| && RepElems(m, ths, items, |items|, b, o, a)
    ensures Span(a, a + ElemsBlocks(items, n)) <= Live(m)
    decreases items, n
  {
    hide RepElem, ElemBlocks, Live, ElemsBlocks, ValPos;
    ElemsNext(items, n);
    if n > 0 {
      ElemsLive(m, ths, items, n - 1, b, o, a);
      var lo := a + ElemsBlocks(items, n - 1);
      ElemLive(m, ths[n - 1], items[n - 1].val, b, ValPos(items, n - 1, o), lo);
      SpanSplit(a, lo, lo + ElemBlocks(items[n - 1].val));
    }
  }

  lemma ElemsNext(items: seq<Item>, n: nat)
    requires n <= |items|
    ensures ElemsBlocks(items, n) == if n == 0 then 0 else ElemsBlocks(items, n - 1) + ElemBlocks(items[n - 1].val)
  {
  }

  lemma ElemLive(m: Memory, th: Thing, v: Value, b: nat, q: int, a: nat)
    requires RepElem(m, th, v, b, q, a)
    ensures Span(a, a + ElemBlocks(v)) <= Live(m)
    decreases v, 0
  {
    hide RepMembers, Blocks, RepLeaf, Index;
    if v.Obj? {
      MembersLive(m, v.items, |v.items|, b, q + 1, a + 1);
      SpanSplit(a, a + 1, a + 1 + Blocks(v.items, |v.items|));
    }
  }

  // ----- there and back

  /** The blocks of a document's own, from its table to the last thing. */
  ghost function Extent(st: nat, items: seq<Item>): set<nat> { Span(st, st + 2 + Blocks(items, |items|)) }

  lemma RootLive(m: Memory, st: nat, items: seq<Item>, o: int)
    requires Root(m, st, items, o)
    ensures Extent(st, items) <= Live(m)
  {
    hide RepMembers, Tidy, ItemOk, Index, Blocks;
    MembersLive(m, items, |items|, st + 1, o, st + 2);
    SpanSplit(st, st + 2, st + 2 + Blocks(items, |items|));
  }

  /** What jw_new adds. */
  lemma NewLive(m0: Memory, m1: Memory, items: seq<Item>, o: int)
    requires Tidy(m0) && Untouched(m0, m1) && NewRoot(m1, m0.next, items, o)
    ensures Live(m1) == Live(m0) + Extent(m0.next, items) && Live(m0) !! Extent(m0.next, items)
  {
    hide RepTab, ItemOk, Blocks, Root, Live;
    RootLive(m1, m0.next, items, o);
    RootNukes(m1, m0.next, items, o);
    forall id | id in Live(m1) ensures id in Live(m0) || id in Extent(m0.next, items) {
      LiveBefore(m0, m1, id);
    }
    forall id | id in Live(m0) ensures id in Live(m1) && id < m0.next {
      LiveBefore(m0, m1, id);
    }
  }

  lemma LiveBefore(m0: Memory, m1: Memory, id: nat)
    requires Tidy(m0) && Tidy(m1) && Untouched(m0, m1)
    ensures id in Live(m1) ==> id < m1.next
    ensures id in Live(m0) <==> id in Live(m1) && id < m0.next
  {
  }

  lemma WithoutLive(m: Memory, s: set<nat>)
    ensures Live(Without(m, s)) == Live(m) - s
  {
  }

  lemma AllGone(m0: Memory, m1: Memory, items: seq<Item>)
    requires Tidy(m0) && Tidy(m1) && Untouched(m0, m1) && m1.next == m0.next + 2 + Blocks(items, |items|)
    ensures Without(m1, Extent(m0.next, items)) == m0.(next := m1.next)
  {
    hide Blocks;
    var s := Extent(m0.next, items);
    assert m1.texts - s == m0.texts;
    assert m1.tabs - s == m0.tabs;
    assert m1.things - s == m0.things;
    assert m1.arrays - s == m0.arrays;
  }

  lemma NukedUntouched(m0: Memory, m1: Memory, s: set<nat>)
    requires Untouched(m0, m1) && forall id :: id in s ==> id >= m0.next
    ensures Untouched(m0, Without(m1, s))
  {
  }

  /** The blocks in use are those from before and `lost`, and nothing from before is changed. */
  ghost predicate RestoredBut(m0: Memory, m: Memory, lost: set<nat>) {
    Untouched(m0, m) && Live(m) == Live(m0) + lost && Live(m0) !! lost
  }

  lemma Nuked(m0: Memory, m1: Memory, items: seq<Item>, o: int)
    requires Tidy(m0) && Untouched(m0, m1) && NewRoot(m1, m0.next, items, o)
    ensures var m := Without(m1, TableBlocks(m0.next, items, m0.next + 2));
      && RestoredBut(m0, m, Lost(items, |items|, m0.next + 2))
      && (m == m0.(next := m.next) <==> UniqueNames(items))
  {
    hide RepTab, ItemOk, Blocks, Lost, UniqueNames, Tidy, Live, Untouched;
    var t, lost := m0.next, Lost(items, |items|, m0.next + 2);
    var m := Without(m1, TableBlocks(t, items, t + 2));
    LostWithin(items, |items|, t + 2);
    NewLive(m0, m1, items, o);
    WithoutLive(m1, TableBlocks(t, items, t + 2));
    NukedUntouched(m0, m1, TableBlocks(t, items, t + 2));
    assert Live(m) == Live(m0) + lost by {
      assert Extent(t, items) - TableBlocks(t, items, t + 2) == lost;
    }
    NothingLost(items, t + 2);
    if lost == {} {
      assert TableBlocks(t, items, t + 2) == Extent(t, items);
      AllGone(m0, m1, items);
    } else if m == m0.(next := m.next) {
      LiveNext(m0, m.next);
      assert false;
    }
  }

  lemma LiveNext(m: Memory, next: nat)
    ensures Live(m.(next := next)) == Live(m)
  {
  }

  /** jw_new and then jw_nuke, for a text that jw_new gets right. What stays behind is just what the
      shadowed members of a name take up; so memory is as it was if and only if no object of the
      document has a name twice. */
  method NewThenNuke(h: Heap, json: string, junk: Token) returns (st: Option<nat>)
    requires Tidy(h.mem) && NoNul(json) && JunkOk(json, junk) && Known(json)
    requires ObjectText(json) && LevelOk(Members(json)) ==> Good(Members(json))
    modifies h
    ensures st.Some? <==> if ObjectText(json) then Good(Members(json)) else Passes(json, junk)
    ensures st.None? ==> Untouched(old(h.mem), h.mem)
    ensures st.Some? ==> var items, m0 := HeldBy(json), old(h.mem);
      && RestoredBut(m0, h.mem, Lost(items, |items|, m0.next + 2))
      && (h.mem == m0.(next := h.mem.next) <==> UniqueNames(items))
  {
    hide Tidy, JunkOk, Good, UniqueNames, LevelOk, RepTab, Blocks, Passes, Root, RestoredBut, ReadDoc, Untouched,
      Lost, Known;
    ghost var m0, items := h.mem, HeldBy(json);
    if ObjectText(json) && Good(Members(json)) {
      GoodLevel(Members(json));
    }
    st := JwNew(h, Some(json), junk);
    ghost var m1 := h.mem;
    if st.Some? {
      ghost var o := if ObjectText(json) then Inside(json) else 0;
      RootNukes(m1, st.value, items, o);
      JwNuke(h, st.value, items, st.value + 1, o, st.value + 2, true);
      Nuked(m0, m1, items, o);
    }
  }

  /** The members the table is made of. */
  ghost function HeldBy(json: string): seq<Item> { if ObjectText(json) then Members(json) else [] }

  lemma RootNukes(m: Memory, st: nat, items: seq<Item>, o: int)
    requires Root(m, st, items, o)
    ensures Tidy(m) && st in m.tabs && m.tabs[st].mgt == map[JSON_SYM_NAME := st + 1] && st + 1 in m.texts
    ensures RepTab(m, st, items, st + 1, o, st + 2)
  {
    hide Tidy, RepTab, ItemOk;
  }

  // ----- what jw_nuke reads

  /** All that nix_things and jw_nuke read from table `t`, `n` tables deep, is live: the tables, the
      things their names refer to, the arrays, and the texts they own. */
  ghost predicate NukeLive(m: Memory, t: nat, n: nat)
    decreases n, 1
  {
    && t in m.tabs && (forall name :: name in m.tabs[t].mgt ==> m.tabs[t].mgt[name] in m.texts)
    && forall name :: name in m.tabs[t].obj ==>
      m.tabs[t].obj[name] in m.things && NixLive(m, m.things[m.tabs[t].obj[name]], n)
  }

  ghost predicate NixLive(m: Memory, th: Thing, n: nat)
    decreases n, 0
  {
    match th.jsmnType
    case Object => th.v.TabPtr? && (n > 0 ==> NukeLive(m, th.v.tab, n - 1))
    case Array =>
      && th.v.ArrPtr? && th.v.arr in m.arrays && th.nele <= |m.arrays[th.v.arr]|
      && forall i :: 0 <= i < th.nele && m.arrays[th.v.arr][i].jsmnType == Object ==>
        && m.arrays[th.v.arr][i].v.TabPtr?
        && (n > 0 ==> NukeLive(m, m.arrays[th.v.arr][i].v.tab, n - 1))
    case _ => true
  }

  ghost predicate OwnedLive(m: Memory, t: nat) {
    t in m.tabs && forall name :: name in m.tabs[t].mgt ==> m.tabs[t].mgt[name] in m.texts
  }

  lemma DeadNuke(m: Memory, lo: nat, t: nat, n: nat)
    requires Dead(m, lo, t)
    ensures !NukeLive(m, t, n)
  {
    hide NixLive;
  }

  /** A clean document is live as deep as jw_nuke goes. */
  lemma {:induction false} CleanLive(m: Memory, lo: nat, t: nat, items: seq<Item>, b: nat, o: int, n: nat)
    requires HasTab(m, lo, t, items, b, o) && Clean(items) && OwnedLive(m, t)
    ensures NukeLive(m, t, n)
    decreases n, 1
  {
    hide HasMember, Clean, NixLive, FindIn;
    forall name | name in m.tabs[t].obj
      ensures m.tabs[t].obj[name] in m.things && NixLive(m, m.things[m.tabs[t].obj[name]], n)
    {
      assert HasMember(m, lo, m.tabs[t].obj[name], items, FindIn(items, |items|, name).value, b, o);
      CleanThing(m, lo, m.tabs[t].obj[name], items, name, b, o, n);
    }
  }

  lemma CleanThing(m: Memory, lo: nat, id: nat, items: seq<Item>, name: string, b: nat, o: int, n: nat)
    requires FindIn(items, |items|, name).Some? && Clean(items)
    requires HasMember(m, lo, id, items, FindIn(items, |items|, name).value, b, o)
    ensures id in m.things && NixLive(m, m.things[id], n)
    decreases n, 0
  {
    hide Clean, FindIn, NukeLive, HasTab, HasElem, RepLeaf, ValPos, LevelOk, Dead;
    var k := FindIn(items, |items|, name).value;
    var th, v, q := m.things[id], items[k].val, ValPos(items, k, o);
    if v.Obj? {
      EnterObject(items, name);
      CleanEnter(items, Member(name));
      CleanLevel(v.items);
      assert HasOwned(m, lo, th.v.tab, v.items);
      if n > 0 {
        CleanLive(m, lo, th.v.tab, v.items, m.tabs[th.v.tab].mgt[JSON_SYM_NAME], 1, n - 1);
      }
    } else if v.Arr? {
      forall i | 0 <= i < th.nele && m.arrays[th.v.arr][i].jsmnType == Object
        ensures m.arrays[th.v.arr][i].v.TabPtr? && (n > 0 ==> NukeLive(m, m.arrays[th.v.arr][i].v.tab, n - 1))
      {
        var e, el := m.arrays[th.v.arr][i], v.items[i].val;
        assert HasElems(m, lo, m.arrays[th.v.arr], v.items, |v.items|, b, q + 1);
        assert HasElem(m, lo, e, el, b, ValPos(v.items, i, q + 1));
        ElemKind(m, lo, e, el, b, ValPos(v.items, i, q + 1));
        EnterElement(items, name, i);
        CleanEnter(items, Element(name, i));
        CleanLevel(el.items);
        if n > 0 {
          CleanLive(m, lo, e.v.tab, el.items, b, ValPos(v.items, i, q + 1) + 1, n - 1);
        }
      }
    } else {
      LeafKind(m, th, v, b, q);
    }
  }

  lemma EnterObject(items: seq<Item>, name: string)
    requires FindIn(items, |items|, name).Some? && items[FindIn(items, |items|, name).value].val.Obj?
    ensures Enter(items, Member(name)) == Some(items[FindIn(items, |items|, name).value].val.items)
  {
  }

  lemma EnterElement(items: seq<Item>, name: string, i: nat)
    requires FindIn(items, |items|, name).Some?
    requires var v := items[FindIn(items, |items|, name).value].val; v.Arr? && i < |v.items| && v.items[i].val.Obj?
    ensures Enter(items, Element(name, i)) ==
      Some(items[FindIn(items, |items|, name).value].val.items[i].val.items)
  {
  }

  lemma LeafKind(m: Memory, th: Thing, v: Value, b: nat, q: int)
    requires !v.Obj? && !v.Arr? && RepLeaf(m, th, v, b, q)
    ensures th.jsmnType != Object && th.jsmnType != Array
  {
    hide CText;
  }

  lemma ElemKind(m: Memory, lo: nat, th: Thing, v: Value, b: nat, q: int)
    requires HasElem(m, lo, th, v, b, q)
    ensures th.jsmnType == Object <==> v.Obj?
    ensures v.Obj? && LevelOk(v.items) ==>
      th.v.TabPtr? && HasTab(m, lo, th.v.tab, v.items, b, q + 1) && OwnedLive(m, th.v.tab)
    ensures v.Obj? ==> th.v.TabPtr?
  {
    hide HasMembers, RepLeaf, LevelOk, Dead;
    if !v.Obj? {
      LeafKind(m, th, v, b, q);
    }
  }

  /** A path to an object that breaks the rules is one that jw_nuke takes too. */
  lemma {:induction false} SpoiledNuke(
    m: Memory, lo: nat, t: nat, items: seq<Item>, b: nat, o: int, path: seq<Step>)
    requires if LevelOk(items) then HasTab(m, lo, t, items, b, o) else Dead(m, lo, t)
    requires Follow(items, path) == Spoiled
    ensures !NukeLive(m, t, |path|)
    decreases |path|
  {
    hide HasTab, Dead, NukeLive, LevelOk, Enter;
    if !LevelOk(items) {
      DeadNuke(m, lo, t, |path|);
    } else {
      var t', b', o' := TableBelow(m, lo, t, items, b, o, path[0], |path|);
      SpoiledNuke(m, lo, t', Enter(items, path[0]).value, b', o', path[1..]);
    }
  }

  /** The table of an object one selection down. */
  lemma TableBelow(m: Memory, lo: nat, t: nat, items: seq<Item>, b: nat, o: int, step: Step, n: nat)
    returns (t': nat, b': nat, o': int)
    requires HasTab(m, lo, t, items, b, o) && Enter(items, step).Some? && n > 0
    ensures NukeLive(m, t, n) ==> NukeLive(m, t', n - 1)
    ensures var sub := Enter(items, step).value;
      if LevelOk(sub) then HasTab(m, lo, t', sub, b', o') else Dead(m, lo, t')
  {
    hide FindIn, RepLeaf, ValPos, LevelOk, Dead, HasElem, HasMembers, HasTab;
    var k := FindIn(items, |items|, step.name).value;
    MemberThere(m, lo, t, items, b, o, step.name);
    assert NukeLive(m, t, n) ==> NixLive(m, m.things[m.tabs[t].obj[step.name]], n);
    var th, v, q := m.things[m.tabs[t].obj[step.name]], items[k].val, ValPos(items, k, o);
    match step {
      case Member(name) =>
        t', b', o' := th.v.tab, 0, 1;
        if LevelOk(v.items) {
          assert HasOwned(m, lo, t', v.items);
          b' := m.tabs[t'].mgt[JSON_SYM_NAME];
        }
      case Element(name, i) =>
        assert HasElem(m, lo, m.arrays[th.v.arr][i], v.items[i].val, b, ValPos(v.items, i, q + 1));
        ElemKind(m, lo, m.arrays[th.v.arr][i], v.items[i].val, b, ValPos(v.items, i, q + 1));
        t', b', o' := m.arrays[th.v.arr][i].v.tab, b, ValPos(v.items, i, q + 1) + 1;
        if !LevelOk(v.items[i].val.items) {
          ElemDead(m, lo, m.arrays[th.v.arr][i], v.items[i].val, b, ValPos(v.items, i, q + 1));
        }
    }
  }

  lemma ElemDead(m: Memory, lo: nat, th: Thing, v: Value, b: nat, q: int)
    requires HasElem(m, lo, th, v, b, q) && v.Obj? && !LevelOk(v.items)
    ensures th.v.TabPtr? && Dead(m, lo, th.v.tab)
  {
    hide LevelOk, Dead;
  }

  /** Exactly when jw_nuke reads nothing that is released: when no path of selections comes to an object
      that breaks the rules. */
  lemma NukeExact(m0: Memory, m1: Memory, json: string, st: Option<nat>)
    requires NewPost(m0, m1, json, st) && ObjectText(json) && st.Some?
    ensures Clean(Members(json)) <==> forall n: nat :: NukeLive(m1, st.value, n)
  {
    hide ReadDoc, Tidy, Untouched, Root, LevelOk, Good, HasTab, Clean, NukeLive, ItemOk;
    var items, t := Members(json), st.value;
    var lo, b, o :| HasTab(m1, lo, t, items, b, o);
    if Clean(items) {
      forall n: nat ensures NukeLive(m1, t, n) {
        CleanLive(m1, lo, t, items, b, o, n);
      }
    } else {
      var path := NotClean(items);
      SpoiledNuke(m1, lo, t, items, b, o, path);
    }
  }

  lemma NotClean(items: seq<Item>) returns (path: seq<Step>)
    requires !Clean(items)
    ensures Follow(items, path) == Spoiled
  {
    path :| Follow(items, path) == Spoiled;
  }

  /** With unique names: when every object of the document keeps the rules. */
  lemma NukeGood(m0: Memory, m1: Memory, json: string, st: Option<nat>)
    requires NewPost(m0, m1, json, st) && ObjectText(json) && st.Some? && UniqueNames(Members(json))
    ensures Good(Members(json)) <==> forall n: nat :: NukeLive(m1, st.value, n)
  {
    hide NewPost, ReadDoc, Good, UniqueNames, NukeLive, Follow;
    var items := Members(json);
    NukeExact(m0, m1, json, st);
    if Good(items) {
      forall path ensures Follow(items, path) != Spoiled {
        GoodClean(items, path);
      }
    } else {
      var path := SpoiledPath(items);
    }
  }

  /** A document with unique names that jw_new accepts, and of which jw_nuke reads something released
      one table down: the object called a ends in a number inside a nested object. */
  lemma HalfAccepted()
    ensures var text := "{\"a\":{\"b\":{\"c\":1}},\"d\":2}";
      && ObjectText(text) && UniqueNames(Members(text)) && LevelOk(Members(text)) && !Good(Members(text))
      && forall m0, m1, st :: NewPost(m0, m1, text, st) ==> st.Some? && !NukeLive(m1, st.value, 1)
  {
    hide ReadDoc, Render, WellFormed, Good, UniqueNames, Count, ObjectText, Members, Half, LevelOk, NewPost, NukeLive;
    var text := "{\"a\":{\"b\":{\"c\":1}},\"d\":2}";
    HalfText();
    HalfOk();
    HalfLevel();
    TextRead(Half());
    forall m0, m1, st | NewPost(m0, m1, text, st) ensures st.Some? && !NukeLive(m1, st.value, 1) {
      HalfNuke(m0, m1, text, st);
    }
  }

  lemma HalfNuke(m0: Memory, m1: Memory, text: string, st: Option<nat>)
    requires NewPost(m0, m1, text, st) && ObjectText(text) && Members(text) == Half().items
    ensures st.Some? && !NukeLive(m1, st.value, 1)
  {
    hide Tidy, Untouched, Root, ReadDoc, ItemOk, HasTab, NukeLive, LevelOk;
    HalfLevel();
    var items := Half().items;
    var lo, b, o :| HasTab(m1, lo, st.value, items, b, o);
    SpoiledNuke(m1, lo, st.value, items, b, o, [Member("a")]);
  }

  function Half(): Value {
    Obj("", [Item("", Key("a", "", ""), OneMember("b", OneMember("c", Num("1"))), ""),
             Item("", Key("d", "", ""), Num("2"), "")])
  }

  lemma HalfText()
    ensures Render(Half()) == "{\"a\":{\"b\":{\"c\":1}},\"d\":2}"
  {
    hide Render, ItemText, OneMember;
    var items := Half().items;
    PlainNum("2");
    HalfInner();
    ItemPlain(items[0]);
    ItemPlain(items[1]);
    TwoItems(items);
  }

  lemma HalfInner()
    ensures Render(OneMember("b", OneMember("c", Num("1")))) == "{\"b\":{\"c\":1}}"
  {
    hide Render, OneMember;
    PlainNum("1");
    OneMemberText("c", Num("1"));
    OneMemberText("b", OneMember("c", Num("1")));
  }

  lemma PlainNum(text: string)
    ensures Render(Num(text)) == text && Count(Num(text)) == 1
  {
  }

  lemma HalfOk()
    ensures Half().Obj? && WellFormed(Half()) && Count(Half()) <= MAX_THINGS
  {
    hide Render, ItemText, Count, CountItem, CountItems, KeyText;
    var items := Half().items;
    assert RawString("a") && RawString("b") && RawString("c") && RawString("d");
    PlainNum("1");
    PlainNum("2");
    OneMemberOk("c", Num("1"));
    OneMemberOk("b", OneMember("c", Num("1")));
    assert ItemOk(items[0], true) && ItemOk(items[1], true);
    TwoCount(items);
  }

  lemma HalfLevel()
    ensures LevelOk(Half().items) && !Good(Half().items) && UniqueNames(Half().items)
    ensures Follow(Half().items, [Member("a")]) == Spoiled
  {
    var inner := OneMember("b", OneMember("c", Num("1")));
    assert !LevelOk(inner.items) by { assert Tail(Last(inner.items)) && !EndsInString(Last(inner.items)); }
    assert !GoodValue(inner);
    assert Half().items[0].val == inner;
    assert UniqueNames(OneMember("c", Num("1")).items);
    assert UniqueNames(inner.items);
    assert Enter(Half().items, Member("a")) == Some(inner.items);
    assert [Member("a")][1..] == [];
  }

  /** A good document of which jw_nuke leaves four blocks behind: the first member called a, with its
      table, its text and the thing in it. */
  lemma TwiceNamedLost(a: nat)
    ensures var text := "{\"a\":{\"b\":\"x\"},\"a\":1}";
      && ObjectText(text) && |Members(text)| == 2 && Good(Members(text)) && !UniqueNames(Members(text))
      && Lost(Members(text), 2, a) == {a, a + 1, a + 2, a + 3}
  {
    hide ReadDoc, Render, WellFormed, Lost, Good, UniqueNames, Count, ObjectText, Members, TwiceNamed;
    TwiceNamedText();
    TextRead(TwiceNamed());
    TwiceNamedLosses(a);
  }

  lemma TextRead(v: Value)
    requires v.Obj? && WellFormed(v) && Count(v) <= MAX_THINGS
    ensures ObjectText(Render(v)) && Members(Render(v)) == v.items
  {
    hide ReadDoc, Render, WellFormed, Count;
    ReadRendered(v);
  }

  function TwiceNamed(): Value {
    Obj("", [Item("", Key("a", "", ""), OneMember("b", Str("x")), ""), Item("", Key("a", "", ""), Num("1"), "")])
  }

  lemma TwiceNamedText()
    ensures Render(TwiceNamed()) == "{\"a\":{\"b\":\"x\"},\"a\":1}"
    ensures TwiceNamed().Obj? && WellFormed(TwiceNamed()) && Count(TwiceNamed()) <= MAX_THINGS
  {
    hide Render, ItemText, Count, WellFormed, RawString, CountItem, CountItems;
    var items := TwiceNamed().items;
    LeafTexts();
    OneMemberText("b", Str("x"));
    ItemPlain(items[0]);
    ItemPlain(items[1]);
    TwoItems(items);
    TwiceNamedOk();
  }

  lemma TwiceNamedOk()
    ensures WellFormed(TwiceNamed()) && Count(TwiceNamed()) <= MAX_THINGS
  {
    hide Render, ItemText, Count, CountItem, CountItems, KeyText;
    var items := TwiceNamed().items;
    assert RawString("a") && RawString("b") && RawString("x");
    LeafTexts();
    OneMemberOk("b", Str("x"));
    assert ItemOk(items[0], true) && ItemOk(items[1], true);
    TwoCount(items);
  }

  lemma LeafTexts()
    ensures Render(Str("x")) == "\"x\"" && Render(Num("1")) == "1" && Count(Str("x")) == 1 && Count(Num("1")) == 1
  {
  }

  lemma TwoItems(items: seq<Item>)
    requires |items| == 2
    ensures Render(Obj("", items)) == "{" + ItemText(items[0]) + "," + ItemText(items[1]) + "}"
  {
    hide ItemText;
    assert RenderItems(items, 2) == RenderItems(items, 1) + "," + ItemText(items[1]);
  }

  lemma TwoCount(items: seq<Item>)
    requires |items| == 2 && items[0].key.Key? && items[1].key.Key?
    ensures Count(Obj("", items)) == 3 + Count(items[0].val) + Count(items[1].val)
  {
    assert CountItems(items, 2) == CountItems(items, 1) + CountItem(items[1]);
    assert CountItems(items, 1) == CountItems(items, 0) + CountItem(items[0]);
  }

  lemma TwiceNamedLosses(a: nat)
    ensures var items := TwiceNamed().items;
      |items| == 2 && Good(items) && !UniqueNames(items) && Lost(items, 2, a) == {a, a + 1, a + 2, a + 3}
  {
    hide Lost, Good, Blocks;
    var items := TwiceNamed().items;
    TwiceNamedGood();
    TwiceNamedBlocks();
    LostFirst(items, a);
    assert Name(items[0]) == Name(items[1]);
  }

  lemma TwiceNamedGood()
    ensures Good(TwiceNamed().items)
  {
    assert Good(OneMember("b", Str("x")).items);
  }

  lemma TwiceNamedBlocks()
    ensures Blocks(TwiceNamed().items, 1) == 4
  {
    hide ValueBlocks;
    var inner := OneMember("b", Str("x"));
    ValueBlocksOf(inner);
    ValueBlocksOf(Str("x"));
    assert Blocks(inner.items, 1) == Blocks(inner.items, 0) + ValueBlocks(Str("x"));
    assert Blocks(TwiceNamed().items, 1) == Blocks(TwiceNamed().items, 0) + ValueBlocks(inner);
  }

  lemma LostFirst(items: seq<Item>, a: nat)
    requires |items| == 2 && Name(items[0]) == Name(items[1]) && items[1].val.Num?
    ensures Lost(items, 2, a) == Span(a, a + Blocks(items, 1))
  {
    hide Blocks, Name;
    ShadowedBy(items, 0, 1);
    BlocksNone(items);
    assert !Shadowed(items, 1);
    assert Lost(items, 1, a) == Lost(items, 0, a) + Span(a, a + Blocks(items, 1));
    assert Lost(items, 2, a) == Lost(items, 1, a) + LostValue(items[1].val, a + Blocks(items, 1));
  }
}
