/** What the parser makes of an object that keeps the rules of its own level, whatever the objects
    further down do: each of those in turn is held by its table, or its table is dead. */
module Partial {
  import opened Document
  import opened Jsmn
  import opened Memory
  import opened Accepts
  import opened Lookup
  import opened TailByte

  /** The table is released, or it refers to a thing that is. */
  ghost predicate Dead(m: Memory, lo: nat, t: nat) {
    t < m.next && (t in m.tabs ==> exists name :: name in m.tabs[t].obj && Gone(m, lo, m.tabs[t].obj[name]))
  }

  ghost predicate Gone(m: Memory, lo: nat, id: nat) { lo <= id < m.next && id !in m.things }

  /** Table `t` holds the members `items` written at `o` of buffer `b`. All that it refers to has serial
      numbers from `lo` on. */
  ghost predicate HasTab(m: Memory, lo: nat, t: nat, items: seq<Item>, b: nat, o: int)
    decreases items, 2
  {
    t in m.tabs && HasMembers(m, lo, m.tabs[t].obj, items, |items|, b, o)
  }

  /** Each name among the first `n` members refers to the last one that has it. */
  ghost predicate HasMembers(m: Memory, lo: nat, obj: map<string, nat>, items: seq<Item>, n: nat, b: nat, o: int)
    requires n <= |items|
    decreases items, 1
  {
    && (forall name :: name in obj <==> FindIn(items, n, name).Some?)
    && forall name :: name in obj ==> HasMember(m, lo, obj[name], items, FindIn(items, n, name).value, b, o)
  }

  ghost predicate HasMember(m: Memory, lo: nat, id: nat, items: seq<Item>, k: nat, b: nat, o: int)
    requires k < |items|
    decreases items, 0
  {
    lo <= id < m.next && id in m.things && HasValue(m, lo, m.things[id], items[k].val, b, ValPos(items, k, o))
  }

  ghost predicate HasValue(m: Memory, lo: nat, th: Thing, v: Value, b: nat, q: int)
    decreases v, 0
  {
    match v
    case Obj(_, items) =>
      && th.jsmnType == Object && th.primType == PtUnknown && th.v.TabPtr? && lo <= th.v.tab < m.next
      && if LevelOk(items) then HasOwned(m, lo, th.v.tab, items) else Dead(m, lo, th.v.tab)
    case Arr(_, items) =>
      && th.jsmnType == Array && th.primType == PtUnknown && th.nele == |items| && th.v.ArrPtr?
      && lo <= th.v.arr < m.next && th.v.arr in m.arrays && |m.arrays[th.v.arr]| == |items|
      && HasElems(m, lo, m.arrays[th.v.arr], items, |items|, b, q + 1)
    case _ => RepLeaf(m, th, v, b, q)
  }

  /** The table of a member object, with the text it owns. */
  ghost predicate HasOwned(m: Memory, lo: nat, t: nat, items: seq<Item>)
    decreases items, 3
  {
    && t in m.tabs && JSON_SYM_NAME in m.tabs[t].mgt
    && var b := m.tabs[t].mgt[JSON_SYM_NAME];
       lo <= b < m.next && b in m.texts && m.tabs[t].mgt == map[JSON_SYM_NAME := b] && HasTab(m, lo, t, items, b, 1)
  }

  ghost predicate HasElems(m: Memory, lo: nat, ths: seq<Thing>, items: seq<Item>, n: nat, b: nat, o: int)
    requires n <= |items| && n <= |ths|
    decreases items, 0
  {
    forall k :: 0 <= k < n ==> HasElem(m, lo, ths[k], items[k].val, b, ValPos(items, k, o))
  }

  ghost predicate HasElem(m: Memory, lo: nat, th: Thing, v: Value, b: nat, q: int)
    decreases v, 0
  {
    match v
    case Obj(_, items) =>
      && th.jsmnType == Object && th.primType == PtUnknown && th.v.TabPtr? && lo <= th.v.tab < m.next
      && if LevelOk(items)
         then th.v.tab in m.tabs && m.tabs[th.v.tab].mgt == map[] && HasTab(m, lo, th.v.tab, items, b, q + 1)
         else Dead(m, lo, th.v.tab)
    case Arr(_, _) => false
    case _ => RepLeaf(m, th, v, b, q)
  }

  lemma MemberThere(m: Memory, lo: nat, t: nat, items: seq<Item>, b: nat, o: int, name: string)
    requires HasTab(m, lo, t, items, b, o) && FindIn(items, |items|, name).Some?
    ensures t in m.tabs && name in m.tabs[t].obj && m.tabs[t].obj[name] in m.things
    ensures var k := FindIn(items, |items|, name).value;
      HasValue(m, lo, m.things[m.tabs[t].obj[name]], items[k].val, b, ValPos(items, k, o))
  {
    hide FindIn, HasValue, ValPos;
    assert HasMember(m, lo, m.tabs[t].obj[name], items, FindIn(items, |items|, name).value, b, o);
  }

  // ----- it stays

  ghost predicate Frozen<T>(a: map<nat, T>, b: map<nat, T>, lo: nat, hi: nat) {
    forall id :: lo <= id < hi ==> (id in a <==> id in b) && (id in a ==> b[id] == a[id])
  }

  /** No block from `lo` on is changed, released or given out again. */
  ghost predicate Settled(m: Memory, m': Memory, lo: nat) {
    && m.next <= m'.next
    && Frozen(m.texts, m'.texts, lo, m.next) && Frozen(m.tabs, m'.tabs, lo, m.next)
    && Frozen(m.things, m'.things, lo, m.next) && Frozen(m.arrays, m'.arrays, lo, m.next)
  }

  lemma SettledRefl(m: Memory, m': Memory, lo: nat)
    requires m'.tabs == m.tabs && m'.things == m.things && m'.arrays == m.arrays && m'.next == m.next
    requires m'.texts == m.texts
    ensures Settled(m, m', lo)
  {
  }

  lemma SettledPoke(m: Memory, b: nat, e: int, lo: nat)
    requires b in m.texts && 0 <= e < |m.texts[b]| && b < lo
    ensures Settled(m, Poke(m, b, e), lo)
  {
  }

  lemma SettledText(m: Memory, m': Memory, lo: nat, b: nat, from: int, to: int)
    requires Settled(m, m', lo) && lo <= b < m.next
    ensures TextAgree(m, m', b, from, to)
  {
  }

  lemma SettledTab(m: Memory, m': Memory, lo: nat, t: nat)
    requires Settled(m, m', lo) && lo <= t < m.next
    ensures m.next <= m'.next && (t in m.tabs <==> t in m'.tabs) && (t in m.tabs ==> m'.tabs[t] == m.tabs[t])
    ensures t in m.texts ==> t in m'.texts
    ensures t in m.things ==> t in m'.things && m'.things[t] == m.things[t]
    ensures t !in m.things ==> t !in m'.things
    ensures t in m.arrays ==> t in m'.arrays && m'.arrays[t] == m.arrays[t]
  {
  }

  lemma DeadStays(m: Memory, m': Memory, lo: nat, lo': nat, t: nat)
    requires Dead(m, lo, t) && Settled(m, m', lo) && lo <= t && lo' <= lo
    ensures Dead(m', lo', t)
  {
    hide Settled;
    SettledTab(m, m', lo, t);
    if t in m.tabs {
      var name :| name in m.tabs[t].obj && Gone(m, lo, m.tabs[t].obj[name]);
      SettledTab(m, m', lo, m.tabs[t].obj[name]);
      assert Gone(m', lo', m'.tabs[t].obj[name]);
    }
  }

  lemma OwnedStays(m: Memory, m': Memory, lo: nat, lo': nat, t: nat, items: seq<Item>)
    requires HasOwned(m, lo, t, items) && Settled(m, m', lo) && lo <= t < m.next && lo' <= lo
    ensures HasOwned(m', lo', t, items)
    decreases items, 3
  {
    hide Settled, HasMembers, TextAgree, Len;
    SettledTab(m, m', lo, t);
    var b := m.tabs[t].mgt[JSON_SYM_NAME];
    SettledTab(m, m', lo, b);
    SettledText(m, m', lo, b, 1, 1 + Len(items, |items|) - 1);
    MembersStay(m, m', lo, lo', m.tabs[t].obj, items, |items|, b, 1);
  }

  lemma MembersStay(
    m: Memory, m': Memory, lo: nat, lo': nat, obj: map<string, nat>, items: seq<Item>, n: nat, b: nat, o: int)
    requires n <= |items| && HasMembers(m, lo, obj, items, n, b, o)
    requires Settled(m, m', lo) && lo' <= lo && TextAgree(m, m', b, o, o + Len(items, n) - 1)
    ensures HasMembers(m', lo', obj, items, n, b, o)
    decreases items, 2
  {
    hide HasMember, Settled, TextAgree, FindIn, Len;
    forall name | name in obj ensures HasMember(m', lo', obj[name], items, FindIn(items, n, name).value, b, o) {
      MemberStays(m, m', lo, lo', obj[name], items, FindIn(items, n, name).value, n, b, o);
    }
  }

  lemma MemberStays(m: Memory, m': Memory, lo: nat, lo': nat, id: nat, items: seq<Item>, k: nat, n: nat, b: nat, o: int)
    requires k < n <= |items| && HasMember(m, lo, id, items, k, b, o)
    requires Settled(m, m', lo) && lo' <= lo && TextAgree(m, m', b, o, o + Len(items, n) - 1)
    ensures HasMember(m', lo', id, items, k, b, o)
    decreases items, 1
  {
    hide HasValue, Settled, TextAgree, Len, ValSkip, Render;
    SettledTab(m, m', lo, id);
    ValueFits(items, k, n);
    var q := ValPos(items, k, o);
    NarrowText(m, m', b, o, o + Len(items, n) - 1, q, q + |Render(items[k].val)|);
    ValueStays(m, m', lo, lo', m.things[id], items[k].val, b, q);
  }

  lemma ValueStays(m: Memory, m': Memory, lo: nat, lo': nat, th: Thing, v: Value, b: nat, q: int)
    requires HasValue(m, lo, th, v, b, q) && Settled(m, m', lo) && lo' <= lo
    requires v.Obj? || TextAgree(m, m', b, q, q + |Render(v)|)
    ensures HasValue(m', lo', th, v, b, q)
    decreases v, 1
  {
    hide HasOwned, HasElems, Settled, TextAgree, Render, Dead, LevelOk, RepLeaf, Len;
    match v {
      case Obj(_, items) => ObjectStays(m, m', lo, lo', th, v, b, q);
      case Arr(_, items) =>
        SettledTab(m, m', lo, th.v.arr);
        InsideText(m, m', b, q, v);
        ElemsStay(m, m', lo, lo', m.arrays[th.v.arr], items, |items|, b, q + 1);
      case _ => LeafFrame(m, m', th, v, b, q);
    }
  }

  lemma ObjectStays(m: Memory, m': Memory, lo: nat, lo': nat, th: Thing, v: Value, b: nat, q: int)
    requires v.Obj? && HasValue(m, lo, th, v, b, q) && Settled(m, m', lo) && lo' <= lo
    ensures HasValue(m', lo', th, v, b, q)
    decreases v, 0
  {
    hide HasOwned, Settled, Dead, LevelOk;
    SettledTab(m, m', lo, th.v.tab);
    if LevelOk(v.items) {
      OwnedStays(m, m', lo, lo', th.v.tab, v.items);
    } else {
      DeadStays(m, m', lo, lo', th.v.tab);
    }
  }

  lemma ElemsStay(m: Memory, m': Memory, lo: nat, lo': nat, ths: seq<Thing>, items: seq<Item>, n: nat, b: nat, o: int)
    requires n <= |items| && n <= |ths| && HasElems(m, lo, ths, items, n, b, o)
    requires Settled(m, m', lo) && lo' <= lo && TextAgree(m, m', b, o, o + Len(items, n) - 1)
    ensures HasElems(m', lo', ths, items, n, b, o)
    decreases items, 2
  {
    hide HasElem, Settled, TextAgree, Len, ValPos;
    forall k | 0 <= k < n ensures HasElem(m', lo', ths[k], items[k].val, b, ValPos(items, k, o)) {
      ElemOfStays(m, m', lo, lo', ths[k], items, k, n, b, o);
    }
  }

  lemma ElemOfStays(
    m: Memory, m': Memory, lo: nat, lo': nat, th: Thing, items: seq<Item>, k: nat, n: nat, b: nat, o: int)
    requires k < n <= |items| && HasElem(m, lo, th, items[k].val, b, ValPos(items, k, o))
    requires Settled(m, m', lo) && lo' <= lo && TextAgree(m, m', b, o, o + Len(items, n) - 1)
    ensures HasElem(m', lo', th, items[k].val, b, ValPos(items, k, o))
    decreases items, 1
  {
    hide HasElem, Settled, TextAgree, Len, ValSkip, Render;
    ValueFits(items, k, n);
    var q := ValPos(items, k, o);
    NarrowText(m, m', b, o, o + Len(items, n) - 1, q, q + |Render(items[k].val)|);
    ElemStays(m, m', lo, lo', th, items[k].val, b, q);
  }

  lemma ElemStays(m: Memory, m': Memory, lo: nat, lo': nat, th: Thing, v: Value, b: nat, q: int)
    requires HasElem(m, lo, th, v, b, q) && Settled(m, m', lo) && lo' <= lo
    requires TextAgree(m, m', b, q, q + |Render(v)|)
    ensures HasElem(m', lo', th, v, b, q)
    decreases v, 0
  {
    hide HasMembers, Settled, TextAgree, Render, Dead, LevelOk, RepLeaf, Len;
    if v.Obj? {
      SettledTab(m, m', lo, th.v.tab);
      if LevelOk(v.items) {
        InsideText(m, m', b, q, v);
        MembersStay(m, m', lo, lo', m.tabs[th.v.tab].obj, v.items, |v.items|, b, q + 1);
      } else {
        DeadStays(m, m', lo, lo', th.v.tab);
      }
    } else {
      LeafFrame(m, m', th, v, b, q);
    }
  }

  lemma DeadBelow(m: Memory, lo: nat, lo': nat, t: nat)
    requires Dead(m, lo, t) && lo' <= lo
    ensures Dead(m, lo', t)
  {
    if t in m.tabs {
      var name :| name in m.tabs[t].obj && Gone(m, lo, m.tabs[t].obj[name]);
      assert Gone(m, lo', m.tabs[t].obj[name]);
    }
  }

  lemma TabBelow(m: Memory, lo: nat, lo': nat, t: nat, items: seq<Item>, b: nat, o: int)
    requires HasTab(m, lo, t, items, b, o) && lo' <= lo
    ensures HasTab(m, lo', t, items, b, o)
  {
    hide HasMembers, Settled, Len;
    SettledRefl(m, m, lo);
    MembersStay(m, m, lo, lo', m.tabs[t].obj, items, |items|, b, o);
  }

  // ----- one more

  /** One member more, put for the thing at `id`. */
  lemma HasMembersMore(
    m: Memory, lo: nat, obj: map<string, nat>, items: seq<Item>, j: nat, id: nat, b: nat, o: int)
    requires j < |items| && HasMembers(m, lo, obj, items, j, b, o) && HasMember(m, lo, id, items, j, b, o)
    ensures HasMembers(m, lo, obj[Name(items[j]) := id], items, j + 1, b, o)
  {
    hide HasMember, Name;
  }

  lemma HasElemsMore(m: Memory, lo: nat, ths: seq<Thing>, th: Thing, items: seq<Item>, k: nat, b: nat, o: int)
    requires k < |items| && |ths| == |items| && HasElems(m, lo, ths, items, k, b, o)
    requires HasElem(m, lo, th, items[k].val, b, ValPos(items, k, o))
    ensures HasElems(m, lo, ths[k := th], items, k + 1, b, o)
  {
    hide HasElem, ValPos;
  }

  // ----- the byte at the end of the last token

  lemma TailHasMembers(m: Memory, lo: nat, obj: map<string, nat>, items: seq<Item>, b: nat, o: int)
    requires items != [] && HasMembers(m, lo, obj, items, |items|, b, o) && EndsInString(Last(items)) && b < lo
    requires var e := TailEnd(Last(items), ValPos(items, |items| - 1, o)); b in m.texts && 0 <= e < |m.texts[b]|
    ensures var e := TailEnd(Last(items), ValPos(items, |items| - 1, o));
      HasMembers(Poke(m, b, e), lo, obj, items, |items|, b, o)
    decreases items, 2
  {
    hide HasMember, Poke, TailEnd, ValPos, Settled, TextAgree, Len;
    var n := |items|;
    var e := TailEnd(Last(items), ValPos(items, n - 1, o));
    TailEndWithin(items[n - 1].val, ValPos(items, n - 1, o));
    ValPosAfter(items, n - 1, o);
    forall name | name in obj
      ensures HasMember(Poke(m, b, e), lo, obj[name], items, FindIn(items, n, name).value, b, o)
    {
      var k := FindIn(items, n, name).value;
      if k == n - 1 {
        TailHasMember(m, lo, obj[name], items, b, o);
      } else {
        SettledPoke(m, b, e, lo);
        PokeText(m, b, e, o, o + Len(items, n - 1) - 1);
        MemberStays(m, Poke(m, b, e), lo, lo, obj[name], items, k, n - 1, b, o);
      }
    }
  }

  lemma TailHasMember(m: Memory, lo: nat, id: nat, items: seq<Item>, b: nat, o: int)
    requires items != [] && HasMember(m, lo, id, items, |items| - 1, b, o) && EndsInString(Last(items)) && b < lo
    requires var e := TailEnd(Last(items), ValPos(items, |items| - 1, o)); b in m.texts && 0 <= e < |m.texts[b]|
    ensures var e := TailEnd(Last(items), ValPos(items, |items| - 1, o));
      HasMember(Poke(m, b, e), lo, id, items, |items| - 1, b, o)
    decreases items, 1
  {
    hide HasValue, TailEnd, ValPos;
    TailHasValue(m, lo, m.things[id], Last(items), b, ValPos(items, |items| - 1, o));
  }

  lemma TailHasValue(m: Memory, lo: nat, th: Thing, v: Value, b: nat, q: int)
    requires HasValue(m, lo, th, v, b, q) && EndsInString(v) && b < lo
    requires b in m.texts && 0 <= TailEnd(v, q) < |m.texts[b]|
    ensures HasValue(Poke(m, b, TailEnd(v, q)), lo, th, v, b, q)
    decreases v, 0
  {
    hide HasOwned, HasElems, Poke, Settled, Render, Dead, LevelOk, RepLeaf, Len, ValPos;
    var e := TailEnd(v, q);
    SettledPoke(m, b, e, lo);
    match v {
      case Obj(_, items) => ObjectStays(m, Poke(m, b, e), lo, lo, th, v, b, q);
      case Arr(_, items) =>
        SettledTab(m, Poke(m, b, e), lo, th.v.arr);
        TailHasElems(m, lo, m.arrays[th.v.arr], items, b, q + 1);
      case _ => TailLeaf(m, th, v, b, q);
    }
  }

  lemma TailHasElems(m: Memory, lo: nat, ths: seq<Thing>, items: seq<Item>, b: nat, o: int)
    requires items != [] && |ths| == |items| && HasElems(m, lo, ths, items, |items|, b, o)
    requires EndsInString(Last(items)) && b < lo
    requires var e := TailEnd(Last(items), ValPos(items, |items| - 1, o)); b in m.texts && 0 <= e < |m.texts[b]|
    ensures var e := TailEnd(Last(items), ValPos(items, |items| - 1, o));
      HasElems(Poke(m, b, e), lo, ths, items, |items|, b, o)
    decreases items, 1
  {
    hide HasElem, Poke, TextAgree, TailEnd, ValPos, Len, Settled;
    var k := |items| - 1;
    var q := ValPos(items, k, o);
    var e := TailEnd(items[k].val, q);
    assert HasElem(m, lo, ths[k], items[k].val, b, q);
    TailHasElem(m, lo, ths[k], items[k].val, b, q);
    TailEndWithin(items[k].val, q);
    ValPosAfter(items, k, o);
    SettledPoke(m, b, e, lo);
    PokeText(m, b, e, o, o + Len(items, k) - 1);
    assert HasElems(m, lo, ths, items, k, b, o);
    ElemsStay(m, Poke(m, b, e), lo, lo, ths, items, k, b, o);
  }

  lemma TailHasElem(m: Memory, lo: nat, th: Thing, v: Value, b: nat, q: int)
    requires HasElem(m, lo, th, v, b, q) && EndsInString(v) && b < lo
    requires b in m.texts && 0 <= TailEnd(v, q) < |m.texts[b]|
    ensures HasElem(Poke(m, b, TailEnd(v, q)), lo, th, v, b, q)
    decreases v, 0
  {
    hide HasMembers, Poke, Settled, Render, Dead, LevelOk, RepLeaf, Len, ValPos;
    var e := TailEnd(v, q);
    if v.Obj? {
      SettledPoke(m, b, e, lo);
      SettledTab(m, Poke(m, b, e), lo, th.v.tab);
      if LevelOk(v.items) {
        TailHasMembers(m, lo, m.tabs[th.v.tab].obj, v.items, b, q + 1);
      } else {
        DeadStays(m, Poke(m, b, e), lo, lo, th.v.tab);
      }
    } else {
      TailLeaf(m, th, v, b, q);
    }
  }

  // ----- a good document

  /** What is represented with its addresses is held, if all its objects keep the rules. */
  lemma RepHasTab(m: Memory, lo: nat, t: nat, items: seq<Item>, b: nat, o: int, a: nat)
    requires RepTab(m, t, items, b, o, a) && Good(items) && lo <= a && a + Blocks(items, |items|) <= m.next
    ensures HasTab(m, lo, t, items, b, o)
    decreases items, 2
  {
    hide RepMember, HasMember, Blocks, Index, FindIn, GoodValue, LevelOk;
    forall name ensures name in m.tabs[t].obj <==> FindIn(items, |items|, name).Some? {
      IndexFinds(items, |items|, a, name);
    }
    forall name | name in m.tabs[t].obj
      ensures HasMember(m, lo, m.tabs[t].obj[name], items, FindIn(items, |items|, name).value, b, o)
    {
      IndexFinds(items, |items|, a, name);
      var k := FindIn(items, |items|, name).value;
      assert RepMember(m, items, k, b, o, a);
      RepHasMember(m, lo, items, k, b, o, a);
    }
  }

  lemma {:induction false} IndexFinds(items: seq<Item>, n: nat, a: nat, name: string)
    requires n <= |items|
    ensures name in Index(items, n, a) <==> FindIn(items, n, name).Some?
    ensures name in Index(items, n, a) ==> Index(items, n, a)[name] == a + Blocks(items, FindIn(items, n, name).value)
  {
    if n > 0 {
      IndexFinds(items, n - 1, a, name);
    }
  }

  lemma RepHasMember(m: Memory, lo: nat, items: seq<Item>, k: nat, b: nat, o: int, a: nat)
    requires k < |items| && RepMember(m, items, k, b, o, a) && GoodValue(items[k].val)
    requires lo <= a && a + Blocks(items, |items|) <= m.next
    ensures HasMember(m, lo, a + Blocks(items, k), items, k, b, o)
    decreases items, 1
  {
    hide RepValue, HasValue, ValueBlocks, GoodValue, ValPos;
    BlocksMonotone(items, k + 1, |items|);
    var addr := a + Blocks(items, k);
    assert Blocks(items, k + 1) == Blocks(items, k) + ValueBlocks(items[k].val);
    RepHasValue(m, lo, m.things[addr], items[k].val, b, ValPos(items, k, o), addr + 1);
  }

  lemma RepHasValue(m: Memory, lo: nat, th: Thing, v: Value, b: nat, q: int, a: nat)
    requires RepValue(m, th, v, b, q, a) && GoodValue(v) && lo <= a && a + ValueBlocks(v) - 1 <= m.next
    ensures HasValue(m, lo, th, v, b, q)
    decreases v, 0
  {
    hide RepTab, RepElems, RepLeaf, Blocks, ElemsBlocks, HasTab, HasElems, LevelOk, GoodElem;
    match v {
      case Obj(_, items) => RepHasTab(m, lo, a, items, a + 1, 1, a + 2);
      case Arr(_, items) => RepHasElems(m, lo, m.arrays[a], items, b, q + 1, a + 1);
      case _ =>
    }
  }

  lemma RepHasElems(m: Memory, lo: nat, ths: seq<Thing>, items: seq<Item>, b: nat, o: int, a: nat)
    requires |ths| == |items| && RepElems(m, ths, items, |items|, b, o, a)
    requires forall k :: 0 <= k < |items| ==> GoodElem(items[k].val)
    requires lo <= a && a + ElemsBlocks(items, |items|) <= m.next
    ensures HasElems(m, lo, ths, items, |items|, b, o)
    decreases items, 1
  {
    hide RepElem, HasElem, ElemsBlocks, ValPos, GoodElem;
    forall k | 0 <= k < |items| ensures HasElem(m, lo, ths[k], items[k].val, b, ValPos(items, k, o)) {
      BlocksMonotone(items, k + 1, |items|);
      NextElems(items, k);
      assert RepElem(m, ths[k], items[k].val, b, ValPos(items, k, o), a + ElemsBlocks(items, k));
      RepHasElem(m, lo, ths[k], items[k].val, b, ValPos(items, k, o), a + ElemsBlocks(items, k));
    }
  }

  lemma NextElems(items: seq<Item>, k: nat)
    requires k < |items|
    ensures ElemsBlocks(items, k + 1) == ElemsBlocks(items, k) + ElemBlocks(items[k].val)
  {
  }

  lemma RepHasElem(m: Memory, lo: nat, th: Thing, v: Value, b: nat, q: int, a: nat)
    requires RepElem(m, th, v, b, q, a) && GoodElem(v) && lo <= a && a + ElemBlocks(v) <= m.next
    ensures HasElem(m, lo, th, v, b, q)
    decreases v, 0
  {
    hide RepTab, RepLeaf, Blocks, HasTab, LevelOk;
    if v.Obj? {
      RepHasTab(m, lo, a, v.items, b, q + 1, a + 1);
    }
  }
}
