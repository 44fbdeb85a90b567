/** The Jhash class: a cursor over the tables of one parsed document. */
module JhashClass {
  import opened Document
  import opened Jsmn
  import opened Numbers
  import opened Memory
  import opened Accepts
  import opened Parser
  import opened Nuke
  import opened Lookup
  import opened Jwrapper

  /** The two table pointers of a Jhash: the root, once a selection was tried, and the current one. */
  datatype Cursor = Cursor(master: Option<nat>, st: Option<nat>)

  function RootOf(c: Cursor): Option<nat> { if c.master.Some? then c.master else c.st }

  /** What Set_blob and Set_blob_ele make of the pointers. */
  function Choose(m: Memory, c: Cursor, step: Step): (Cursor, bool)
    requires Readable(m, c.st)
  {
    var bst := if step.Member? then JwBlob(m, c.st, step.name) else JwObjEle(m, c.st, step.name, step.idx);
    (Picked(c, step.Member?, bst), bst.Some?)
  }

  /** Set_blob captures the root before it looks, Set_blob_ele only when it finds an object. */
  function Picked(c: Cursor, member: bool, bst: Option<nat>): Cursor {
    Cursor(
      if c.master.None? && (member || bst.Some?) then c.st else c.master,
      if bst.Some? then bst else c.st)
  }

  function Leave(c: Cursor): Cursor { if c.master.Some? then c.(st := c.master) else c }

  const EMPTY := Cursor(None, None)

  class Jhash {
    var masterSt: Option<nat>
    var st: Option<nat>

    function Now(): Cursor
      reads this
    {
      Cursor(masterSt, st)
    }

    constructor (h: Heap, jbuf: Option<string>, junk: Token)
      requires Tidy(h.mem)
      requires jbuf.Some? ==> NoNul(jbuf.value) && JunkOk(jbuf.value, junk)
      modifies h
      ensures masterSt == None
      ensures jbuf.None? ==> st == None && h.mem == old(h.mem)
      ensures jbuf.Some? ==> NewPost(old(h.mem), h.mem, jbuf.value, st)
    {
      hide Tidy, JunkOk, NewPost;
      var t := JwNew(h, jbuf, junk);
      masterSt, st := None, t;
    }

    /** The move constructor. */
    constructor Move(soi: Jhash)
      modifies soi
      ensures Now() == old(soi.Now()) && soi.Now() == EMPTY
    {
      masterSt, st := soi.masterSt, soi.st;
      new;
      soi.st, soi.masterSt := None, None;
    }

    /** The move assignment. What this Jhash held before is not released. */
    method Assign(soi: Jhash)
      modifies this, soi
      ensures Now() == old(soi.Now())
      ensures soi != this ==> soi.Now() == EMPTY
    {
      if soi != this {
        masterSt, st := soi.masterSt, soi.st;
        soi.st, soi.masterSt := None, None;
      }
    }

    /** The destructor hands the root to jw_nuke, wherever the cursor stands. */
    method Destroy(h: Heap, ghost items: seq<Item>, ghost o: int)
      requires RootOf(Now()).Some? ==> Root(h.mem, RootOf(Now()).value, items, o)
      modifies this, h
      ensures Now() == EMPTY
      ensures h.mem == match old(RootOf(Now()))
        case None => old(h.mem)
        case Some(t) => Without(old(h.mem), TableBlocks(t, items, t + 2))
    {
      hide Without, TableBlocks, Tidy, RepTab, ItemOk;
      if masterSt.Some? {
        st := masterSt;
      }
      if st.Some? {
        JwNuke(h, st.value, items, st.value + 1, o, st.value + 2, true);
      }
      st, masterSt := None, None;
    }

    method SetBlob(h: Heap, name: string) returns (ok: bool)
      requires Readable(h.mem, st)
      modifies this
      ensures (Now(), ok) == Choose(h.mem, old(Now()), Member(name))
      ensures masterSt == if old(masterSt).None? then old(st) else old(masterSt)
    {
      hide Readable;
      if masterSt.None? {
        masterSt := st;
      }
      var bst := JwBlob(h.mem, st, name);
      ok := bst.Some?;
      if ok {
        st := bst;
      }
    }

    method SetBlobEle(h: Heap, name: string, eidx: int) returns (ok: bool)
      requires Readable(h.mem, st)
      modifies this
      ensures (Now(), ok) == Choose(h.mem, old(Now()), Element(name, eidx))
      ensures masterSt == if old(masterSt).None? && ok then old(st) else old(masterSt)
    {
      hide Readable;
      var bst := JwObjEle(h.mem, st, name, eidx);
      ok := bst.Some?;
      if ok {
        if masterSt.None? {
          masterSt := st;
        }
        st := bst;
      }
    }

    method UnsetBlob()
      modifies this
      ensures Now() == Leave(old(Now())) && masterSt == old(masterSt)
      ensures st == if masterSt.Some? then masterSt else old(st)
    {
      if masterSt.Some? {
        st := masterSt;
      }
    }

    function ParseErrors(): bool
      reads this
    {
      st.None?
    }
  }

  // ----- the value readers, at table `st`

  ghost predicate PtrLive(m: Memory, p: Option<Ptr>) {
    p.Some? ==> p.value.buf in m.texts && 0 <= p.value.off <= |m.texts[p.value.buf]|
  }

  /** The C++ string made of what jw_string or jw_string_ele returns. */
  function StdString(m: Memory, p: Option<Ptr>): string
    requires PtrLive(m, p)
  {
    if p.None? then "" else CStr(m.texts[p.value.buf], p.value.off)
  }

  function Bool(m: Memory, st: Option<nat>, name: string): bool
    requires Readable(m, st)
  {
    Trunc(JwValue(m, st, name)) == 1
  }

  function TextOr(v: Option<Value>): string {
    match TextOf(v)
    case Some(s) => s
    case None => ""
  }

  /** The table pointer stands for these members, which keep the rules; a null one for none. */
  ghost predicate Sees(m: Memory, st: Option<nat>, items: seq<Item>) {
    if st.Some? then LevelOk(items) && Holds(m, st.value, items) else items == []
  }

  /** What a Jhash reads at its current table is what the document says there. */
  lemma ReadersAnswer(m: Memory, st: Option<nat>, items: seq<Item>, name: string, idx: int)
    requires Sees(m, st, items)
    ensures Readable(m, st)
    ensures var v := Find(items, name);
      && JwExists(m, st, name) == v.Some? && JwIs(m, st, name, PtString) == IsText(v)
      && PtrLive(m, JwString(m, st, name)) && StdString(m, JwString(m, st, name)) == TextOr(v)
      && JwValue(m, st, name) == NumberOf(v) && Bool(m, st, name) == (Trunc(NumberOf(v)) == 1)
      && JwArrayLen(m, st, name) == LengthOf(v)
      && PtrLive(m, JwStringEle(m, st, name, idx))
      && StdString(m, JwStringEle(m, st, name, idx)) == TextOr(FindElement(items, name, idx))
      && var e := FindElement(items, name, idx);
         JwValueEle(m, st, name, idx) == if IsNumber(e) then NumberOf(e) else 0.0
  {
    hide Holds, Readable, CStr, Strtod;
    if st.Some? {
      MemberLookup(m, st.value, items, name);
      ElementLookup(m, st.value, items, name, idx);
    } else {
      NullReadable(m);
    }
  }

  /** What the reader of booleans says, value by value. */
  lemma BoolSays(m: Memory, st: Option<nat>, items: seq<Item>, name: string, n: int)
    requires Sees(m, st, items)
    ensures Readable(m, st)
    ensures Find(items, name) == Some(True) ==> Bool(m, st, name)
    ensures Find(items, name) == Some(Num(IntText(n))) ==> Bool(m, st, name) == (n == 1)
    ensures var v := Find(items, name); v.None? || !(v.value.True? || v.value.Num?) ==> !Bool(m, st, name)
  {
    hide Sees, Readable, Find, IntText, Strtod, Trunc, Bool, JwValue;
    ReadersAnswer(m, st, items, name, 0);
    StrtodInt(n);
    TruncWhole(n);
    TruncWhole(1);
    TruncWhole(0);
  }

  lemma NullReadable(m: Memory)
    ensures Readable(m, None)
  {
  }

  /** A selection goes where the document goes; the table it finds is dead if the object breaks the rules. */
  lemma ChooseAnswers(m: Memory, c: Cursor, items: seq<Item>, step: Step)
    requires Sees(m, c.st, items)
    ensures Readable(m, c.st)
    ensures var (c', ok) := Choose(m, c, step);
      && RootOf(c') == RootOf(c) && (ok <==> Enter(items, step).Some?)
      && (ok ==> c'.master.Some? && c'.st.Some? && Stands(m, c'.st.value, Enter(items, step).value))
      && (ok && LevelOk(Enter(items, step).value) ==> Sees(m, c'.st, Enter(items, step).value))
      && (!ok ==> c'.st == c.st)
  {
    hide Holds, IsDead, LevelOk, Readable, JwBlob, JwObjEle, Find, FindElement;
    if c.st.Some? {
      SelectAnswers(m, c.st.value, items, step);
    } else {
      NullReadable(m);
      NullSelects(m, step);
    }
  }

  lemma NullSelects(m: Memory, step: Step)
    ensures Readable(m, None)
    ensures JwBlob(m, None, step.name) == None && (step.Element? ==> JwObjEle(m, None, step.name, step.idx) == None)
    ensures Enter([], step) == None
  {
  }

  // ----- runs of one cursor

  datatype Op = Pick(step: Step) | Back

  /** One selection more, if the document has the object. */
  function Further(items: seq<Item>, path: seq<Step>, step: Step): seq<Step> {
    if Descend(items, path + [step]).Some? then path + [step] else path
  }

  /** The selections in force after a run, by the document alone: those that succeeded since the
      last Unset_blob. */
  function PathOf(items: seq<Item>, ops: seq<Op>): seq<Step>
    decreases |ops|
  {
    if ops == [] then []
    else
      var before := PathOf(items, ops[..|ops| - 1]);
      match ops[|ops| - 1]
      case Back => []
      case Pick(step) => Further(items, before, step)
  }

  /** The pointers after a run of selections and returns; reads leave them alone. */
  ghost function Run(m: Memory, c: Cursor, ops: seq<Op>): Cursor
    decreases |ops|
  {
    if ops == [] then c
    else
      var before := Run(m, c, ops[..|ops| - 1]);
      match ops[|ops| - 1]
      case Back => Leave(before)
      case Pick(step) => if Readable(m, before.st) then Choose(m, before, step).0 else before
  }

  /** No selection is asked of an object that breaks the rules. */
  ghost predicate Careful(items: seq<Item>, ops: seq<Op>) {
    forall n :: 0 <= n < |ops| && ops[n].Pick? ==> SoundAt(items, PathOf(items, ops[..n]))
  }

  ghost predicate SoundAt(items: seq<Item>, path: seq<Step>) {
    Descend(items, path).Some? ==> LevelOk(Descend(items, path).value)
  }

  /** Over every run the root stays, every table asked is live, and the current table is that of the
      object which the selections in force lead to in the document. */
  lemma {:induction false} RunTracks(m: Memory, t: nat, items: seq<Item>, ops: seq<Op>)
    requires Stands(m, t, items) && Careful(items, ops)
    ensures var c, path := Run(m, Cursor(None, Some(t)), ops), PathOf(items, ops);
      && RootOf(c) == Some(t) && c.st.Some? && Descend(items, path).Some?
      && Stands(m, c.st.value, Descend(items, path).value)
      && (Readable(m, c.st) <==> LevelOk(Descend(items, path).value))
      && (ops != [] && ops[|ops| - 1].Back? ==> path == [] && c.st == Some(t))
    decreases |ops|
  {
    hide Holds, IsDead, LevelOk, Readable, Descend, Choose;
    var start := Cursor(None, Some(t));
    DescendNone(items);
    if ops == [] {
      StandsReadable(m, t, items);
    } else {
      var init, op := ops[..|ops| - 1], ops[|ops| - 1];
      assert forall n :: 0 <= n < |init| ==> init[..n] == ops[..n];
      RunTracks(m, t, items, init);
      var c, path := Run(m, start, init), PathOf(items, init);
      match op {
        case Back =>
          StandsReadable(m, t, items);
        case Pick(step) =>
          assert SoundAt(items, path);
          var sub := Descend(items, path).value;
          DescendMore(items, path, step);
          ChooseAnswers(m, c, sub, step);
          if Enter(sub, step).Some? {
            StandsReadable(m, Choose(m, c, step).0.st.value, Enter(sub, step).value);
          }
      }
    }
  }

  lemma StandsReadable(m: Memory, t: nat, items: seq<Item>)
    requires Stands(m, t, items)
    ensures Readable(m, Some(t)) <==> LevelOk(items)
  {
    hide Holds, IsDead, LevelOk, Readable;
    if LevelOk(items) {
      HoldsReadable(m, t, items);
    } else {
      DeadUnreadable(m, t);
    }
  }

  /** Of a good document every run is careful. */
  lemma GoodCareful(items: seq<Item>, ops: seq<Op>)
    requires Good(items)
    ensures Careful(items, ops)
  {
    hide LevelOk, Good, Descend;
    forall n | 0 <= n < |ops| && ops[n].Pick? ensures SoundAt(items, PathOf(items, ops[..n])) {
      if Descend(items, PathOf(items, ops[..n])).Some? {
        GoodDescend(items, PathOf(items, ops[..n]));
      }
    }
  }

  lemma {:induction false} GoodDescend(items: seq<Item>, path: seq<Step>)
    requires Good(items) && Descend(items, path).Some?
    ensures Good(Descend(items, path).value) && LevelOk(Descend(items, path).value)
    decreases |path|
  {
    hide LevelOk, GoodValue, Enter;
    if path != [] {
      EnterGood(items, path[0]);
      GoodDescend(Enter(items, path[0]).value, path[1..]);
    }
  }

  lemma DescendNone(items: seq<Item>)
    ensures Descend(items, []) == Some(items)
  {
  }

  // ----- runs of many Jhash objects

  /** The live objects, and the tables handed to jw_nuke so far. */
  datatype Fleet = Fleet(live: map<nat, Cursor>, nuked: seq<nat>)

  datatype Deed =
    | Make(id: nat, root: Option<nat>)
    | Select(id: nat, step: Step, bst: Option<nat>)
    | Unselect(id: nat)
    | MoveNew(id: nat, soi: nat)
    | MoveTo(id: nat, soi: nat)
    | End(id: nat)

  /** New objects have new names, others are live, and there is nothing to find in a null table. */
  predicate Allowed(f: Fleet, d: Deed) {
    match d
    case Make(id, _) => id !in f.live
    case Select(id, _, bst) => id in f.live && (bst.Some? ==> f.live[id].st.Some?)
    case MoveNew(id, soi) => id !in f.live && soi in f.live
    case MoveTo(id, soi) => id in f.live && soi in f.live
    case _ => d.id in f.live
  }

  /** Besides, a new root is a table never returned before. */
  predicate Can(f: Fleet, made: set<nat>, d: Deed) {
    Allowed(f, d) && (d.Make? && d.root.Some? ==> d.root.value !in made)
  }

  function Do(f: Fleet, made: set<nat>, d: Deed): Fleet
    requires Can(f, made, d)
  {
    match d
    case Make(id, root) => f.(live := f.live[id := Cursor(None, root)])
    case Select(id, step, bst) => f.(live := f.live[id := Picked(f.live[id], step.Member?, bst)])
    case Unselect(id) => f.(live := f.live[id := Leave(f.live[id])])
    case MoveNew(id, soi) => f.(live := f.live[id := f.live[soi]][soi := EMPTY])
    case MoveTo(id, soi) => if id == soi then f else f.(live := f.live[id := f.live[soi]][soi := EMPTY])
    case End(id) =>
      var root := RootOf(f.live[id]);
      Fleet(f.live - {id}, if root.Some? then f.nuked + [root.value] else f.nuked)
  }

  function Made(made: set<nat>, d: Deed): set<nat> {
    if d.Make? && d.root.Some? then made + {d.root.value} else made
  }

  /** No two live objects have one root, none has a root that was nuked, and no table was nuked twice. */
  ghost predicate Sane(f: Fleet, made: set<nat>) {
    && (forall i, j :: i in f.live && j in f.live && i != j && RootOf(f.live[i]).Some? ==>
      RootOf(f.live[i]) != RootOf(f.live[j]))
    && (forall i :: i in f.live && RootOf(f.live[i]).Some? ==>
      RootOf(f.live[i]).value in made && RootOf(f.live[i]).value !in f.nuked)
    && (forall k :: 0 <= k < |f.nuked| ==> f.nuked[k] in made)
    && forall j, k :: 0 <= j < k < |f.nuked| ==> f.nuked[j] != f.nuked[k]
  }

  lemma DoSane(f: Fleet, made: set<nat>, d: Deed)
    requires Sane(f, made) && Can(f, made, d)
    ensures Sane(Do(f, made, d), Made(made, d))
  {
    match d {
      case MoveNew(id, soi) => MovedSane(f, made, id, soi);
      case MoveTo(id, soi) =>
        if id != soi {
          MovedSane(f, made, id, soi);
        }
      case End(_) => EndSane(f, made, d);
      case _ =>
    }
  }

  lemma MovedSane(f: Fleet, made: set<nat>, id: nat, soi: nat)
    requires Sane(f, made) && soi in f.live && id != soi
    ensures Sane(f.(live := f.live[id := f.live[soi]][soi := EMPTY]), made)
  {
    assert RootOf(EMPTY).None?;
  }

  lemma EndSane(f: Fleet, made: set<nat>, d: Deed)
    requires Sane(f, made) && d.End? && d.id in f.live
    ensures Sane(Do(f, made, d), made)
  {
    hide RootOf;
  }

  ghost predicate HasRoot(f: Fleet, r: nat) { exists i :: i in f.live && RootOf(f.live[i]) == Some(r) }

  /** Every table made was nuked or is still some object's root. */
  ghost predicate NoneLost(f: Fleet, made: set<nat>) {
    forall r :: r in made ==> r in f.nuked || HasRoot(f, r)
  }

  /** The one step that loses a table: the move assignment onto an object that has one. */
  lemma LostExactly(f: Fleet, made: set<nat>, d: Deed)
    requires Sane(f, made) && NoneLost(f, made) && Can(f, made, d)
    ensures NoneLost(Do(f, made, d), Made(made, d)) <==>
      !(d.MoveTo? && d.id != d.soi && RootOf(f.live[d.id]).Some?)
  {
    var f' := Do(f, made, d);
    if d.MoveTo? && d.id != d.soi && RootOf(f.live[d.id]).Some? {
      var r := RootOf(f.live[d.id]).value;
      assert r in made && r !in f'.nuked && !HasRoot(f', r);
    } else {
      forall r | r in Made(made, d) ensures r in f'.nuked || HasRoot(f', r) {
        if r in made && r !in f.nuked {
          var i :| i in f.live && RootOf(f.live[i]) == Some(r);
          var j := if (d.MoveNew? || d.MoveTo?) && i == d.soi then d.id else i;
          assert d.End? && i == d.id ==> f'.nuked[|f.nuked|] == r;
          assert !(d.End? && i == d.id) ==> j in f'.live && RootOf(f'.live[j]) == Some(r);
        } else if r !in made {
          assert RootOf(f'.live[d.id]) == Some(r);
        }
      }
    }
  }

  /** Two objects with a table each, and one move assignment: the first table is neither nuked nor
      anyone's root. */
  lemma LostByMove(r: nat, q: nat)
    requires r != q
    ensures var ds := [Make(0, Some(r)), Make(1, Some(q)), MoveTo(0, 1)];
      && CanAll(NO_FLEET, {}, ds)
      && var (f, made) := DoAll(NO_FLEET, {}, ds);
         made == {r, q} && r !in f.nuked && !HasRoot(f, r) && !NoneLost(f, made)
  {
    hide Do;
    var d0, d1, d2 := Make(0, Some(r)), Make(1, Some(q)), MoveTo(0, 1);
    var f1, f2, f3 := MovedFleet(r, q);
    var ds, rest := [d0, d1, d2], [d1, d2];
    assert ds[1..] == rest && rest[1..] == [d2] && [d2][1..] == [];
    assert Made({}, d0) == {r} && Made({r}, d1) == {r, q} && Made({r, q}, d2) == {r, q};
    assert CanAll(f3, {r, q}, []) && DoAll(f3, {r, q}, []) == (f3, {r, q});
    assert CanAll(f2, {r, q}, [d2]) && DoAll(f2, {r, q}, [d2]) == (f3, {r, q});
    assert CanAll(f1, {r}, rest) && DoAll(f1, {r}, rest) == (f3, {r, q});
    assert !HasRoot(f3, r);
  }

  lemma MovedFleet(r: nat, q: nat) returns (f1: Fleet, f2: Fleet, f3: Fleet)
    requires r != q
    ensures Can(NO_FLEET, {}, Make(0, Some(r))) && f1 == Do(NO_FLEET, {}, Make(0, Some(r)))
    ensures Can(f1, {r}, Make(1, Some(q))) && f2 == Do(f1, {r}, Make(1, Some(q)))
    ensures Can(f2, {r, q}, MoveTo(0, 1)) && f3 == Do(f2, {r, q}, MoveTo(0, 1))
    ensures f3 == Fleet(map[0 := Cursor(None, Some(q)), 1 := EMPTY], [])
  {
    f1 := Do(NO_FLEET, {}, Make(0, Some(r)));
    f2 := Do(f1, {r}, Make(1, Some(q)));
    f3 := Do(f2, {r, q}, MoveTo(0, 1));
  }

  const NO_FLEET := Fleet(map[], [])

  /** A sequence of deeds, each possible when its turn comes. */
  predicate CanAll(f: Fleet, made: set<nat>, ds: seq<Deed>)
    decreases |ds|
  {
    ds == [] || (Can(f, made, ds[0]) && CanAll(Do(f, made, ds[0]), Made(made, ds[0]), ds[1..]))
  }

  function DoAll(f: Fleet, made: set<nat>, ds: seq<Deed>): (Fleet, set<nat>)
    requires CanAll(f, made, ds)
    decreases |ds|
  {
    if ds == [] then (f, made) else DoAll(Do(f, made, ds[0]), Made(made, ds[0]), ds[1..])
  }

  /** Whatever is made, selected, moved and destroyed: jw_nuke is only ever given tables that jw_new
      returned, and each of them at most once. */
  lemma {:induction false} FleetSane(f: Fleet, made: set<nat>, ds: seq<Deed>)
    requires Sane(f, made) && CanAll(f, made, ds)
    ensures Sane(DoAll(f, made, ds).0, DoAll(f, made, ds).1)
    decreases |ds|
  {
    hide Sane, Can, Do;
    if ds != [] {
      DoSane(f, made, ds[0]);
      FleetSane(Do(f, made, ds[0]), Made(made, ds[0]), ds[1..]);
    }
  }
}
