/** Many Jhash objects on one heap: over every run each keeps its document and its place in it, and
    every block in use is accounted for. */
module Heaps {
  import opened Document
  import opened Jsmn
  import opened Memory
  import opened Accepts
  import opened Parser
  import opened Nuke
  import opened Lookup
  import opened Jwrapper
  import opened Places
  import opened Release
  import opened JhashClass

  /** The members a table was made of, and where they start in its text. */
  datatype Held = Held(items: seq<Item>, o: int)

  /** The heap, the objects, the tables made so far, the documents of those not released, the selections
      in force at each object, the tables of texts that jw_new did not get right, and the blocks that no
      document has: those of such texts, and what jw_nuke or a refused text left behind. */
  datatype World = World(
    mem: Memory, fleet: Fleet, made: set<nat>, docs: map<nat, Held>, paths: map<nat, seq<Step>>, wrong: set<nat>,
    left: set<nat>)

  /** jw_new gets the text right: its tokens are known, and every object keeps the rules. */
  ghost predicate Right(json: string) { Known(json) && (ObjectText(json) ==> Good(Members(json))) }

  ghost function HeldOf(json: string): Held { Held(HeldBy(json), if ObjectText(json) then Inside(json) else 0) }

  /** One step: the constructor parses a text, the destructor releases a root, a selection looks in the
      heap, nothing else touches it. What jw_nuke would do to a table that jw_new did not get right is
      open: it may read released blocks. */
  ghost predicate Advance(w: World, d: Deed, w': World) {
    && Allowed(w.fleet, d)
    && match d
       case Make(_, root) => exists json :: Makes(w, json, root, w') && Moves(w, d, w')
       case Select(id, step, bst) => Finds(w, id, step, bst) && Moves(w, d, w') && HeapSame(w, w')
       case End(id) =>
         && Moves(w, d, w')
         && var root := RootOf(w.fleet.live[id]);
            if root.Some? && root.value in w.docs then Releases(w, root.value, w')
            else !(root.Some? && root.value in w.wrong) && HeapSame(w, w')
       case _ => Moves(w, d, w') && HeapSame(w, w')
  }

  /** jw_blob or jw_obj_ele at the current table, wherever that is live. */
  ghost predicate Finds(w: World, id: nat, step: Step, bst: Option<nat>)
    requires id in w.fleet.live
  {
    var st := w.fleet.live[id].st;
    st.Some? && Readable(w.mem, st) ==> bst == Jwrapper.Select(w.mem, st.value, step)
  }

  ghost predicate Moves(w: World, d: Deed, w': World) {
    && Can(w.fleet, w.made, d) && w'.fleet == Do(w.fleet, w.made, d) && w'.made == Made(w.made, d)
    && w'.paths == Paths(w, d)
  }

  function PathAt(w: World, id: nat): seq<Step> { if id in w.paths then w.paths[id] else [] }

  /** The selections in force, by the documents alone. */
  function Paths(w: World, d: Deed): map<nat, seq<Step>>
    requires Allowed(w.fleet, d)
  {
    match d
    case Make(id, _) => w.paths[id := []]
    case Select(id, step, _) =>
      var root := RootOf(w.fleet.live[id]);
      if root.Some? && root.value in w.docs
      then w.paths[id := Further(w.docs[root.value].items, PathAt(w, id), step)]
      else w.paths
    case Unselect(id) => w.paths[id := []]
    case MoveNew(id, soi) => w.paths[id := PathAt(w, soi)][soi := []]
    case MoveTo(id, soi) => if id == soi then w.paths else w.paths[id := PathAt(w, soi)][soi := []]
    case End(id) => w.paths - {id}
  }

  predicate HeapSame(w: World, w': World) {
    w'.mem == w.mem && w'.docs == w.docs && w'.wrong == w.wrong && w'.left == w.left
  }

  ghost predicate Makes(w: World, json: string, root: Option<nat>, w': World) {
    && NewPost(w.mem, w'.mem, json, root)
    && var whole := root.Some? && Right(json);
       && w'.left == (if whole then w.left else w.left + (Live(w'.mem) - Live(w.mem)))
       && w'.docs == (if whole then w.docs[root.value := HeldOf(json)] else w.docs)
       && w'.wrong == if root.Some? && !whole then w.wrong + {root.value} else w.wrong
  }

  ghost predicate Releases(w: World, t: nat, w': World)
    requires t in w.docs
  {
    var items := w.docs[t].items;
    && w'.mem == Without(w.mem, TableBlocks(t, items, t + 2))
    && w'.docs == w.docs - {t} && w'.wrong == w.wrong && w'.left == w.left + Lost(items, |items|, t + 2)
  }

  // ----- what every run keeps

  ghost function End(w: World, t: nat): nat
    requires t in w.docs
  {
    t + 2 + Blocks(w.docs[t].items, |w.docs[t].items|)
  }

  /** Every document not released is where it was made, in blocks of its own. */
  ghost predicate Documents(w: World) {
    && Tidy(w.mem)
    && (forall t :: t in w.docs ==> Root(w.mem, t, w.docs[t].items, w.docs[t].o) && End(w, t) <= w.mem.next)
    && forall t, u :: t in w.docs && u in w.docs && t < u ==> End(w, t) <= u
  }

  ghost predicate InDocument(w: World, id: int) { exists t :: t in w.docs && t <= id < End(w, t) }

  /** The blocks in use are those from before, those of the documents, and those left behind. */
  ghost predicate Balanced(base: set<nat>, w: World) {
    && (forall id :: id in Live(w.mem) <==> id in base || id in w.left || InDocument(w, id))
    && (forall id :: id in base || id in w.left ==> !InDocument(w, id) && id < w.mem.next)
  }

  /** The tables made are those nuked, those with a document and those of texts not got right, and none
      is two of these. */
  ghost predicate Tables(w: World) {
    && Sane(w.fleet, w.made)
    && (forall t :: t in w.made ==> t < w.mem.next)
    && (forall t :: t in w.docs || t in w.wrong <==> t in w.made && t !in w.fleet.nuked)
    && forall t :: t in w.docs ==> t !in w.wrong
  }

  /** A cursor stands where its selections lead in the document `items` of table `t`. */
  ghost predicate Follows(c: Cursor, t: nat, items: seq<Item>, path: seq<Step>) {
    && Descend(items, path).Some? && c.st == Some(Where(items, t, t + 2, path))
    && (c.master.None? ==> path == [])
  }

  ghost predicate Standing(w: World, id: nat)
    requires id in w.fleet.live
  {
    var root := RootOf(w.fleet.live[id]);
    root.Some? && root.value in w.docs ==>
      Follows(w.fleet.live[id], root.value, w.docs[root.value].items, PathAt(w, id))
  }

  ghost predicate Cursors(w: World) { forall id :: id in w.fleet.live ==> Standing(w, id) }

  ghost predicate Consistent(base: set<nat>, w: World) {
    Documents(w) && Balanced(base, w) && Tables(w) && Cursors(w)
  }

  /** A document depends on its own blocks only. */
  lemma RootFrame(m: Memory, m': Memory, t: nat, items: seq<Item>, o: int)
    requires Root(m, t, items, o) && Tidy(m') && Agree(m, m', t, t + 2 + Blocks(items, |items|)) && m.next <= m'.next
    ensures Root(m', t, items, o)
  {
    hide Tidy, RepMembers, ItemOk, Index, Blocks, Len, Agree, Good;
    var hi := t + 2 + Blocks(items, |items|);
    SameAt(m, m', t, hi, t);
    SameAt(m, m', t, hi, t + 1);
    Narrow(m, m', t, hi, t + 2, hi);
    MembersFrame(m, m', items, |items|, t + 1, o, t + 2);
  }

  lemma UntouchedAgree(m: Memory, m': Memory, lo: nat, hi: nat)
    requires Untouched(m, m') && hi <= m.next
    ensures Agree(m, m', lo, hi)
  {
  }

  // ----- jw_new

  /** What jw_new returns was never returned before. */
  lemma NewIsNew(base: set<nat>, w: World, d: Deed, json: string, w': World)
    requires Consistent(base, w) && d.Make? && Allowed(w.fleet, d) && NewPost(w.mem, w'.mem, json, d.root)
    ensures Can(w.fleet, w.made, d)
  {
    hide Documents, Balanced, Sane, Root, ObjectText, Known, Good, LevelOk, Untouched, UniqueNames;
  }

  lemma MadeDocument(m: Memory, m': Memory, json: string, root: Option<nat>)
    requires NewPost(m, m', json, root) && root.Some? && Right(json)
    ensures root.value == m.next && NewRoot(m', m.next, HeldOf(json).items, HeldOf(json).o)
  {
    hide Tidy, Untouched, Root, ReadDoc, Good, LevelOk, Hung, Known;
  }

  lemma MakesDocuments(w: World, json: string, root: Option<nat>, w': World)
    requires Documents(w) && Makes(w, json, root, w')
    ensures Documents(w')
  {
    hide Tidy, Root, Untouched, NewPost, HeldOf, Right, Blocks;
    MakesTidy(w.mem, w'.mem, json, root);
    if root.Some? && Right(json) {
      MadeDocument(w.mem, w'.mem, json, root);
    }
    forall t | t in w'.docs ensures Root(w'.mem, t, w'.docs[t].items, w'.docs[t].o) && End(w', t) <= w'.mem.next {
      if t in w.docs && t != w.mem.next {
        UntouchedAgree(w.mem, w'.mem, t, End(w, t));
        RootFrame(w.mem, w'.mem, t, w.docs[t].items, w.docs[t].o);
      }
    }
  }

  lemma MakesTidy(m: Memory, m': Memory, json: string, root: Option<nat>)
    requires NewPost(m, m', json, root)
    ensures Tidy(m') && Untouched(m, m') && m.next <= m'.next
  {
    hide Tidy, Root, ReadDoc, Good, LevelOk, Hung;
  }

  lemma MakesBalanced(base: set<nat>, w: World, json: string, root: Option<nat>, w': World)
    requires Documents(w) && Balanced(base, w) && Makes(w, json, root, w')
    ensures Balanced(base, w')
  {
    hide Tidy, Root, Untouched, NewPost, HeldOf, Right, Blocks, Live, Documents;
    MakesTidy(w.mem, w'.mem, json, root);
    InBefore(w);
    DocumentsTidy(w);
    if root.Some? && Right(json) {
      MadeDocument(w.mem, w'.mem, json, root);
      NewLive(w.mem, w'.mem, HeldOf(json).items, HeldOf(json).o);
      InAfter(w, w.mem.next, HeldOf(json), w');
    } else {
      forall id | id in Live(w'.mem) || id in Live(w.mem)
        ensures id in Live(w'.mem) ==> id < w'.mem.next
        ensures id in Live(w.mem) <==> id in Live(w'.mem) && id < w.mem.next
      {
        LiveBefore(w.mem, w'.mem, id);
      }
      assert forall id :: InDocument(w', id) <==> InDocument(w, id);
    }
  }

  lemma DocumentsTidy(w: World)
    requires Documents(w)
    ensures Tidy(w.mem)
  {
  }

  lemma InBefore(w: World)
    requires Documents(w)
    ensures forall id :: InDocument(w, id) ==> id < w.mem.next
    ensures w.mem.next !in w.docs
  {
    hide Root, Tidy, Blocks;
  }

  lemma InAfter(w: World, t: nat, held: Held, w': World)
    requires t !in w.docs && w'.docs == w.docs[t := held]
    ensures forall id :: InDocument(w', id) <==> InDocument(w, id) || id in Extent(t, held.items)
  {
    hide Blocks;
    forall id | InDocument(w, id) ensures InDocument(w', id) {
      var u :| u in w.docs && u <= id < End(w, u);
      assert u in w'.docs && End(w', u) == End(w, u);
    }
    forall id | id in Extent(t, held.items) ensures InDocument(w', id) {
      assert t in w'.docs && t <= id < End(w', t);
    }
    forall id | InDocument(w', id) ensures InDocument(w, id) || id in Extent(t, held.items) {
      var u :| u in w'.docs && u <= id < End(w', u);
      assert u != t ==> u in w.docs && End(w, u) == End(w', u);
    }
  }

  // ----- jw_nuke

  lemma ReleasesDocuments(w: World, t: nat, w': World)
    requires Documents(w) && t in w.docs && Releases(w, t, w')
    ensures Documents(w')
  {
    hide Tidy, Root, Blocks, Without, TableBlocks;
    var items := w.docs[t].items;
    var s := TableBlocks(t, items, t + 2);
    WithoutTidy(w.mem, s);
    NextKept(w.mem, s);
    forall u | u in w'.docs ensures Root(w'.mem, u, w'.docs[u].items, w'.docs[u].o) && End(w', u) <= w'.mem.next {
      TableBlocksWithin(t, items);
      WithoutAgree(w.mem, s, u, End(w, u));
      RootFrame(w.mem, w'.mem, u, w.docs[u].items, w.docs[u].o);
    }
  }

  lemma NextKept(m: Memory, s: set<nat>)
    ensures Without(m, s).next == m.next
  {
  }

  lemma TableBlocksWithin(t: nat, items: seq<Item>)
    ensures TableBlocks(t, items, t + 2) <= Extent(t, items)
    ensures Extent(t, items) - TableBlocks(t, items, t + 2) == Lost(items, |items|, t + 2)
  {
    hide Blocks, Lost;
    LostWithin(items, |items|, t + 2);
  }

  lemma ReleasesBalanced(base: set<nat>, w: World, t: nat, w': World)
    requires Documents(w) && Balanced(base, w) && t in w.docs && Releases(w, t, w')
    ensures Balanced(base, w')
  {
    hide Tidy, Root, Blocks, Without, TableBlocks, Live, Lost;
    var items := w.docs[t].items;
    WithoutLive(w.mem, TableBlocks(t, items, t + 2));
    NextKept(w.mem, TableBlocks(t, items, t + 2));
    TableBlocksWithin(t, items);
    forall id: nat
      ensures InDocument(w', id) <==> InDocument(w, id) && !(t <= id < End(w, t))
      ensures t <= id < End(w, t) ==> InDocument(w, id) && id < w.mem.next
    {
      InOther(w, t, w', id);
    }
  }

  lemma InOther(w: World, t: nat, w': World, id: nat)
    requires Documents(w) && t in w.docs && w'.docs == w.docs - {t}
    ensures InDocument(w', id) <==> InDocument(w, id) && !(t <= id < End(w, t))
    ensures t <= id < End(w, t) ==> InDocument(w, id) && id < w.mem.next
  {
    hide Documents, End, InDocument;
    SameEnds(w, t, w');
    DocumentsApart(w);
    InOtherBy(w, t, w', id);
  }

  lemma SameEnds(w: World, t: nat, w': World)
    requires t in w.docs && w'.docs == w.docs - {t}
    ensures forall u :: u in w'.docs <==> u in w.docs && u != t
    ensures forall u :: u in w'.docs ==> End(w', u) == End(w, u)
  {
    hide Blocks;
  }

  lemma DocumentsApart(w: World)
    requires Documents(w)
    ensures forall t, u :: t in w.docs && u in w.docs && t < u ==> End(w, t) <= u
    ensures forall t :: t in w.docs ==> End(w, t) <= w.mem.next
  {
    hide Tidy, Root, Blocks;
  }

  lemma InOtherBy(w: World, t: nat, w': World, id: nat)
    requires t in w.docs && forall u :: u in w'.docs <==> u in w.docs && u != t
    requires forall u :: u in w'.docs ==> End(w', u) == End(w, u)
    requires forall t, u :: t in w.docs && u in w.docs && t < u ==> End(w, t) <= u
    requires End(w, t) <= w.mem.next
    ensures InDocument(w', id) <==> InDocument(w, id) && !(t <= id < End(w, t))
    ensures t <= id < End(w, t) ==> InDocument(w, id) && id < w.mem.next
  {
    hide End;
    if InDocument(w', id) {
      var u :| u in w'.docs && u <= id < End(w', u);
      assert u in w.docs && End(w, u) == End(w', u);
    }
    if InDocument(w, id) && !(t <= id < End(w, t)) {
      var u :| u in w.docs && u <= id < End(w, u);
      assert u in w'.docs && u <= id < End(w', u);
    }
  }

  // ----- every step, every run

  lemma StepTables(base: set<nat>, w: World, d: Deed, w': World)
    requires Consistent(base, w) && Advance(w, d, w')
    ensures Tables(w')
  {
    hide Documents, Balanced, Sane, NewPost, Right, HeldOf, TableBlocks, Lost, Blocks, Cursors, Paths, Finds;
    DoSane(w.fleet, w.made, d);
    NukedMade(w.fleet, w.made);
    if d.Make? {
      var json :| Makes(w, json, d.root, w') && Moves(w, d, w');
      MakesTidy(w.mem, w'.mem, json, d.root);
      if d.root.Some? {
        MadeNext(w.mem, w'.mem, json, d.root);
      }
    } else if d.End? && RootOf(w.fleet.live[d.id]).Some? {
      RootDocument(w, d.id);
    }
  }

  lemma NukedMade(f: Fleet, made: set<nat>)
    requires Sane(f, made)
    ensures forall t :: t in f.nuked ==> t in made
  {
  }

  lemma MadeNext(m: Memory, m': Memory, json: string, root: Option<nat>)
    requires NewPost(m, m', json, root) && root.Some?
    ensures root.value == m.next < m'.next
  {
    hide Untouched, Root, Good, LevelOk, Hung, ReadDoc;
  }

  /** A live root always has its document, unless its text is one that jw_new does not get right. */
  lemma RootDocument(w: World, id: nat)
    requires Tables(w) && id in w.fleet.live && RootOf(w.fleet.live[id]).Some?
    ensures RootOf(w.fleet.live[id]).value in w.docs || RootOf(w.fleet.live[id]).value in w.wrong
  {
  }

  /** The document of a root made before is not changed by a step. */
  lemma DocKept(base: set<nat>, w: World, d: Deed, w': World, t: nat)
    requires Consistent(base, w) && Advance(w, d, w') && t in w.made && t in w'.docs
    ensures t in w.docs && w'.docs[t] == w.docs[t]
  {
    hide Documents, Balanced, Sane, NewPost, Right, HeldOf, TableBlocks, Lost, Blocks, Cursors, Paths, Finds, Do;
  }

  /** Whatever a step does to the heap and to the other objects, each cursor stands where its own
      selections lead. */
  lemma StepCursor(base: set<nat>, w: World, d: Deed, w': World, id: nat)
    requires Consistent(base, w) && Advance(w, d, w') && id in w'.fleet.live
    ensures Standing(w', id)
  {
    hide Consistent, Advance, Follows;
    var root := RootOf(w'.fleet.live[id]);
    if root.Some? && root.value in w'.docs {
      match d {
        case Make(_, _) => MakeCursor(base, w, d, w', id);
        case Select(_, _, _) => SelectCursor(base, w, d, w', id);
        case _ => OtherCursor(base, w, d, w', id);
      }
    }
  }

  lemma FleetMoves(base: set<nat>, w: World, d: Deed, w': World)
    requires Consistent(base, w) && Advance(w, d, w')
    ensures Moves(w, d, w') && Cursors(w) && Tables(w)
  {
    hide Moves, Cursors, Tables;
  }

  /** An object that the step is not about. */
  lemma SameCursor(base: set<nat>, w: World, d: Deed, w': World, id: nat)
    requires Consistent(base, w) && Advance(w, d, w') && id in w.fleet.live && id in w'.fleet.live
    requires w'.fleet.live[id] == w.fleet.live[id] && PathAt(w', id) == PathAt(w, id)
    ensures Standing(w', id)
  {
    hide Advance, Follows, PathAt, Do, Paths, Documents, Balanced;
    FleetMoves(base, w, d, w');
    var root := RootOf(w'.fleet.live[id]);
    if root.Some? && root.value in w'.docs {
      assert root.value in w.made;
      DocKept(base, w, d, w', root.value);
      assert Standing(w, id);
    }
  }

  lemma MakeCursor(base: set<nat>, w: World, d: Deed, w': World, id: nat)
    requires Consistent(base, w) && Advance(w, d, w') && d.Make? && id in w'.fleet.live
    ensures Standing(w', id)
  {
    hide Consistent, Advance, Cursors, Tables;
    FleetMoves(base, w, d, w');
    if id == d.id {
      assert PathAt(w', id) == [];
    } else {
      SameCursor(base, w, d, w', id);
    }
  }

  lemma OtherCursor(base: set<nat>, w: World, d: Deed, w': World, id: nat)
    requires Consistent(base, w) && Advance(w, d, w') && !d.Make? && !d.Select? && id in w'.fleet.live
    ensures Standing(w', id)
  {
    hide Consistent, Advance, Descend, Where;
    FleetMoves(base, w, d, w');
    var from := if (d.MoveNew? || d.MoveTo?) && id == d.id then d.soi else id;
    if (d.MoveNew? || d.MoveTo?) && id == d.soi && d.id != d.soi {
      assert RootOf(w'.fleet.live[id]).None?;
    } else {
      var root := RootOf(w.fleet.live[from]);
      assert RootOf(w'.fleet.live[id]) == root;
      if root.Some? && root.value in w'.docs {
        RootMade(w, from);
        DocKept(base, w, d, w', root.value);
        assert Standing(w, from);
        if d.Unselect? && id == d.id {
          Returned(w.fleet.live[id], root.value, w.docs[root.value].items, PathAt(w, id));
        }
      }
    }
  }

  lemma RootMade(w: World, id: nat)
    requires Tables(w) && id in w.fleet.live && RootOf(w.fleet.live[id]).Some?
    ensures RootOf(w.fleet.live[id]).value in w.made
  {
  }

  lemma Returned(c: Cursor, t: nat, items: seq<Item>, path: seq<Step>)
    requires Follows(c, t, items, path) && RootOf(c) == Some(t)
    ensures Follows(Leave(c), t, items, [])
  {
  }

  lemma SelectCursor(base: set<nat>, w: World, d: Deed, w': World, id: nat)
    requires Consistent(base, w) && Advance(w, d, w') && d.Select? && id in w'.fleet.live
    ensures Standing(w', id)
  {
    hide Advance, Follows, Further, Balanced, Documents, Readable, Jwrapper.Select;
    FleetMoves(base, w, d, w');
    if id != d.id {
      SameCursor(base, w, d, w', id);
    } else {
      var c := w.fleet.live[id];
      Selected(w, d, w');
      if RootOf(c).Some? && RootOf(c).value in w.docs {
        var t := RootOf(c).value;
        assert Standing(w, id);
        DocumentRoot(w, t);
        PickedFollows(w.mem, t, w.docs[t], c, PathAt(w, id), d.step, d.bst);
      }
    }
  }

  lemma Selected(w: World, d: Deed, w': World)
    requires Advance(w, d, w') && d.Select?
    ensures HeapSame(w, w') && Finds(w, d.id, d.step, d.bst) && d.id in w.fleet.live
    ensures w.fleet.live[d.id].st.None? ==> d.bst.None?
  {
    hide Finds;
  }

  lemma DocumentRoot(w: World, t: nat)
    requires Documents(w) && t in w.docs
    ensures Root(w.mem, t, w.docs[t].items, w.docs[t].o)
  {
    hide Root;
  }

  lemma RootPlaced(m: Memory, t: nat, items: seq<Item>, o: int)
    requires Root(m, t, items, o)
    ensures Placed(m, t, items, t + 2)
  {
    hide RepTab, Tidy, ItemOk, Blocks, Good;
  }

  lemma PickedFollows(m: Memory, t: nat, held: Held, c: Cursor, path: seq<Step>, step: Step, bst: Option<nat>)
    requires Root(m, t, held.items, held.o) && Follows(c, t, held.items, path)
    requires c.st.Some? && Readable(m, c.st) ==> bst == Jwrapper.Select(m, c.st.value, step)
    ensures Follows(Picked(c, step.Member?, bst), t, held.items, Further(held.items, path, step))
    ensures RootOf(Picked(c, step.Member?, bst)) == RootOf(c)
  {
    hide Root, Placed, Readable, Jwrapper.Select, Descend, Where;
    RootPlaced(m, t, held.items, held.o);
    WhereMore(m, t, held.items, t + 2, path, step);
  }

  lemma StepConsistent(base: set<nat>, w: World, d: Deed, w': World)
    requires Consistent(base, w) && Advance(w, d, w')
    ensures Consistent(base, w')
  {
    hide Documents, Balanced, Tables, Can, Do, Makes, Releases, Cursors, Paths, Finds;
    StepTables(base, w, d, w');
    StepCursors(base, w, d, w');
    if d.Make? {
      var json :| Makes(w, json, d.root, w') && Moves(w, d, w');
      MakesDocuments(w, json, d.root, w');
      MakesBalanced(base, w, json, d.root, w');
    } else if d.End? && RootOf(w.fleet.live[d.id]).Some? {
      RootDocument(w, d.id);
      ReleasesDocuments(w, RootOf(w.fleet.live[d.id]).value, w');
      ReleasesBalanced(base, w, RootOf(w.fleet.live[d.id]).value, w');
    } else {
      SameConsistent(base, w, w');
    }
  }

  lemma StepCursors(base: set<nat>, w: World, d: Deed, w': World)
    requires Consistent(base, w) && Advance(w, d, w')
    ensures Cursors(w')
  {
    hide Consistent, Advance, Standing;
    forall id | id in w'.fleet.live ensures Standing(w', id) {
      StepCursor(base, w, d, w', id);
    }
  }

  lemma SameConsistent(base: set<nat>, w: World, w': World)
    requires Documents(w) && Balanced(base, w) && HeapSame(w, w')
    ensures Documents(w') && Balanced(base, w')
  {
    hide Tidy, Root, Live, Blocks;
    assert forall t :: t in w.docs ==> End(w', t) == End(w, t);
    assert forall id :: InDocument(w', id) <==> InDocument(w, id);
  }

  /** A run from a heap on which there is no Jhash yet. */
  ghost predicate IsRun(ws: seq<World>, ds: seq<Deed>) {
    && |ws| == |ds| + 1 && Tidy(ws[0].mem)
    && ws[0] == World(ws[0].mem, NO_FLEET, {}, map[], map[], {}, {})
    && forall k :: 0 <= k < |ds| ==> Advance(ws[k], ds[k], ws[k + 1])
  }

  lemma StartConsistent(w: World)
    requires Tidy(w.mem) && w == World(w.mem, NO_FLEET, {}, map[], map[], {}, {})
    ensures Consistent(Live(w.mem), w)
  {
    forall id | id in Live(w.mem) ensures id < w.mem.next {
      LiveTidy(w.mem, id);
    }
  }

  lemma LiveTidy(m: Memory, id: nat)
    requires Tidy(m) && id in Live(m)
    ensures id < m.next
  {
  }

  lemma {:induction false} RunConsistent(ws: seq<World>, ds: seq<Deed>, n: nat)
    requires IsRun(ws, ds) && n <= |ds|
    ensures Consistent(Live(ws[0].mem), ws[n])
  {
    hide Consistent, Advance, Live, Tidy;
    if n == 0 {
      StartConsistent(ws[0]);
    } else {
      RunConsistent(ws, ds, n - 1);
      StepConsistent(Live(ws[0].mem), ws[n - 1], ds[n - 1], ws[n]);
    }
  }

  /** Whatever is made, selected, moved and destroyed: the root of every live object whose text jw_new got
      right holds its document, whole and with every answer right; its current table is the one that its
      own selections reach there, and holds the object they lead to; and the blocks in use are those from
      before, those of the documents not released, and those that no document has. */
  lemma EveryRun(ws: seq<World>, ds: seq<Deed>, id: nat)
    requires IsRun(ws, ds) && id in ws[|ds|].fleet.live && RootOf(ws[|ds|].fleet.live[id]).Some?
    requires RootOf(ws[|ds|].fleet.live[id]).value !in ws[|ds|].wrong
    ensures Balanced(Live(ws[0].mem), ws[|ds|])
    ensures var w, t := ws[|ds|], RootOf(ws[|ds|].fleet.live[id]).value;
      && t in w.docs && Root(w.mem, t, w.docs[t].items, w.docs[t].o)
      && (forall path :: Agrees(w.mem, t, w.docs[t].items, path))
      && OnPath(w.mem, w.fleet.live[id].st, t, w.docs[t].items, PathAt(w, id))
  {
    hide Balanced, Live, Agrees, Advance, Sane, Tidy, OnPath, Follows, Good, RepTab, ItemOk;
    RunConsistent(ws, ds, |ds|);
    var w := ws[|ds|];
    var t := RootOf(w.fleet.live[id]).value;
    RootDocument(w, id);
    RootHolds(w.mem, t, w.docs[t].items, w.docs[t].o);
    forall path ensures Agrees(w.mem, t, w.docs[t].items, path) {
      EveryLookup(w.mem, t, w.docs[t].items, path);
    }
    assert Standing(w, id);
    FollowsOn(w.mem, t, w.docs[t], w.fleet.live[id], PathAt(w, id));
  }

  /** The current table is the one the path reaches from the root, and all that is asked there is answered
      as the document's object at the end of the path does. */
  ghost predicate OnPath(m: Memory, st: Option<nat>, t: nat, items: seq<Item>, path: seq<Step>) {
    && st.Some? && Reach(m, t, path) == Reached(st.value) && Descend(items, path).Some?
    && Holds(m, st.value, Descend(items, path).value) && Readable(m, st)
    && AllAnswers(m, st.value, Descend(items, path).value)
  }

  lemma FollowsOn(m: Memory, t: nat, held: Held, c: Cursor, path: seq<Step>)
    requires Root(m, t, held.items, held.o) && Follows(c, t, held.items, path)
    ensures OnPath(m, c.st, t, held.items, path)
  {
    hide Root, Placed, Readable, Holds, AllAnswers, Descend, Where, Reach;
    RootPlaced(m, t, held.items, held.o);
    WhereReached(m, t, held.items, t + 2, path);
    EveryAnswer(m, c.st.value, Descend(held.items, path).value);
  }
}
