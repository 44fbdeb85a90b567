/** The slot past the last token: what stands there does not matter to a document without a tail, and
    spoils one that has a tail. */
module Slots {
  import opened Document
  import opened Jsmn
  import opened Memory
  import opened Accepts
  import opened Parser
  import opened Lookup
  import opened Partial
  import opened Jwrapper

  /** A good document without a tail is right in memory whatever the slot holds. */
  method AnySlot(h: Heap, json: string, junk: Token) returns (st: Option<nat>)
    requires Tidy(h.mem) && NoNul(json)
    requires ObjectText(json) && Good(Members(json)) && !HasTail(ReadDoc(json).val.val)
    modifies h
    ensures st.Some? && Untouched(old(h.mem), h.mem)
    ensures forall path :: Agrees(h.mem, st.value, Members(json), path)
  {
    hide ReadDoc, Tidy, Good, LevelOk, HasTail, NewPost, Agrees, Untouched, ObjectText, Members;
    GoodLevel(Members(json));
    NoTailJunk(json, junk);
    st := JwNew(h, Some(json), junk);
    NewExact(old(h.mem), h.mem, json, st);
    NewKeeps(old(h.mem), h.mem, json, st);
  }

  lemma NoTailJunk(json: string, junk: Token)
    requires ObjectText(json) && !HasTail(ReadDoc(json).val.val)
    ensures JunkOk(json, junk)
  {
    hide ReadDoc, HasTail;
  }

  lemma NewKeeps(m0: Memory, m1: Memory, json: string, st: Option<nat>)
    requires NewPost(m0, m1, json, st)
    ensures Untouched(m0, m1)
  {
    hide Untouched, Tidy, Root, Hung, ReadDoc, Good, LevelOk;
  }

  const TAIL_TEXT := "{\"a\":{\"b\":\"x\"}}"

  function TailInner(): Value { OneMember("b", Str("x")) }

  /** A good document; its one member is a tail that ends in a string. */
  lemma TailDoc()
    ensures ObjectText(TAIL_TEXT) && Members(TAIL_TEXT) == OneMember("a", TailInner()).items
    ensures ReadDoc(TAIL_TEXT).val.val == OneMember("a", TailInner()) && Inside(TAIL_TEXT) == 1
    ensures Render(TailInner()) == "{\"b\":\"x\"}" && Count(TailInner()) == 3
  {
    hide ReadDoc, WellFormed, Render, Count;
    var inner := TailInner();
    var outer := OneMember("a", inner);
    LeafX();
    OneMemberText("b", Str("x"));
    OneMemberText("a", inner);
    OneMemberOk("b", Str("x"));
    OneMemberOk("a", inner);
    assert Render(outer) == TAIL_TEXT;
    ReadRendered(outer);
  }

  lemma LeafX()
    ensures Render(Str("x")) == "\"x\"" && WellFormed(Str("x")) && Count(Str("x")) == 1
    ensures RawString("a") && RawString("b")
  {
    assert RawString("x");
  }

  lemma TailGood()
    ensures Good(OneMember("a", TailInner()).items) && HasTail(OneMember("a", TailInner())) && !HasTail(TailInner())
    ensures Find(OneMember("a", TailInner()).items, "x") == None
  {
    var outer := OneMember("a", TailInner());
    assert Good(TailInner().items);
    assert Tail(Last(outer.items));
    assert FindIn(outer.items, 1, "x") == FindIn(outer.items, 0, "x");
  }

  lemma OneMemberTokens(name: string, v: Value, o: int)
    ensures var items := OneMember(name, v).items;
      && ItemsTokens(items, 1, o) == [Token(String, o + 1, o + 1 + |name|, 1)] + Tokens(v, o + |name| + 3)
      && ValPos(items, 0, o) == o + |name| + 3 && CountItems(items, 1) == 1 + Count(v)
  {
    hide Tokens, Render, Count;
    var items := OneMember(name, v).items;
    assert KeyText(items[0].key) == "\"" + name + "\":";
    assert Len(items, 0) == 0 && ItemsTokens(items, 0, o) == [] && CountItems(items, 0) == 0;
    assert ItemTokens(items[0], o) == [Token(String, o + 1, o + 1 + |name|, 1)] + Tokens(v, o + |name| + 3);
  }

  /** Its tokens after the first. */
  lemma TailTokens(toks: seq<Token>)
    requires Level(TAIL_TEXT, toks, OneMember("a", TailInner()).items, 1)
    ensures |toks| == 5 && toks[1] == Token(String, 2, 3, 1) && toks[2].kind == Object
    ensures toks[3].kind == String && toks[4] == Token(String, 11, 12, 0)
    ensures ValPos(OneMember("a", TailInner()).items, 0, 1) == 5
  {
    hide At, WellNested, Within, Render, ItemsTokens, ValPos, CountItems, Len;
    var inner, items := TailInner(), OneMember("a", TailInner()).items;
    AtIndex(toks, 1, ItemsTokens(items, 1, 1));
    OneMemberTokens("a", inner, 1);
    OneMemberTokens("b", Str("x"), 6);
    LeafX();
  }

  /** The loop over that text with a slot that looks like a string token, as an earlier parse may have
      left one: the skip loop stops one token short, so a second round takes the last token for a name
      and the slot for its value. The table then has a member that the document does not have. */
  method SpoiledSlot(h: Heap, st: nat, json: Ptr, junk: Token)
    requires Callable(h.mem, st, json, TAIL_TEXT)
    requires junk.kind == String && junk.end != 11
    requires 0 <= json.off + junk.start && 0 <= json.off + junk.end < |h.mem.texts[json.buf]|
    modifies h
    ensures ObjectText(TAIL_TEXT) && Good(Members(TAIL_TEXT)) && Find(Members(TAIL_TEXT), "x") == None
    ensures st in h.mem.tabs && h.mem.tabs[st].obj.Keys == {"a", "x"} && h.mem.tabs[st].obj["x"] in h.mem.things
    ensures h.mem.things[h.mem.tabs[st].obj["x"]] ==
      Thing(String, PtString, 1, TextPtr(Ptr(json.buf, json.off + junk.start)))
  {
    hide Callable, Level, Fresh, Tidy, Parse, At, Only, ArmPost, LoopInv, LastTokenIs, HasTail, Good, Render, CStr,
      ReadDoc, Tokens, Outside, WellNested, RawString, WellFormed, Count;
    ghost var m0, items := h.mem, OneMember("a", TailInner()).items;
    var toks := Parse(TAIL_TEXT).slots;
    TailDoc();
    TailGood();
    ScanFacts(TAIL_TEXT);
    TailTokens(toks);
    LevelSize(TAIL_TEXT, toks, items, 1);
    MemberFacts(TAIL_TEXT, toks, items, 1, 0);
    LoopStart(m0, st, json, TAIL_TEXT, items, 1);
    LoopFresh(m0, m0, st, json, TAIL_TEXT, items, 1, 0);
    LenZero(items);
    NameExtracted(m0, json, TAIL_TEXT, 1, 2, "a");
    var i := 1;
    var nameAt := Extract(h, json, toks[i]);
    ghost var m1 := h.mem;
    FreshLater(m1, json, TAIL_TEXT, 4, 5);
    var name := CStr(h.mem.texts[json.buf], nameAt.off);
    var step := PutObject(h, st, json, name, toks, i + 1, junk, TAIL_TEXT, TailInner(), 5);
    i := i + step;
    assert i == 4;
    ArmTab(m0, m1, h.mem, st, json, name);
    ghost var m2 := h.mem;
    nameAt := Extract(h, json, toks[i]);
    var data := Extract(h, json, junk);
    LastName(m0, m1, m2, h.mem, json, junk);
    name := CStr(h.mem.texts[json.buf], nameAt.off);
    h.mem := MkThing(h.mem, st, name, Thing(String, PtString, 1, TextPtr(data)));
  }

  lemma ArmTab(m0: Memory, m1: Memory, m2: Memory, st: nat, json: Ptr, name: string)
    requires Callable(m0, st, json, TAIL_TEXT) && m1.tabs == m0.tabs
    requires ArmPost(m1, m2, st, json, TAIL_TEXT, name, TailInner(), 5)
    ensures st in m2.tabs && m2.tabs[st].obj.Keys == {name}
  {
    hide Tidy, CStr, Only, Fresh, RepValue, HasValue, GoodValue, Render;
  }

  lemma LastName(m0: Memory, m1: Memory, m2: Memory, m3: Memory, json: Ptr, junk: Token)
    requires Fresh(m0, json, TAIL_TEXT, 1) && m1 == Poke(m0, json.buf, json.off + 3)
    requires Marked(m1, m2, json, 14)
    requires 0 <= json.off + junk.end < |m0.texts[json.buf]| && junk.end != 11
    requires m3 == Poke(Poke(m2, json.buf, json.off + 12), json.buf, json.off + junk.end)
    ensures json.buf in m3.texts && CStr(m3.texts[json.buf], json.off + 11) == "x"
  {
    var t := m3.texts[json.buf];
    assert TAIL_TEXT[11] == 'x' && t[json.off + 11] == 'x' && t[json.off + 12] == NUL;
    assert At(t, json.off + 11, "x");
    CStrIs(t, json.off + 11, "x");
  }
}
