/** parse_jobject and jw_new: the walk over the flat token array that cuts strings out of the very
    buffer it reads, and the tables it builds. */
module Parser {
  import opened Document
  import opened Jsmn
  import opened Reading
  import opened Numbers
  import opened Memory
  import opened Accepts
  import opened TailByte
  import opened Partial

  // ----- what a step may change

  ghost predicate Keeps<T>(a: map<nat, T>, b: map<nat, T>, below: nat, but: nat) {
    forall id :: id < below && id != but ==> (id in a <==> id in b) && (id in a ==> b[id] == a[id])
  }

  /** Of the blocks there were, only table `st` and the stretch [lo, hi) of buffer `b` may differ. */
  ghost predicate Only(m: Memory, m': Memory, st: nat, b: nat, lo: int, hi: int) {
    && m.next <= m'.next
    && Keeps(m.texts, m'.texts, m.next, b)
    && Keeps(m.tabs, m'.tabs, m.next, st)
    && Keeps(m.things, m'.things, m.next, m.next)
    && Keeps(m.arrays, m'.arrays, m.next, m.next)
    && (st in m.tabs && st in m'.tabs ==> m'.tabs[st].mgt == m.tabs[st].mgt)
    && b in m.texts && b in m'.texts && |m'.texts[b]| == |m.texts[b]|
    && forall k :: 0 <= k < |m.texts[b]| && !(lo <= k < hi) ==> m'.texts[b][k] == m.texts[b][k]
  }

  /** Serial numbers not yet given out name nothing, and each one given out names one block. */
  ghost predicate Tidy(m: Memory) {
    && (forall id :: id in m.texts ==> id < m.next && id !in m.tabs && id !in m.things && id !in m.arrays)
    && (forall id :: id in m.tabs ==> id < m.next && id !in m.things && id !in m.arrays)
    && (forall id :: id in m.things ==> id < m.next && id !in m.arrays)
    && (forall id :: id in m.arrays ==> id < m.next)
  }

  lemma OnlyTrans(m: Memory, m1: Memory, m2: Memory, st: nat, b: nat, lo: int, hi: int)
    requires Only(m, m1, st, b, lo, hi) && Only(m1, m2, st, b, lo, hi) && st in m1.tabs
    ensures Only(m, m2, st, b, lo, hi)
  {
  }

  lemma OnlyWiden(m: Memory, m': Memory, st: nat, b: nat, lo: int, hi: int, lo': int, hi': int)
    requires Only(m, m', st, b, lo, hi) && lo' <= lo && hi <= hi'
    ensures Only(m, m', st, b, lo', hi')
  {
  }

  lemma OnlyAgree(m: Memory, m': Memory, st: nat, b: nat, lo: int, hi: int, a: nat, e: nat)
    requires Only(m, m', st, b, lo, hi) && (st < a || e <= st) && b < a && e <= m.next
    ensures Agree(m, m', a, e)
  {
  }

  lemma OnlyText(m: Memory, m': Memory, st: nat, b: nat, lo: int, hi: int, from: int, to: int)
    requires Only(m, m', st, b, lo, hi) && to <= lo
    ensures TextAgree(m, m', b, from, to)
  {
  }

  // ----- the memory operations

  function SymAlloc(m: Memory): Memory {
    m.(tabs := m.tabs[m.next := Table(map[], map[])], next := m.next + 1)
  }

  function Strdup(m: Memory, p: Ptr): Memory
    requires p.buf in m.texts && 0 <= p.off <= |m.texts[p.buf]|
  {
    m.(texts := m.texts[m.next := CStr(m.texts[p.buf], p.off) + [NUL]], next := m.next + 1)
  }

  /** malloc of a thing and rmr_sym_put of it under `name`. */
  function MkThing(m: Memory, st: nat, name: string, th: Thing): Memory
    requires st in m.tabs
  {
    m.(things := m.things[m.next := th],
       tabs := m.tabs[st := m.tabs[st].(obj := m.tabs[st].obj[name := m.next])],
       next := m.next + 1)
  }

  function SetThing(m: Memory, x: nat, th: Thing): Memory { m.(things := m.things[x := th]) }

  function PutMgt(m: Memory, st: nat, name: string, block: nat): Memory
    requires st in m.tabs
  {
    m.(tabs := m.tabs[st := m.tabs[st].(mgt := m.tabs[st].mgt[name := block])])
  }

  method Extract(h: Heap, json: Ptr, tok: Token) returns (p: Ptr)
    requires json.buf in h.mem.texts && 0 <= json.off + tok.end < |h.mem.texts[json.buf]|
    modifies h
    ensures h.mem == Poke(old(h.mem), json.buf, json.off + tok.end)
    ensures p == Ptr(json.buf, json.off + tok.start)
  {
    h.mem := Poke(h.mem, json.buf, json.off + tok.end);
    p := Ptr(json.buf, json.off + tok.start);
  }

  // ----- skipping over a nested object

  /** The first token after the subtree of token `d`. */
  function SubEnd(toks: seq<Token>, d: nat, j: nat): (e: nat)
    requires d < j <= |toks|
    ensures j <= e <= |toks|
    ensures forall k :: j <= k < e ==> toks[k].start < toks[d].end
    ensures e < |toks| ==> toks[e].start >= toks[d].end
    decreases |toks| - j
  {
    if j == |toks| || toks[j].start >= toks[d].end then j else SubEnd(toks, d, j + 1)
  }

  /** The skip loop of both object arms. It counts the descendants of the object at `d`, but one too
      few when they run up to the last token of the level. */
  method SkipNested(toks: seq<Token>, d: nat) returns (step: nat)
    requires d < |toks| && WellNested(toks)
    ensures var e := SubEnd(toks, d, d + 1);
      step == if e == |toks| && e > d + 1 then e - d - 2 else e - d - 1
  {
    var stop := toks[d].end;
    var di := d + 1;
    step := 0;
    while di < |toks| - 1 && toks[di].end < stop
      invariant di == d + 1 + step
      invariant di <= SubEnd(toks, d, d + 1)
      invariant di <= |toks| - 1 || di == d + 1
    {
      step := step + 1;
      di := di + 1;
    }
  }

  /** What follows the tokens of a value starts after the value. */
  ghost predicate Outside(toks: seq<Token>, d: nat, v: Value, q: int) {
    d + Count(v) < |toks| ==> toks[d + Count(v)].start >= q + |Render(v)|
  }

  lemma SubEndIs(toks: seq<Token>, d: nat, v: Value, q: int)
    requires At(toks, d, Tokens(v, q)) && (v.Obj? || v.Arr?) && Outside(toks, d, v, q)
    ensures d < |toks| && d + Count(v) <= |toks|
    ensures SubEnd(toks, d, d + 1) == d + Count(v)
  {
    hide Render, ItemsTokens, At;
    TokensCount(v, q);
    AtIndex(toks, d, Tokens(v, q));
    InnerWithin(v, q);
  }

  // ----- leaves

  /** How a primitive is told by its first character. */
  function PrimThing(data: string, nele: int): Thing {
    if data == "" then Thing(Primitive, PtValue, nele, Fv(Strtod(data)))
    else if data[0] == 'T' || data[0] == 't' then Thing(Primitive, PtBool, nele, Fv(1.0))
    else if data[0] == 'F' || data[0] == 'f' then Thing(Primitive, PtBool, nele, Fv(0.0))
    else if data[0] == 'N' || data[0] == 'n' then Thing(Primitive, PtNull, nele, Fv(0.0))
    else Thing(Primitive, PtValue, nele, Fv(Strtod(data)))
  }

  /** The text of `v` and everything after it is still as it was in the document. */
  ghost predicate Fresh(m: Memory, json: Ptr, text: string, from: int) {
    && json.buf in m.texts && json.off >= 0 && json.off + |text| < |m.texts[json.buf]|
    && m.texts[json.buf][json.off + |text|] == NUL
    && forall k :: from <= k < |text| && 0 <= k ==> m.texts[json.buf][json.off + k] == text[k]
  }

  lemma FreshAt(m: Memory, json: Ptr, text: string, from: int, q: int, s: string)
    requires Fresh(m, json, text, from) && At(text, q, s) && from <= q
    ensures At(m.texts[json.buf], json.off + q, s)
  {
    AtIndex(text, q, s);
    var buf := m.texts[json.buf];
    forall k | json.off + q <= k < json.off + q + |s| ensures buf[k] == s[k - (json.off + q)] {
      assert m.texts[json.buf][json.off + (k - json.off)] == text[k - json.off];
    }
    AtEqual(buf, json.off + q, s);
  }

  lemma FreshOnly(m: Memory, m': Memory, json: Ptr, text: string, st: nat, from: int, lo: int, hi: int)
    requires Fresh(m, json, text, from) && Only(m, m', st, json.buf, json.off + lo, json.off + hi)
    requires lo <= hi <= |text|
    ensures Fresh(m', json, text, if from >= hi then from else hi)
  {
  }

  lemma FreshLater(m: Memory, json: Ptr, text: string, from: int, from': int)
    requires Fresh(m, json, text, from) && from <= from'
    ensures Fresh(m, json, text, from')
  {
  }

  lemma PrimThingRep(m: Memory, v: Value, b: nat, q: int, nele: int)
    requires WellFormed(v) && (v.Num? || v.True? || v.False? || v.Null?)
    ensures RepLeaf(m, PrimThing(Render(v), nele), v, b, q)
  {
  }

  /** What the string and primitive arms store for the leaf at token `tok`. */
  method LeafThing(h: Heap, json: Ptr, tok: Token, nele: int, ghost text: string, ghost v: Value, ghost q: int)
    returns (th: Thing, ghost e: int)
    requires WellFormed(v) && !v.Obj? && !v.Arr? && [tok] == Tokens(v, q)
    requires At(text, q, Render(v)) && q + |Render(v)| < |text| && Fresh(h.mem, json, text, q)
    modifies h
    ensures q < e <= q + |Render(v)| && h.mem == Poke(old(h.mem), json.buf, json.off + e)
    ensures RepLeaf(h.mem, th, v, json.buf, json.off + q)
  {
    hide Render, At, RepLeaf, WellFormed, Fresh, CStr, CText, PrimThing, Tokens, Strtod;
    e := tok.end;
    LeafToken(v, tok, q);
    LeafPoked(h.mem, json, text, v, q);
    var data := Extract(h, json, tok);
    if tok.kind == String {
      th := Thing(String, PtString, nele, TextPtr(data));
    } else {
      th := PrimThing(CStr(h.mem.texts[data.buf], data.off), nele);
    }
    LeafStored(h.mem, th, v, json.buf, json.off + q, nele);
  }

  lemma LeafToken(v: Value, tok: Token, q: int)
    requires WellFormed(v) && !v.Obj? && !v.Arr? && [tok] == Tokens(v, q)
    ensures tok.kind == String <==> v.Str?
    ensures tok.kind == if v.Str? then String else Primitive
    ensures tok.end == LeafEnd(v, q) && q < tok.end <= q + |Render(v)|
    ensures tok.start == if v.Str? then q + 1 else q
  {
  }

  /** Where the leaf's token ends, and the NUL is written. */
  function LeafEnd(v: Value, q: int): int { if v.Str? then q + 1 + |v.raw| else q + |Render(v)| }

  lemma LeafPoked(m0: Memory, json: Ptr, text: string, v: Value, q: int)
    requires WellFormed(v) && !v.Obj? && !v.Arr?
    requires At(text, q, Render(v)) && q + |Render(v)| < |text| && Fresh(m0, json, text, q)
    requires q < LeafEnd(v, q) <= q + |Render(v)|
    ensures json.buf in m0.texts && 0 <= json.off + q && json.off + q + |Render(v)| < |m0.texts[json.buf]|
    ensures var m := Poke(m0, json.buf, json.off + LeafEnd(v, q));
      if v.Str? then CText(m, json.buf, json.off + q + 1, v.raw)
      else CStr(m.texts[json.buf], json.off + q) == Render(v)
  {
    hide Fresh, Render;
    FreshBounds(m0, json, text, q);
    AtBounds(text, q, Render(v));
    var e := json.off + LeafEnd(v, q);
    if v.Str? {
      StringParts(text, q, v.raw);
      FreshAt(m0, json, text, q, q + 1, v.raw);
      PokeAt(m0.texts[json.buf], json.off + q + 1, v.raw, e);
    } else {
      FreshAt(m0, json, text, q, q, Render(v));
      PokeAt(m0.texts[json.buf], json.off + q, Render(v), e);
      RenderNoNul(v);
      CStrIs(m0.texts[json.buf][e := NUL], json.off + q, Render(v));
    }
  }

  lemma FreshBounds(m: Memory, json: Ptr, text: string, from: int)
    requires Fresh(m, json, text, from)
    ensures json.buf in m.texts && json.off >= 0 && json.off + |text| < |m.texts[json.buf]|
    ensures m.texts[json.buf][json.off + |text|] == NUL
  {
  }

  lemma LeafStored(m: Memory, th: Thing, v: Value, b: nat, q: int, nele: int)
    requires WellFormed(v) && !v.Obj? && !v.Arr? && b in m.texts && 0 <= q <= |m.texts[b]|
    requires v.Str? ==> CText(m, b, q + 1, v.raw) && th == Thing(String, PtString, nele, TextPtr(Ptr(b, q + 1)))
    requires !v.Str? ==> CStr(m.texts[b], q) == Render(v) && th == PrimThing(CStr(m.texts[b], q), nele)
    ensures RepLeaf(m, th, v, b, q)
  {
    hide CStr, CText;
    if !v.Str? {
      PrimThingRep(m, v, b, q, nele);
    }
  }

  lemma PokeAt(buf: string, o: int, s: string, e: int)
    requires At(buf, o, s) && o + |s| <= e < |buf|
    ensures At(buf[e := NUL], o, s)
  {
    AtIndex(buf, o, s);
    AtEqual(buf[e := NUL], o, s);
  }

  /** What each arm of the member switch leaves behind for member `name` with value `v`. */
  ghost predicate ArmPost(m0: Memory, m1: Memory, st: nat, json: Ptr, text: string, name: string, v: Value, q: int) {
    && st in m0.tabs && st in m1.tabs && Tidy(m1)
    && Only(m0, m1, st, json.buf, json.off + q, json.off + q + |Render(v)| + 1)
    && Fresh(m1, json, text, q + |Render(v)| + 1)
    && m1.tabs[st].obj == m0.tabs[st].obj[name := m0.next] && m0.next in m1.things && m0.next < m1.next
    && (GoodValue(v) ==>
      && RepValue(m1, m1.things[m0.next], v, json.buf, json.off + q, m0.next + 1)
      && m1.next == m0.next + ValueBlocks(v))
    && HasValue(m1, m0.next, m1.things[m0.next], v, json.buf, json.off + q)
  }

  lemma PokeOnly(m: Memory, json: Ptr, text: string, st: nat, from: int, e: int, lo: int, hi: int)
    requires Fresh(m, json, text, from) && from <= e < |text| && 0 <= e && lo <= json.off + e < hi && Tidy(m)
    ensures var m' := Poke(m, json.buf, json.off + e);
      Only(m, m', st, json.buf, lo, hi) && Tidy(m') && Fresh(m', json, text, e + 1)
      && m'.tabs == m.tabs && m'.next == m.next
  {
  }

  lemma MkThingOnly(m: Memory, st: nat, name: string, th: Thing, json: Ptr, text: string, from: int, lo: int, hi: int)
    requires st in m.tabs && Tidy(m) && Fresh(m, json, text, from)
    ensures var m' := MkThing(m, st, name, th);
      Only(m, m', st, json.buf, lo, hi) && Tidy(m') && Fresh(m', json, text, from)
  {
  }

  method PutLeaf(
    h: Heap, st: nat, json: Ptr, name: string, tok: Token, ghost text: string, ghost v: Value, ghost q: int)
    requires WellFormed(v) && !v.Obj? && !v.Arr? && [tok] == Tokens(v, q)
    requires At(text, q, Render(v)) && 0 <= q && q + |Render(v)| < |text| && Fresh(h.mem, json, text, q)
    requires st in h.mem.tabs && Tidy(h.mem)
    modifies h
    ensures ArmPost(old(h.mem), h.mem, st, json, text, name, v, q)
  {
    hide Fresh, Tidy, RepLeaf, Render, WellFormed, At, Tokens, ArmPost;
    ghost var m0 := h.mem;
    FreshBounds(m0, json, text, q);
    var th, e := LeafThing(h, json, tok, 1, text, v, q);
    h.mem := MkThing(h.mem, st, name, th);
    LeafArm(m0, st, json, text, name, v, q, th, e);
  }

  lemma LeafArm(m0: Memory, st: nat, json: Ptr, text: string, name: string, v: Value, q: int, th: Thing, e: int)
    requires !v.Obj? && !v.Arr? && st in m0.tabs && Tidy(m0) && Fresh(m0, json, text, q)
    requires 0 <= q < e <= q + |Render(v)| < |text|
    requires json.buf in m0.texts && 0 <= json.off + e < |m0.texts[json.buf]|
    requires RepLeaf(Poke(m0, json.buf, json.off + e), th, v, json.buf, json.off + q)
    ensures ArmPost(m0, MkThing(Poke(m0, json.buf, json.off + e), st, name, th), st, json, text, name, v, q)
  {
    hide Only, Fresh, Tidy, RepLeaf, Render;
    var lo, hi := json.off + q, json.off + q + |Render(v)| + 1;
    var m1 := Poke(m0, json.buf, json.off + e);
    PokeOnly(m0, json, text, st, q, e, lo, hi);
    FreshLater(m1, json, text, e + 1, q + |Render(v)| + 1);
    MkThingOnly(m1, st, name, th, json, text, q + |Render(v)| + 1, lo, hi);
    OnlyTrans(m0, m1, MkThing(m1, st, name, th), st, json.buf, lo, hi);
    LeafKept(m1, MkThing(m1, st, name, th), th, v, json.buf, json.off + q);
  }

  lemma LeafKept(m: Memory, m': Memory, th: Thing, v: Value, b: nat, q: int)
    requires !v.Obj? && !v.Arr? && RepLeaf(m, th, v, b, q) && m'.texts == m.texts
    ensures RepLeaf(m', th, v, b, q)
  {
  }

  // ----- the contract of parse_jobject

  /** A fresh table, and a NUL terminated text to fill it from. */
  ghost predicate Callable(m: Memory, st: nat, json: Ptr, text: string) {
    && Tidy(m) && st in m.tabs && m.tabs[st].obj == map[]
    && json.buf in m.texts && 0 <= json.off <= |m.texts[json.buf]|
    && text == CStr(m.texts[json.buf], json.off) && json.off + |text| < |m.texts[json.buf]|
  }

  /** The slot past the tokens jsmn filled may hold anything, unless the document makes the loop
      read it. */
  ghost predicate JunkOk(text: string, junk: Token) {
    ReadDoc(text).Got? ==>
      !HasTail(ReadDoc(text).val.val) || (junk.kind == Undefined && Count(ReadDoc(text).val.val) < MAX_THINGS)
  }

  /** The text is that of an object the token array has room for. */
  ghost predicate ObjectText(text: string) {
    ReadDoc(text).Got? && ReadDoc(text).val.val.Obj? && Count(ReadDoc(text).val.val) <= MAX_THINGS
  }

  ghost function Members(text: string): seq<Item>
    requires ObjectText(text)
  {
    ReadDoc(text).val.val.items
  }

  /** A text with known tokens, but no object with room for them. */
  ghost predicate OtherText(text: string) { Known(text) && !ObjectText(text) }

  /** Whether such a text passes for an object: if its root is one, or if it has no token at all and the
      first slot happens to say so. */
  ghost predicate Passes(text: string, junk: Token) {
    if ReadDoc(text).Got? then ReadDoc(text).val.val.Obj? else junk.kind == Object
  }

  /** Where the members start. */
  ghost function Inside(text: string): int
    requires ObjectText(text)
  {
    |ReadDoc(text).val.lead| + 1
  }

  ghost predicate ParsePost(m0: Memory, m1: Memory, st: nat, json: Ptr, text: string, ok: bool) {
    && Only(m0, m1, st, json.buf, json.off, json.off + |text|) && Tidy(m1) && (ok ==> st in m1.tabs)
    && (ObjectText(text) ==>
      && (ok <==> LevelOk(Members(text)))
      && (Good(Members(text)) ==>
        && RepTab(m1, st, Members(text), json.buf, json.off + Inside(text), m0.next)
        && m1.next == m0.next + Blocks(Members(text), |Members(text)|))
      && (ok ==> HasTab(m1, m0.next, st, Members(text), json.buf, json.off + Inside(text)))
      && (!ok ==> Dead(m1, m0.next, st)))
    && (OtherText(text) && ok ==> m1 == m0)
  }

  lemma ReadRendered(v: Value)
    requires WellFormed(v)
    ensures ReadDoc(Render(v)) == Got(Doc("", v, ""), |Render(v)|)
  {
    hide ReadDoc, Render, WellFormed;
    var d := Doc("", v, "");
    assert DocText(d) == Render(v);
    ReadDocComplete(d);
  }

  /** The contract of parse_jobject for the text of a value taken by itself. */
  lemma ParsedAlone(m1: Memory, m2: Memory, st: nat, json: Ptr, v: Value, ok: bool)
    requires v.Obj? && WellFormed(v) && Count(v) <= MAX_THINGS && ParsePost(m1, m2, st, json, Render(v), ok)
    ensures Only(m1, m2, st, json.buf, json.off, json.off + |Render(v)|) && Tidy(m2)
    ensures ok <==> LevelOk(v.items)
    ensures ok ==> st in m2.tabs
    ensures Good(v.items) ==>
      ok && RepTab(m2, st, v.items, json.buf, json.off + 1, m1.next) && m2.next == m1.next + Blocks(v.items, |v.items|)
    ensures ok ==> HasTab(m2, m1.next, st, v.items, json.buf, json.off + 1)
    ensures !ok ==> Dead(m2, m1.next, st)
  {
    hide Render, WellFormed, ReadDoc, RepTab, Only, Tidy, Count, HasTab, Dead;
    ReadRendered(v);
  }

  lemma JunkAlone(v: Value, junk: Token)
    requires WellFormed(v) && (junk.kind == Undefined || !HasTail(v)) && Count(v) < MAX_THINGS
    ensures JunkOk(Render(v), junk)
  {
    hide ReadDoc, Render, WellFormed, HasTail, Count;
    ReadRendered(v);
  }

  /** Later changes to blocks of its own leave what is said about the older blocks. */
  lemma OnlyAfter(
    m0: Memory, m1: Memory, m2: Memory, st: nat, b: nat, lo: int, hi: int, st': nat, b': nat, lo': int, hi': int)
    requires Only(m0, m1, st, b, lo, hi) && Only(m1, m2, st', b', lo', hi')
    requires m0.next <= st' && m0.next <= b' && b < m0.next && st < m0.next
    ensures Only(m0, m2, st, b, lo, hi)
    ensures b in m2.texts && m2.texts[b] == m1.texts[b]
    ensures st in m1.tabs ==> st in m2.tabs && m2.tabs[st] == m1.tabs[st]
  {
  }

  lemma FreshKept(m: Memory, m': Memory, json: Ptr, text: string, from: int)
    requires Fresh(m, json, text, from) && json.buf in m'.texts && m'.texts[json.buf] == m.texts[json.buf]
    ensures Fresh(m', json, text, from)
  {
  }

  /** The memory just before the member object at `q` is parsed from the duplicate of its text. */
  ghost function ObjectArm(m0: Memory, st: nat, json: Ptr, name: string, v: Value, q: int): Memory
    requires st in m0.tabs && json.buf in m0.texts && 0 <= json.off + q
    requires json.off + q + |Render(v)| < |m0.texts[json.buf]|
  {
    var x := m0.next;
    PutMgt(Strdup(ObjectMarked(m0, st, json, name, v, q), Ptr(json.buf, json.off + q)), x + 1, JSON_SYM_NAME, x + 2)
  }

  ghost predicate ArmReady(m0: Memory, st: nat, json: Ptr, text: string, name: string, v: Value, q: int)
    requires st in m0.tabs && json.buf in m0.texts && 0 <= json.off + q
    requires json.off + q + |Render(v)| < |m0.texts[json.buf]|
  {
    var x, m := m0.next, ObjectArm(m0, st, json, name, v, q);
    && Only(m0, m, st, json.buf, json.off + q, json.off + q + |Render(v)| + 1)
    && Fresh(m, json, text, q + |Render(v)| + 1)
    && Callable(m, x + 1, Ptr(x + 2, 0), Render(v))
    && x in m.things && m.things[x] == Thing(Object, PtUnknown, 1, TabPtr(x + 1)) && m.next == x + 3
    && x + 1 in m.tabs && m.tabs[x + 1].mgt == map[JSON_SYM_NAME := x + 2]
    && st in m.tabs && m.tabs[st].obj == m0.tabs[st].obj[name := x]
  }

  lemma ObjectArmReady(m0: Memory, st: nat, json: Ptr, text: string, name: string, v: Value, q: int)
    requires v.Obj? && WellFormed(v) && q >= 1
    requires At(text, q, Render(v)) && q + |Render(v)| < |text| && Fresh(m0, json, text, q)
    requires st in m0.tabs && Tidy(m0)
    ensures json.buf in m0.texts && json.off + q >= 0 && json.off + q + |Render(v)| < |m0.texts[json.buf]|
    ensures ArmReady(m0, st, json, text, name, v, q)
  {
    hide Render, WellFormed, At, Fresh, Only, Tidy, CStr, ObjectArm;
    FreshBounds(m0, json, text, q);
    AtBounds(text, q, Render(v));
    FirstChar(v);
    TidyTab(m0, st);
    TidyText(m0, json.buf);
    ObjectArmSafe(m0, st, json, text, name, v, q);
    ValuePoked(m0, json, text, v, q);
    ObjectArmHolds(m0, st, json, name, v, q);
    TextAlone(v);
  }

  /** The same up to the marking of the object's end. */
  ghost function ObjectMarked(m0: Memory, st: nat, json: Ptr, name: string, v: Value, q: int): Memory
    requires st in m0.tabs && json.buf in m0.texts && 0 <= json.off + q
    requires json.off + q + |Render(v)| < |m0.texts[json.buf]|
  {
    var x := m0.next;
    var m1 := SymAlloc(MkThing(m0, st, name, Thing(Object, PtUnknown, 1, Fv(0.0))));
    Poke(SetThing(m1, x, m1.things[x].(v := TabPtr(x + 1))), json.buf, json.off + q + |Render(v)|)
  }

  lemma ObjectMarkedSafe(m0: Memory, st: nat, json: Ptr, text: string, name: string, v: Value, q: int)
    requires q >= 1 && |Render(v)| > 0 && q + |Render(v)| < |text| && Fresh(m0, json, text, q)
    requires st in m0.tabs && Tidy(m0)
    requires json.buf in m0.texts && 0 <= json.off + q && json.off + q + |Render(v)| < |m0.texts[json.buf]|
    ensures var m := ObjectMarked(m0, st, json, name, v, q);
      && Only(m0, m, st, json.buf, json.off + q, json.off + q + |Render(v)| + 1)
      && Fresh(m, json, text, q + |Render(v)| + 1) && Tidy(m)
  {
    hide Render, Fresh, Only, Tidy, CStr;
    TidyTab(m0, st);
    var x, e := m0.next, q + |Render(v)|;
    var lo, hi := json.off + q, json.off + e + 1;
    var th := Thing(Object, PtUnknown, 1, Fv(0.0));
    var m1 := MkThing(m0, st, name, th);
    MkThingOnly(m0, st, name, th, json, text, q, lo, hi);
    SymAllocOnly(m0, m1, st, json, text, q, lo, hi);
    var m2 := SetThing(SymAlloc(m1), x, th.(v := TabPtr(x + 1)));
    SetThingAfter(m0, SymAlloc(m1), x, th.(v := TabPtr(x + 1)), st, json, text, q, lo, hi);
    PokeOnly(m2, json, text, st, q, e, lo, hi);
    OnlyTrans(m0, m2, Poke(m2, json.buf, json.off + e), st, json.buf, lo, hi);
  }

  lemma ObjectArmSafe(m0: Memory, st: nat, json: Ptr, text: string, name: string, v: Value, q: int)
    requires q >= 1 && |Render(v)| > 0 && q + |Render(v)| < |text| && Fresh(m0, json, text, q)
    requires st in m0.tabs && Tidy(m0)
    requires json.buf in m0.texts && 0 <= json.off + q && json.off + q + |Render(v)| < |m0.texts[json.buf]|
    ensures var m := ObjectArm(m0, st, json, name, v, q);
      && Only(m0, m, st, json.buf, json.off + q, json.off + q + |Render(v)| + 1)
      && Fresh(m, json, text, q + |Render(v)| + 1) && Tidy(m)
  {
    hide Render, Fresh, Only, Tidy, CStr;
    TidyTab(m0, st);
    var x, from, lo, hi := m0.next, q + |Render(v)| + 1, json.off + q, json.off + q + |Render(v)| + 1;
    ObjectMarkedSafe(m0, st, json, text, name, v, q);
    var m3 := ObjectMarked(m0, st, json, name, v, q);
    var p := Ptr(json.buf, json.off + q);
    StrdupOnly(m0, m3, st, json, text, from, lo, hi, p);
    PutMgtAfter(m0, Strdup(m3, p), x + 1, JSON_SYM_NAME, x + 2, st, json, text, from, lo, hi);
  }

  lemma ObjectArmHolds(m0: Memory, st: nat, json: Ptr, name: string, v: Value, q: int)
    requires st in m0.tabs && st < m0.next && json.buf < m0.next
    requires json.buf in m0.texts && 0 <= json.off + q && json.off + q + |Render(v)| < |m0.texts[json.buf]|
    ensures var x, m := m0.next, ObjectArm(m0, st, json, name, v, q);
      && x + 1 in m.tabs && m.tabs[x + 1] == Table(map[], map[JSON_SYM_NAME := x + 2])
      && x + 2 in m.texts
      && m.texts[x + 2] == CStr(m0.texts[json.buf][json.off + q + |Render(v)| := NUL], json.off + q) + [NUL]
      && x in m.things && m.things[x] == Thing(Object, PtUnknown, 1, TabPtr(x + 1)) && m.next == x + 3
      && st in m.tabs && m.tabs[st].obj == m0.tabs[st].obj[name := x]
  {
    hide Render, CStr;
  }

  lemma TidyTab(m: Memory, st: nat)
    requires Tidy(m) && st in m.tabs
    ensures st < m.next
  {
  }

  /** Once its end is marked, a value reads as a C string of its own. */
  lemma ValuePoked(m0: Memory, json: Ptr, text: string, v: Value, q: int)
    requires WellFormed(v) && q >= 1
    requires At(text, q, Render(v)) && q + |Render(v)| < |text| && Fresh(m0, json, text, q)
    ensures json.buf in m0.texts && json.off + q >= 0 && json.off + q + |Render(v)| < |m0.texts[json.buf]|
    ensures CStr(m0.texts[json.buf][json.off + q + |Render(v)| := NUL], json.off + q) == Render(v)
  {
    hide Render, WellFormed, Fresh;
    FreshBounds(m0, json, text, q);
    FreshAt(m0, json, text, q, q, Render(v));
    RenderNoNul(v);
    var e := json.off + q + |Render(v)|;
    PokeAt(m0.texts[json.buf], json.off + q, Render(v), e);
    CStrIs(m0.texts[json.buf][e := NUL], json.off + q, Render(v));
  }

  lemma TextAlone(v: Value)
    requires WellFormed(v)
    ensures CStr(Render(v) + [NUL], 0) == Render(v)
  {
    hide Render, WellFormed;
    RenderNoNul(v);
    AtEnd([], Render(v));
    AtExtend([] + Render(v), [NUL], 0, Render(v));
    assert [] + Render(v) + [NUL] == Render(v) + [NUL];
    CStrIs(Render(v) + [NUL], 0, Render(v));
  }

  lemma SymAllocOnly(m0: Memory, m: Memory, st: nat, json: Ptr, text: string, from: int, lo: int, hi: int)
    requires Only(m0, m, st, json.buf, lo, hi) && Tidy(m) && Fresh(m, json, text, from)
    requires (st in m0.tabs ==> st in m.tabs)
    ensures Only(m0, SymAlloc(m), st, json.buf, lo, hi) && Tidy(SymAlloc(m)) && Fresh(SymAlloc(m), json, text, from)
  {
  }

  lemma SetThingAfter(
    m0: Memory, m: Memory, x: nat, th: Thing, st: nat, json: Ptr, text: string, from: int, lo: int, hi: int)
    requires Only(m0, m, st, json.buf, lo, hi) && Tidy(m) && Fresh(m, json, text, from)
    requires m0.next <= x && x in m.things
    ensures var m' := SetThing(m, x, th); Only(m0, m', st, json.buf, lo, hi) && Tidy(m') && Fresh(m', json, text, from)
  {
  }

  lemma StrdupOnly(m0: Memory, m: Memory, st: nat, json: Ptr, text: string, from: int, lo: int, hi: int, p: Ptr)
    requires Only(m0, m, st, json.buf, lo, hi) && Tidy(m) && Fresh(m, json, text, from)
    requires p.buf in m.texts && 0 <= p.off <= |m.texts[p.buf]|
    ensures var m' := Strdup(m, p); Only(m0, m', st, json.buf, lo, hi) && Tidy(m') && Fresh(m', json, text, from)
  {
    hide CStr;
  }

  lemma PutMgtAfter(
    m0: Memory, m: Memory, t: nat, name: string, block: nat, st: nat, json: Ptr, text: string, from: int, lo: int,
    hi: int)
    requires Only(m0, m, st, json.buf, lo, hi) && Tidy(m) && Fresh(m, json, text, from)
    requires t in m.tabs && m0.next <= t && st < m0.next
    ensures var m' := PutMgt(m, t, name, block);
      Only(m0, m', st, json.buf, lo, hi) && Tidy(m') && Fresh(m', json, text, from)
  {
  }

  /** The thing, its table and the duplicate of the object's text, which the table is to own. */
  method StartObject(h: Heap, st: nat, json: Ptr, name: string, tok: Token, ghost v: Value, ghost q: int)
    requires st in h.mem.tabs && json.buf in h.mem.texts && st < h.mem.next && json.buf < h.mem.next
    requires 0 <= json.off + q && json.off + q + |Render(v)| < |h.mem.texts[json.buf]|
    requires tok.start == q && tok.end == q + |Render(v)|
    modifies h
    ensures h.mem == ObjectArm(old(h.mem), st, json, name, v, q)
  {
    hide Render, CStr;
    var x := h.mem.next;
    h.mem := MkThing(h.mem, st, name, Thing(Object, PtUnknown, 1, Fv(0.0)));
    h.mem := SymAlloc(h.mem);
    h.mem := SetThing(h.mem, x, h.mem.things[x].(v := TabPtr(x + 1)));
    var obj := Extract(h, json, tok);
    h.mem := Strdup(h.mem, obj);
    h.mem := PutMgt(h.mem, x + 1, JSON_SYM_NAME, x + 2);
  }

  method PutObject(h: Heap, st: nat, json: Ptr, name: string, toks: seq<Token>, d: nat, junk: Token,
                   ghost text: string, ghost v: Value, ghost q: int)
    returns (step: nat)
    requires v.Obj? && WellFormed(v) && q >= 1 && Count(v) < MAX_THINGS
    requires At(text, q, Render(v)) && q + |Render(v)| < |text| && Fresh(h.mem, json, text, q)
    requires At(toks, d, Tokens(v, q)) && Outside(toks, d, v, q) && WellNested(toks)
    requires st in h.mem.tabs && Tidy(h.mem) && (junk.kind == Undefined || !HasTail(v))
    modifies h
    ensures ArmPost(old(h.mem), h.mem, st, json, text, name, v, q)
    ensures d + Count(v) <= |toks|
    ensures d + step == 1 + (if Tail(v) && d + Count(v) == |toks| then |toks| - 1 else d + Count(v))
    ensures Marked(old(h.mem), h.mem, json, q + |Render(v)|)
    decreases |text|, 2
  {
    hide Render, WellFormed, At, Only, Fresh, Tidy, ReadDoc, RepTab, HasTail, Tokens, WellNested, Outside, Good, CStr,
      ParsePost, ArmPost, ItemsTokens, Count, JunkOk, ObjectArm, Marked;
    ghost var m0 := h.mem;
    ObjectArmReady(m0, st, json, text, name, v, q);
    TokensCount(v, q);
    ContainerTokens(v, q);
    SubEndIs(toks, d, v, q);
    AtIndex(toks, d, Tokens(v, q));
    TidyTab(m0, st);
    TidyText(m0, json.buf);
    var x := h.mem.next;
    StartObject(h, st, json, name, toks[d], v, q);
    ghost var m1 := h.mem;
    JunkAlone(v, junk);
    var parsed := ParseObject(h, x + 1, Ptr(x + 2, 0), junk);
    ObjectArmDone(m0, m1, h.mem, st, json, text, name, v, q, parsed);
    ObjectMarks(m0, m1, h.mem, st, json, name, v, q, parsed);
    var skip := SkipNested(toks, d);
    step := 2 + skip;
    EmptyCount(v);
  }

  /** Of the text itself only the byte at `e` is changed. */
  ghost predicate Marked(m: Memory, m': Memory, json: Ptr, e: int) {
    && json.buf in m.texts && 0 <= json.off + e < |m.texts[json.buf]|
    && json.buf in m'.texts && m'.texts[json.buf] == m.texts[json.buf][json.off + e := NUL]
  }

  lemma ObjectMarks(m0: Memory, m1: Memory, m2: Memory, st: nat, json: Ptr, name: string, v: Value, q: int, ok: bool)
    requires st in m0.tabs && json.buf in m0.texts && 0 <= json.off + q && Tidy(m0)
    requires json.off + q + |Render(v)| < |m0.texts[json.buf]| && m1 == ObjectArm(m0, st, json, name, v, q)
    requires ParsePost(m1, m2, m0.next + 1, Ptr(m0.next + 2, 0), Render(v), ok)
    ensures Marked(m0, m2, json, q + |Render(v)|)
  {
    hide Render, RepTab, ReadDoc, HasTab, Dead, LevelOk, Good, CStr, Tidy;
    TidyText(m0, json.buf);
  }

  // ----- where an item's tokens are

  lemma AtTrans<T>(a: seq<T>, o: int, b: seq<T>, c: int, s: seq<T>)
    requires At(a, o, b) && At(b, c, s)
    ensures At(a, o + c, s)
  {
    AtIndex(a, o, b);
    AtIndex(b, c, s);
    AtEqual(a, o + c, s);
  }

  /** Item `k` in the text and its tokens in the array, when the items' tokens start at `base`. */
  lemma ItemFacts(text: string, toks: seq<Token>, items: seq<Item>, base: nat, o: int, k: nat)
    requires k < |items| && At(text, o, RenderItems(items, |items|))
    requires At(toks, base, ItemsTokens(items, |items|, o))
    ensures var p, key := ValPos(items, k, o), KeyTokens(items[k].key, o + Len(items, k) + |items[k].lead|);
      && At(text, o + Len(items, k) + |items[k].lead|, KeyText(items[k].key))
      && At(text, p, Render(items[k].val))
      && At(toks, base + CountItems(items, k), key)
      && At(toks, base + CountItems(items, k) + |key|, Tokens(items[k].val, p))
      && CountItems(items, k + 1) == CountItems(items, k) + |key| + Count(items[k].val)
      && p + |Render(items[k].val)| <= o + Len(items, k + 1) - 1
    ensures base + CountItems(items, |items|) <= |toks|
    ensures k + 1 < |items| ==>
      base + CountItems(items, k + 1) < |toks| && toks[base + CountItems(items, k + 1)].start >= o + Len(items, k + 1)
  {
    hide At, ItemText, Render, ItemsTokens, Tokens, KeyText, RenderItems;
    var n, it, q := |items|, items[k], o + Len(items, k);
    ItemAt(text, o, items, n, k);
    ItemParts(text, q, it);
    ItemTextLength(it);
    ItemTokensAt(items, n, o, k);
    AtTrans(toks, base, ItemsTokens(items, n, o), CountItems(items, k), ItemTokens(it, q));
    AtConcat(toks, base + CountItems(items, k), KeyTokens(it.key, q + |it.lead|), Tokens(it.val, q + ValSkip(it)));
    ItemsTokensCount(items, n, o);
    AtIndex(toks, base, ItemsTokens(items, n, o));
    if k + 1 < n {
      NextStart(toks, items, base, o, k + 1);
    }
  }

  lemma NextStart(toks: seq<Token>, items: seq<Item>, base: nat, o: int, k: nat)
    requires k < |items| && At(toks, base, ItemsTokens(items, |items|, o))
    ensures base + CountItems(items, k) < |toks| && toks[base + CountItems(items, k)].start >= o + Len(items, k)
  {
    hide At, ItemText, ItemsTokens, ItemTokens;
    var sub := ItemTokens(items[k], o + Len(items, k));
    ItemTokensAt(items, |items|, o, k);
    AtTrans(toks, base, ItemsTokens(items, |items|, o), CountItems(items, k), sub);
    AtIndex(toks, base + CountItems(items, k), sub);
    ItemTokensCount(items[k], o + Len(items, k));
    ItemNest(items[k], o + Len(items, k));
    assert toks[base + CountItems(items, k)] == sub[0];
  }

  // ----- elements of an array

  ghost predicate ElemPost(m0: Memory, m1: Memory, th: Thing, json: Ptr, text: string, v: Value, q: int) {
    && Tidy(m1) && Only(m0, m1, m0.next, json.buf, json.off + q, json.off + q + |Render(v)| + 1)
    && Fresh(m1, json, text, q + |Render(v)| + 1)
    && (GoodElem(v) ==> RepElem(m1, th, v, json.buf, json.off + q, m0.next) && m1.next == m0.next + ElemBlocks(v))
    && (!v.Arr? ==> HasElem(m1, m0.next, th, v, json.buf, json.off + q))
  }

  /** One round of the array loop, for the element at token `d`; what it stores is returned. A false
      result is the error return for an array inside an array. */
  method ParseElement(
    h: Heap, json: Ptr, toks: seq<Token>, d: nat, junk: Token, ghost text: string, ghost v: Value, ghost q: int)
    returns (ok: bool, th: Thing, step: nat)
    requires WellFormed(v) && q >= 1 && Count(v) < MAX_THINGS
    requires At(text, q, Render(v)) && q + |Render(v)| < |text| && Fresh(h.mem, json, text, q)
    requires At(toks, d, Tokens(v, q)) && Outside(toks, d, v, q) && WellNested(toks)
    requires Tidy(h.mem) && (junk.kind == Undefined || !HasTail(v))
    modifies h
    ensures ok <==> !v.Arr?
    ensures ok ==> ElemPost(old(h.mem), h.mem, th, json, text, v, q)
    ensures !ok ==> h.mem == old(h.mem)
    ensures ok ==> d + Count(v) <= |toks|
    ensures ok ==> d + step == if NonEmptyObject(v) && d + Count(v) == |toks| then |toks| - 1 else d + Count(v)
    decreases |text|, 1
  {
    hide Render, WellFormed, At, Only, Fresh, Tidy, ReadDoc, RepTab, HasTail, WellNested, Outside, Good, CStr, RepLeaf;
    ghost var m0 := h.mem;
    TokensCount(v, q);
    AtIndex(toks, d, Tokens(v, q));
    ok, step := true, 1;
    if toks[d].kind == Object {
      ElemArmReady(m0, json, text, v, q);
      var t := h.mem.next;
      h.mem := SymAlloc(h.mem);
      th := Thing(Object, PtUnknown, 0, TabPtr(t));
      var obj := Extract(h, json, toks[d]);
      ghost var m1 := h.mem;
      JunkAlone(v, junk);
      var parsed := ParseObject(h, t, obj, junk);
      ElemArmDone(m0, m1, h.mem, json, text, v, q, parsed);
      SubEndIs(toks, d, v, q);
      var skip := SkipNested(toks, d);
      step := 1 + skip;
      EmptyCount(v);
    } else if toks[d].kind == Array {
      ok, th := false, Thing(Undefined, PtUnknown, 0, Fv(0.0));
    } else {
      ghost var e;
      th, e := LeafThing(h, json, toks[d], 0, text, v, q);
      ElemLeafDone(m0, json, text, v, q, e);
    }
  }

  lemma ObjectArmDone(
    m0: Memory, m1: Memory, m2: Memory, st: nat, json: Ptr, text: string, name: string, v: Value, q: int,
    parsed: bool)
    requires v.Obj? && WellFormed(v) && Count(v) <= MAX_THINGS && st in m0.tabs && Tidy(m0) && json.buf in m0.texts
    requires Only(m0, m1, st, json.buf, json.off + q, json.off + q + |Render(v)| + 1)
    requires Fresh(m1, json, text, q + |Render(v)| + 1)
    requires var x := m0.next;
      && m1.next == x + 3 && x in m1.things && m1.things[x] == Thing(Object, PtUnknown, 1, TabPtr(x + 1))
      && x + 1 in m1.tabs && m1.tabs[x + 1].mgt == map[JSON_SYM_NAME := x + 2]
      && st in m1.tabs && m1.tabs[st].obj == m0.tabs[st].obj[name := x]
      && ParsePost(m1, m2, x + 1, Ptr(x + 2, 0), Render(v), parsed)
    ensures ArmPost(m0, m2, st, json, text, name, v, q)
  {
    hide Render, WellFormed, Fresh, RepTab, Only, Tidy, ParsePost, Good, HasTab, Dead, LevelOk;
    var x := m0.next;
    TidyTab(m0, st);
    TidyText(m0, json.buf);
    ParsedAlone(m1, m2, x + 1, Ptr(x + 2, 0), v, parsed);
    OnlyAfter(m0, m1, m2, st, json.buf, json.off + q, json.off + q + |Render(v)| + 1, x + 1, x + 2, 0, |Render(v)|);
    FreshKept(m1, m2, json, text, q + |Render(v)| + 1);
    OnlyKeeps(m1, m2, x + 1, x + 2, 0, |Render(v)|, x);
    OnlyNext(m1, m2, x + 1, x + 2, 0, |Render(v)|);
    assert m2.things[x] == Thing(Object, PtUnknown, 1, TabPtr(x + 1));
    if parsed {
      TabBelow(m2, x + 3, x, x + 1, v.items, x + 2, 1);
      assert m2.tabs[x + 1].mgt[JSON_SYM_NAME] == x + 2;
      assert HasOwned(m2, x, x + 1, v.items);
      assert HasValue(m2, x, m2.things[x], v, json.buf, json.off + q);
    } else {
      DeadBelow(m2, x + 3, x, x + 1);
    }
  }

  lemma OnlyNext(m: Memory, m': Memory, st: nat, b: nat, lo: int, hi: int)
    requires Only(m, m', st, b, lo, hi)
    ensures m.next <= m'.next
  {
  }

  lemma TidyText(m: Memory, b: nat)
    requires Tidy(m) && b in m.texts
    ensures b < m.next
  {
  }

  lemma OnlyKeeps(m: Memory, m': Memory, st: nat, b: nat, lo: int, hi: int, id: nat)
    requires Only(m, m', st, b, lo, hi) && id < m.next
    ensures id in m.things ==> id in m'.things && m'.things[id] == m.things[id]
    ensures id in m.arrays ==> id in m'.arrays && m'.arrays[id] == m.arrays[id]
    ensures id != st && id in m.tabs ==> id in m'.tabs && m'.tabs[id] == m.tabs[id]
    ensures b in m'.texts
    ensures st in m.tabs && st in m'.tabs ==> m'.tabs[st].mgt == m.tabs[st].mgt
  {
  }

  lemma ElemArmReady(m0: Memory, json: Ptr, text: string, v: Value, q: int)
    requires v.Obj? && WellFormed(v) && q >= 1
    requires At(text, q, Render(v)) && q + |Render(v)| < |text| && Fresh(m0, json, text, q) && Tidy(m0)
    ensures json.buf in m0.texts && json.off + q >= 0 && json.off + q + |Render(v)| < |m0.texts[json.buf]|
    ensures var m := Poke(SymAlloc(m0), json.buf, json.off + q + |Render(v)|);
      && Only(m0, m, m0.next, json.buf, json.off + q, json.off + q + |Render(v)| + 1)
      && Fresh(m, json, text, q + |Render(v)| + 1)
      && Callable(m, m0.next, Ptr(json.buf, json.off + q), Render(v))
  {
    hide Render, WellFormed, At, Fresh, Only, Tidy, CStr;
    FreshBounds(m0, json, text, q);
    AtBounds(text, q, Render(v));
    var e := q + |Render(v)|;
    var lo, hi := json.off + q, json.off + e + 1;
    OnlyRefl(m0, m0.next, json.buf, lo, hi);
    TidyNext(m0);
    SymAllocOnly(m0, m0, m0.next, json, text, q, lo, hi);
    PokeOnly(SymAlloc(m0), json, text, m0.next, q, e, lo, hi);
    OnlyStep(m0, SymAlloc(m0), Poke(SymAlloc(m0), json.buf, json.off + e), m0.next, json.buf, lo, hi);
    ValuePoked(m0, json, text, v, q);
  }

  lemma OnlyRefl(m: Memory, st: nat, b: nat, lo: int, hi: int)
    requires b in m.texts
    ensures Only(m, m, st, b, lo, hi)
  {
  }

  lemma TidyNext(m: Memory)
    requires Tidy(m)
    ensures m.next !in m.tabs && m.next !in m.texts && m.next !in m.things && m.next !in m.arrays
  {
  }

  /** When the table `st` is a new one, nothing is said about it. */
  lemma OnlyStep(m: Memory, m1: Memory, m2: Memory, st: nat, b: nat, lo: int, hi: int)
    requires Only(m, m1, st, b, lo, hi) && Only(m1, m2, st, b, lo, hi) && st !in m.tabs
    ensures Only(m, m2, st, b, lo, hi)
  {
  }

  lemma ElemArmDone(m0: Memory, m1: Memory, m2: Memory, json: Ptr, text: string, v: Value, q: int, parsed: bool)
    requires v.Obj? && WellFormed(v) && Count(v) <= MAX_THINGS && Tidy(m0)
    requires json.buf in m0.texts && json.off + q + |Render(v)| < |m0.texts[json.buf]| && 0 <= json.off + q
    requires m1 == Poke(SymAlloc(m0), json.buf, json.off + q + |Render(v)|)
    requires Only(m0, m1, m0.next, json.buf, json.off + q, json.off + q + |Render(v)| + 1)
    requires Fresh(m1, json, text, q + |Render(v)| + 1) && q + |Render(v)| < |text|
    requires ParsePost(m1, m2, m0.next, Ptr(json.buf, json.off + q), Render(v), parsed)
    ensures ElemPost(m0, m2, Thing(Object, PtUnknown, 0, TabPtr(m0.next)), json, text, v, q)
  {
    hide Render, WellFormed, Fresh, RepTab, Only, Tidy, ParsePost, Good, HasTab, Dead, LevelOk;
    var lo, hi := json.off + q, json.off + q + |Render(v)| + 1;
    TidyNext(m0);
    assert m1.tabs[m0.next].mgt == map[];
    ParsedAlone(m1, m2, m0.next, Ptr(json.buf, json.off + q), v, parsed);
    OnlyWiden(m1, m2, m0.next, json.buf, lo, json.off + q + |Render(v)|, lo, hi);
    OnlyStep(m0, m1, m2, m0.next, json.buf, lo, hi);
    FreshOnly(m1, m2, json, text, m0.next, q + |Render(v)| + 1, q, q + |Render(v)|);
    OnlyKeeps(m1, m2, m0.next, json.buf, lo, hi, m0.next);
    OnlyNext(m1, m2, m0.next, json.buf, lo, hi);
    if parsed {
      TabBelow(m2, m1.next, m0.next, m0.next, v.items, json.buf, json.off + q + 1);
    } else {
      DeadBelow(m2, m1.next, m0.next, m0.next);
    }
  }

  lemma ElemLeafDone(m0: Memory, json: Ptr, text: string, v: Value, q: int, e: int)
    requires Fresh(m0, json, text, q) && Tidy(m0) && q < e <= q + |Render(v)| && q + |Render(v)| < |text| && q >= 1
    ensures json.buf in m0.texts && 0 <= json.off + e < |m0.texts[json.buf]|
    ensures var m1 := Poke(m0, json.buf, json.off + e);
      && Tidy(m1) && Only(m0, m1, m0.next, json.buf, json.off + q, json.off + q + |Render(v)| + 1)
      && Fresh(m1, json, text, q + |Render(v)| + 1) && m1.next == m0.next
  {
    hide Render, Only, Tidy, Fresh;
    FreshBounds(m0, json, text, q);
    PokeOnly(m0, json, text, m0.next, q, e, json.off + q, json.off + q + |Render(v)| + 1);
    FreshLater(Poke(m0, json.buf, json.off + e), json, text, e + 1, q + |Render(v)| + 1);
  }

  // ----- arrays

  ghost predicate GoodUpTo(items: seq<Item>, k: nat)
    requires k <= |items|
  {
    forall j :: 0 <= j < k ==> GoodElem(items[j].val)
  }

  /** The array loop after `k` rounds. */
  ghost predicate ArrInv(
    m0: Memory, m: Memory, st: nat, json: Ptr, text: string, name: string, v: Value, q: int, k: nat)
    requires v.Arr? && k <= |v.items|
  {
    ArrSafe(m0, m, st, json, text, name, v, q, k) && ArrGood(m0, m, json, v, q, k) && ArrHas(m0, m, json, v, q, k)
  }

  ghost predicate ArrSafe(
    m0: Memory, m: Memory, st: nat, json: Ptr, text: string, name: string, v: Value, q: int, k: nat)
    requires v.Arr? && k <= |v.items|
  {
    var x := m0.next;
    && st in m0.tabs && st in m.tabs && Tidy(m) && st < x && json.buf < x && x + 2 <= m.next
    && Only(m0, m, st, json.buf, json.off + q, json.off + q + |Render(v)| + 1)
    && Fresh(m, json, text, q + 1 + Len(v.items, k))
    && x in m.things && m.things[x] == Thing(Array, PtUnknown, |v.items|, ArrPtr(x + 1))
    && x + 1 in m.arrays && |m.arrays[x + 1]| == |v.items|
    && m.tabs[st].obj == m0.tabs[st].obj[name := x]
  }

  /** As long as the elements are good they are represented. */
  ghost predicate ArrGood(m0: Memory, m: Memory, json: Ptr, v: Value, q: int, k: nat)
    requires v.Arr? && k <= |v.items|
  {
    var x := m0.next;
    GoodUpTo(v.items, k) ==>
      && x + 1 in m.arrays && |m.arrays[x + 1]| == |v.items|
      && RepElems(m, m.arrays[x + 1], v.items, k, json.buf, json.off + q + 1, x + 2)
      && m.next == x + 2 + ElemsBlocks(v.items, k)
  }

  /** In any case they are held, each as far as it keeps the rules. */
  ghost predicate ArrHas(m0: Memory, m: Memory, json: Ptr, v: Value, q: int, k: nat)
    requires v.Arr? && k <= |v.items|
  {
    var x := m0.next;
    && x + 1 in m.arrays && |m.arrays[x + 1]| == |v.items|
    && HasElems(m, x + 2, m.arrays[x + 1], v.items, k, json.buf, json.off + q + 1)
  }

  ghost function ArrayArm(m0: Memory, st: nat, name: string, size: nat): Memory
    requires st in m0.tabs
  {
    var x := m0.next;
    var m := MkThing(m0, st, name, Thing(Array, PtUnknown, 1, Fv(0.0)));
    SetThing(m.(arrays := m.arrays[x + 1 := Zeroed(size)], next := x + 2), x,
      m.things[x].(v := ArrPtr(x + 1), nele := size))
  }

  /** What malloc and memset make of an array of things. */
  function Zeroed(size: nat): seq<Thing> {
    seq(size, i => Thing(Undefined, PtUnknown, 0, Fv(0.0)))
  }

  lemma ArrStart(m0: Memory, st: nat, json: Ptr, text: string, name: string, v: Value, q: int)
    requires v.Arr? && st in m0.tabs && Tidy(m0) && Fresh(m0, json, text, q)
    ensures ArrInv(m0, ArrayArm(m0, st, name, |v.items|), st, json, text, name, v, q, 0)
  {
    hide Render, Only, Tidy, Fresh;
    TidyTab(m0, st);
    FreshBounds(m0, json, text, q);
    TidyText(m0, json.buf);
    ArrayArmSafe(m0, st, json, text, name, |v.items|, q, json.off + q, json.off + q + |Render(v)| + 1);
    FreshLater(ArrayArm(m0, st, name, |v.items|), json, text, q, q + 1 + Len(v.items, 0));
  }

  lemma ArrayArmSafe(m0: Memory, st: nat, json: Ptr, text: string, name: string, size: nat, from: int, lo: int, hi: int)
    requires st in m0.tabs && Tidy(m0) && Fresh(m0, json, text, from)
    ensures var m := ArrayArm(m0, st, name, size);
      Only(m0, m, st, json.buf, lo, hi) && Tidy(m) && Fresh(m, json, text, from)
  {
    hide Tidy, Zeroed;
    ArrayArmTidy(m0, st, name, size);
  }

  lemma ArrayArmTidy(m0: Memory, st: nat, name: string, size: nat)
    requires st in m0.tabs && Tidy(m0)
    ensures Tidy(ArrayArm(m0, st, name, size))
  {
    hide Zeroed;
  }

  lemma ArrayFacts(text: string, toks: seq<Token>, d: nat, v: Value, q: int)
    requires v.Arr? && At(toks, d, Tokens(v, q))
    ensures d < |toks| && toks[d].kind == Array && toks[d].size == |v.items|
    ensures d + Count(v) <= |toks| && d + |v.items| <= |toks|
    ensures Count(v) == 1 + CountItems(v.items, |v.items|) && At(toks, d + 1, ItemsTokens(v.items, |v.items|, q + 1))
  {
    hide At, Render, ItemsTokens;
    TokensCount(v, q);
    ContainerTokens(v, q);
    AtIndex(toks, d, Tokens(v, q));
    CountMonotone(v.items, 0, |v.items|);
    AtConcat(toks, d, Tokens(v, q)[..1], ItemsTokens(v.items, |v.items|, q + 1));
    assert Tokens(v, q) == Tokens(v, q)[..1] + ItemsTokens(v.items, |v.items|, q + 1);
  }

  lemma ElementFacts(text: string, toks: seq<Token>, d: nat, v: Value, q: int, k: nat)
    requires v.Arr? && WellFormed(v) && k < |v.items| && q >= 1
    requires At(text, q, Render(v)) && q + |Render(v)| < |text|
    requires At(toks, d, Tokens(v, q)) && Outside(toks, d, v, q)
    ensures var e, p := v.items[k].val, ValPos(v.items, k, q + 1);
      && p >= q && At(text, p, Render(e)) && p + |Render(e)| < q + |Render(v)|
      && WellFormed(e) && Count(e) <= Count(v)
      && At(toks, d + 1 + CountItems(v.items, k), Tokens(e, p))
      && Outside(toks, d + 1 + CountItems(v.items, k), e, p)
      && CountItems(v.items, k + 1) == CountItems(v.items, k) + Count(e)
      && p + |Render(e)| < q + 1 + Len(v.items, k + 1)
    ensures k + 1 < |v.items| ==> d + 1 + CountItems(v.items, k + 1) < |toks|
    ensures d + Count(v) == d + 1 + CountItems(v.items, |v.items|) <= |toks|
  {
    hide At, ItemsTokens, RenderItems, Tokens, Render, WellFormed, ItemOk, CountItems, Count, Len, KeyText;
    var n := |v.items|;
    ValPosAfter(v.items, k, q + 1);
    ElementOk(v, k);
    ContainerParts(text, q, v);
    ContainerLength(v);
    ArrayFacts(text, toks, d, v, q);
    ItemFacts(text, toks, v.items, d + 1, q + 1, k);
    CountMonotone(v.items, 0, k);
    CountMonotone(v.items, k + 1, n);
    LenMonotone(v.items, k + 1, n);
  }

  lemma ElementOk(v: Value, k: nat)
    requires v.Arr? && WellFormed(v) && k < |v.items|
    ensures WellFormed(v.items[k].val) && v.items[k].key.NoKey?
  {
    assert ItemsOk(v.items, false);
    assert ItemOk(v.items[k], false);
  }

  lemma ElementReady(
    m0: Memory, m: Memory, st: nat, json: Ptr, text: string, name: string, v: Value, q: int, k: nat, junk: Token)
    requires v.Arr? && k < |v.items| && ArrInv(m0, m, st, json, text, name, v, q, k)
    requires junk.kind == Undefined || !HasTail(v)
    ensures Fresh(m, json, text, ValPos(v.items, k, q + 1)) && Tidy(m)
    ensures junk.kind == Undefined || !HasTail(v.items[k].val)
  {
    hide Tidy, Only, Fresh, ArrGood, ArrHas, Len, ValPos, Render;
    ValPosAfter(v.items, k, q + 1);
    FreshLater(m, json, text, q + 1 + Len(v.items, k), ValPos(v.items, k, q + 1));
  }

  /** The thing put for `name` is released again. */
  ghost predicate Cut(m0: Memory, m: Memory, st: nat, name: string) {
    && st in m.tabs && name in m.tabs[st].obj
    && var id := m.tabs[st].obj[name]; id !in m.things && m0.next <= id < m.next
  }

  lemma ArrFail(
    m0: Memory, m: Memory, st: nat, json: Ptr, text: string, name: string, v: Value, q: int, k: nat, x: nat)
    requires v.Arr? && k < |v.items| && ArrInv(m0, m, st, json, text, name, v, q, k) && x == m0.next
    ensures var m' := m.(things := m.things - {x}, arrays := m.arrays - {x + 1});
      Tidy(m') && Only(m0, m', st, json.buf, json.off + q, json.off + q + |Render(v)| + 1) && Cut(m0, m', st, name)
  {
    hide Render, Fresh, ArrGood, ArrHas, Len, Only, Tidy;
    NewBlocksGone(m0, m, st, json.buf, json.off + q, json.off + q + |Render(v)| + 1, x);
  }

  lemma NewBlocksGone(m0: Memory, m: Memory, st: nat, b: nat, lo: int, hi: int, x: nat)
    requires Only(m0, m, st, b, lo, hi) && Tidy(m) && x >= m0.next
    ensures var m' := m.(things := m.things - {x}, arrays := m.arrays - {x + 1});
      Tidy(m') && Only(m0, m', st, b, lo, hi)
  {
  }

  /** The element just parsed is put at its place. */
  function Stored(m: Memory, y: nat, k: nat, th: Thing): Memory
    requires y in m.arrays && k < |m.arrays[y]|
  {
    m.(arrays := m.arrays[y := m.arrays[y][k := th]])
  }

  /** The array loop goes on after one more element. */
  ghost predicate ArrMore(
    m0: Memory, m1: Memory, th: Thing, st: nat, json: Ptr, text: string, name: string, v: Value, q: int, k: nat)
    requires v.Arr? && k < |v.items|
  {
    var x := m0.next;
    && x + 1 in m1.arrays && |m1.arrays[x + 1]| == |v.items|
    && ArrInv(m0, Stored(m1, x + 1, k, th), st, json, text, name, v, q, k + 1)
  }

  lemma ElementStored(
    m0: Memory, m: Memory, m1: Memory, th: Thing, st: nat, json: Ptr, text: string, name: string,
    v: Value, q: int, k: nat)
    requires v.Arr? && k < |v.items| && !v.items[k].val.Arr?
    requires ValPos(v.items, k, q + 1) + |Render(v.items[k].val)| < q + 1 + Len(v.items, k + 1)
    requires ValPos(v.items, k, q + 1) + |Render(v.items[k].val)| < q + |Render(v)|
    requires ElemPost(m, m1, th, json, text, v.items[k].val, ValPos(v.items, k, q + 1))
    requires ArrInv(m0, m, st, json, text, name, v, q, k)
    ensures ArrMore(m0, m1, th, st, json, text, name, v, q, k)
  {
    hide RepElem, RepElems, Render, Only, Tidy, Fresh, GoodElem, ValPos, ItemText, Len, ElemsBlocks, ElemBlocks,
      ArrSafe, HasElems, HasElem;
    var x, e, p := m0.next, v.items[k].val, ValPos(v.items, k, q + 1);
    ElementSafe(m0, m, m1, th, st, json, text, name, v, q, k);
    var m2 := Stored(m1, x + 1, k, th);
    if GoodUpTo(v.items, k + 1) {
      assert GoodUpTo(v.items, k) && GoodElem(e);
      ElementsKept(m, m1, m2, th, json, v.items, k, q, x, p, p + |Render(e)| + 1);
    }
    ElementHas(m, m1, m2, th, v, json, k, q, x, p, p + |Render(e)| + 1);
  }

  ghost predicate SafeMore(
    m0: Memory, m: Memory, m1: Memory, th: Thing, st: nat, json: Ptr, text: string, name: string,
    v: Value, q: int, k: nat)
    requires v.Arr? && k < |v.items|
  {
    var x := m0.next;
    && x + 1 in m.arrays && |m.arrays[x + 1]| == |v.items| && json.buf < x && x + 2 <= m.next
    && x + 1 in m1.arrays && m1.arrays[x + 1] == m.arrays[x + 1]
    && ArrSafe(m0, Stored(m1, x + 1, k, th), st, json, text, name, v, q, k + 1)
  }

  lemma ElementSafe(
    m0: Memory, m: Memory, m1: Memory, th: Thing, st: nat, json: Ptr, text: string, name: string,
    v: Value, q: int, k: nat)
    requires v.Arr? && k < |v.items|
    requires ValPos(v.items, k, q + 1) + |Render(v.items[k].val)| < q + 1 + Len(v.items, k + 1)
    requires ValPos(v.items, k, q + 1) + |Render(v.items[k].val)| < q + |Render(v)|
    requires ElemPost(m, m1, th, json, text, v.items[k].val, ValPos(v.items, k, q + 1))
    requires ArrSafe(m0, m, st, json, text, name, v, q, k)
    ensures SafeMore(m0, m, m1, th, st, json, text, name, v, q, k)
  {
    hide RepElem, Render, Only, Tidy, Fresh, GoodElem, ValPos, Len, ElemBlocks, HasElem;
    var x, e, p := m0.next, v.items[k].val, ValPos(v.items, k, q + 1);
    var lo, hi := json.off + q, json.off + q + |Render(v)| + 1;
    ValPosAfter(v.items, k, q + 1);
    TidyTab(m, st);
    OnlyKeeps(m, m1, m.next, json.buf, json.off + p, json.off + p + |Render(e)| + 1, x);
    OnlyKeeps(m, m1, m.next, json.buf, json.off + p, json.off + p + |Render(e)| + 1, x + 1);
    OnlyKeeps(m, m1, m.next, json.buf, json.off + p, json.off + p + |Render(e)| + 1, st);
    OnlyNext(m, m1, m.next, json.buf, json.off + p, json.off + p + |Render(e)| + 1);
    var m2 := Stored(m1, x + 1, k, th);
    OnlyWiden(m, m1, m.next, json.buf, json.off + p, json.off + p + |Render(e)| + 1, lo, hi);
    OnlyBase(m0, m, m1, st, json.buf, lo, hi);
    ArrayUpdated(m0, m1, m2, x + 1, st, json, text, p + |Render(e)| + 1, lo, hi);
    FreshLater(m2, json, text, p + |Render(e)| + 1, q + 1 + Len(v.items, k + 1));
  }

  lemma ElementHas(
    m: Memory, m1: Memory, m2: Memory, th: Thing, v: Value, json: Ptr, k: nat, q: int, x: nat, p: int, e: int)
    requires v.Arr? && k < |v.items| && x + 1 in m.arrays && |m.arrays[x + 1]| == |v.items| && x + 2 <= m.next
    requires x + 1 in m1.arrays && m1.arrays[x + 1] == m.arrays[x + 1] && json.buf < x
    requires m2 == Stored(m1, x + 1, k, th)
    requires Only(m, m1, m.next, json.buf, json.off + p, json.off + e) && p == ValPos(v.items, k, q + 1)
    requires HasElems(m, x + 2, m.arrays[x + 1], v.items, k, json.buf, json.off + q + 1)
    requires HasElem(m1, m.next, th, v.items[k].val, json.buf, json.off + p)
    ensures HasElems(m2, x + 2, m2.arrays[x + 1], v.items, k + 1, json.buf, json.off + q + 1)
  {
    hide HasElem, HasElems, Only, Render, ItemText, Len, ValPos, Settled, TextAgree;
    var b, o := json.buf, json.off + q + 1;
    PosShift(v.items, k, q + 1, json.off);
    ValPosAfter(v.items, k, o);
    ArraySettled(m, m1, m2, x + 1, x + 2, m.next, b, json.off + p, json.off + e);
    OnlyText(m, m1, m.next, b, json.off + p, json.off + e, o, o + Len(v.items, k) - 1);
    TextAgreeKept(m, m1, m2, b, o, o + Len(v.items, k) - 1);
    ElemsStay(m, m2, x + 2, x + 2, m.arrays[x + 1], v.items, k, b, o);
    StoredSettled(m1, m2, x + 1, m.next);
    TextAgreeRefl(m1, m2, b, json.off + p, json.off + p + |Render(v.items[k].val)|);
    ElemStays(m1, m2, m.next, x + 2, th, v.items[k].val, b, json.off + p);
    HasElemsMore(m2, x + 2, m.arrays[x + 1], th, v.items, k, b, o);
  }

  lemma ArraySettled(
    m: Memory, m1: Memory, m2: Memory, y: nat, from: nat, st: nat, b: nat, lo: int, hi: int)
    requires Only(m, m1, st, b, lo, hi) && st >= m.next && b < from && y < from
    requires y in m1.arrays && y in m2.arrays && m2 == m1.(arrays := m1.arrays[y := m2.arrays[y]])
    ensures Settled(m, m2, from)
  {
  }

  lemma StoredSettled(m1: Memory, m2: Memory, y: nat, from: nat)
    requires y < from && y in m1.arrays && y in m2.arrays && m2 == m1.(arrays := m1.arrays[y := m2.arrays[y]])
    ensures Settled(m1, m2, from)
  {
  }

  lemma OnlyBase(m0: Memory, m: Memory, m1: Memory, st: nat, b: nat, lo: int, hi: int)
    requires Only(m0, m, st, b, lo, hi) && Only(m, m1, m.next, b, lo, hi) && st in m.tabs && Tidy(m)
    ensures Only(m0, m1, st, b, lo, hi)
  {
  }

  lemma ArrayUpdated(
    m0: Memory, m1: Memory, m2: Memory, y: nat, st: nat, json: Ptr, text: string, from: int, lo: int, hi: int)
    requires Only(m0, m1, st, json.buf, lo, hi) && Tidy(m1) && Fresh(m1, json, text, from)
    requires y >= m0.next && y in m1.arrays && m2.arrays.Keys == m1.arrays.Keys
    requires (forall id :: id in m1.arrays && id != y ==> m2.arrays[id] == m1.arrays[id])
    requires m2 == m1.(arrays := m2.arrays)
    ensures Only(m0, m2, st, json.buf, lo, hi) && Tidy(m2) && Fresh(m2, json, text, from)
  {
  }

  lemma ElementsKept(
    m: Memory, m1: Memory, m2: Memory, th: Thing, json: Ptr, items: seq<Item>, k: nat, q: int, x: nat, p: int, e: int)
    requires k < |items| && x + 1 in m.arrays && |m.arrays[x + 1]| == |items| && json.buf < x
    requires x + 1 in m1.arrays && m1.arrays[x + 1] == m.arrays[x + 1]
    requires m2 == m1.(arrays := m1.arrays[x + 1 := m1.arrays[x + 1][k := th]])
    requires m.next == x + 2 + ElemsBlocks(items, k)
    requires Only(m, m1, m.next, json.buf, json.off + p, json.off + e) && p == ValPos(items, k, q + 1)
    requires RepElems(m, m.arrays[x + 1], items, k, json.buf, json.off + q + 1, x + 2)
    requires RepElem(m1, th, items[k].val, json.buf, json.off + p, m.next)
    requires m1.next == m.next + ElemBlocks(items[k].val)
    ensures RepElems(m2, m2.arrays[x + 1], items, k + 1, json.buf, json.off + q + 1, x + 2)
    ensures m2.next == x + 2 + ElemsBlocks(items, k + 1)
  {
    hide RepElem, RepElems, Only, Render, ItemText, Len, ValPos, ElemBlocks;
    var ths, b, o := m.arrays[x + 1], json.buf, json.off + q + 1;
    PosShift(items, k, q + 1, json.off);
    OldElementsKept(m, m1, m2, json, items, k, o, x, json.off + p, json.off + e);
    NewElementKept(m1, m2, th, items[k].val, b, json.off + p, m.next, x + 1);
    RepElemsMore(m2, ths, th, items, k, b, o, x + 2);
  }

  lemma OldElementsKept(
    m: Memory, m1: Memory, m2: Memory, json: Ptr, items: seq<Item>, k: nat, o: int, x: nat, lo: int, hi: int)
    requires k < |items| && x + 1 in m.arrays && |m.arrays[x + 1]| == |items| && json.buf < x
    requires x + 1 in m2.arrays && m2 == m1.(arrays := m1.arrays[x + 1 := m2.arrays[x + 1]])
    requires m.next == x + 2 + ElemsBlocks(items, k)
    requires Only(m, m1, m.next, json.buf, lo, hi) && lo == ValPos(items, k, o)
    requires RepElems(m, m.arrays[x + 1], items, k, json.buf, o, x + 2)
    ensures RepElems(m2, m.arrays[x + 1], items, k, json.buf, o, x + 2)
  {
    hide RepElems, Only, Agree, TextAgree, ItemText, Len, ValPos, ElemsBlocks;
    ValPosAfter(items, k, o);
    OnlyAgree(m, m1, m.next, json.buf, lo, hi, x + 2, m.next);
    AgreeArrays(m, m1, m2, x + 1, json.buf, x + 2, m.next);
    OnlyText(m, m1, m.next, json.buf, lo, hi, o, o + Len(items, k) - 1);
    TextAgreeKept(m, m1, m2, json.buf, o, o + Len(items, k) - 1);
    ElemsFrame(m, m2, m.arrays[x + 1], items, k, json.buf, o, x + 2);
  }

  lemma NewElementKept(m1: Memory, m2: Memory, th: Thing, v: Value, b: nat, q: int, a: nat, y: nat)
    requires RepElem(m1, th, v, b, q, a) && y < a
    requires y in m2.arrays && m2 == m1.(arrays := m1.arrays[y := m2.arrays[y]])
    ensures RepElem(m2, th, v, b, q, a)
  {
    hide RepElem, Agree, TextAgree, Render;
    AgreeRefl(m1, m2, y, a, a + ElemBlocks(v));
    TextAgreeRefl(m1, m2, b, q, q + |Render(v)|);
    ElemFrame(m1, m2, th, v, b, q, a);
  }

  lemma RepElemsMore(m: Memory, ths: seq<Thing>, th: Thing, items: seq<Item>, k: nat, b: nat, o: int, a: nat)
    requires k < |items| && |ths| == |items| && RepElems(m, ths, items, k, b, o, a)
    requires RepElem(m, th, items[k].val, b, ValPos(items, k, o), a + ElemsBlocks(items, k))
    ensures RepElems(m, ths[k := th], items, k + 1, b, o, a)
  {
    hide RepElem, ValPos, ElemsBlocks;
  }

  lemma AgreeArrays(m: Memory, m1: Memory, m2: Memory, y: nat, b: nat, lo: nat, hi: nat)
    requires Agree(m, m1, lo, hi) && y < lo && y in m2.arrays && m2 == m1.(arrays := m1.arrays[y := m2.arrays[y]])
    ensures Agree(m, m2, lo, hi)
  {
    forall id | lo <= id < hi ensures Same(m, m2, id) {
      assert Same(m, m1, id);
    }
  }

  lemma AgreeRefl(m1: Memory, m2: Memory, y: nat, lo: nat, hi: nat)
    requires y < lo && y in m2.arrays && m2 == m1.(arrays := m1.arrays[y := m2.arrays[y]])
    ensures Agree(m1, m2, lo, hi)
  {
  }

  lemma TextAgreeRefl(m1: Memory, m2: Memory, b: nat, lo: int, hi: int)
    requires m2.texts == m1.texts
    ensures TextAgree(m1, m2, b, lo, hi)
  {
  }

  lemma TextAgreeKept(m: Memory, m1: Memory, m2: Memory, b: nat, lo: int, hi: int)
    requires TextAgree(m, m1, b, lo, hi) && m2.texts == m1.texts
    ensures TextAgree(m, m2, b, lo, hi)
  {
  }

  lemma ArrDone(m0: Memory, m: Memory, st: nat, json: Ptr, text: string, name: string, v: Value, q: int)
    requires v.Arr? && Flat(v) && ArrInv(m0, m, st, json, text, name, v, q, |v.items|)
    ensures ArmPost(m0, m, st, json, text, name, v, q)
  {
    hide Render, Fresh, Only, Tidy, RepElems, HasElems, GoodElem, Len, ElemsBlocks, Settled, TextAgree;
    ContainerLength(v);
    LenZero(v.items);
    FreshLater(m, json, text, q + 1 + Len(v.items, |v.items|), q + |Render(v)| + 1);
    assert GoodValue(v) ==> GoodUpTo(v.items, |v.items|);
    SettledRefl(m, m, m0.next + 2);
    var o := json.off + q + 1;
    TextAgreeSame(m, json.buf, o, o + Len(v.items, |v.items|) - 1);
    ElemsStay(m, m, m0.next + 2, m0.next, m.arrays[m0.next + 1], v.items, |v.items|, json.buf, o);
  }

  lemma TextAgreeSame(m: Memory, b: nat, lo: int, hi: int)
    ensures TextAgree(m, m, b, lo, hi)
  {
  }

  /** The token the array loop is at after `k` elements. */
  ghost function ArrNext(v: Value, d: nat, len: nat, k: nat): nat
    requires v.Arr? && k <= |v.items|
  {
    if k == |v.items| && Tail(v) && d + Count(v) == len && len > 0 then len - 1 else d + 1 + CountItems(v.items, k)
  }

  lemma ArrNextIs(v: Value, d: nat, len: nat, k: nat)
    requires v.Arr? && k <= |v.items|
    ensures k < |v.items| ==> ArrNext(v, d, len, k) == d + 1 + CountItems(v.items, k)
    ensures k == 0 ==> ArrNext(v, d, len, k) == d + 1
    ensures k == |v.items| && d < len ==>
      ArrNext(v, d, len, k) == if Tail(v) && d + Count(v) == len then len - 1 else d + Count(v)
  {
  }

  lemma ArrNextStep(v: Value, d: nat, len: nat, k: nat, step: nat)
    requires v.Arr? && k < |v.items| && d + Count(v) <= len
    requires k + 1 < |v.items| ==> d + 1 + CountItems(v.items, k + 1) < len
    requires v.items[k].key.NoKey?
    requires var e, i := v.items[k].val, d + 1 + CountItems(v.items, k);
      i + step == if NonEmptyObject(e) && i + Count(e) == len then len - 1 else i + Count(e)
    ensures ArrNext(v, d, len, k) + step == ArrNext(v, d, len, k + 1)
  {
    assert CountItems(v.items, k + 1) ==
      CountItems(v.items, k) + Count(v.items[k].val) + if v.items[k].key.Key? then 1 else 0;
  }

  lemma ArrFacts(m0: Memory, m: Memory, st: nat, json: Ptr, text: string, name: string, v: Value, q: int, k: nat)
    requires v.Arr? && k <= |v.items| && ArrInv(m0, m, st, json, text, name, v, q, k)
    ensures Tidy(m) && Only(m0, m, st, json.buf, json.off + q, json.off + q + |Render(v)| + 1)
    ensures m0.next + 1 in m.arrays && |m.arrays[m0.next + 1]| == |v.items| && st in m.tabs
  {
    hide Tidy, Only, Fresh, ArrGood, ArrHas, Len, Render;
  }

  /** The thing and its array. The check against the number of tokens never fails for a document. */
  method StartArray(h: Heap, st: nat, name: string, toks: seq<Token>, d: nat)
    requires st in h.mem.tabs && d < |toks| && toks[d].size >= 0 && d + toks[d].size <= |toks|
    modifies h
    ensures h.mem == ArrayArm(old(h.mem), st, name, toks[d].size)
  {
    var size, x := toks[d].size, h.mem.next;
    h.mem := MkThing(h.mem, st, name, Thing(Array, PtUnknown, 1, Fv(0.0)));
    if d + size > |toks| {
      assert false;
    }
    h.mem := h.mem.(arrays := h.mem.arrays[x + 1 := Zeroed(size)], next := x + 2);
    h.mem := SetThing(h.mem, x, h.mem.things[x].(v := ArrPtr(x + 1), nele := size));
  }

  method PutArray(h: Heap, st: nat, json: Ptr, name: string, toks: seq<Token>, d: nat, junk: Token,
                  ghost text: string, ghost v: Value, ghost q: int)
    returns (ok: bool, next: nat)
    requires v.Arr? && WellFormed(v) && q >= 1 && Count(v) < MAX_THINGS
    requires At(text, q, Render(v)) && q + |Render(v)| < |text| && Fresh(h.mem, json, text, q)
    requires At(toks, d, Tokens(v, q)) && Outside(toks, d, v, q) && WellNested(toks)
    requires st in h.mem.tabs && Tidy(h.mem) && (junk.kind == Undefined || !HasTail(v))
    modifies h
    ensures ok <==> Flat(v)
    ensures ok ==> ArmPost(old(h.mem), h.mem, st, json, text, name, v, q)
    ensures !ok ==> Cut(old(h.mem), h.mem, st, name)
    ensures d + Count(v) <= |toks|
    ensures ok ==> next == if Tail(v) && d + Count(v) == |toks| then |toks| - 1 else d + Count(v)
    ensures Tidy(h.mem) && Only(old(h.mem), h.mem, st, json.buf, json.off + q, json.off + q + |Render(v)| + 1)
    decreases |text|, 2
  {
    hide Render, WellFormed, At, Only, Fresh, Tidy, HasTail, WellNested, Outside, ArrInv, Tokens, ElemPost, ArmPost,
      ArrNext, CountItems, Count, Len, ValPos, Cut, ArrayArm, Stored;
    ghost var m0, n := h.mem, |v.items|;
    ArrayFacts(text, toks, d, v, q);
    var size := toks[d].size;
    var x := h.mem.next;
    StartArray(h, st, name, toks, d);
    ArrStart(m0, st, json, text, name, v, q);
    next := d + 1;
    var k := 0;
    ArrNextIs(v, d, |toks|, 0);
    while k < size
      invariant 0 <= k <= size == n
      invariant ArrInv(m0, h.mem, st, json, text, name, v, q, k)
      invariant forall j :: 0 <= j < k ==> !v.items[j].val.Arr?
      invariant next == ArrNext(v, d, |toks|, k)
    {
      ghost var m, p := h.mem, ValPos(v.items, k, q + 1);
      ElementFacts(text, toks, d, v, q, k);
      ArrNextIs(v, d, |toks|, k);
      ElementReady(m0, m, st, json, text, name, v, q, k, junk);
      var th, step;
      ok, th, step := ParseElement(h, json, toks, next, junk, text, v.items[k].val, p);
      if !ok {
        ArrFail(m0, m, st, json, text, name, v, q, k, x);
        h.mem := h.mem.(things := h.mem.things - {x}, arrays := h.mem.arrays - {x + 1});
        return;
      }
      ElementStored(m0, m, h.mem, th, st, json, text, name, v, q, k);
      h.mem := Stored(h.mem, x + 1, k, th);
      ElementOk(v, k);
      ArrNextStep(v, d, |toks|, k, step);
      next := next + step;
      k := k + 1;
      ArrFacts(m0, h.mem, st, json, text, name, v, q, k);
    }
    ok := true;
    ArrNextIs(v, d, |toks|, k);
    ArrFacts(m0, h.mem, st, json, text, name, v, q, k);
    ArrDone(m0, h.mem, st, json, text, name, v, q);
  }

  // ----- the members of an object

  ghost predicate GoodMembersUpTo(items: seq<Item>, j: nat)
    requires j <= |items|
  {
    forall k :: 0 <= k < j ==> GoodValue(items[k].val)
  }

  /** The main loop after `j` members. */
  ghost predicate LoopInv(m0: Memory, m: Memory, st: nat, json: Ptr, text: string, items: seq<Item>, o: int, j: nat)
    requires j <= |items|
  {
    && st in m0.tabs && st in m.tabs && st < m0.next && json.buf < m0.next && Tidy(m)
    && Only(m0, m, st, json.buf, json.off, json.off + |text|)
    && Fresh(m, json, text, o + Len(items, j))
    && (GoodMembersUpTo(items, j) ==>
      && m.tabs[st].obj == Index(items, j, m0.next)
      && RepMembers(m, items, j, json.buf, json.off + o, m0.next)
      && m.next == m0.next + Blocks(items, j))
    && HasMembers(m, m0.next, m.tabs[st].obj, items, j, json.buf, json.off + o)
  }

  /** What the text and the token array of one level have to do with its members. */
  ghost predicate Level(text: string, toks: seq<Token>, items: seq<Item>, o: int) {
    && o >= 1 && ItemsOk(items, true)
    && |toks| == 1 + CountItems(items, |items|) <= MAX_THINGS
    && At(toks, 1, ItemsTokens(items, |items|, o)) && WellNested(toks) && Within(toks, 0, |text|)
    && (items != [] ==> At(text, o, RenderItems(items, |items|)) && o + Len(items, |items|) - 1 < |text|)
  }

  lemma ScanFacts(text: string)
    requires ObjectText(text)
    ensures var scan, items := Parse(text), Members(text);
      && scan.count == |scan.slots| && |scan.slots| > 0 && scan.slots[0].kind == Object
      && Level(text, scan.slots, items, Inside(text))
      && LastTokenIs(scan.slots, items, Inside(text))
  {
    hide ReadDoc, Render, WellFormed, Tokens, At, WellNested, Within, ItemsTokens, Count;
    ReadDocSound(text);
    var d, l := ReadDoc(text).val, |ReadDoc(text).val.lead|;
    TokensCount(d.val, l);
    ContainerTokens(d.val, l);
    RootAt(text, d);
    TokensNest(d.val, l);
    WithinWiden(Tokens(d.val, l), l, l + |Render(d.val)|, 0, |text|);
    LevelOfRoot(text, d.val, l);
    if d.val.items != [] {
      LastToken(d.val, l);
      TailEndBelow(d.val, l);
    }
  }

  lemma RootAt(text: string, d: Doc)
    requires text == DocText(d)
    ensures At(text, |d.lead|, Render(d.val)) && |d.lead| + |Render(d.val)| <= |text|
  {
  }

  /** The last token of a level is the last token of its last member. */
  ghost predicate LastTokenIs(toks: seq<Token>, items: seq<Item>, o: int) {
    items != [] ==>
      && toks != [] && toks[|toks| - 1].end == TailEnd(Last(items), ValPos(items, |items| - 1, o))
      && (toks[|toks| - 1].kind == String <==> EndsInString(Last(items)))
  }

  lemma LevelOfRoot(text: string, v: Value, l: nat)
    requires v.Obj? && WellFormed(v) && At(text, l, Render(v)) && Count(v) <= MAX_THINGS
    requires WellNested(Tokens(v, l)) && Within(Tokens(v, l), 0, |text|)
    ensures Level(text, Tokens(v, l), v.items, l + 1)
  {
    hide Render, Tokens, At, WellNested, Within, ItemsTokens, ItemOk, RenderItems, Len;
    var toks, n := Tokens(v, l), |v.items|;
    TokensCount(v, l);
    ContainerTokens(v, l);
    AtEnd(toks[..1], ItemsTokens(v.items, n, l + 1));
    assert toks == toks[..1] + ItemsTokens(v.items, n, l + 1);
    ContainerParts(text, l, v);
    ContainerLength(v);
    AtBounds(text, l, Render(v));
  }

  /** Where the loop stands when it comes to member `j`. */
  lemma MemberFacts(text: string, toks: seq<Token>, items: seq<Item>, o: int, j: nat)
    requires Level(text, toks, items, o) && j < |items|
    ensures var i, v, p, it := 1 + CountItems(items, j), items[j].val, ValPos(items, j, o), items[j];
      var s := o + Len(items, j) + |it.lead| + 1;
      && i + 1 < |toks| && toks[i] == Token(String, s, s + |Name(it)|, 1)
      && s + |Name(it)| < p && At(text, s, Name(it)) && RawString(Name(it))
      && WellFormed(v) && Count(v) < MAX_THINGS && p >= 1
      && At(text, p, Render(v)) && p + |Render(v)| < |text|
      && At(toks, i + 1, Tokens(v, p)) && Outside(toks, i + 1, v, p)
      && 1 + CountItems(items, j + 1) == i + 1 + Count(v) <= |toks|
      && p + |Render(v)| < o + Len(items, j + 1) && o + Len(items, j) < s
      && o + Len(items, j + 1) <= |text|
  {
    hide At, ItemsTokens, RenderItems, Tokens, Render, WellFormed, WellNested, Within, CountItems, Count, Len, ItemText;
    var n, it := |items|, items[j];
    MemberOk(items, j);
    ItemFacts(text, toks, items, 1, o, j);
    var q := o + Len(items, j) + |it.lead|;
    KeyParts(text, q, it.key);
    AtIndex(toks, 1 + CountItems(items, j), KeyTokens(it.key, q));
    LenMonotone(items, j + 1, n);
    LenMonotone(items, 0, j);
    LenZero(items);
    CountMonotone(items, j + 1, n);
    CountMonotone(items, 0, j);
    assert ValPos(items, j, o) == o + Len(items, j) + |it.lead| + |KeyText(it.key)|;
  }

  lemma MemberOk(items: seq<Item>, j: nat)
    requires ItemsOk(items, true) && j < |items|
    ensures WellFormed(items[j].val) && items[j].key.Key? && RawString(items[j].key.name)
  {
  }

  /** The name cut out of the text. */
  lemma NameExtracted(m: Memory, json: Ptr, text: string, from: int, s: int, name: string)
    requires Fresh(m, json, text, from) && Tidy(m) && At(text, s, name) && RawString(name)
    requires 0 <= from <= s && s + |name| < |text|
    ensures json.buf in m.texts && json.off >= 0 && json.off + s + |name| < |m.texts[json.buf]|
    ensures var m1 := Poke(m, json.buf, json.off + s + |name|);
      CStr(m1.texts[json.buf], json.off + s) == name && Fresh(m1, json, text, s + |name| + 1) && Tidy(m1)
  {
    hide Fresh, Tidy;
    FreshBounds(m, json, text, from);
    FreshAt(m, json, text, from, s, name);
    RawStringNoNul(name);
    var e := json.off + s + |name|;
    PokeAt(m.texts[json.buf], json.off + s, name, e);
    CStrIs(m.texts[json.buf][e := NUL], json.off + s, name);
    PokeOnly(m, json, text, 0, from, s + |name|, e, e + 1);
  }

  lemma LoopStart(m0: Memory, st: nat, json: Ptr, text: string, items: seq<Item>, o: int)
    requires Callable(m0, st, json, text) && o >= 1
    ensures LoopInv(m0, m0, st, json, text, items, o, 0)
  {
    hide CStr;
    CallableFresh(m0, st, json, text);
    FreshLater(m0, json, text, 0, o + Len(items, 0));
  }

  lemma CallableFresh(m0: Memory, st: nat, json: Ptr, text: string)
    requires Callable(m0, st, json, text)
    ensures Fresh(m0, json, text, 0)
  {
    CStrAt(m0.texts[json.buf], json.off);
    AtIndex(m0.texts[json.buf], json.off, text);
  }

  /** One member more: the name's end is marked in `m1`, the arm leads to `m2`. */
  lemma LoopStep(
    m0: Memory, m: Memory, m1: Memory, m2: Memory, st: nat, json: Ptr, text: string, items: seq<Item>, o: int, j: nat,
    e: int)
    requires j < |items| && LoopInv(m0, m, st, json, text, items, o, j) && o >= 1
    requires o + Len(items, j) <= e < ValPos(items, j, o) && e < |text|
    requires json.buf in m.texts && 0 <= json.off + e < |m.texts[json.buf]| && m1 == Poke(m, json.buf, json.off + e)
    requires ValPos(items, j, o) + |Render(items[j].val)| < o + Len(items, j + 1) <= |text|
    requires ArmPost(m1, m2, st, json, text, Name(items[j]), items[j].val, ValPos(items, j, o))
    ensures LoopInv(m0, m2, st, json, text, items, o, j + 1)
  {
    hide Only, Fresh, Tidy, RepValue, RepMembers, Render, ItemText, ValPos, Len, Blocks, Index, Poke, GoodValue,
      HasValue, HasMembers;
    var v, p := items[j].val, ValPos(items, j, o);
    var lo, hi := json.off + o + Len(items, j), json.off + o + Len(items, j + 1);
    LenMonotone(items, 0, j);
    LenZero(items);
    ValPosAfter(items, j, o);
    FreshLater(m2, json, text, p + |Render(v)| + 1, o + Len(items, j + 1));
    PokeOnly(m, json, text, st, o + Len(items, j), e, lo, hi);
    OnlyWiden(m1, m2, st, json.buf, json.off + p, json.off + p + |Render(v)| + 1, lo, hi);
    OnlyTrans(m, m1, m2, st, json.buf, lo, hi);
    OnlyWiden(m, m2, st, json.buf, lo, hi, json.off, json.off + |text|);
    OnlyTrans(m0, m, m2, st, json.buf, json.off, json.off + |text|);
    if GoodMembersUpTo(items, j + 1) {
      assert GoodMembersUpTo(items, j) && GoodValue(v);
      assert m1.tabs == m.tabs && m1.next == m.next;
      OldMembersKept(m, m2, st, json, items, o, j, m0.next, lo, hi);
      NewMember(m, m2, st, json, items, o, j, m0.next);
    }
    OnlyNext(m0, m, st, json.buf, json.off, json.off + |text|);
    assert m1.tabs == m.tabs && m1.next == m.next;
    MemberHas(m, m2, st, json, items, o, j, m0.next, lo, hi);
  }

  lemma MemberHas(
    m: Memory, m2: Memory, st: nat, json: Ptr, items: seq<Item>, o: int, j: nat, a: nat, lo: int, hi: int)
    requires j < |items| && st < a <= m.next < m2.next && json.buf < a && m.next in m2.things
    requires st in m.tabs && st in m2.tabs && m2.tabs[st].obj == m.tabs[st].obj[Name(items[j]) := m.next]
    requires Only(m, m2, st, json.buf, lo, hi) && lo == json.off + o + Len(items, j)
    requires HasMembers(m, a, m.tabs[st].obj, items, j, json.buf, json.off + o)
    requires HasValue(m2, m.next, m2.things[m.next], items[j].val, json.buf, json.off + ValPos(items, j, o))
    ensures HasMembers(m2, a, m2.tabs[st].obj, items, j + 1, json.buf, json.off + o)
  {
    hide HasMembers, HasValue, Name, Only, Settled, TextAgree, Len, ValPos, Render;
    var b, from := json.buf, json.off + o;
    OnlySettled(m, m2, st, b, lo, hi, a);
    OnlyText(m, m2, st, b, lo, hi, from, from + Len(items, j) - 1);
    MembersStay(m, m2, a, a, m.tabs[st].obj, items, j, b, from);
    PosShift(items, j, o, json.off);
    SettledRefl(m2, m2, m.next);
    var q := json.off + ValPos(items, j, o);
    TextAgreeSame(m2, b, q, q + |Render(items[j].val)|);
    ValueStays(m2, m2, m.next, a, m2.things[m.next], items[j].val, b, q);
    HasMembersMore(m2, a, m.tabs[st].obj, items, j, m.next, b, from);
  }

  lemma OnlySettled(m: Memory, m': Memory, st: nat, b: nat, lo: int, hi: int, a: nat)
    requires Only(m, m', st, b, lo, hi) && st < a && b < a
    ensures Settled(m, m', a)
  {
  }

  lemma OldMembersKept(
    m: Memory, m2: Memory, st: nat, json: Ptr, items: seq<Item>, o: int, j: nat, a: nat, lo: int, hi: int)
    requires j <= |items| && st < a && json.buf < a && m.next == a + Blocks(items, j)
    requires Only(m, m2, st, json.buf, lo, hi) && lo == json.off + o + Len(items, j)
    requires RepMembers(m, items, j, json.buf, json.off + o, a)
    ensures RepMembers(m2, items, j, json.buf, json.off + o, a)
  {
    hide Only, RepMembers, Agree, TextAgree, Len, Blocks;
    OnlyAgree(m, m2, st, json.buf, lo, hi, a, m.next);
    OnlyText(m, m2, st, json.buf, lo, hi, json.off + o, json.off + o + Len(items, j) - 1);
    MembersFrame(m, m2, items, j, json.buf, json.off + o, a);
  }

  lemma NewMember(m: Memory, m2: Memory, st: nat, json: Ptr, items: seq<Item>, o: int, j: nat, a: nat)
    requires j < |items| && m.next == a + Blocks(items, j) && st in m.tabs && st in m2.tabs
    requires m.tabs[st].obj == Index(items, j, a) && m2.tabs[st].obj == m.tabs[st].obj[Name(items[j]) := m.next]
    requires RepMembers(m2, items, j, json.buf, json.off + o, a)
    requires m.next in m2.things
    requires RepValue(m2, m2.things[m.next], items[j].val, json.buf, json.off + ValPos(items, j, o), m.next + 1)
    requires m2.next == m.next + ValueBlocks(items[j].val)
    ensures m2.tabs[st].obj == Index(items, j + 1, a)
    ensures RepMembers(m2, items, j + 1, json.buf, json.off + o, a) && m2.next == a + Blocks(items, j + 1)
  {
    hide RepValue, Len, ValueBlocks, ValPos;
    PosShift(items, j, o, json.off);
    assert RepMember(m2, items, j, json.buf, json.off + o, a);
  }

  /** The NULL returns free the table they were to fill. */
  lemma LoopFail(m0: Memory, m: Memory, st: nat, json: Ptr, text: string)
    requires Only(m0, m, st, json.buf, json.off, json.off + |text|) && Tidy(m)
    ensures var m' := FreeTab(m, st);
      && Only(m0, m', st, json.buf, json.off, json.off + |text|) && Tidy(m')
      && (st < m0.next ==> Dead(m', m0.next, st))
  {
  }

  function FreeTab(m: Memory, st: nat): Memory { m.(tabs := m.tabs - {st}) }

  /** Marking the end of a token the loop came back to. */
  lemma TailMarked(m0: Memory, m: Memory, st: nat, json: Ptr, text: string, items: seq<Item>, o: int, e: int)
    requires LoopInv(m0, m, st, json, text, items, o, |items|) && items != [] && o >= 1
    requires e == TailEnd(Last(items), ValPos(items, |items| - 1, o)) && 0 <= e < |text|
    ensures json.buf in m.texts && json.off >= 0 && 0 <= json.off + e < |m.texts[json.buf]|
    ensures var m1 := Poke(m, json.buf, json.off + e);
      && Only(m0, m1, st, json.buf, json.off, json.off + |text|) && Tidy(m1)
      && (EndsInString(Last(items)) ==> LoopInv(m0, m1, st, json, text, items, o, |items|))
  {
    hide Fresh, RepMembers, Render, ItemText, ValPos, TailEnd, Index, Blocks, Len, Keeps, HasMembers;
    var n := |items|;
    FreshBounds(m, json, text, o + Len(items, n));
    var m1 := Poke(m, json.buf, json.off + e);
    PokedOnly(m0, m, st, json.buf, json.off, json.off + |text|, json.off + e);
    if EndsInString(Last(items)) {
      TailBeforeEnd(items, o);
      PokedFresh(m, json, text, o + Len(items, n), e);
      TailEndShift(Last(items), ValPos(items, n - 1, o), json.off);
      PosShift(items, n - 1, o, json.off);
      TailHasMembers(m, m0.next, m.tabs[st].obj, items, json.buf, json.off + o);
      if GoodMembersUpTo(items, n) {
        TailMembers(m, items, json.buf, json.off + o, m0.next);
      }
    }
  }

  lemma PokedOnly(m0: Memory, m: Memory, st: nat, b: nat, lo: int, hi: int, e: int)
    requires Only(m0, m, st, b, lo, hi) && Tidy(m) && lo <= e < hi && b in m.texts && 0 <= e < |m.texts[b]|
    ensures Only(m0, Poke(m, b, e), st, b, lo, hi) && Tidy(Poke(m, b, e))
  {
  }

  lemma PokedFresh(m: Memory, json: Ptr, text: string, from: int, e: int)
    requires Fresh(m, json, text, from) && 0 <= e < from && e < |text|
    ensures Fresh(Poke(m, json.buf, json.off + e), json, text, from)
  {
  }

  lemma TailBeforeEnd(items: seq<Item>, o: int)
    requires items != []
    ensures TailEnd(Last(items), ValPos(items, |items| - 1, o)) < o + Len(items, |items|)
  {
    hide Render, ItemText, TailEnd, ValSkip;
    var n := |items|;
    TailEndWithin(Last(items), ValPos(items, n - 1, o));
    ItemTextLength(items[n - 1]);
  }

  lemma {:induction false} TailEndShift(v: Value, q: int, d: int)
    ensures TailEnd(v, d + q) == d + TailEnd(v, q)
    decreases v
  {
    hide Render, ItemText, TailEnd, ValPos;
    if (v.Obj? || v.Arr?) && v.items != [] {
      TailEndBelow(v, q);
      TailEndBelow(v, d + q);
      PosShift(v.items, |v.items| - 1, q + 1, d);
      TailEndShift(Last(v.items), ValPos(v.items, |v.items| - 1, q + 1), d);
    } else {
      TailEndShiftLeaf(v, q, d);
    }
  }

  lemma TailEndShiftLeaf(v: Value, q: int, d: int)
    requires !((v.Obj? || v.Arr?) && v.items != [])
    ensures TailEnd(v, d + q) == d + TailEnd(v, q)
  {
    hide Render;
  }

  /** The token the loop is at after `j` members: the last one once more when the last member was
      stepped over short. */
  ghost function LoopNext(items: seq<Item>, len: nat, j: nat): int
    requires j <= |items|
  {
    if j == |items| && j > 0 && Tail(Last(items)) then len - 1 else 1 + CountItems(items, j)
  }

  lemma LoopNextIs(items: seq<Item>, len: nat, j: nat)
    requires j <= |items| && len == 1 + CountItems(items, |items|)
    ensures j < |items| ==> LoopNext(items, len, j) == 1 + CountItems(items, j) < len
    ensures j == 0 ==> LoopNext(items, len, j) == 1
    ensures j == |items| ==> LoopNext(items, len, j) == if items != [] && Tail(Last(items)) then len - 1 else len
  {
    CountMonotone(items, j, |items|);
  }

  lemma LoopNextStep(items: seq<Item>, len: nat, j: nat, next: int)
    requires j < |items| && len == 1 + CountItems(items, |items|)
    requires 1 + CountItems(items, j + 1) == 2 + CountItems(items, j) + Count(items[j].val)
    requires var v, d := items[j].val, 2 + CountItems(items, j);
      next == if Tail(v) && d + Count(v) == len then len - 1 else d + Count(v)
    ensures next == LoopNext(items, len, j + 1) && next > 1 + CountItems(items, j)
  {
    CountMonotone(items, j + 1, |items|);
    if Tail(items[j].val) {
      TailCount(items[j].val);
    }
  }

  /** Without an object that fits, no token is walked over. */
  lemma NotObject(text: string, junk: Token)
    requires !ObjectText(text)
    ensures var scan := Parse(text); var first := if scan.slots == [] then junk else scan.slots[0];
      (first.kind == Object ==> scan.count <= 0) && (Known(text) ==> (first.kind == Object <==> Passes(text, junk)))
  {
    hide ReadDoc, Render, WellFormed, ItemsTokens;
    if ReadDoc(text).Got? {
      TokensCount(ReadDoc(text).val.val, |ReadDoc(text).val.lead|);
    }
  }

  /** The slot past the last token may hold anything if no level below ends in a tail. */
  ghost predicate SlotOk(items: seq<Item>, junk: Token) {
    junk.kind == Undefined ||
    ((items != [] ==> !Tail(Last(items))) && forall k :: 0 <= k < |items| ==> !HasTail(items[k].val))
  }

  lemma WalkTokens(text: string, toks: seq<Token>, items: seq<Item>, o: int, i: nat)
    requires Level(text, toks, items, o) && i < |toks|
    ensures 0 <= toks[i].start <= toks[i].end <= |text|
  {
    hide At, WellNested;
  }

  /** The main loop. */
  method WalkMembers(h: Heap, st: nat, json: Ptr, toks: seq<Token>, junk: Token,
                     ghost text: string, ghost items: seq<Item>, ghost o: int)
    returns (ok: bool)
    requires Level(text, toks, items, o) && LastTokenIs(toks, items, o) && SlotOk(items, junk)
    requires LoopInv(h.mem, h.mem, st, json, text, items, o, 0)
    modifies h
    ensures ok <==> LevelOk(items)
    ensures Only(old(h.mem), h.mem, st, json.buf, json.off, json.off + |text|) && Tidy(h.mem)
    ensures ok ==> LoopInv(old(h.mem), h.mem, st, json, text, items, o, |items|)
    ensures !ok ==> Dead(h.mem, old(h.mem.next), st)
    decreases |text|, 3
  {
    hide CStr, Level, LoopInv, Only, Fresh, Tidy, At, Render, WellFormed, Tokens, LoopNext, ArmPost, Outside,
      WellNested, ValPos, Len, CountItems, Count, HasTail, TailEnd, RawString, Dead;
    ghost var m0, n := h.mem, |items|;
    LoopTab(m0, m0, st, json, text, items, o, 0);
    var i := 1;
    ghost var j := 0;
    ghost var done := false;
    LevelSize(text, toks, items, o);
    LoopNextIs(items, |toks|, 0);
    while i < |toks|
      invariant 0 <= j <= n && LoopInv(m0, h.mem, st, json, text, items, o, j)
      invariant forall k :: 0 <= k < j ==> Flat(items[k].val)
      invariant !done ==> i == LoopNext(items, |toks|, j)
      invariant done ==> j == n && TailOk(items) && i > |toks|
      invariant i > 0
      decreases |toks| + 1 - i
    {
      ghost var m := h.mem;
      LoopNextIs(items, |toks|, j);
      var tok := toks[i];
      WalkTokens(text, toks, items, o, i);
      if j < n {
        MemberFacts(text, toks, items, o, j);
        LoopFresh(m0, m, st, json, text, items, o, j);
        NameExtracted(m, json, text, o + Len(items, j), tok.start, Name(items[j]));
        FirstToken(toks, i + 1, items[j].val, ValPos(items, j, o));
      } else {
        TailInText(text, toks, items, o);
        TailMarked(m0, m, st, json, text, items, o, tok.end);
      }
      var nameAt := Extract(h, json, tok);
      if tok.kind != String {
        LoopFail(m0, h.mem, st, json, text);
        h.mem := FreeTab(h.mem, st);
        return false;
      }
      ghost var m1 := h.mem;
      if j < n {
        FreshLater(m1, json, text, tok.end + 1, ValPos(items, j, o));
      }
      var name := CStr(h.mem.texts[json.buf], nameAt.off);
      var d := i + 1;
      var kind := if d < |toks| then toks[d].kind else junk.kind;
      var step := 2;
      if kind == Object {
        step := PutObject(h, st, json, name, toks, d, junk, text, items[j].val, ValPos(items, j, o));
      } else if kind == Array {
        var next;
        ok, next := PutArray(h, st, json, name, toks, d, junk, text, items[j].val, ValPos(items, j, o));
        if !ok {
          ArrayFails(m0, m, m1, h.mem, st, json, text, items, o, j, tok.end);
          return;
        }
        step := next - i;
      } else if kind != Undefined {
        PutLeaf(h, st, json, name, toks[d], text, items[j].val, ValPos(items, j, o));
      }
      assert j < n ==> Flat(items[j].val);
      if j < n {
        LoopStep(m0, m, m1, h.mem, st, json, text, items, o, j, tok.end);
        LoopNextStep(items, |toks|, j, i + step);
        j := j + 1;
      } else {
        done := true;
      }
      i := i + step;
    }
    ok := true;
    LoopNextIs(items, |toks|, j);
    LoopFresh(m0, h.mem, st, json, text, items, o, j);
  }

  lemma LoopTab(m0: Memory, m: Memory, st: nat, json: Ptr, text: string, items: seq<Item>, o: int, j: nat)
    requires j <= |items| && LoopInv(m0, m, st, json, text, items, o, j)
    ensures st < m0.next
  {
    hide RepMembers, Only, Fresh, Tidy, Len, Blocks, Index, GoodValue, HasMembers;
  }

  lemma FirstToken(toks: seq<Token>, d: nat, v: Value, q: int)
    requires At(toks, d, Tokens(v, q))
    ensures d < |toks|
    ensures toks[d].kind == if v.Obj? then Object else if v.Arr? then Array else if v.Str? then String else Primitive
    ensures !v.Obj? && !v.Arr? ==> [toks[d]] == Tokens(v, q) && Count(v) == 1
  {
    hide Render, ItemsTokens, At;
    AtIndex(toks, d, Tokens(v, q));
  }

  lemma TailInText(text: string, toks: seq<Token>, items: seq<Item>, o: int)
    requires Level(text, toks, items, o) && items != []
    ensures TailEnd(Last(items), ValPos(items, |items| - 1, o)) < |text|
  {
    hide At, WellNested, Within, TailEnd, Len, ValPos, ItemsTokens, RenderItems;
    TailBeforeEnd(items, o);
  }

  /** An array inside an array ends the parse; the table is left as it is. */
  lemma ArrayFails(
    m0: Memory, m: Memory, m1: Memory, m2: Memory, st: nat, json: Ptr, text: string, items: seq<Item>, o: int, j: nat,
    e: int)
    requires j < |items| && LoopInv(m0, m, st, json, text, items, o, j) && o >= 1
    requires o + Len(items, j) <= e < ValPos(items, j, o) && e < |text|
    requires json.buf in m.texts && 0 <= json.off + e < |m.texts[json.buf]| && m1 == Poke(m, json.buf, json.off + e)
    requires ValPos(items, j, o) + |Render(items[j].val)| < |text| && Tidy(m2)
    requires Cut(m1, m2, st, Name(items[j]))
    requires Only(m1, m2, st, json.buf, json.off + ValPos(items, j, o),
      json.off + ValPos(items, j, o) + |Render(items[j].val)| + 1)
    ensures Only(m0, m2, st, json.buf, json.off, json.off + |text|) && Dead(m2, m0.next, st)
  {
    hide Only, Fresh, Tidy, RepMembers, Render, ItemText, ValPos, Len, Blocks, Index, Poke, HasMembers;
    var p, lo, hi := ValPos(items, j, o), json.off, json.off + |text|;
    LenMonotone(items, 0, j);
    LenZero(items);
    PokeOnly(m, json, text, st, o + Len(items, j), e, lo, hi);
    assert Poke(m, json.buf, json.off + e).tabs == m.tabs;
    OnlyWiden(m1, m2, st, json.buf, json.off + p, json.off + p + |Render(items[j].val)| + 1, lo, hi);
    OnlyTrans(m, m1, m2, st, json.buf, lo, hi);
    OnlyTrans(m0, m, m2, st, json.buf, lo, hi);
    OnlyNext(m0, m, st, json.buf, lo, hi);
    OnlyNext(m0, m2, st, json.buf, lo, hi);
    assert Gone(m2, m0.next, m2.tabs[st].obj[Name(items[j])]);
  }

  lemma LevelSize(text: string, toks: seq<Token>, items: seq<Item>, o: int)
    requires Level(text, toks, items, o)
    ensures |toks| == 1 + CountItems(items, |items|) && o >= 1 && WellNested(toks)
  {
    hide At, WellNested, Within;
  }

  lemma LoopFresh(m0: Memory, m: Memory, st: nat, json: Ptr, text: string, items: seq<Item>, o: int, j: nat)
    requires j <= |items| && LoopInv(m0, m, st, json, text, items, o, j)
    ensures Fresh(m, json, text, o + Len(items, j)) && Tidy(m) && st in m.tabs
    ensures Only(m0, m, st, json.buf, json.off, json.off + |text|)
  {
    hide RepMembers, Only, Fresh, Tidy, Len, Blocks, Index, GoodValue;
  }

  /** parse_jobject for the text at `json`, into the fresh table `st`. A false result is the NULL
      return. */
  method ParseObject(h: Heap, st: nat, json: Ptr, junk: Token) returns (ok: bool)
    requires json.buf in h.mem.texts && 0 <= json.off <= |h.mem.texts[json.buf]|
    requires Callable(h.mem, st, json, CStr(h.mem.texts[json.buf], json.off))
    requires JunkOk(CStr(h.mem.texts[json.buf], json.off), junk)
    modifies h
    ensures ParsePost(old(h.mem), h.mem, st, json, old(CStr(h.mem.texts[json.buf], json.off)), ok)
    ensures var text := old(CStr(h.mem.texts[json.buf], json.off));
      OtherText(text) ==> (ok <==> Passes(text, junk))
    decreases |CStr(h.mem.texts[json.buf], json.off)|, 4
  {
    hide CStr, Parse, Level, Only, Fresh, Tidy, At, LastTokenIs, ReadDoc, HasTail, RepMembers, Passes, Known;
    ghost var m0, text := h.mem, CStr(h.mem.texts[json.buf], json.off);
    OnlyRefl(m0, st, json.buf, json.off, json.off + |text|);
    var scan := Parse(CStr(h.mem.texts[json.buf], json.off));
    var first := if scan.slots == [] then junk else scan.slots[0];
    if ObjectText(text) {
      ScanFacts(text);
    } else {
      NotObject(text, junk);
    }
    if first.kind != Object {
      LoopFail(m0, m0, st, json, text);
      h.mem := FreeTab(h.mem, st);
      return false;
    }
    if scan.count <= 0 {
      return true;
    }
    LoopStart(m0, st, json, text, Members(text), Inside(text));
    SlotOfText(text, junk);
    ok := WalkMembers(h, st, json, scan.slots, junk, text, Members(text), Inside(text));
  }

  lemma SlotOfText(text: string, junk: Token)
    requires ObjectText(text) && JunkOk(text, junk)
    ensures SlotOk(Members(text), junk)
  {
    hide ReadDoc;
  }

  lemma EmptyCount(v: Value)
    requires v.Obj?
    ensures Tail(v) <==> Count(v) > 1
  {
    CountMonotone(v.items, 0, |v.items|);
  }
}
