/** The memory jwrapper works in: text buffers, symbol tables, things and arrays of things, each
    block named by the serial number of its allocation. */
module Memory {
  import opened Document
  import opened Jsmn
  import opened Numbers

  const JSON_SYM_NAME := "_jw_json_string"
  const NUL := '\0'

  datatype PrimType = PtUnknown | PtValue | PtBool | PtNull | PtString

  /** The union of a thing: a number, or a pointer to a table, to an array or into a text buffer. */
  datatype Slot = Fv(fv: real) | TabPtr(tab: nat) | ArrPtr(arr: nat) | TextPtr(text: Ptr)

  datatype Ptr = Ptr(buf: nat, off: int)

  datatype Thing = Thing(jsmnType: Kind, primType: PrimType, nele: int, v: Slot)

  /** A symbol table keyed by (class, name); putting a name again replaces what it refers to. */
  datatype Table = Table(obj: map<string, nat>, mgt: map<string, nat>)

  datatype Memory = Memory(
    texts: map<nat, string>, tabs: map<nat, Table>, things: map<nat, Thing>, arrays: map<nat, seq<Thing>>, next: nat)

  /** What the parser and the destructor change. */
  class Heap {
    var mem: Memory
    constructor (m: Memory)
      ensures mem == m
    {
      mem := m;
    }
  }

  // ----- C strings

  /** The characters from `off` up to the next NUL. */
  function CStr(s: string, off: int): string
    requires 0 <= off <= |s|
    decreases |s| - off
  {
    if off == |s| || s[off] == NUL then "" else [s[off]] + CStr(s, off + 1)
  }

  lemma {:induction false} CStrIs(buf: string, off: int, s: string)
    requires At(buf, off, s) && NoNul(s) && off + |s| < |buf| && buf[off + |s|] == NUL
    ensures CStr(buf, off) == s
    decreases |s|
  {
    if s != [] {
      AtFirst(buf, off, s);
      assert [s[0]] + s[1..] == s;
      AtConcat(buf, off, [s[0]], s[1..]);
      CStrIs(buf, off + 1, s[1..]);
    }
  }

  lemma {:induction false} CStrAt(buf: string, off: int)
    requires 0 <= off <= |buf|
    ensures At(buf, off, CStr(buf, off)) && NoNul(CStr(buf, off))
    ensures off + |CStr(buf, off)| < |buf| ==> buf[off + |CStr(buf, off)|] == NUL
    decreases |buf| - off
  {
    if off < |buf| && buf[off] != NUL {
      CStrAt(buf, off + 1);
      AtConcat(buf, off, [buf[off]], CStr(buf, off + 1));
    }
  }

  /** What c_str() of a C++ string reads as: a NUL inside it ends it. */
  function CString(s: string): string { CStr(s, 0) }

  lemma CStringNoNul(s: string)
    ensures NoNul(CString(s))
  {
    CStrAt(s, 0);
  }

  lemma {:induction false} CStrWhole(s: string, off: int)
    requires 0 <= off <= |s| && NoNul(s)
    ensures CStr(s, off) == s[off..]
    decreases |s| - off
  {
    if off < |s| {
      CStrWhole(s, off + 1);
    }
  }

  /** Without a NUL inside it is the string itself. */
  lemma CStringWhole(s: string)
    requires NoNul(s)
    ensures CString(s) == s
  {
    CStrWhole(s, 0);
  }

  /** Writing the NUL that ends a string cut out of buffer `b`. */
  function Poke(m: Memory, b: nat, i: int): Memory
    requires b in m.texts && 0 <= i < |m.texts[b]|
  {
    m.(texts := m.texts[b := m.texts[b][i := NUL]])
  }

  // ----- how many blocks a document takes

  function ValueBlocks(v: Value): (n: nat)
    ensures n >= 1
    decreases v, 0
  {
    1 + match v
        case Obj(_, items) => 2 + Blocks(items, |items|)
        case Arr(_, items) => 1 + ElemsBlocks(items, |items|)
        case _ => 0
  }

  function ElemBlocks(v: Value): nat
    decreases v, 0
  {
    if v.Obj? then 1 + Blocks(v.items, |v.items|) else 0
  }

  function Blocks(items: seq<Item>, n: nat): nat
    requires n <= |items|
    decreases items, n
  {
    if n == 0 then 0 else Blocks(items, n - 1) + ValueBlocks(items[n - 1].val)
  }

  function ElemsBlocks(items: seq<Item>, n: nat): nat
    requires n <= |items|
    decreases items, n
  {
    if n == 0 then 0 else ElemsBlocks(items, n - 1) + ElemBlocks(items[n - 1].val)
  }

  lemma {:induction false} BlocksMonotone(items: seq<Item>, j: nat, k: nat)
    requires j <= k <= |items|
    ensures Blocks(items, j) <= Blocks(items, k) && ElemsBlocks(items, j) <= ElemsBlocks(items, k)
    decreases k
  {
    if j < k {
      BlocksMonotone(items, j, k - 1);
    }
  }

  // ----- memory that represents a document

  /** The string `s` stands NUL terminated at `q` of buffer `b`. */
  ghost predicate CText(m: Memory, b: nat, q: int, s: string) {
    b in m.texts && At(m.texts[b], q, s) && q + |s| < |m.texts[b]| && m.texts[b][q + |s|] == NUL
  }

  ghost predicate RepLeaf(m: Memory, th: Thing, v: Value, b: nat, q: int)
    requires !v.Obj? && !v.Arr?
  {
    match v
    case Str(raw) =>
      th.jsmnType == String && th.primType == PtString && th.v == TextPtr(Ptr(b, q + 1)) && CText(m, b, q + 1, raw)
    case Num(text) => th.jsmnType == Primitive && th.primType == PtValue && th.v == Fv(Strtod(text))
    case True => th.jsmnType == Primitive && th.primType == PtBool && th.v == Fv(1.0)
    case False => th.jsmnType == Primitive && th.primType == PtBool && th.v == Fv(0.0)
    case Null => th.jsmnType == Primitive && th.primType == PtNull && th.v == Fv(0.0)
  }

  /** `th` represents the value `v` written at `q` of buffer `b`; what it points to starts at block
      `a`. A member object owns a table and the duplicate of its text. */
  ghost predicate RepValue(m: Memory, th: Thing, v: Value, b: nat, q: int, a: nat)
    decreases v, 0
  {
    match v
    case Obj(_, items) =>
      && th.jsmnType == Object && th.primType == PtUnknown && th.v == TabPtr(a)
      && a in m.tabs && m.tabs[a].mgt == map[JSON_SYM_NAME := a + 1] && a + 1 in m.texts
      && RepTab(m, a, items, a + 1, 1, a + 2)
    case Arr(_, items) =>
      && th.jsmnType == Array && th.primType == PtUnknown && th.nele == |items| && th.v == ArrPtr(a)
      && a in m.arrays && |m.arrays[a]| == |items|
      && RepElems(m, m.arrays[a], items, |items|, b, q + 1, a + 1)
    case _ => RepLeaf(m, th, v, b, q)
  }

  /** An array element: an object here owns a table, but borrows the text it stands in. */
  ghost predicate RepElem(m: Memory, th: Thing, v: Value, b: nat, q: int, a: nat)
    decreases v, 0
  {
    match v
    case Obj(_, items) =>
      && th.jsmnType == Object && th.primType == PtUnknown && th.v == TabPtr(a)
      && a in m.tabs && m.tabs[a].mgt == map[]
      && RepTab(m, a, items, b, q + 1, a + 1)
    case Arr(_, _) => false
    case _ => RepLeaf(m, th, v, b, q)
  }

  ghost predicate RepElems(m: Memory, ths: seq<Thing>, items: seq<Item>, n: nat, b: nat, o: int, a: nat)
    requires n <= |items| && n <= |ths|
    decreases items, 0
  {
    forall k :: 0 <= k < n ==> RepElem(m, ths[k], items[k].val, b, ValPos(items, k, o), a + ElemsBlocks(items, k))
  }

  /** Which thing each name refers to: the last member of that name. */
  function Index(items: seq<Item>, n: nat, a: nat): map<string, nat>
    requires n <= |items|
  {
    if n == 0 then map[]
    else Index(items, n - 1, a)[Name(items[n - 1]) := a + Blocks(items, n - 1)]
  }

  function Name(it: Item): string { if it.key.Key? then it.key.name else "" }

  ghost predicate RepMember(m: Memory, items: seq<Item>, k: nat, b: nat, o: int, a: nat)
    requires k < |items|
    decreases items, 0
  {
    var addr := a + Blocks(items, k);
    addr in m.things && RepValue(m, m.things[addr], items[k].val, b, ValPos(items, k, o), addr + 1)
  }

  ghost predicate RepMembers(m: Memory, items: seq<Item>, n: nat, b: nat, o: int, a: nat)
    requires n <= |items|
    decreases items, 1
  {
    forall k :: 0 <= k < n ==> RepMember(m, items, k, b, o, a)
  }

  /** Table `t` represents the members `items` written at `o` of buffer `b`, with blocks from `a` on. */
  ghost predicate RepTab(m: Memory, t: nat, items: seq<Item>, b: nat, o: int, a: nat)
    decreases items, 2
  {
    t in m.tabs && m.tabs[t].obj == Index(items, |items|, a) && RepMembers(m, items, |items|, b, o, a)
  }

  // ----- what a representation depends on

  ghost predicate Same(m: Memory, m': Memory, id: nat) {
    && (id in m.texts ==> id in m'.texts && m'.texts[id] == m.texts[id])
    && (id in m.tabs ==> id in m'.tabs && m'.tabs[id] == m.tabs[id])
    && (id in m.things ==> id in m'.things && m'.things[id] == m.things[id])
    && (id in m.arrays ==> id in m'.arrays && m'.arrays[id] == m.arrays[id])
  }

  ghost predicate Agree(m: Memory, m': Memory, lo: nat, hi: nat) {
    forall id :: lo <= id < hi ==> Same(m, m', id)
  }

  ghost predicate TextAgree(m: Memory, m': Memory, b: nat, lo: int, hi: int) {
    b in m.texts ==>
      && b in m'.texts && |m'.texts[b]| == |m.texts[b]|
      && forall k :: lo <= k < hi && 0 <= k < |m.texts[b]| ==> m'.texts[b][k] == m.texts[b][k]
  }

  lemma LeafFrame(m: Memory, m': Memory, th: Thing, v: Value, b: nat, q: int)
    requires !v.Obj? && !v.Arr? && RepLeaf(m, th, v, b, q) && TextAgree(m, m', b, q, q + |Render(v)|)
    ensures RepLeaf(m', th, v, b, q)
  {
    hide Render, Strtod, CText;
    if v.Str? {
      StringLength(v.raw);
      CTextFrame(m, m', b, q + 1, v.raw);
    }
  }

  lemma CTextFrame(m: Memory, m': Memory, b: nat, q: int, s: string)
    requires CText(m, b, q, s) && TextAgree(m, m', b, q - 1, q + |s| + 1)
    ensures CText(m', b, q, s)
  {
    AtIndex(m.texts[b], q, s);
    AtEqual(m'.texts[b], q, s);
  }

  /** A representation survives every change outside its own blocks and its own stretch of text. */
  lemma {:induction false} ValueFrame(m: Memory, m': Memory, th: Thing, v: Value, b: nat, q: int, a: nat)
    requires RepValue(m, th, v, b, q, a)
    requires Agree(m, m', a, a + ValueBlocks(v) - 1)
    requires TextAgree(m, m', b, q, q + |Render(v)|)
    ensures RepValue(m', th, v, b, q, a)
    decreases v, 0, 1
  {
    hide RepMembers, RepElems, Render, Agree, TextAgree, Len, ItemText, Blocks, ElemsBlocks, Index, Same;
    match v {
      case Obj(_, _) => ObjectFrame(m, m', th, v, b, q, a);
      case Arr(_, items) =>
        SameAt(m, m', a, a + ValueBlocks(v) - 1, a);
        SameArray(m, m', a);
        Narrow(m, m', a, a + ValueBlocks(v) - 1, a + 1, a + ValueBlocks(v) - 1);
        InsideText(m, m', b, q, v);
        ElemsFrame(m, m', m.arrays[a], items, |items|, b, q + 1, a + 1);
      case _ => LeafFrame(m, m', th, v, b, q);
    }
  }

  lemma SameArray(m: Memory, m': Memory, id: nat)
    requires Same(m, m', id) && id in m.arrays
    ensures id in m'.arrays && m'.arrays[id] == m.arrays[id]
  {
  }

  lemma InsideText(m: Memory, m': Memory, b: nat, q: int, v: Value)
    requires (v.Obj? || v.Arr?) && TextAgree(m, m', b, q, q + |Render(v)|)
    ensures TextAgree(m, m', b, q + 1, q + 1 + Len(v.items, |v.items|) - 1)
  {
    hide TextAgree, Render, ItemText;
    ContainerLength(v);
    NarrowText(m, m', b, q, q + |Render(v)|, q + 1, q + Len(v.items, |v.items|));
  }

  /** A member object does not depend on the buffer it was read from. */
  lemma ObjectFrame(m: Memory, m': Memory, th: Thing, v: Value, b: nat, q: int, a: nat)
    requires v.Obj? && RepValue(m, th, v, b, q, a) && Agree(m, m', a, a + ValueBlocks(v) - 1)
    ensures RepValue(m', th, v, b, q, a)
    decreases v, 0, 0
  {
    hide RepMembers, Blocks, Len, ItemText, Index;
    assert Same(m, m', a) && Same(m, m', a + 1);
    MembersFrame(m, m', v.items, |v.items|, a + 1, 1, a + 2);
  }

  lemma {:induction false} ElemFrame(m: Memory, m': Memory, th: Thing, v: Value, b: nat, q: int, a: nat)
    requires RepElem(m, th, v, b, q, a)
    requires Agree(m, m', a, a + ElemBlocks(v))
    requires TextAgree(m, m', b, q, q + |Render(v)|)
    ensures RepElem(m', th, v, b, q, a)
    decreases v, 0
  {
    hide RepMembers, RepElems, Render, Len, ItemText, Blocks, Index;
    if v.Obj? {
      assert Same(m, m', a);
      InsideText(m, m', b, q, v);
      MembersFrame(m, m', v.items, |v.items|, b, q + 1, a + 1);
    } else {
      LeafFrame(m, m', th, v, b, q);
    }
  }

  lemma Narrow(m: Memory, m': Memory, lo: nat, hi: nat, lo': nat, hi': nat)
    requires Agree(m, m', lo, hi) && lo <= lo' && hi' <= hi
    ensures Agree(m, m', lo', hi')
  {
  }

  lemma NarrowText(m: Memory, m': Memory, b: nat, lo: int, hi: int, lo': int, hi': int)
    requires TextAgree(m, m', b, lo, hi) && lo <= lo' && hi' <= hi
    ensures TextAgree(m, m', b, lo', hi')
  {
  }

  /** Member `k` of the first `n`. */
  lemma MemberFrame(m: Memory, m': Memory, items: seq<Item>, k: nat, n: nat, b: nat, o: int, a: nat)
    requires k < n <= |items| && RepMember(m, items, k, b, o, a)
    requires Agree(m, m', a, a + Blocks(items, n))
    requires TextAgree(m, m', b, o, o + Len(items, n) - 1)
    ensures RepMember(m', items, k, b, o, a)
    decreases items, 0
  {
    hide RepValue, Render, Agree, TextAgree, ValueBlocks, ItemText, Len, ValSkip;
    BlocksMonotone(items, k + 1, n);
    ValueFits(items, k, n);
    var addr, q := a + Blocks(items, k), ValPos(items, k, o);
    SameAt(m, m', a, a + Blocks(items, n), addr);
    Narrow(m, m', a, a + Blocks(items, n), addr + 1, addr + ValueBlocks(items[k].val));
    NarrowText(m, m', b, o, o + Len(items, n) - 1, q, q + |Render(items[k].val)|);
    ValueFrame(m, m', m.things[addr], items[k].val, b, q, addr + 1);
  }

  lemma SameAt(m: Memory, m': Memory, lo: nat, hi: nat, id: nat)
    requires Agree(m, m', lo, hi) && lo <= id < hi
    ensures Same(m, m', id)
  {
  }

  lemma {:induction false} MembersFrame(m: Memory, m': Memory, items: seq<Item>, n: nat, b: nat, o: int, a: nat)
    requires n <= |items| && RepMembers(m, items, n, b, o, a)
    requires Agree(m, m', a, a + Blocks(items, n))
    requires TextAgree(m, m', b, o, o + Len(items, n) - 1)
    ensures RepMembers(m', items, n, b, o, a)
    decreases items, 1
  {
    hide RepMember, Agree, TextAgree, Len, Blocks;
    forall k | 0 <= k < n ensures RepMember(m', items, k, b, o, a) {
      MemberFrame(m, m', items, k, n, b, o, a);
    }
  }

  /** Element `k` of the first `n`. */
  lemma ElemOfFrame(m: Memory, m': Memory, th: Thing, items: seq<Item>, k: nat, n: nat, b: nat, o: int, a: nat)
    requires k < n <= |items|
    requires RepElem(m, th, items[k].val, b, ValPos(items, k, o), a + ElemsBlocks(items, k))
    requires Agree(m, m', a, a + ElemsBlocks(items, n))
    requires TextAgree(m, m', b, o, o + Len(items, n) - 1)
    ensures RepElem(m', th, items[k].val, b, ValPos(items, k, o), a + ElemsBlocks(items, k))
    decreases items, 0
  {
    hide RepElem, Render, ItemText, Agree, TextAgree, ElemBlocks, Len, ValSkip;
    BlocksMonotone(items, k + 1, n);
    ValueFits(items, k, n);
    Narrow(m, m', a, a + ElemsBlocks(items, n), a + ElemsBlocks(items, k), a + ElemsBlocks(items, k + 1));
    var q := ValPos(items, k, o);
    NarrowText(m, m', b, o, o + Len(items, n) - 1, q, q + |Render(items[k].val)|);
    ElemFrame(m, m', th, items[k].val, b, q, a + ElemsBlocks(items, k));
  }

  lemma {:induction false} ElemsFrame(
    m: Memory, m': Memory, ths: seq<Thing>, items: seq<Item>, n: nat, b: nat, o: int, a: nat)
    requires n <= |items| && n <= |ths| && RepElems(m, ths, items, n, b, o, a)
    requires Agree(m, m', a, a + ElemsBlocks(items, n))
    requires TextAgree(m, m', b, o, o + Len(items, n) - 1)
    ensures RepElems(m', ths, items, n, b, o, a)
    decreases items, 1
  {
    hide RepElem, Agree, TextAgree, Len, ElemsBlocks, ValPos;
    forall k | 0 <= k < n
      ensures RepElem(m', ths[k], items[k].val, b, ValPos(items, k, o), a + ElemsBlocks(items, k))
    {
      ElemOfFrame(m, m', ths[k], items, k, n, b, o, a);
    }
  }
}
