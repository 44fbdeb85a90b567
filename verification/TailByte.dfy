/** The one byte the parser writes when it resumes on the last token of a level: it ends the string
    that token is, so nothing stored is cut short. */
module TailByte {
  import opened Document
  import opened Memory
  import opened Accepts

  lemma PokeAgree(m: Memory, b: nat, e: int, lo: nat, hi: nat)
    requires b in m.texts && 0 <= e < |m.texts[b]| && b < lo
    ensures Agree(m, Poke(m, b, e), lo, hi)
  {
  }

  lemma PokeText(m: Memory, b: nat, e: int, lo: int, hi: int)
    requires b in m.texts && 0 <= e < |m.texts[b]| && hi <= e
    ensures TextAgree(m, Poke(m, b, e), b, lo, hi)
  {
  }

  /** The NUL that already ends the string is written again. */
  lemma PokeNul(m: Memory, b: nat, e: int)
    requires b in m.texts && 0 <= e < |m.texts[b]| && m.texts[b][e] == NUL
    ensures Poke(m, b, e) == m
  {
    assert m.texts[b][e := NUL] == m.texts[b];
    assert m.texts[b := m.texts[b]] == m.texts;
  }

  lemma {:induction false} TailElem(m: Memory, th: Thing, v: Value, b: nat, q: int, a: nat)
    requires RepElem(m, th, v, b, q, a) && EndsInString(v) && b < a
    requires b in m.texts && 0 <= TailEnd(v, q) < |m.texts[b]|
    ensures RepElem(Poke(m, b, TailEnd(v, q)), th, v, b, q, a)
    decreases v, 0
  {
    hide RepMembers, Poke, Render, Agree, Blocks, Len, ItemText, Index, RepLeaf;
    var e := TailEnd(v, q);
    if v.Obj? {
      PokeAgree(m, b, e, a, a + 1);
      SameAt(m, Poke(m, b, e), a, a + 1, a);
      TailMembers(m, v.items, b, q + 1, a + 1);
    } else {
      TailLeaf(m, th, v, b, q);
    }
  }

  lemma TailLeaf(m: Memory, th: Thing, v: Value, b: nat, q: int)
    requires !v.Obj? && !v.Arr? && RepLeaf(m, th, v, b, q) && EndsInString(v)
    requires b in m.texts && 0 <= TailEnd(v, q) < |m.texts[b]|
    ensures RepLeaf(Poke(m, b, TailEnd(v, q)), th, v, b, q)
  {
    hide Poke, Render;
    PokeNul(m, b, TailEnd(v, q));
  }

  lemma {:induction false} TailElems(m: Memory, ths: seq<Thing>, items: seq<Item>, b: nat, o: int, a: nat)
    requires items != [] && |ths| == |items| && RepElems(m, ths, items, |items|, b, o, a)
    requires EndsInString(Last(items)) && b < a
    requires var e := TailEnd(Last(items), ValPos(items, |items| - 1, o)); b in m.texts && 0 <= e < |m.texts[b]|
    ensures var e := TailEnd(Last(items), ValPos(items, |items| - 1, o));
      RepElems(Poke(m, b, e), ths, items, |items|, b, o, a)
    decreases items, 1
  {
    hide RepElem, Poke, Agree, TextAgree, TailEnd, ValPos, Len, ElemsBlocks, ItemText;
    var k := |items| - 1;
    var q := ValPos(items, k, o);
    var e := TailEnd(items[k].val, q);
    assert RepElem(m, ths[k], items[k].val, b, q, a + ElemsBlocks(items, k));
    TailElem(m, ths[k], items[k].val, b, q, a + ElemsBlocks(items, k));
    TailEndWithin(items[k].val, q);
    ValPosAfter(items, k, o);
    PokeAgree(m, b, e, a, a + ElemsBlocks(items, k));
    PokeText(m, b, e, o, o + Len(items, k) - 1);
    assert RepElems(m, ths, items, k, b, o, a);
    ElemsFrame(m, Poke(m, b, e), ths, items, k, b, o, a);
  }

  lemma {:induction false} TailValue(m: Memory, th: Thing, v: Value, b: nat, q: int, a: nat)
    requires RepValue(m, th, v, b, q, a) && EndsInString(v) && b < a
    requires b in m.texts && 0 <= TailEnd(v, q) < |m.texts[b]|
    ensures RepValue(Poke(m, b, TailEnd(v, q)), th, v, b, q, a)
    decreases v, 0
  {
    hide RepTab, RepElems, Poke, Render, Agree, ElemsBlocks, Blocks, Len, ItemText, ValPos, ValueBlocks;
    var e := TailEnd(v, q);
    var m' := Poke(m, b, e);
    match v {
      case Obj(_, items) =>
        PokeAgree(m, b, e, a, a + ValueBlocks(v) - 1);
        ObjectFrame(m, m', th, v, b, q, a);
      case Arr(_, items) =>
        PokeAgree(m, b, e, a, a + 1);
        SameAt(m, m', a, a + 1, a);
        TailElems(m, m.arrays[a], items, b, q + 1, a + 1);
      case _ => PokeNul(m, b, e);
    }
  }

  lemma {:induction false} TailMembers(m: Memory, items: seq<Item>, b: nat, o: int, a: nat)
    requires items != [] && RepMembers(m, items, |items|, b, o, a) && EndsInString(Last(items)) && b < a
    requires var e := TailEnd(Last(items), ValPos(items, |items| - 1, o)); b in m.texts && 0 <= e < |m.texts[b]|
    ensures var e := TailEnd(Last(items), ValPos(items, |items| - 1, o));
      RepMembers(Poke(m, b, e), items, |items|, b, o, a)
    decreases items, 2
  {
    hide RepMember, Poke, Agree, TextAgree, TailEnd, ValPos, Len, Blocks, ItemText;
    var k := |items| - 1;
    var q := ValPos(items, k, o);
    var e := TailEnd(items[k].val, q);
    assert RepMember(m, items, k, b, o, a);
    TailMember(m, items, k, b, o, a);
    TailEndWithin(items[k].val, q);
    ValPosAfter(items, k, o);
    PokeAgree(m, b, e, a, a + Blocks(items, k));
    PokeText(m, b, e, o, o + Len(items, k) - 1);
    assert RepMembers(m, items, k, b, o, a);
    MembersFrame(m, Poke(m, b, e), items, k, b, o, a);
  }

  lemma TailMember(m: Memory, items: seq<Item>, k: nat, b: nat, o: int, a: nat)
    requires k < |items| && RepMember(m, items, k, b, o, a) && EndsInString(items[k].val) && b < a
    requires var e := TailEnd(items[k].val, ValPos(items, k, o)); b in m.texts && 0 <= e < |m.texts[b]|
    ensures RepMember(Poke(m, b, TailEnd(items[k].val, ValPos(items, k, o))), items, k, b, o, a)
    decreases items, 1
  {
    hide RepValue, TailEnd, ValPos;
    var addr := a + Blocks(items, k);
    TailValue(m, m.things[addr], items[k].val, b, ValPos(items, k, o), addr + 1);
  }
}
