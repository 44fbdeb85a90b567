/** Which documents the parser gets right, said about the document alone. */
module Accepts {
  import opened Document
  import opened Jsmn
  import opened Memory

  predicate NonEmptyObject(v: Value) { v.Obj? && v.items != [] }

  function Last(items: seq<Item>): Value
    requires items != []
  {
    items[|items| - 1].val
  }

  /** A value in the last place of its object that the skip loops step over one token short. */
  predicate Tail(v: Value) {
    NonEmptyObject(v) || (v.Arr? && v.items != [] && NonEmptyObject(Last(v.items)))
  }

  /** The last token of the value is a string. */
  predicate EndsInString(v: Value) {
    match v
    case Str(_) => true
    case Obj(_, items) => items != [] && EndsInString(Last(items))
    case Arr(_, items) => items != [] && EndsInString(Last(items))
    case _ => false
  }

  /** No array directly inside this array. */
  predicate Flat(v: Value) {
    v.Arr? ==> forall k :: 0 <= k < |v.items| ==> !v.items[k].val.Arr?
  }

  predicate TailOk(items: seq<Item>) {
    items != [] && Tail(Last(items)) ==> EndsInString(Last(items))
  }

  /** The condition on one object, whatever its members contain further down. */
  predicate LevelOk(items: seq<Item>) {
    TailOk(items) && forall k :: 0 <= k < |items| ==> Flat(items[k].val)
  }

  /** The condition on an object and on every object below it. */
  predicate Good(items: seq<Item>)
    decreases items, 0
  {
    LevelOk(items) && forall k :: 0 <= k < |items| ==> GoodValue(items[k].val)
  }

  predicate GoodValue(v: Value)
    decreases v, 1
  {
    match v
    case Obj(_, items) => Good(items)
    case Arr(_, items) => forall k :: 0 <= k < |items| ==> GoodElem(items[k].val)
    case _ => true
  }

  predicate GoodElem(v: Value)
    decreases v, 0
  {
    match v
    case Obj(_, items) => Good(items)
    case Arr(_, _) => false
    case _ => true
  }

  /** Some object here or below ends in a value that is stepped over one token short. */
  predicate HasTail(v: Value) {
    match v
    case Obj(_, items) =>
      (items != [] && Tail(Last(items))) || exists k :: 0 <= k < |items| && HasTail(items[k].val)
    case Arr(_, items) => exists k :: 0 <= k < |items| && HasTail(items[k].val)
    case _ => false
  }

  // ----- no name twice in one object

  predicate UniqueNames(items: seq<Item>)
    decreases items, 0
  {
    && (forall j, k :: 0 <= j < k < |items| ==> Name(items[j]) != Name(items[k]))
    && forall k :: 0 <= k < |items| ==> UniqueIn(items[k].val)
  }

  predicate UniqueIn(v: Value)
    decreases v, 1
  {
    match v
    case Obj(_, items) => UniqueNames(items)
    case Arr(_, items) => forall k :: 0 <= k < |items| ==> UniqueElem(items[k].val)
    case _ => true
  }

  predicate UniqueElem(v: Value)
    decreases v, 0
  {
    v.Obj? ==> UniqueNames(v.items)
  }

  // ----- the last token

  /** Where the last token of the value ends. */
  function TailEnd(v: Value, q: int): int {
    match v
    case Str(raw) => q + 1 + |raw|
    case Obj(_, items) =>
      if items == [] then q + |Render(v)| else TailEnd(Last(items), ValPos(items, |items| - 1, q + 1))
    case Arr(_, items) =>
      if items == [] then q + |Render(v)| else TailEnd(Last(items), ValPos(items, |items| - 1, q + 1))
    case _ => q + |Render(v)|
  }

  lemma LastOfConcat<T>(a: seq<T>, b: seq<T>)
    requires b != []
    ensures (a + b)[|a + b| - 1] == b[|b| - 1]
  {
  }

  lemma {:induction false} LastToken(v: Value, q: int)
    ensures var toks := Tokens(v, q);
      && toks != []
      && toks[|toks| - 1].end == TailEnd(v, q)
      && (toks[|toks| - 1].kind == String <==> EndsInString(v))
    decreases v
  {
    hide Render, ItemText, ItemTokens, Tokens, TailEnd, ValPos;
    if !((v.Obj? || v.Arr?) && v.items != []) {
      LastTokenLeaf(v, q);
    } else {
      LastToken(Last(v.items), ValPos(v.items, |v.items| - 1, q + 1));
      LastTokenBelow(v, q);
      TailEndBelow(v, q);
    }
  }

  lemma TailEndBelow(v: Value, q: int)
    requires (v.Obj? || v.Arr?) && v.items != []
    ensures TailEnd(v, q) == TailEnd(Last(v.items), ValPos(v.items, |v.items| - 1, q + 1))
    ensures EndsInString(v) == EndsInString(Last(v.items))
  {
    hide ValPos;
  }

  lemma LastTokenLeaf(v: Value, q: int)
    requires !((v.Obj? || v.Arr?) && v.items != [])
    ensures |Tokens(v, q)| == 1 && Tokens(v, q)[0].end == TailEnd(v, q)
    ensures Tokens(v, q)[0].kind == String <==> EndsInString(v)
  {
    hide Render;
  }

  lemma LastTokenBelow(v: Value, q: int)
    requires (v.Obj? || v.Arr?) && v.items != []
    ensures var last := Tokens(Last(v.items), ValPos(v.items, |v.items| - 1, q + 1));
      Tokens(v, q) != [] && last != [] && Tokens(v, q)[|Tokens(v, q)| - 1] == last[|last| - 1]
  {
    hide Render, ItemText, ItemTokens, Tokens, ItemsTokens, Len, ValSkip, Count, CountItems;
    var n := |v.items|;
    var it, p := v.items[n - 1], q + 1 + Len(v.items, n - 1);
    LastItemToken(it, p);
    ContainerTokens(v, q);
    LastItems(v.items, q + 1);
    var root := Token(if v.Obj? then Object else Array, q, q + |Render(v)|, n);
    LastThrough(root, ItemsTokens(v.items, n - 1, q + 1), ItemTokens(it, p), Tokens(it.val, p + ValSkip(it)));
  }

  lemma LastThrough(root: Token, init: seq<Token>, item: seq<Token>, val: seq<Token>)
    requires item != [] && val != [] && item[|item| - 1] == val[|val| - 1]
    ensures var toks := [root] + (init + item); toks != [] && toks[|toks| - 1] == val[|val| - 1]
  {
  }

  lemma LastItems(items: seq<Item>, o: int)
    requires items != []
    ensures var n := |items|;
      ItemsTokens(items, n, o) == ItemsTokens(items, n - 1, o) + ItemTokens(items[n - 1], o + Len(items, n - 1))
  {
    hide ItemTokens, Len;
  }

  lemma LastItemToken(it: Item, p: int)
    ensures Tokens(it.val, p + ValSkip(it)) != [] && ItemTokens(it, p) != []
    ensures ItemTokens(it, p)[|ItemTokens(it, p)| - 1] ==
      Tokens(it.val, p + ValSkip(it))[|Tokens(it.val, p + ValSkip(it))| - 1]
  {
    hide Tokens, Render, KeyTokens;
    TokensCount(it.val, p + ValSkip(it));
    LastOfConcat(KeyTokens(it.key, p + |it.lead|), Tokens(it.val, p + ValSkip(it)));
  }

  /** A value that is stepped over short has at least two tokens. */
  lemma TailCount(v: Value)
    requires Tail(v)
    ensures Count(v) >= 2
  {
    CountMonotone(v.items, 0, |v.items|);
  }

  lemma {:induction false} TailEndWithin(v: Value, q: int)
    ensures q <= TailEnd(v, q) <= q + |Render(v)|
    decreases v
  {
    hide ItemText, Render, TailEnd, Len, ValPos;
    if (v.Obj? || v.Arr?) && v.items != [] {
      var n := |v.items|;
      ContainerLength(v);
      TailEndBelow(v, q);
      ValueFits(v.items, n - 1, n);
      PosShift(v.items, n - 1, 0, q + 1);
      TailEndWithin(Last(v.items), ValPos(v.items, n - 1, q + 1));
    } else {
      TailEndLeaf(v, q);
    }
  }

  lemma TailEndLeaf(v: Value, q: int)
    requires !((v.Obj? || v.Arr?) && v.items != [])
    ensures q <= TailEnd(v, q) <= q + |Render(v)|
  {
    if v.Str? {
      RawLength(v);
    }
  }

  lemma RawLength(v: Value)
    requires v.Str?
    ensures |Render(v)| == |v.raw| + 2
  {
  }
}
