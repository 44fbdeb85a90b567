/** What the parser relies on jsmn for. jsmn is not part of the repository: it is modelled as the
    reader of RFC 8259 documents that returns the tokens of the document in pre-order. */
module Jsmn {
  import opened Document

  datatype Kind = Undefined | Object | Array | String | Primitive

  /** A stretch of the text, end exclusive; `size` counts the items of an object or array. */
  datatype Token = Token(kind: Kind, start: int, end: int, size: int)

  const MAX_THINGS := 4096

  // ----- the tokens of a document

  function Tokens(v: Value, o: int): seq<Token>
    decreases v, 0
  {
    match v
    case Obj(_, items) =>
      [Token(Object, o, o + |Render(v)|, |items|)] + ItemsTokens(items, |items|, o + 1)
    case Arr(_, items) =>
      [Token(Array, o, o + |Render(v)|, |items|)] + ItemsTokens(items, |items|, o + 1)
    case Str(raw) => [Token(String, o + 1, o + 1 + |raw|, 0)]
    case _ => [Token(Primitive, o, o + |Render(v)|, 0)]
  }

  function KeyTokens(k: Key, o: int): seq<Token> {
    if k.NoKey? then [] else [Token(String, o + 1, o + 1 + |k.name|, 1)]
  }

  function ItemTokens(it: Item, o: int): seq<Token>
    decreases it, 1
  {
    KeyTokens(it.key, o + |it.lead|) + Tokens(it.val, o + ValSkip(it))
  }

  /** The tokens of the first `n` items. */
  function ItemsTokens(items: seq<Item>, n: nat, o: int): seq<Token>
    requires n <= |items|
    decreases items, n
  {
    if n == 0 then []
    else ItemsTokens(items, n - 1, o) + ItemTokens(items[n - 1], o + Len(items, n - 1))
  }

  // ----- how many there are

  function Count(v: Value): (n: nat)
    ensures n >= 1
    decreases v, 0
  {
    1 + if v.Obj? || v.Arr? then CountItems(v.items, |v.items|) else 0
  }

  function CountItem(it: Item): (n: nat)
    ensures n >= 1
    decreases it, 1
  {
    (if it.key.Key? then 1 else 0) + Count(it.val)
  }

  function CountItems(items: seq<Item>, n: nat): nat
    requires n <= |items|
    decreases items, n
  {
    if n == 0 then 0 else CountItems(items, n - 1) + CountItem(items[n - 1])
  }

  lemma {:induction false} TokensCount(v: Value, o: int)
    ensures |Tokens(v, o)| == Count(v)
    decreases v, 0
  {
    if v.Obj? || v.Arr? {
      ItemsTokensCount(v.items, |v.items|, o + 1);
    }
  }

  lemma ItemTokensCount(it: Item, o: int)
    ensures |ItemTokens(it, o)| == CountItem(it)
    decreases it, 1
  {
    TokensCount(it.val, o + ValSkip(it));
  }

  lemma {:induction false} ItemsTokensCount(items: seq<Item>, n: nat, o: int)
    requires n <= |items|
    ensures |ItemsTokens(items, n, o)| == CountItems(items, n)
    decreases items, n
  {
    hide ItemTokens, ItemText;
    if n > 0 {
      ItemsTokensCount(items, n - 1, o);
      ItemTokensCount(items[n - 1], o + Len(items, n - 1));
    }
  }

  /** The tokens of item `k` stand together, after those of the items before it. */
  lemma {:induction false} ItemTokensAt(items: seq<Item>, n: nat, o: int, k: nat)
    requires k < n <= |items|
    ensures At(ItemsTokens(items, n, o), CountItems(items, k), ItemTokens(items[k], o + Len(items, k)))
  {
    hide At, ItemTokens, ItemText;
    ItemsTokensCount(items, n - 1, o);
    var init, last := ItemsTokens(items, n - 1, o), ItemTokens(items[n - 1], o + Len(items, n - 1));
    if k < n - 1 {
      ItemTokensAt(items, n - 1, o, k);
      AtExtend(init, last, CountItems(items, k), ItemTokens(items[k], o + Len(items, k)));
    } else {
      AtEnd(init, last);
    }
  }

  lemma AtEnd<T>(init: seq<T>, last: seq<T>)
    ensures At(init + last, |init|, last)
  {
  }

  lemma ContainerTokens(v: Value, o: int)
    requires v.Obj? || v.Arr?
    ensures Tokens(v, o) ==
      [Token(if v.Obj? then Object else Array, o, o + |Render(v)|, |v.items|)] + ItemsTokens(v.items, |v.items|, o + 1)
  {
  }

  lemma AtExtend<T>(init: seq<T>, last: seq<T>, o: int, s: seq<T>)
    requires At(init, o, s)
    ensures At(init + last, o, s)
  {
    assert (init + last)[o..o + |s|] == init[o..o + |s|];
  }

  lemma {:induction false} CountMonotone(items: seq<Item>, j: nat, k: nat)
    requires j <= k <= |items|
    ensures CountItems(items, j) + (k - j) <= CountItems(items, k)
    decreases k
  {
    if j < k {
      CountMonotone(items, j, k - 1);
    }
  }

  // ----- nesting

  /** Tokens come in the order they start, and of two tokens the later one starts after the earlier
      one ends or ends before it does. */
  ghost predicate WellNested(toks: seq<Token>) {
    && (forall i :: 0 <= i < |toks| ==> toks[i].start <= toks[i].end)
    && (forall i, j :: 0 <= i < j < |toks| ==>
      toks[i].start < toks[j].start && (toks[j].start < toks[i].end ==> toks[j].end < toks[i].end))
  }

  ghost predicate Within(toks: seq<Token>, lo: int, hi: int) {
    forall i :: 0 <= i < |toks| ==> lo <= toks[i].start <= toks[i].end <= hi
  }

  lemma NestConcat(a: seq<Token>, b: seq<Token>, lo: int, mid: int, hi: int)
    requires WellNested(a) && WellNested(b) && Within(a, lo, mid) && Within(b, mid + 1, hi) && lo <= mid + 1
    requires mid <= hi
    ensures WellNested(a + b) && Within(a + b, lo, hi)
  {
  }

  lemma NestEmpty(lo: int, hi: int)
    ensures WellNested([]) && Within([], lo, hi)
  {
  }

  lemma NestUnder(root: Token, inner: seq<Token>)
    requires WellNested(inner) && Within(inner, root.start + 1, root.end - 1)
    requires root.start <= root.end
    ensures WellNested([root] + inner) && Within([root] + inner, root.start, root.end)
  {
  }

  lemma WithinWiden(toks: seq<Token>, lo: int, hi: int, lo': int, hi': int)
    requires Within(toks, lo, hi) && lo' <= lo && hi <= hi'
    ensures Within(toks, lo', hi')
  {
  }

  /** The tokens of a document are well nested, inside its text. */
  lemma {:induction false} TokensNest(v: Value, o: int)
    ensures WellNested(Tokens(v, o)) && Within(Tokens(v, o), o, o + |Render(v)|)
    decreases v, 0, 1
  {
    hide ItemText, ItemsTokens, WellNested, Within;
    if v.Obj? || v.Arr? {
      ContainerNest(v, o);
    } else {
      LeafNest(v, o);
    }
  }

  lemma LeafNest(v: Value, o: int)
    requires !v.Obj? && !v.Arr?
    ensures WellNested(Tokens(v, o)) && Within(Tokens(v, o), o, o + |Render(v)|)
  {
  }

  /** The tokens inside an object or array lie strictly inside its text. */
  lemma InnerWithin(v: Value, o: int)
    requires v.Obj? || v.Arr?
    ensures Within(ItemsTokens(v.items, |v.items|, o + 1), o + 1, o + |Render(v)| - 1)
    decreases v, 0, 0
  {
    hide ItemText, ItemsTokens, WellNested, Within, Render;
    var n := |v.items|;
    ContainerLength(v);
    ItemsNest(v.items, n, o + 1);
    WithinWiden(ItemsTokens(v.items, n, o + 1), o + 1, o + Len(v.items, n), o + 1, o + |Render(v)| - 1);
  }

  lemma ContainerNest(v: Value, o: int)
    requires v.Obj? || v.Arr?
    ensures WellNested(Tokens(v, o)) && Within(Tokens(v, o), o, o + |Render(v)|)
    decreases v, 0, 0
  {
    hide ItemText, ItemsTokens, WellNested, Within, Render;
    var n := |v.items|;
    ContainerLength(v);
    ItemsNest(v.items, n, o + 1);
    WithinWiden(ItemsTokens(v.items, n, o + 1), o + 1, o + Len(v.items, n), o + 1, o + |Render(v)| - 1);
    NestUnder(Tokens(v, o)[0], ItemsTokens(v.items, n, o + 1));
  }

  lemma KeyNest(it: Item, o: int)
    requires it.key.Key?
    ensures WellNested(KeyTokens(it.key, o + |it.lead|)) && ValSkip(it) > 0
    ensures Within(KeyTokens(it.key, o + |it.lead|), o, o + ValSkip(it) - 1)
  {
  }

  lemma ItemNest(it: Item, o: int)
    ensures WellNested(ItemTokens(it, o)) && Within(ItemTokens(it, o), o, o + |ItemText(it)|)
    decreases it, 1
  {
    hide ItemText, Render, Tokens, WellNested, Within, ValSkip, KeyTokens;
    var q := o + ValSkip(it);
    ItemTextLength(it);
    TokensNest(it.val, q);
    WithinWiden(Tokens(it.val, q), q, q + |Render(it.val)|, q, o + |ItemText(it)|);
    if it.key.Key? {
      KeyNest(it, o);
      NestConcat(KeyTokens(it.key, o + |it.lead|), Tokens(it.val, q), o, q - 1, o + |ItemText(it)|);
    } else {
      WithinWiden(Tokens(it.val, q), q, q + |Render(it.val)|, o, o + |ItemText(it)|);
      NoKeyTokens(it, o);
    }
  }

  lemma NoKeyTokens(it: Item, o: int)
    requires it.key.NoKey?
    ensures ItemTokens(it, o) == Tokens(it.val, o + ValSkip(it))
  {
    hide Tokens;
  }

  lemma {:induction false} ItemsNest(items: seq<Item>, n: nat, o: int)
    requires n <= |items|
    ensures WellNested(ItemsTokens(items, n, o))
    ensures Within(ItemsTokens(items, n, o), o, o + Len(items, n) - 1)
    decreases items, n
  {
    hide ItemText, ItemTokens, WellNested, Within;
    if n == 0 {
      NestEmpty(o, o - 1);
    } else {
      var q := o + Len(items, n - 1);
      ItemsNest(items, n - 1, o);
      ItemNest(items[n - 1], q);
      NestConcat(ItemsTokens(items, n - 1, o), ItemTokens(items[n - 1], q), o, q - 1, o + Len(items, n) - 1);
    }
  }

  // ----- reading a text

  datatype Read<+T> = Bad | Got(val: T, next: nat)

  function WsEnd(s: string, i: nat): (j: nat)
    requires i <= |s|
    ensures i <= j <= |s| && Ws(s[i..j]) && (j < |s| ==> !IsWs(s[j]))
    decreases |s| - i
  {
    if i < |s| && IsWs(s[i]) then
      var j := WsEnd(s, i + 1);
      assert s[i..j] == [s[i]] + s[i + 1..j];
      j
    else i
  }

  function NumEnd(s: string, i: nat): (j: nat)
    requires i <= |s|
    ensures i <= j <= |s| && (forall k :: i <= k < j ==> IsNumChar(s[k])) && (j < |s| ==> !IsNumChar(s[j]))
    decreases |s| - i
  {
    if i < |s| && IsNumChar(s[i]) then NumEnd(s, i + 1) else i
  }

  /** The raw string that starts at `i`, up to its closing quote. */
  function ReadRaw(s: string, i: nat): (r: Read<string>)
    requires i <= |s|
    ensures r.Got? ==> i <= r.next < |s| && s[r.next] == '"' && r.val == s[i..r.next]
    decreases |s| - i
  {
    if i == |s| then Bad
    else if s[i] == '"' then Got("", i)
    else
      var step :=
        if s[i] != '\\' then if s[i] >= ' ' then 1 else 0
        else if i + 1 < |s| && s[i + 1] in "\"\\/bfnrt" then 2
        else if i + 5 < |s| && s[i + 1] == 'u' && IsHex(s[i + 2]) && IsHex(s[i + 3])
          && IsHex(s[i + 4]) && IsHex(s[i + 5]) then 6
        else 0;
      if step == 0 then Bad
      else
        match ReadRaw(s, i + step)
        case Bad => Bad
        case Got(rest, next) => Got(s[i..i + step] + rest, next)
  }

  function ReadKey(s: string, i: nat): (r: Read<Key>)
    requires i <= |s|
    ensures r.Got? ==> i < r.next <= |s|
  {
    if i == |s| || s[i] != '"' then Bad
    else
      match ReadRaw(s, i + 1)
      case Bad => Bad
      case Got(name, close) =>
        var colon := WsEnd(s, close + 1);
        if colon == |s| || s[colon] != ':' then Bad
        else
          var next := WsEnd(s, colon + 1);
          Got(Key(name, s[close + 1..colon], s[colon + 1..next]), next)
  }

  function ReadValue(s: string, i: nat): (r: Read<Value>)
    requires i <= |s|
    ensures r.Got? ==> i < r.next <= |s|
    decreases |s| - i, 0
  {
    if i == |s| then Bad
    else if s[i] == '{' || s[i] == '[' then
      var keyed := s[i] == '{';
      var w := WsEnd(s, i + 1);
      if w < |s| && s[w] == CloseChar(keyed) then
        Got(Container(keyed, s[i + 1..w], []), w + 1)
      else
        match ReadItems(s, i + 1, keyed, [])
        case Bad => Bad
        case Got(items, next) => Got(Container(keyed, "", items), next)
    else if s[i] == '"' then
      match ReadRaw(s, i + 1)
      case Bad => Bad
      case Got(raw, close) => Got(Str(raw), close + 1)
    else if s[i] == '-' || '0' <= s[i] <= '9' then Got(Num(s[i..NumEnd(s, i + 1)]), NumEnd(s, i + 1))
    else if At(s, i, "true") then Got(True, i + 4)
    else if At(s, i, "false") then Got(False, i + 5)
    else if At(s, i, "null") then Got(Null, i + 4)
    else Bad
  }

  function ReadItem(s: string, i: nat, keyed: bool): (r: Read<Item>)
    requires i <= |s|
    ensures r.Got? ==> i < r.next <= |s|
    decreases |s| - i, 1
  {
    var l := WsEnd(s, i);
    var k := if keyed then ReadKey(s, l) else Got(NoKey, l);
    if k.Bad? then Bad
    else
      match ReadValue(s, k.next)
      case Bad => Bad
      case Got(val, next) =>
        var t := WsEnd(s, next);
        Got(Item(s[i..l], k.val, val, s[next..t]), t)
  }

  /** The items from `i` on, after those already read, up to the closing character. */
  function ReadItems(s: string, i: nat, keyed: bool, before: seq<Item>): (r: Read<seq<Item>>)
    requires i <= |s|
    ensures r.Got? ==> i < r.next <= |s|
    decreases |s| - i, 2
  {
    match ReadItem(s, i, keyed)
    case Bad => Bad
    case Got(it, next) =>
      if next == |s| then Bad
      else if s[next] == ',' then ReadItems(s, next + 1, keyed, before + [it])
      else if s[next] == CloseChar(keyed) then Got(before + [it], next + 1)
      else Bad
  }

  function CloseChar(keyed: bool): char { if keyed then '}' else ']' }

  function Container(keyed: bool, pad: string, items: seq<Item>): Value {
    if keyed then Obj(pad, items) else Arr(pad, items)
  }

  /** A document: a value with whitespace around it. */
  datatype Doc = Doc(lead: string, val: Value, trail: string)

  function DocText(d: Doc): string { d.lead + Render(d.val) + d.trail }

  predicate DocOk(d: Doc) { Ws(d.lead) && Ws(d.trail) && WellFormed(d.val) }

  function ReadDoc(s: string): (r: Read<Doc>) {
    var l := WsEnd(s, 0);
    match ReadValue(s, l)
    case Bad => Bad
    case Got(v, next) =>
      if WsEnd(s, next) == |s| then Got(Doc(s[..l], v, s[next..]), |s|) else Bad
  }

  // ----- what the parser is handed

  /** The count jsmn returns and the token slots it filled. A negative count is an error; -1 is that
      the document has more tokens than there are slots. */
  datatype Scan = Scan(count: int, slots: seq<Token>)

  /** The texts whose tokens are known: documents, and texts without any token. jsmn takes others too,
      with tokens of its own; what is written for them here is a mere filler, and nothing is said of
      the result of parsing one. */
  predicate Known(s: string) { ReadDoc(s).Got? || Ws(s) }

  function Parse(s: string): Scan {
    match ReadDoc(s)
    case Bad => if Ws(s) then Scan(0, []) else Scan(-2, [])
    case Got(d, _) =>
      var toks := Tokens(d.val, |d.lead|);
      if |toks| <= MAX_THINGS then Scan(|toks|, toks) else Scan(-1, toks[..MAX_THINGS])
  }
}
