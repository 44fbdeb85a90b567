/** JSON documents (RFC 8259, sections 2 to 7) as concrete syntax trees that keep their whitespace,
    the text each one is written as, and where in that text each part stands. */
module Document {

  /** A JSON value. Strings and names are raw: escape sequences are kept as written. `pad` is the
      whitespace inside an empty object or array. */
  datatype Value =
    | Obj(pad: string, items: seq<Item>)
    | Arr(pad: string, items: seq<Item>)
    | Str(raw: string)
    | Num(text: string)
    | True
    | False
    | Null

  /** A member of an object (with a key) or an element of an array (without). */
  datatype Item = Item(lead: string, key: Key, val: Value, trail: string)

  datatype Key = NoKey | Key(name: string, beforeColon: string, afterColon: string)

  // ----- the text of a document

  function KeyText(k: Key): string {
    match k
    case NoKey => ""
    case Key(name, w1, w2) => "\"" + name + "\"" + w1 + ":" + w2
  }

  function Render(v: Value): string
    decreases v, 0
  {
    match v
    case Obj(pad, items) => "{" + (if items == [] then pad else RenderItems(items, |items|)) + "}"
    case Arr(pad, items) => "[" + (if items == [] then pad else RenderItems(items, |items|)) + "]"
    case Str(raw) => "\"" + raw + "\""
    case Num(text) => text
    case True => "true"
    case False => "false"
    case Null => "null"
  }

  function ItemText(it: Item): string
    decreases it, 1
  {
    it.lead + KeyText(it.key) + Render(it.val) + it.trail
  }

  /** The first `n` items joined by commas. */
  function RenderItems(items: seq<Item>, n: nat): string
    requires n <= |items|
    decreases items, n
  {
    if n == 0 then ""
    else if n == 1 then ItemText(items[0])
    else RenderItems(items, n - 1) + "," + ItemText(items[n - 1])
  }

  // ----- which trees are documents

  predicate Ws(s: string) { forall k :: 0 <= k < |s| ==> IsWs(s[k]) }

  predicate IsWs(c: char) { c == ' ' || c == '\t' || c == '\n' || c == '\r' }

  predicate IsNumChar(c: char) { '0' <= c <= '9' || c == '-' || c == '+' || c == '.' || c == 'e' || c == 'E' }

  predicate IsHex(c: char) { '0' <= c <= '9' || 'a' <= c <= 'f' || 'A' <= c <= 'F' }

  /** The text between the quotes of a string: no bare quote or control character, and every
      backslash starts one of the escapes of section 7. */
  predicate RawString(s: string) {
    if s == [] then true
    else if s[0] == '\\' then
      |s| >= 2 &&
      if s[1] == 'u' then
        |s| >= 6 && IsHex(s[2]) && IsHex(s[3]) && IsHex(s[4]) && IsHex(s[5]) && RawString(s[6..])
      else s[1] in "\"\\/bfnrt" && RawString(s[2..])
    else s[0] != '"' && s[0] >= ' ' && RawString(s[1..])
  }

  /** Wider than the number grammar of section 6: every number of the standard is one of these. */
  predicate NumberText(s: string) {
    s != [] && (s[0] == '-' || '0' <= s[0] <= '9') && forall k :: 0 <= k < |s| ==> IsNumChar(s[k])
  }

  /** Whitespace and strings as sections 2 and 7 of RFC 8259 have them, one character or escape more. */
  lemma StandardWs(s: string)
    ensures Ws(s) <==> forall k :: 0 <= k < |s| ==> s[k] in {' ', '\t', '\n', '\r'}
  {
  }

  lemma StandardWords(raw: string, text: string, it: Item, it': Item)
    ensures Render(True) == "true" && Render(False) == "false" && Render(Null) == "null"
    ensures Render(Str(raw)) == "\"" + raw + "\"" && Render(Num(text)) == text
    ensures Render(Obj("", [])) == "{}" && Render(Arr("", [])) == "[]"
    ensures Render(Arr("", [it, it'])) == "[" + ItemText(it) + "," + ItemText(it') + "]"
    ensures Render(Obj("", [it, it'])) == "{" + ItemText(it) + "," + ItemText(it') + "}"
  {
    hide ItemText;
    assert RenderItems([it, it'], 2) == RenderItems([it, it'], 1) + "," + ItemText(it');
  }

  lemma StandardChar(s: string, c: char)
    ensures RawString("")
    ensures c >= ' ' && c != '"' && c != '\\' ==> (RawString([c] + s) <==> RawString(s))
    ensures c < ' ' || c == '"' ==> !RawString([c] + s)
  {
    assert ([c] + s)[1..] == s;
  }

  lemma StandardEscape(s: string, c: char)
    requires c in {'"', '\\', '/', 'b', 'f', 'n', 'r', 't'}
    ensures RawString(['\\', c] + s) <==> RawString(s)
  {
    hide IsHex;
    var t := ['\\', c] + s;
    assert t[2..] == s && t[0] == '\\' && t[1] == c && c != 'u';
    assert c in "\"\\/bfnrt" by { assert "\"\\/bfnrt" == ['"', '\\', '/', 'b', 'f', 'n', 'r', 't']; }
  }

  lemma StandardHex(s: string, a: char, b: char, c: char, d: char)
    requires forall x :: x in [a, b, c, d] ==> '0' <= x <= '9' || 'a' <= x <= 'f' || 'A' <= x <= 'F'
    ensures RawString(['\\', 'u', a, b, c, d] + s) <==> RawString(s)
  {
    var t := ['\\', 'u', a, b, c, d] + s;
    assert a in [a, b, c, d] && b in [a, b, c, d] && c in [a, b, c, d] && d in [a, b, c, d];
    assert t[6..] == s && t[0] == '\\' && t[1] == 'u';
    assert t[2] == a && t[3] == b && t[4] == c && t[5] == d;
  }

  predicate KeyOk(k: Key) {
    k.Key? ==> RawString(k.name) && Ws(k.beforeColon) && Ws(k.afterColon)
  }

  predicate WellFormed(v: Value)
    decreases v, 0
  {
    match v
    case Obj(pad, items) => Ws(pad) && (items != [] ==> pad == "") && ItemsOk(items, true)
    case Arr(pad, items) => Ws(pad) && (items != [] ==> pad == "") && ItemsOk(items, false)
    case Str(raw) => RawString(raw)
    case Num(text) => NumberText(text)
    case _ => true
  }

  predicate ItemOk(it: Item, keyed: bool)
    decreases it, 1
  {
    Ws(it.lead) && Ws(it.trail) && KeyOk(it.key) && it.key.Key? == keyed && WellFormed(it.val)
  }

  predicate ItemsOk(items: seq<Item>, keyed: bool)
    decreases items, 0
  {
    forall k :: 0 <= k < |items| ==> ItemOk(items[k], keyed)
  }

  // ----- where the parts stand

  /** `s` stands at position `o` of `text`. */
  predicate At<T(==)>(text: seq<T>, o: int, s: seq<T>) {
    0 <= o && o + |s| <= |text| && text[o..o + |s|] == s
  }

  lemma AtConcat<T>(text: seq<T>, o: int, a: seq<T>, b: seq<T>)
    ensures At(text, o, a + b) <==> At(text, o, a) && At(text, o + |a|, b)
  {
    if At(text, o, a + b) {
      assert text[o..o + |a|] == (a + b)[..|a|];
      assert text[o + |a|..o + |a| + |b|] == (a + b)[|a|..];
    }
    if At(text, o, a) && At(text, o + |a|, b) {
      assert text[o..o + |a + b|] == text[o..o + |a|] + text[o + |a|..o + |a| + |b|];
    }
  }

  lemma AtIndex<T>(text: seq<T>, o: int, s: seq<T>)
    requires At(text, o, s)
    ensures 0 <= o && o + |s| <= |text| && forall k :: o <= k < o + |s| ==> text[k] == s[k - o]
  {
    assert forall k :: o <= k < o + |s| ==> text[k] == text[o..o + |s|][k - o];
  }

  lemma AtEqual<T>(a: seq<T>, o: int, s: seq<T>)
    requires 0 <= o && o + |s| <= |a| && forall k :: o <= k < o + |s| ==> a[k] == s[k - o]
    ensures At(a, o, s)
  {
    assert a[o..o + |s|] == s;
  }

  lemma AtChar(text: string, o: int, c: char)
    ensures At(text, o, [c]) <==> 0 <= o < |text| && text[o] == c
  {
  }

  lemma AtSlice(text: string, i: nat, j: nat)
    requires i <= j <= |text|
    ensures At(text, i, text[i..j]) && |text[i..j]| == j - i
  {
  }

  lemma AtFirst(text: string, o: int, s: string)
    requires At(text, o, s) && s != []
    ensures 0 <= o < |text| && text[o] == s[0]
  {
    assert text[o..o + |s|][0] == text[o];
  }

  lemma AtBounds(text: string, o: int, s: string)
    requires At(text, o, s)
    ensures 0 <= o && o + |s| <= |text|
  {
  }

  /** The length of the first `n` items' texts with a separator after each. */
  function Len(items: seq<Item>, n: nat): nat
    requires n <= |items|
  {
    if n == 0 then 0 else Len(items, n - 1) + |ItemText(items[n - 1])| + 1
  }

  /** How far into an item its value starts. */
  function ValSkip(it: Item): nat { |it.lead| + |KeyText(it.key)| }

  lemma ItemTextLength(it: Item)
    ensures |ItemText(it)| == ValSkip(it) + |Render(it.val)| + |it.trail|
  {
  }

  /** Where the value of item `k` starts, when item 0 starts at `o`. */
  function ValPos(items: seq<Item>, k: nat, o: int): int
    requires k < |items|
  {
    o + Len(items, k) + ValSkip(items[k])
  }

  lemma ValPosAfter(items: seq<Item>, k: nat, o: int)
    requires k < |items|
    ensures o + Len(items, k) <= ValPos(items, k, o)
  {
  }

  lemma PosShift(items: seq<Item>, k: nat, o: int, d: int)
    requires k < |items|
    ensures d + ValPos(items, k, o) == ValPos(items, k, d + o)
  {
  }

  lemma LenZero(items: seq<Item>)
    ensures Len(items, 0) == 0
  {
  }

  lemma {:induction false} LenMonotone(items: seq<Item>, j: nat, k: nat)
    requires j <= k <= |items|
    ensures Len(items, j) + (k - j) <= Len(items, k)
  {
    hide ItemText;
    if j < k {
      LenMonotone(items, j, k - 1);
    }
  }

  lemma {:induction false} RenderItemsLength(items: seq<Item>, n: nat)
    requires 0 < n <= |items|
    ensures |RenderItems(items, n)| == Len(items, n) - 1
  {
    if n > 1 {
      RenderItemsLength(items, n - 1);
    }
  }

  lemma LastItemAt(text: string, o: int, items: seq<Item>, n: nat)
    requires 1 < n <= |items| && At(text, o, RenderItems(items, n))
    ensures At(text, o, RenderItems(items, n - 1))
    ensures At(text, o + Len(items, n - 1) - 1, ",")
    ensures At(text, o + Len(items, n - 1), ItemText(items[n - 1]))
  {
    hide At;
    RenderItemsLength(items, n - 1);
    var init, last := RenderItems(items, n - 1), ItemText(items[n - 1]);
    AtConcat(text, o, init + ",", last);
    AtConcat(text, o, init, ",");
  }

  /** Item `k` stands at its place, and a comma follows it unless it is the last. */
  lemma {:induction false} ItemAt(text: string, o: int, items: seq<Item>, n: nat, k: nat)
    requires k < n <= |items| && At(text, o, RenderItems(items, n))
    ensures At(text, o + Len(items, k), ItemText(items[k]))
    ensures k + 1 < n ==> At(text, o + Len(items, k + 1) - 1, ",")
    decreases n
  {
    hide At, ItemText;
    if n > 1 {
      LastItemAt(text, o, items, n);
      if k < n - 1 {
        ItemAt(text, o, items, n - 1, k);
      }
    }
  }

  lemma LenNext(items: seq<Item>, k: nat)
    requires k < |items|
    ensures Len(items, k + 1) == Len(items, k) + |ItemText(items[k])| + 1
  {
    hide ItemText;
  }

  lemma ValueFits(items: seq<Item>, k: nat, n: nat)
    requires k < n <= |items|
    ensures 0 <= Len(items, k) <= ValPos(items, k, 0) && ValPos(items, k, 0) + |Render(items[k].val)| < Len(items, n)
  {
    hide ItemText, Render, Len, ValSkip;
    LenNext(items, k);
    ItemTextLength(items[k]);
    LenMonotone(items, k + 1, n);
  }

  /** The parts of one item. */
  lemma ItemParts(text: string, o: int, it: Item)
    requires At(text, o, ItemText(it))
    ensures At(text, o, it.lead)
    ensures At(text, o + |it.lead|, KeyText(it.key))
    ensures At(text, o + ValSkip(it), Render(it.val))
    ensures At(text, o + ValSkip(it) + |Render(it.val)|, it.trail)
    ensures |ItemText(it)| == ValSkip(it) + |Render(it.val)| + |it.trail|
  {
    AtConcat(text, o, it.lead + KeyText(it.key) + Render(it.val), it.trail);
    AtConcat(text, o, it.lead + KeyText(it.key), Render(it.val));
    AtConcat(text, o, it.lead, KeyText(it.key));
  }

  lemma KeyParts(text: string, o: int, k: Key)
    requires k.Key? && At(text, o, KeyText(k))
    ensures At(text, o, "\"") && At(text, o + 1, k.name) && At(text, o + 1 + |k.name|, "\"")
    ensures At(text, o + 2 + |k.name|, k.beforeColon)
    ensures At(text, o + 2 + |k.name| + |k.beforeColon|, ":")
    ensures At(text, o + 3 + |k.name| + |k.beforeColon|, k.afterColon)
    ensures |KeyText(k)| == 3 + |k.name| + |k.beforeColon| + |k.afterColon|
  {
    hide At;
    AtConcat(text, o, "\"" + k.name + "\"" + k.beforeColon + ":", k.afterColon);
    AtConcat(text, o, "\"" + k.name + "\"" + k.beforeColon, ":");
    AtConcat(text, o, "\"" + k.name + "\"", k.beforeColon);
    AtConcat(text, o, "\"" + k.name, "\"");
    AtConcat(text, o, "\"", k.name);
  }

  lemma KeyJoin(text: string, o: int, k: Key)
    requires k.Key? && At(text, o, "\"") && At(text, o + 1, k.name) && At(text, o + 1 + |k.name|, "\"")
    requires At(text, o + 2 + |k.name|, k.beforeColon)
    requires At(text, o + 2 + |k.name| + |k.beforeColon|, ":")
    requires At(text, o + 3 + |k.name| + |k.beforeColon|, k.afterColon)
    ensures At(text, o, KeyText(k)) && |KeyText(k)| == 3 + |k.name| + |k.beforeColon| + |k.afterColon|
  {
    hide At;
    AtConcat(text, o, "\"", k.name);
    AtConcat(text, o, "\"" + k.name, "\"");
    AtConcat(text, o, "\"" + k.name + "\"", k.beforeColon);
    AtConcat(text, o, "\"" + k.name + "\"" + k.beforeColon, ":");
    AtConcat(text, o, "\"" + k.name + "\"" + k.beforeColon + ":", k.afterColon);
  }

  lemma StringLength(raw: string)
    ensures |Render(Str(raw))| == |raw| + 2
  {
  }

  function Open(v: Value): char
    requires v.Obj? || v.Arr?
  {
    if v.Obj? then '{' else '['
  }

  function Close(v: Value): char
    requires v.Obj? || v.Arr?
  {
    if v.Obj? then '}' else ']'
  }

  function Body(v: Value): string
    requires v.Obj? || v.Arr?
  {
    if v.items == [] then v.pad else RenderItems(v.items, |v.items|)
  }

  lemma ContainerParts(text: string, o: int, v: Value)
    requires (v.Obj? || v.Arr?) && At(text, o, Render(v))
    ensures At(text, o, [Open(v)]) && At(text, o + 1, Body(v)) && At(text, o + 1 + |Body(v)|, [Close(v)])
    ensures |Render(v)| == 2 + |Body(v)|
  {
    assert Render(v) == [Open(v)] + Body(v) + [Close(v)];
    AtConcat(text, o, [Open(v)] + Body(v), [Close(v)]);
    AtConcat(text, o, [Open(v)], Body(v));
  }

  lemma ContainerLength(v: Value)
    requires v.Obj? || v.Arr?
    ensures |Render(v)| == if v.items == [] then |v.pad| + 2 else Len(v.items, |v.items|) + 1
  {
    if v.items != [] {
      RenderItemsLength(v.items, |v.items|);
    }
  }

  lemma StringParts(text: string, o: int, raw: string)
    requires At(text, o, Render(Str(raw)))
    ensures At(text, o, "\"") && At(text, o + 1, raw) && At(text, o + 1 + |raw|, "\"")
    ensures |Render(Str(raw))| == |raw| + 2
  {
    assert Render(Str(raw)) == "\"" + raw + "\"";
    AtConcat(text, o, "\"" + raw, "\"");
    AtConcat(text, o, "\"", raw);
  }

  lemma ItemOkParts(it: Item, keyed: bool)
    requires ItemOk(it, keyed)
    ensures Ws(it.lead) && Ws(it.trail) && KeyOk(it.key) && it.key.Key? == keyed && WellFormed(it.val)
  {
  }

  /** A value's text is never empty, and starts with a character that is neither whitespace nor
      one of the characters that may follow a value. */
  lemma FirstChar(v: Value)
    requires WellFormed(v)
    ensures Render(v) != [] && !IsWs(Render(v)[0]) && Render(v)[0] !in ",:]}"
  {
  }

  // ----- no character of a document ends a C string

  predicate NoNul(s: string) { forall k :: 0 <= k < |s| ==> s[k] != '\0' }

  lemma {:induction false} RawStringNoNul(s: string)
    requires RawString(s)
    ensures NoNul(s)
  {
    if s == [] {
    } else if s[0] == '\\' {
      if s[1] == 'u' {
        RawStringNoNul(s[6..]);
        assert s == s[..6] + s[6..];
      } else {
        RawStringNoNul(s[2..]);
        assert s == s[..2] + s[2..];
      }
    } else {
      RawStringNoNul(s[1..]);
      assert s == [s[0]] + s[1..];
    }
  }

  lemma ItemNoNul(it: Item, keyed: bool)
    requires ItemOk(it, keyed)
    ensures NoNul(ItemText(it))
    decreases it, 1
  {
    RenderNoNul(it.val);
    if it.key.Key? {
      RawStringNoNul(it.key.name);
    }
  }

  lemma {:induction false} ItemsNoNul(items: seq<Item>, n: nat, keyed: bool)
    requires n <= |items| && ItemsOk(items, keyed)
    ensures NoNul(RenderItems(items, n))
    decreases items, n
  {
    if n > 0 {
      ItemNoNul(items[n - 1], keyed);
      ItemsNoNul(items, n - 1, keyed);
    }
  }

  /** C string functions see a document's whole text. */
  lemma {:induction false} RenderNoNul(v: Value)
    requires WellFormed(v)
    ensures NoNul(Render(v))
    decreases v, 0
  {
    match v {
      case Obj(pad, items) => ItemsNoNul(items, |items|, true);
      case Arr(pad, items) => ItemsNoNul(items, |items|, false);
      case Str(raw) => RawStringNoNul(raw);
      case _ =>
    }
  }
}
