/** Reading a text and writing a document are inverse: whatever the reader accepts is the text of
    the document it returns, and every document's text is read back as that document. */
module Reading {
  import opened Document
  import opened Jsmn

  // ----- what is read is what stands in the text

  lemma {:induction false} RawSound(s: string, i: nat)
    requires i <= |s| && ReadRaw(s, i).Got?
    ensures RawString(ReadRaw(s, i).val)
    decreases |s| - i
  {
    if s[i] != '"' {
      var step := if s[i] != '\\' then 1 else if s[i + 1] in "\"\\/bfnrt" then 2 else 6;
      RawSound(s, i + step);
      var head, rest := s[i..i + step], ReadRaw(s, i + step).val;
      assert (head + rest)[step..] == rest;
    }
  }

  lemma KeySound(s: string, i: nat)
    requires i <= |s| && ReadKey(s, i).Got?
    ensures KeyOk(ReadKey(s, i).val) && ReadKey(s, i).val.Key?
    ensures At(s, i, KeyText(ReadKey(s, i).val))
    ensures ReadKey(s, i).next == i + |KeyText(ReadKey(s, i).val)|
  {
    hide At, RawString, ReadRaw, WsEnd, KeyText, Ws;
    RawSound(s, i + 1);
    var k, next := ReadKey(s, i).val, ReadKey(s, i).next;
    var close := i + 1 + |k.name|;
    var colon := close + 1 + |k.beforeColon|;
    AtChar(s, i, '"');
    AtSlice(s, i + 1, close);
    AtChar(s, close, '"');
    AtSlice(s, close + 1, colon);
    AtChar(s, colon, ':');
    AtSlice(s, colon + 1, next);
    KeyJoin(s, i, k);
  }

  lemma ItemSound(s: string, i: nat, keyed: bool)
    requires i <= |s| && ReadItem(s, i, keyed).Got?
    ensures ItemOk(ReadItem(s, i, keyed).val, keyed)
    ensures At(s, i, ItemText(ReadItem(s, i, keyed).val))
    ensures ReadItem(s, i, keyed).next == i + |ItemText(ReadItem(s, i, keyed).val)|
    decreases |s| - i, 1
  {
    hide RawString, Render, At, KeyText, KeyOk, WellFormed, ReadValue, ReadKey;
    var l := WsEnd(s, i);
    var k := if keyed then ReadKey(s, l) else Got(NoKey, l);
    if keyed {
      KeySound(s, l);
    } else {
      KeyEmpty(NoKey);
      KeyNone();
      AtSlice(s, l, l);
    }
    ValueSound(s, k.next);
    var it, t := ReadItem(s, i, keyed).val, ReadItem(s, i, keyed).next;
    var next := ReadValue(s, k.next).next;
    AtSlice(s, i, l);
    AtConcat(s, i, it.lead, KeyText(it.key));
    AtConcat(s, i, it.lead + KeyText(it.key), Render(it.val));
    AtSlice(s, next, t);
    AtConcat(s, i, it.lead + KeyText(it.key) + Render(it.val), it.trail);
  }

  lemma KeyNone()
    ensures KeyOk(NoKey)
  {
  }

  lemma {:induction false} RenderItemsPrefix(a: seq<Item>, b: seq<Item>, n: nat)
    requires n <= |a| && n <= |b| && a[..n] == b[..n]
    ensures RenderItems(a, n) == RenderItems(b, n)
    decreases n
  {
    hide ItemText;
    if n > 0 {
      assert a[n - 1] == a[..n][n - 1] == b[..n][n - 1] == b[n - 1];
      assert a[..n - 1] == a[..n][..n - 1] == b[..n][..n - 1] == b[..n - 1];
      RenderItemsPrefix(a, b, n - 1);
    }
  }

  /** The items read so far stand at `o`, each followed by a comma. */
  ghost predicate ReadSoFar(s: string, o: nat, i: nat, before: seq<Item>) {
    if before == [] then i == o
    else i == o + |RenderItems(before, |before|)| + 1 && At(s, o, RenderItems(before, |before|) + ",")
  }

  lemma ReadOneMore(s: string, o: nat, i: nat, before: seq<Item>, it: Item)
    requires ReadSoFar(s, o, i, before) && At(s, i, ItemText(it))
    ensures var all := before + [it];
      At(s, o, RenderItems(all, |all|)) && o + |RenderItems(all, |all|)| == i + |ItemText(it)|
  {
    hide ItemText, At;
    var all := before + [it];
    var n := |before|;
    if n == 0 {
      assert all[0] == it;
    } else {
      RenderItemsPrefix(before, all, n);
      assert RenderItems(all, n + 1) == RenderItems(before, n) + "," + ItemText(it);
      AtConcat(s, o, RenderItems(before, n) + ",", ItemText(it));
    }
  }

  lemma {:induction false} ItemsSound(s: string, o: nat, i: nat, keyed: bool, before: seq<Item>)
    requires o <= i <= |s| && ReadItems(s, i, keyed, before).Got?
    requires ReadSoFar(s, o, i, before) && ItemsOk(before, keyed)
    ensures var items := ReadItems(s, i, keyed, before).val;
      && items != [] && ItemsOk(items, keyed)
      && At(s, o, RenderItems(items, |items|) + [CloseChar(keyed)])
      && ReadItems(s, i, keyed, before).next == o + |RenderItems(items, |items|)| + 1
    decreases |s| - i, 2
  {
    hide ItemText, ReadItem, ItemOk, At, RenderItems;
    ItemSound(s, i, keyed);
    var it, next := ReadItem(s, i, keyed).val, ReadItem(s, i, keyed).next;
    ReadOneMore(s, o, i, before, it);
    var all := before + [it];
    AtConcat(s, o, RenderItems(all, |all|), [s[next]]);
    AtChar(s, next, s[next]);
    if s[next] == ',' {
      ItemsSound(s, o, next + 1, keyed, all);
    }
  }

  lemma ContainerSound(s: string, i: nat)
    requires i < |s| && (s[i] == '{' || s[i] == '[') && ReadValue(s, i).Got?
    ensures WellFormed(ReadValue(s, i).val) && At(s, i, Render(ReadValue(s, i).val))
    ensures ReadValue(s, i).next == i + |Render(ReadValue(s, i).val)|
    decreases |s| - i, 0, 0
  {
    hide At, ReadItems, RenderItems, ItemsOk, Render, WellFormed;
    var keyed := s[i] == '{';
    var w := WsEnd(s, i + 1);
    if w < |s| && s[w] == CloseChar(keyed) {
      EmptySound(s, i, w, keyed);
    } else {
      NoItemsOk(keyed);
      ItemsSound(s, i + 1, i + 1, keyed, []);
      FilledSound(s, i, keyed, ReadItems(s, i + 1, keyed, []));
    }
  }

  lemma EmptySound(s: string, i: nat, w: nat, keyed: bool)
    requires i < w < |s| && s[i] == (if keyed then '{' else '[') && s[w] == CloseChar(keyed) && Ws(s[i + 1..w])
    ensures var v := Container(keyed, s[i + 1..w], []);
      WellFormed(v) && At(s, i, Render(v)) && w + 1 == i + |Render(v)|
  {
    hide At, ItemsOk;
    var v := Container(keyed, s[i + 1..w], []);
    AtChar(s, i, s[i]);
    PadSound(s, i + 1, w);
    AtConcat(s, i + 1, v.pad, [s[w]]);
    AtChar(s, w, s[w]);
    assert Render(v) == [s[i]] + (v.pad + [s[w]]);
    AtConcat(s, i, [s[i]], v.pad + [s[w]]);
    NoItemsOk(keyed);
  }

  lemma FilledSound(s: string, i: nat, keyed: bool, r: Read<seq<Item>>)
    requires i < |s| && s[i] == (if keyed then '{' else '[') && r.Got? && r.val != [] && ItemsOk(r.val, keyed)
    requires At(s, i + 1, RenderItems(r.val, |r.val|) + [CloseChar(keyed)])
    requires r.next == i + 1 + |RenderItems(r.val, |r.val|) + [CloseChar(keyed)]|
    ensures var v := Container(keyed, "", r.val); WellFormed(v) && At(s, i, Render(v)) && r.next == i + |Render(v)|
  {
    hide At, RenderItems, ItemsOk;
    AtChar(s, i, s[i]);
    var v, body := Container(keyed, "", r.val), RenderItems(r.val, |r.val|) + [CloseChar(keyed)];
    assert Render(v) == [s[i]] + body;
    AtConcat(s, i, [s[i]], body);
  }

  lemma NoItemsOk(keyed: bool)
    ensures ItemsOk([], keyed)
  {
  }

  lemma PadSound(s: string, i: nat, j: nat)
    requires i <= j <= |s|
    ensures At(s, i, s[i..j]) && i + |s[i..j]| == j
  {
  }

  lemma StringSound(s: string, i: nat)
    requires i < |s| && s[i] == '"' && ReadValue(s, i).Got?
    ensures ReadValue(s, i).val.Str? && WellFormed(ReadValue(s, i).val) && At(s, i, Render(ReadValue(s, i).val))
    ensures ReadValue(s, i).next == i + |Render(ReadValue(s, i).val)|
  {
    hide RawString, At, ReadRaw, ReadItems, WsEnd, NumEnd;
    RawSound(s, i + 1);
    var raw := ReadRaw(s, i + 1).val;
    assert ReadValue(s, i) == Got(Str(raw), i + 2 + |raw|);
    AtChar(s, i, '"');
    AtSlice(s, i + 1, i + 1 + |raw|);
    AtConcat(s, i, "\"", raw);
    AtChar(s, i + 1 + |raw|, '"');
    AtConcat(s, i, "\"" + raw, "\"");
  }

  lemma NumberSound(s: string, i: nat)
    requires i < |s| && (s[i] == '-' || '0' <= s[i] <= '9')
    ensures var end := NumEnd(s, i + 1);
      ReadValue(s, i) == Got(Num(s[i..end]), end) && NumberText(s[i..end]) && At(s, i, s[i..end])
  {
    hide ReadRaw, ReadItems, WsEnd;
  }

  lemma WordSound(s: string, i: nat)
    requires i < |s| && s[i] !in "{[\"-" && !('0' <= s[i] <= '9') && ReadValue(s, i).Got?
    ensures WellFormed(ReadValue(s, i).val) && At(s, i, Render(ReadValue(s, i).val))
    ensures ReadValue(s, i).next == i + |Render(ReadValue(s, i).val)|
  {
    hide RawString, At, ReadRaw, ReadItems, WsEnd, NumEnd;
  }

  lemma LeafSound(s: string, i: nat)
    requires i < |s| && s[i] != '{' && s[i] != '[' && ReadValue(s, i).Got?
    ensures WellFormed(ReadValue(s, i).val) && At(s, i, Render(ReadValue(s, i).val))
    ensures ReadValue(s, i).next == i + |Render(ReadValue(s, i).val)|
  {
    hide RawString, At, ReadValue, NumberText;
    if s[i] == '"' {
      StringSound(s, i);
    } else if s[i] == '-' || '0' <= s[i] <= '9' {
      NumberSound(s, i);
    } else {
      WordSound(s, i);
    }
  }

  /** What the reader returns is well formed, and its text is exactly the stretch that was read. */
  lemma {:induction false} ValueSound(s: string, i: nat)
    requires i <= |s| && ReadValue(s, i).Got?
    ensures WellFormed(ReadValue(s, i).val) && At(s, i, Render(ReadValue(s, i).val))
    ensures ReadValue(s, i).next == i + |Render(ReadValue(s, i).val)|
    decreases |s| - i, 0, 1
  {
    hide At, Render, WellFormed;
    if s[i] == '{' || s[i] == '[' {
      ContainerSound(s, i);
    } else {
      LeafSound(s, i);
    }
  }

  // ----- what stands in the text is read

  lemma {:induction false} WsEndIs(s: string, i: nat, j: nat)
    requires i <= j <= |s| && Ws(s[i..j]) && (j < |s| ==> !IsWs(s[j]))
    ensures WsEnd(s, i) == j
    decreases j - i
  {
    if i < j {
      assert IsWs(s[i..j][0]) && s[i + 1..j] == s[i..j][1..];
      WsEndIs(s, i + 1, j);
    }
  }

  lemma WsEndAt(s: string, i: nat, w: string)
    requires At(s, i, w) && Ws(w) && (i + |w| < |s| ==> !IsWs(s[i + |w|]))
    ensures i + |w| <= |s| && WsEnd(s, i) == i + |w|
  {
    WsEndIs(s, i, i + |w|);
  }

  lemma NumEndIs(s: string, i: nat, j: nat)
    requires i <= j <= |s| && (forall k :: i <= k < j ==> IsNumChar(s[k])) && (j < |s| ==> !IsNumChar(s[j]))
    ensures NumEnd(s, i) == j
  {
  }

  /** How many characters the first piece of a raw string takes. */
  function RawStep(raw: string): nat
    requires RawString(raw) && raw != []
  {
    if raw[0] != '\\' then 1 else if raw[1] in "\"\\/bfnrt" then 2 else 6
  }

  lemma RawStepOk(raw: string)
    requires RawString(raw) && raw != []
    ensures 1 <= RawStep(raw) <= |raw| && RawString(raw[RawStep(raw)..])
  {
  }

  lemma ReadStep(s: string, i: nat, raw: string)
    requires RawString(raw) && raw != [] && i + |raw| <= |s| && forall k :: 0 <= k < |raw| ==> s[i + k] == raw[k]
    ensures RawStep(raw) <= |raw| && ReadRaw(s, i) ==
      match ReadRaw(s, i + RawStep(raw))
      case Bad => Bad
      case Got(rest, next) => Got(s[i..i + RawStep(raw)] + rest, next)
  {
    assert s[i] == raw[0];
    if raw[0] == '\\' {
      assert s[i + 1] == raw[1];
      if raw[1] == 'u' {
        assert s[i + 2] == raw[2] && s[i + 3] == raw[3] && s[i + 4] == raw[4] && s[i + 5] == raw[5];
      }
    }
  }

  lemma {:induction false} RawComplete(s: string, i: nat, raw: string)
    requires RawString(raw) && At(s, i, raw) && At(s, i + |raw|, "\"")
    ensures ReadRaw(s, i) == Got(raw, i + |raw|)
    decreases |raw|
  {
    hide RawString, RawStep, At, ReadRaw;
    if raw == [] {
      RawEnd(s, i);
    } else {
      RawStepOk(raw);
      var step := RawStep(raw);
      AtIndex(s, i, raw);
      assert forall k :: 0 <= k < |raw| ==> s[i + k] == raw[k];
      ReadStep(s, i, raw);
      assert raw == raw[..step] + raw[step..];
      assert s[i..i + step] == raw[..step];
      AtConcat(s, i, raw[..step], raw[step..]);
      RawComplete(s, i + step, raw[step..]);
    }
  }

  lemma RawEnd(s: string, i: nat)
    requires At(s, i, "\"")
    ensures i < |s| && ReadRaw(s, i) == Got("", i)
  {
    AtChar(s, i, '"');
  }

  lemma KeyComplete(s: string, i: nat, k: Key)
    requires k.Key? && KeyOk(k) && At(s, i, KeyText(k))
    requires i + |KeyText(k)| < |s| && !IsWs(s[i + |KeyText(k)|])
    ensures ReadKey(s, i) == Got(k, i + |KeyText(k)|)
  {
    hide KeyText, RawString, At, Ws, WsEnd, ReadRaw;
    KeyParts(s, i, k);
    RawComplete(s, i + 1, k.name);
    var close := i + 1 + |k.name|;
    var colon := close + 1 + |k.beforeColon|;
    AtChar(s, i, '"');
    AtChar(s, colon, ':');
    WsEndAt(s, close + 1, k.beforeColon);
    WsEndAt(s, colon + 1, k.afterColon);
    AtText(s, i + 1, k.name);
    AtText(s, close + 1, k.beforeColon);
    AtText(s, colon + 1, k.afterColon);
  }

  /** A number is read whole only if what follows it cannot be part of a number. */
  ghost predicate EndsHere(s: string, e: int) {
    0 <= e <= |s| && (e < |s| ==> !IsNumChar(s[e]))
  }

  lemma ItemComplete(s: string, i: nat, it: Item, keyed: bool)
    requires ItemOk(it, keyed) && At(s, i, ItemText(it))
    requires i + |ItemText(it)| < |s| && s[i + |ItemText(it)|] in ",]}"
    ensures ReadItem(s, i, keyed) == Got(it, i + |ItemText(it)|)
    decreases it, 1
  {
    hide ItemText, Render, WellFormed, KeyText, KeyOk, ReadKey, ReadValue, At, Ws, WsEnd, EndsHere, ItemOk;
    ItemOkParts(it, keyed);
    ItemParts(s, i, it);
    FirstChar(it.val);
    var l, v := i + |it.lead|, i + ValSkip(it);
    var next := v + |Render(it.val)|;
    AtFirst(s, v, Render(it.val));
    LeadEnds(s, i, it, keyed);
    if keyed {
      KeyComplete(s, l, it.key);
    } else {
      KeyEmpty(it.key);
    }
    TrailEnds(s, next, it.trail);
    ValueComplete(s, v, it.val);
    WsEndAt(s, next, it.trail);
    AtText(s, i, it.lead);
    AtText(s, next, it.trail);
  }

  lemma TrailEnds(s: string, next: int, trail: string)
    requires At(s, next, trail) && Ws(trail) && next + |trail| < |s| && s[next + |trail|] in ",]}"
    ensures EndsHere(s, next)
  {
    if trail != [] {
      AtFirst(s, next, trail);
    }
  }

  lemma KeyFirst(k: Key)
    requires k.Key?
    ensures |KeyText(k)| > 0 && KeyText(k)[0] == '"'
  {
  }

  lemma KeyEmpty(k: Key)
    requires k.NoKey?
    ensures KeyText(k) == ""
  {
  }

  lemma {:induction false} ItemsComplete(s: string, o: nat, items: seq<Item>, k: nat, keyed: bool)
    requires k < |items| && ItemsOk(items, keyed)
    requires At(s, o, RenderItems(items, |items|)) && At(s, o + |RenderItems(items, |items|)|, [CloseChar(keyed)])
    ensures o + Len(items, k) <= |s|
    ensures ReadItems(s, o + Len(items, k), keyed, items[..k]) == Got(items, o + |RenderItems(items, |items|)| + 1)
    decreases items, |items| - k
  {
    hide At, ItemText, ReadItem, RenderItems, ItemOk;
    var n := |items|;
    ItemAt(s, o, items, n, k);
    AtBounds(s, o + Len(items, k), ItemText(items[k]));
    RenderItemsLength(items, n);
    AtChar(s, o + |RenderItems(items, n)|, CloseChar(keyed));
    var next := o + Len(items, k) + |ItemText(items[k])|;
    AtChar(s, next, ',');
    ItemComplete(s, o + Len(items, k), items[k], keyed);
    if k + 1 < n {
      ItemsComplete(s, o, items, k + 1, keyed);
      assert items[..k] + [items[k]] == items[..k + 1];
    } else {
      assert items[..k] + [items[k]] == items;
    }
  }

  lemma ContainerComplete(s: string, i: nat, v: Value)
    requires WellFormed(v) && (v.Obj? || v.Arr?) && At(s, i, Render(v))
    ensures ReadValue(s, i) == Got(v, i + |Render(v)|)
    decreases v, 0, 0
  {
    hide At, RenderItems, ReadItems, Render, ItemsOk, Ws, WsEnd, Len;
    var keyed := v.Obj?;
    ContainerParts(s, i, v);
    AtChar(s, i, Open(v));
    AtChar(s, i + 1 + |Body(v)|, Close(v));
    LenZero(v.items);
    if v.items == [] {
      AtText(s, i + 1, v.pad);
      WsEndAt(s, i + 1, v.pad);
    } else {
      FirstItemChar(s, i + 1, v.items, keyed);
      ItemsComplete(s, i + 1, v.items, 0, keyed);
      assert v.items[..0] == [];
    }
  }

  lemma AtText(s: string, o: nat, t: string)
    requires At(s, o, t)
    ensures o + |t| <= |s| && s[o..o + |t|] == t
  {
  }

  /** The first character after the opening brace or bracket that is not whitespace does not close it. */
  lemma FirstItemChar(s: string, o: nat, items: seq<Item>, keyed: bool)
    requires items != [] && ItemsOk(items, keyed) && At(s, o, RenderItems(items, |items|))
    ensures WsEnd(s, o) < |s| && s[WsEnd(s, o)] != CloseChar(keyed)
  {
    hide RenderItems, Render, WellFormed, KeyText, ItemText, At, ItemOk, Ws, WsEnd, KeyOk;
    var it := items[0];
    ItemOkParts(it, keyed);
    ItemAt(s, o, items, |items|, 0);
    LenZero(items);
    LeadEnds(s, o, it, keyed);
  }

  /** After an item's leading whitespace comes its key or its value. */
  lemma LeadEnds(s: string, o: nat, it: Item, keyed: bool)
    requires ItemOk(it, keyed) && At(s, o, ItemText(it))
    ensures WsEnd(s, o) == o + |it.lead| < |s| && s[WsEnd(s, o)] !in "}],"
  {
    hide Render, WellFormed, KeyText, ItemText, At, ItemOk, Ws, WsEnd, KeyOk;
    ItemOkParts(it, keyed);
    ItemParts(s, o, it);
    var l, v := o + |it.lead|, o + ValSkip(it);
    if keyed {
      KeyFirst(it.key);
      AtFirst(s, l, KeyText(it.key));
    } else {
      KeyEmpty(it.key);
      FirstChar(it.val);
      AtFirst(s, v, Render(it.val));
    }
    WsEndAt(s, o, it.lead);
  }

  lemma StringComplete(s: string, i: nat, raw: string)
    requires RawString(raw) && At(s, i, Render(Str(raw)))
    ensures ReadValue(s, i) == Got(Str(raw), i + |Render(Str(raw))|)
  {
    hide RawString, ReadRaw, At, ReadItems, WsEnd, NumEnd;
    StringParts(s, i, raw);
    RawComplete(s, i + 1, raw);
    AtChar(s, i, '"');
  }

  lemma NumberComplete(s: string, i: nat, text: string)
    requires NumberText(text) && At(s, i, text) && EndsHere(s, i + |text|)
    ensures ReadValue(s, i) == Got(Num(text), i + |text|)
  {
    AtIndex(s, i, text);
    NumEndIs(s, i + 1, i + |text|);
    NumberSound(s, i);
  }

  lemma WordComplete(s: string, i: nat, v: Value)
    requires (v.True? || v.False? || v.Null?) && At(s, i, Render(v))
    ensures ReadValue(s, i) == Got(v, i + |Render(v)|)
  {
    hide ReadRaw, ReadItems, WsEnd, NumEnd;
    AtFirst(s, i, Render(v));
  }

  lemma LeafComplete(s: string, i: nat, v: Value)
    requires WellFormed(v) && !v.Obj? && !v.Arr? && At(s, i, Render(v))
    requires EndsHere(s, i + |Render(v)|)
    ensures ReadValue(s, i) == Got(v, i + |Render(v)|)
  {
    hide RawString, ReadRaw, At, ReadValue, NumberText, EndsHere;
    match v {
      case Str(raw) => StringComplete(s, i, raw);
      case Num(text) => NumberComplete(s, i, text);
      case _ => WordComplete(s, i, v);
    }
  }

  /** Every document's text is read back as that document. */
  lemma {:induction false} ValueComplete(s: string, i: nat, v: Value)
    requires WellFormed(v) && At(s, i, Render(v)) && EndsHere(s, i + |Render(v)|)
    ensures ReadValue(s, i) == Got(v, i + |Render(v)|)
    decreases v, 0, 1
  {
    hide At, Render, WellFormed, EndsHere, ReadValue;
    if v.Obj? || v.Arr? {
      ContainerComplete(s, i, v);
    } else {
      LeafComplete(s, i, v);
    }
  }

  // ----- whole texts

  /** What the reader accepts is the text of a well-formed document. */
  lemma ReadDocSound(s: string)
    requires ReadDoc(s).Got?
    ensures DocOk(ReadDoc(s).val) && DocText(ReadDoc(s).val) == s
  {
    hide ReadValue, Render, WellFormed;
    var l := WsEnd(s, 0);
    ValueSound(s, l);
    var d, next := ReadDoc(s).val, ReadValue(s, l).next;
    assert s[0..l] == s[..l] && s[next..|s|] == s[next..];
    assert s == s[..l] + s[l..next] + s[next..];
  }

  /** The text of a well-formed document is read as that document: a text has one reading. */
  lemma ReadDocComplete(d: Doc)
    requires DocOk(d)
    ensures ReadDoc(DocText(d)) == Got(d, |DocText(d)|)
  {
    hide ReadValue, Render, WellFormed;
    var s, l := DocText(d), |d.lead|;
    var next := l + |Render(d.val)|;
    assert s[0..l] == s[..l] == d.lead && s[l..next] == Render(d.val);
    assert s[next..] == s[next..|s|] == d.trail;
    FirstChar(d.val);
    assert s[l] == Render(d.val)[0];
    WsEndIs(s, 0, l);
    if d.trail != [] {
      assert s[next] == d.trail[0];
    }
    ValueComplete(s, l, d.val);
    WsEndIs(s, next, |s|);
  }
}
