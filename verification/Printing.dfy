/** Printing documents with snprintf: the buffer it fills, and the texts of flat objects. */
module Printing {
  import opened Document
  import opened Numbers
  import opened Memory
  import opened Lookup

  /** What a buffer holds after snprintf of `text` with the limit `size`. */
  function Printed(buf: string, size: nat, text: string): (r: string)
    requires size <= |buf|
    ensures |r| == |buf|
  {
    if size == 0 then buf
    else if |text| < size then text + [NUL] + buf[|text| + 1..]
    else text[..size - 1] + [NUL] + buf[size..]
  }

  method Snprintf(buf: array<char>, size: nat, text: string) returns (used: nat)
    requires size <= buf.Length
    modifies buf
    ensures used == |text|
    ensures buf[..] == Printed(old(buf[..]), size, text)
  {
    used := |text|;
    if size > 0 {
      var n := if |text| < size then |text| else size - 1;
      var i := 0;
      while i < n
        invariant 0 <= i <= n
        invariant forall k :: 0 <= k < i ==> buf[k] == text[k]
        invariant forall k :: i <= k < buf.Length ==> buf[k] == old(buf[k])
      {
        buf[i] := text[i];
        i := i + 1;
      }
      buf[n] := NUL;
      assert buf[..] == text[..n] + [NUL] + old(buf[..])[n + 1..];
      assert |text| < size ==> text[..n] == text;
    }
  }

  /** As much of a text as its buffer takes is the C string there. */
  lemma PrintedReads(buf: string, size: nat, text: string)
    requires 0 < size <= |buf| && NoNul(text)
    ensures CString(Printed(buf, size, text)) == if |text| < size then text else text[..size - 1]
  {
    var r, n := Printed(buf, size, text), if |text| < size then |text| else size - 1;
    assert r[0..n] == text[..n];
    CStrIs(r, 0, text[..n]);
    assert |text| < size ==> text[..n] == text;
  }

  /** A text is in its buffer with the zero byte after it exactly when none of it was cut. */
  lemma PrintedWhole(buf: string, size: nat, text: string)
    requires 0 < size <= |buf| && NoNul(text)
    ensures |text| + 1 <= |buf| ==>
      (|text| < size <==> Printed(buf, size, text)[..|text| + 1] == text + [NUL])
  {
    if size <= |text| < |buf| {
      assert Printed(buf, size, text)[..|text| + 1][size - 1] == NUL && (text + [NUL])[size - 1] == text[size - 1];
    }
  }

  lemma NumberNoNul(s: string)
    requires NumberText(s)
    ensures NoNul(s)
  {
  }

  // ----- texts that need no escapes

  predicate Plain(s: string) { forall k :: 0 <= k < |s| ==> s[k] != '"' && s[k] != '\\' && s[k] >= ' ' }

  lemma {:induction false} PlainRaw(s: string)
    requires Plain(s)
    ensures RawString(s)
  {
    if s != "" {
      PlainRaw(s[1..]);
    }
  }

  lemma DigitsNumber(s: string)
    requires s != "" && Digits(s)
    ensures NumberText(s) && NumberText("-" + s)
  {
  }

  lemma IntNumber(n: int)
    ensures NumberText(IntText(n))
  {
    DigitsNumber(NatText(if n < 0 then -n else n));
  }

  lemma FixedNumber(x: real)
    ensures NumberText(FixedText(x))
  {
    hide NatText, Padded, Rounded;
    RoundedClose(x);
    var m := if Rounded(x) < 0 then -Rounded(x) else Rounded(x);
    var a, b := NatText(m / 100000), Padded(m % 100000, 5);
    var s, i := FixedText(x), if x < 0.0 then 1 else 0;
    assert s == (if x < 0.0 then "-" else "") + a + "." + b;
    forall k | 0 <= k < |s| ensures IsNumChar(s[k]) {
      if i <= k < i + |a| {
        assert s[k] == a[k - i];
      } else if i + |a| < k {
        assert s[k] == b[k - i - |a| - 1];
      }
    }
    assert s[0] == if x < 0.0 then '-' else a[0];
  }

  // ----- members printed one after another

  /** A member as the format strings write it: a blank before it and one after its colon. */
  function Field(name: string, v: Value): Item { Item(" ", Key(name, "", " "), v, "") }

  function FieldText(name: string, v: Value): string { "\"" + name + "\": " + Render(v) }

  lemma FieldPrinted(name: string, v: Value)
    ensures ItemText(Field(name, v)) == " " + FieldText(name, v)
  {
    hide Render;
    assert KeyText(Key(name, "", " ")) == "\"" + name + "\": ";
  }

  /** The first field, after two blanks. */
  lemma FirstPrinted(items: seq<Item>, name: string, v: Value)
    requires items != [] && items[0] == Item("  ", Key(name, "", " "), v, "")
    ensures "{  " + FieldText(name, v) == "{" + RenderItems(items, 1)
  {
    hide Render;
    assert KeyText(items[0].key) == "\"" + name + "\": ";
    assert ItemText(items[0]) == "  " + ("\"" + name + "\": ") + Render(v) + "";
  }

  /** One field more, after a comma. */
  lemma PrintMore(items: seq<Item>, k: nat, before: string, open: string, name: string, v: Value)
    requires 0 < k < |items| && items[k] == Field(name, v)
    requires before == open + RenderItems(items, k) + ", "
    ensures before + FieldText(name, v) == open + RenderItems(items, k + 1)
  {
    hide FieldText, ItemText;
    FieldPrinted(name, v);
    assert RenderItems(items, k + 1) == RenderItems(items, k) + "," + (" " + FieldText(name, v));
  }

  /** The pieces of the format strings: a quoted field and a numeric one. */
  function Quoted(name: string, s: string): string { "\"" + name + "\": \"" + s + "\"" }

  function Bare(name: string, s: string): string { "\"" + name + "\": " + s }

  lemma Pieces(name: string, s: string)
    ensures Quoted(name, s) == FieldText(name, Str(s)) && Bare(name, s) == FieldText(name, Num(s))
  {
    assert Quoted(name, s) == "\"" + name + "\": " + ("\"" + s + "\"");
  }

  lemma PrintedOk(it: Item)
    requires it.lead == " " || it.lead == "  "
    requires it.trail == " " || it.trail == "  " || it.trail == ""
    requires it.key.Key? && it.key.beforeColon == "" && it.key.afterColon == " " && RawString(it.key.name)
    requires WellFormed(it.val)
    ensures ItemOk(it, true)
  {
    hide RawString, WellFormed;
  }

  // ----- lookups in an object without repeated names

  lemma {:induction false} FindInAt(items: seq<Item>, n: nat, k: nat)
    requires k < n <= |items| && forall j :: k < j < n ==> Name(items[j]) != Name(items[k])
    ensures FindIn(items, n, Name(items[k])) == Some(k)
  {
    if k < n - 1 {
      FindInAt(items, n - 1, k);
    }
  }

  lemma FindAt(items: seq<Item>, k: nat)
    requires k < |items| && forall j :: k < j < |items| ==> Name(items[j]) != Name(items[k])
    ensures Find(items, Name(items[k])) == Some(items[k].val)
  {
    FindInAt(items, |items|, k);
  }
}
