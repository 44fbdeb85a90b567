/** What the getters of jwrapper answer, value by value, and number by number as RFC 8259 writes it. */
module Answers {
  import opened Document
  import opened Jsmn
  import opened Numbers
  import opened Memory
  import opened Accepts
  import opened Parser
  import opened Lookup
  import opened Jwrapper

  /** All that the getters say of a member with the value `v`, or of a missing one. */
  ghost predicate MemberSaid(m: Memory, st: Option<nat>, name: string, v: Option<Value>)
    requires Readable(m, st)
  {
    && JwExists(m, st, name) == v.Some? && JwMissing(m, st, name) == v.None?
    && JwIs(m, st, name, PtValue) == (v.Some? && v.value.Num?)
    && JwIs(m, st, name, PtString) == (v.Some? && v.value.Str?)
    && JwIs(m, st, name, PtBool) == (v.Some? && (v.value.True? || v.value.False?))
    && JwIs(m, st, name, PtNull) == (v.Some? && v.value.Null?)
    && (v.Some? && v.value.Num? ==> JwValue(m, st, name) == Strtod(v.value.text))
    && (v.Some? && v.value.True? ==> JwValue(m, st, name) == 1.0)
    && (v.None? || !(v.value.Num? || v.value.True?) ==> JwValue(m, st, name) == 0.0)
    && (if v.Some? && v.value.Str? then SaysText(m, JwString(m, st, name), v.value.raw)
        else JwString(m, st, name).None?)
    && (JwBlob(m, st, name).Some? <==> v.Some? && v.value.Obj?)
    && JwArrayLen(m, st, name) == if v.Some? && v.value.Arr? then |v.value.items| else -1
  }

  ghost predicate SaysText(m: Memory, p: Option<Ptr>, s: string) { p.Some? && Spells(m, p.value, s) }

  /** The same of an array element; jw_bool_ele is asked of numbers, booleans, nulls and nothing only. */
  ghost predicate ElementSaid(m: Memory, st: Option<nat>, name: string, idx: int, v: Option<Value>)
    requires Readable(m, st)
  {
    && JwIsEle(m, st, name, idx, PtValue) == (v.Some? && v.value.Num?)
    && JwIsEle(m, st, name, idx, PtString) == (v.Some? && v.value.Str?)
    && JwIsEle(m, st, name, idx, PtBool) == (v.Some? && (v.value.True? || v.value.False?))
    && JwIsEle(m, st, name, idx, PtNull) == (v.Some? && v.value.Null?)
    && (JwValueEle(m, st, name, idx) == if v.Some? && v.value.Num? then Strtod(v.value.text) else 0.0)
    && (if v.Some? && v.value.Str? then SaysText(m, JwStringEle(m, st, name, idx), v.value.raw)
        else JwStringEle(m, st, name, idx).None?)
    && (JwObjEle(m, st, name, idx).Some? <==> v.Some? && v.value.Obj?)
    && (v.None? || v.value.True? || v.value.False? || v.value.Null? ==>
      && (SussElement(m, st, name, idx).Some? ==> SussElement(m, st, name, idx).value.v.Fv?)
      && JwBoolEle(m, st, name, idx) == (v.Some? && v.value.True?))
  }

  /** By the kind of the member's value. */
  lemma MemberSays(m: Memory, t: nat, items: seq<Item>, name: string)
    requires Holds(m, t, items)
    ensures Readable(m, Some(t)) && MemberSaid(m, Some(t), name, Find(items, name))
  {
    hide Holds, Stands, Spells, Readable, Strtod, Find, JwExists, JwMissing, JwIs, JwString, JwValue, JwBlob,
      JwArrayLen;
    MemberLookup(m, t, items, name);
  }

  lemma ElementSays(m: Memory, t: nat, items: seq<Item>, name: string, idx: int)
    requires Holds(m, t, items)
    ensures Readable(m, Some(t)) && ElementSaid(m, Some(t), name, idx, FindElement(items, name, idx))
  {
    hide Holds, Stands, Spells, Readable, Strtod, FindElement, JwIsEle, JwStringEle, JwValueEle, JwObjEle, JwBoolEle,
      SussElement;
    ElementLookup(m, t, items, name, idx);
    TruncMeans(1.0);
    TruncMeans(0.0);
  }

  /** The answer for a number, as a member or as an array element, is what its text says. */
  lemma NumberSays(m: Memory, t: nat, items: seq<Item>, name: string, idx: int, text: string)
    requires Holds(m, t, items)
    ensures Readable(m, Some(t))
    ensures Find(items, name) == Some(Num(text)) ==> JwValue(m, Some(t), name) == Strtod(text)
    ensures FindElement(items, name, idx) == Some(Num(text)) ==> JwValueEle(m, Some(t), name, idx) == Strtod(text)
  {
    hide Holds, Readable, Strtod, Find, FindElement, JwValue, JwValueEle;
    MemberSays(m, t, items, name);
    ElementSays(m, t, items, name, idx);
  }

  /** A number without an exponent. */
  lemma DecimalSays(
    m: Memory, t: nat, items: seq<Item>, name: string, idx: int, neg: bool, a: string, point: bool, b: string)
    requires Holds(m, t, items) && a != "" && Digits(a) && Digits(b) && (point || b == "")
    ensures Readable(m, Some(t)) && Digits(a + b)
    ensures var text := (if neg then "-" else "") + a + (if point then "." + b else "");
      var x := DigitsValue(a + b) as real / Pow10(|b|) as real;
      && (Find(items, name) == Some(Num(text)) ==> JwValue(m, Some(t), name) == if neg then -x else x)
      && (FindElement(items, name, idx) == Some(Num(text)) ==>
        JwValueEle(m, Some(t), name, idx) == if neg then -x else x)
  {
    hide Holds, Readable, Strtod, Find, FindElement, JwValue, JwValueEle, DigitsValue, Pow10;
    StrtodDecimal(neg, a, point, b);
    NumberSays(m, t, items, name, idx, (if neg then "-" else "") + a + (if point then "." + b else ""));
  }

  /** A number with one. */
  lemma ScientificSays(
    m: Memory, t: nat, items: seq<Item>, name: string, idx: int, neg: bool, a: string, point: bool, b: string, e: char,
    sign: string, d: string)
    requires Holds(m, t, items)
    requires a != "" && Digits(a) && Digits(b) && (point || b == "") && d != "" && Digits(d)
    requires (e == 'e' || e == 'E') && (sign == "" || sign == "+" || sign == "-")
    ensures Readable(m, Some(t)) && Digits(a + b)
    ensures var text := (if neg then "-" else "") + a + (if point then "." + b else "") + [e] + sign + d;
      var x, p := DigitsValue(a + b) as real / Pow10(|b|) as real, Pow10(DigitsValue(d)) as real;
      var y := if sign == "-" then x / p else x * p;
      && (Find(items, name) == Some(Num(text)) ==> JwValue(m, Some(t), name) == if neg then -y else y)
      && (FindElement(items, name, idx) == Some(Num(text)) ==>
        JwValueEle(m, Some(t), name, idx) == if neg then -y else y)
  {
    hide Holds, Readable, Strtod, Find, FindElement, JwValue, JwValueEle, DigitsValue, Pow10;
    StrtodScientific(neg, a, point, b, e, sign, d);
    NumberSays(
      m, t, items, name, idx, (if neg then "-" else "") + a + (if point then "." + b else "") + [e] + sign + d);
  }

  /** Both kinds are numbers of the grammar here. */
  lemma StandardNumber(neg: bool, a: string, point: bool, b: string, exp: bool, e: char, sign: string, d: string)
    requires a != "" && Digits(a) && Digits(b) && (point || b == "") && Digits(d)
    requires (e == 'e' || e == 'E') && (sign == "" || sign == "+" || sign == "-")
    ensures NumberText(
      (if neg then "-" else "") + a + (if point then "." + b else "") + (if exp then [e] + sign + d else ""))
  {
    var m, x := if point then "." + b else "", if exp then [e] + sign + d else "";
    assert forall k :: 0 <= k < |a| ==> IsDigit(a[k]);
    Chars(a, m);
    Chars(a + m, x);
    assert IsDigit((a + m + x)[0]);
    assert neg ==> "-" + a + m + x == "-" + (a + m + x);
    assert !neg ==> "" + a + m + x == a + m + x;
    Chars(if neg then "-" else "", a + m + x);
  }

  lemma Chars(s: string, t: string)
    requires forall k :: 0 <= k < |s| ==> IsNumChar(s[k])
    requires forall k :: 0 <= k < |t| ==> IsNumChar(t[k])
    ensures forall k :: 0 <= k < |s + t| ==> IsNumChar((s + t)[k])
  {
  }

  /** One such document from its text to the answer. */
  lemma ThousandRead()
    ensures var text := "{\"a\":1e3}";
      && ObjectText(text) && Good(Members(text))
      && forall m0, m1, st :: NewPost(m0, m1, text, st) ==> Answered(m1, st, "a", 1000.0)
  {
    hide ReadDoc, NewPost, Render, WellFormed, Answered, ObjectText, Members;
    var text, v := "{\"a\":1e3}", OneMember("a", Num("1e3"));
    ThousandDoc();
    ReadRendered(v);
    assert ReadDoc(text).Got? && ReadDoc(text).val.val == v;
    ThousandMembers(text);
    forall m0, m1, st | NewPost(m0, m1, text, st) ensures Answered(m1, st, "a", 1000.0) {
      ThousandAnswered(m0, m1, text, st);
    }
  }

  ghost predicate Answered(m: Memory, st: Option<nat>, name: string, x: real) {
    st.Some? && Readable(m, st) && JwValue(m, st, name) == x
  }

  lemma ThousandDoc()
    ensures Render(OneMember("a", Num("1e3"))) == "{\"a\":1e3}" && WellFormed(OneMember("a", Num("1e3")))
    ensures Count(OneMember("a", Num("1e3"))) == 3
  {
    hide Render, WellFormed;
    assert RawString("a");
    assert WellFormed(Num("1e3")) && Render(Num("1e3")) == "1e3" by { ThousandNumber(); }
    OneMemberText("a", Num("1e3"));
    OneMemberOk("a", Num("1e3"));
  }

  lemma ThousandNumber()
    ensures WellFormed(Num("1e3")) && Render(Num("1e3")) == "1e3"
  {
  }

  lemma ThousandMembers(text: string)
    requires ReadDoc(text).Got? && ReadDoc(text).val.val == OneMember("a", Num("1e3"))
    requires Count(OneMember("a", Num("1e3"))) == 3
    ensures ObjectText(text) && Members(text) == OneMember("a", Num("1e3")).items && Good(Members(text))
    ensures Find(Members(text), "a") == Some(Num("1e3"))
  {
    hide ReadDoc;
  }

  lemma ThousandAnswered(m0: Memory, m1: Memory, text: string, st: Option<nat>)
    requires NewPost(m0, m1, text, st) && ObjectText(text) && Good(Members(text))
    requires Find(Members(text), "a") == Some(Num("1e3"))
    ensures Answered(m1, st, "a", 1000.0)
  {
    hide ReadDoc, Untouched, Root, Holds, Readable, LevelOk, Good, Find, FindElement, JwValue, JwValueEle, Strtod;
    GoodLevel(Members(text));
    NumberSays(m1, st.value, Members(text), "a", 0, "1e3");
    SampleThousand();
  }
}
