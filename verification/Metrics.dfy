/** The Metrics class: the list it collects and the payload it prints from it. */
module MetricsClass {
  import opened Document
  import opened Jsmn
  import opened Numbers
  import opened Memory
  import opened Accepts
  import opened Parser
  import opened Lookup
  import opened Jwrapper
  import opened Printing

  /** One pushed value. */
  datatype Push = Push(id: string, value: real)

  const WBUF := 1024

  /** What one push appends: the separator and the printed item, before it is cut to the buffer. */
  function PushText(first: bool, p: Push): string {
    (if first then " " else ", ") + "{ " + Quoted("id", p.id) + ", " + Bare("value", FixedText(p.value)) + " }"
  }

  predicate Fits(p: Push) { |PushText(false, p)| < WBUF }

  /** A push as it is printed: the name is a C string. */
  function Printable(p: Push): Push { Push(CString(p.id), p.value) }

  function AllPrintable(pushes: seq<Push>): seq<Push> {
    seq(|pushes|, k requires 0 <= k < |pushes| => Printable(pushes[k]))
  }

  /** The list after some pushes. */
  function DataText(pushes: seq<Push>): string {
    if pushes == [] then ""
    else DataText(pushes[..|pushes| - 1]) + PushText(|pushes| == 1, pushes[|pushes| - 1])
  }

  function PayloadText(reporter: string, generator: string, time: int, data: string): string {
    "{  " + Quoted("reporter", reporter) + ", " + Quoted("generator", generator) + ", "
    + Bare("timestamp", IntText(time))
    + ", " + "\"data\": [ " + data + " ] " + " }"
  }

  class Metrics {
    var reporter: string
    var source: string
    var data: string

    constructor (reporter: string, msource: string)
      ensures this.reporter == reporter && source == msource && Lists([])
    {
      this.reporter, source, data := reporter, msource, "";
    }

    /** The list holds just these pushes, oldest first. */
    predicate Lists(pushes: seq<Push>)
      reads this
    {
      data == DataText(pushes)
    }

    method PushData(key: string, value: real, ghost pushes: seq<Push>)
      modifies this`data
      ensures data == old(data) + var text := PushText(old(data) == "", Push(CString(key), value));
        if |text| < WBUF then text else text[..WBUF - 1]
      ensures var p := Push(CString(key), value); old(Lists(pushes)) && Fits(p) ==> Lists(pushes + [p])
    {
      hide FixedText, PushText, CString, Printed;
      var sep := " ";
      if data != "" {
        sep := ", ";
      }
      ghost var p := Push(CString(key), value);
      var wbuf := new char[WBUF](_ => NUL);
      var text := sep + "{ " + Quoted("id", CString(key)) + ", " + Bare("value", FixedText(value)) + " }";
      PushTextIs(data == "", p);
      CStringNoNul(key);
      PushNoNul(data == "", p);
      PrintedReads(wbuf[..], WBUF, text);
      var used := Snprintf(wbuf, WBUF, text);
      if Lists(pushes) && Fits(p) {
        PushMore(pushes, p);
        FitsEither(data == "", p);
      }
      data := data + CString(wbuf[..]);
    }

    function Generator(): string
      reads this
    {
      if source == "" then reporter else source
    }

    /** What the payload is to be. */
    function Text(now: int): string
      reads this
    {
      PayloadText(CString(reporter), CString(Generator()), now, CString(data))
    }

    method BuildPayload(payload: array<char>, maxLen: nat, now: int) returns (used: nat)
      requires maxLen <= payload.Length
      modifies payload
      ensures data == "" ==> used == 0 && payload[..] == old(payload[..])
      ensures data != "" ==> used == |Text(now)| > 0 && payload[..] == Printed(old(payload[..]), maxLen, Text(now))
    {
      hide Printed, PayloadText, CString;
      if data == "" {
        return 0;
      }
      PayloadSome(CString(reporter), CString(Generator()), now, CString(data));
      var generator := if source == "" then reporter else source;
      used := Snprintf(payload, maxLen, PayloadText(CString(reporter), CString(generator), now, CString(data)));
    }

    /** Builds the payload and starts a new list. A message goes out if there is a payload; `good` is what
        the transport says of it, and true is the answer when there is nothing to send. The length given
        to the transport is that of the whole text with its zero byte, so it runs beyond the buffer
        exactly when the text alone would fill it; while no byte of the text was cut, the message is just
        the text. */
    method Send(payload: array<char>, now: int, good: bool) returns (sent: bool, state: bool, len: nat)
      requires payload.Length > 0
      modifies this`data, payload
      ensures sent <==> old(data) != ""
      ensures state <==> !sent || good
      ensures Lists([])
      ensures !sent ==> payload[..] == old(payload[..])
      ensures sent ==> payload[..] == Printed(old(payload[..]), payload.Length - 1, old(Text(now)))
      ensures sent ==> len == |old(Text(now))| + 1
      ensures sent ==> (len <= payload.Length <==> |old(Text(now))| < payload.Length)
      ensures sent ==>
        (len < payload.Length <==> len <= payload.Length && payload[..len] == old(Text(now)) + [NUL])
    {
      hide Printed, PayloadText, CString;
      state, len := true, 0;
      var used := BuildPayload(payload, payload.Length - 1, now);
      sent := used > 0;
      if sent {
        TextNoNul(reporter, Generator(), now, data);
        if payload.Length > 1 {
          PrintedWhole(old(payload[..]), payload.Length - 1, Text(now));
        }
        state, len := good, used + 1;
      }
      data := "";
    }
  }

  lemma PayloadSome(reporter: string, generator: string, time: int, data: string)
    ensures PayloadText(reporter, generator, time, data) != ""
  {
    hide IntText;
  }

  lemma FitsEither(first: bool, p: Push)
    requires Fits(p)
    ensures |PushText(first, p)| < WBUF
  {
    hide FixedText;
  }

  lemma PushTextIs(first: bool, p: Push)
    ensures PushText(first, p) ==
      (if first then " " else ", ") + "{ " + Quoted("id", p.id) + ", " + Bare("value", FixedText(p.value)) + " }"
  {
  }

  lemma PushNoNul(first: bool, p: Push)
    requires NoNul(p.id)
    ensures NoNul(PushText(first, p))
  {
    hide FixedText;
    FixedNumber(p.value);
    NumberNoNul(FixedText(p.value));
  }

  lemma {:induction false} DataNoNul(pushes: seq<Push>)
    requires forall k :: 0 <= k < |pushes| ==> NoNul(pushes[k].id)
    ensures NoNul(DataText(pushes))
  {
    hide PushText;
    if pushes != [] {
      DataNoNul(pushes[..|pushes| - 1]);
      PushNoNul(|pushes| == 1, pushes[|pushes| - 1]);
    }
  }

  lemma PayloadNoNul(reporter: string, generator: string, time: int, data: string)
    requires NoNul(reporter) && NoNul(generator) && NoNul(data)
    ensures NoNul(PayloadText(reporter, generator, time, data))
  {
    hide IntText;
    IntNumber(time);
    NumberNoNul(IntText(time));
  }

  lemma TextNoNul(reporter: string, generator: string, now: int, data: string)
    ensures NoNul(PayloadText(CString(reporter), CString(generator), now, CString(data)))
  {
    hide PayloadText, CString, NoNul;
    CStringNoNul(reporter);
    CStringNoNul(generator);
    CStringNoNul(data);
    PayloadNoNul(CString(reporter), CString(generator), now, CString(data));
  }

  /** A whole round: whatever is pushed after a send, the next send prints just that, when each item
      and the payload fit their buffers. */
  method PushAndSend(metrics: Metrics, pushes: seq<Push>, payload: array<char>, now: int, good: bool)
    returns (sent: bool, state: bool, len: nat)
    requires metrics.Lists([]) && forall k :: 0 <= k < |pushes| ==> Fits(Push(CString(pushes[k].id), pushes[k].value))
    requires |SentText(metrics, pushes, now)| < payload.Length - 1
    modifies metrics`data, payload
    ensures sent <==> pushes != []
    ensures state <==> !sent || good
    ensures sent ==> CString(payload[..]) == SentText(metrics, pushes, now)
    ensures sent ==> len <= payload.Length && payload[..len] == SentText(metrics, pushes, now) + [NUL]
    ensures metrics.Lists([])
    ensures sent && Quotable(metrics, pushes) ==>
      var generator := if old(metrics.source) == "" then old(metrics.reporter) else old(metrics.source);
      PayloadSays(CString(payload[..]), CString(old(metrics.reporter)), CString(generator), now, pushes)
  {
    hide Quotable, PayloadSays, PayloadText, Fits, PushText, CString, Printed;
    ghost var all := AllPrintable(pushes);
    for k := 0 to |pushes|
      invariant metrics.Lists(all[..k]) && payload[..] == old(payload[..])
    {
      metrics.PushData(pushes[k].id, pushes[k].value, all[..k]);
      assert all[..k + 1] == all[..k] + [Printable(Push(pushes[k].id, pushes[k].value))];
    }
    assert all[..|pushes|] == all;
    DataEmpty(all);
    SentNoNul(metrics, pushes, now);
    PrintedReads(payload[..], payload.Length - 1, SentText(metrics, pushes, now));
    ghost var text := metrics.Text(now);
    assert text == SentText(metrics, pushes, now);
    sent, state, len := metrics.Send(payload, now, good);
    if sent && Quotable(metrics, pushes) {
      SentSays(metrics, pushes, now);
    }
  }

  /** Every name can stand between quotes. */
  predicate Quotable(metrics: Metrics, pushes: seq<Push>)
    reads metrics`reporter, metrics`source
  {
    && RawString(CString(metrics.reporter)) && RawString(CString(metrics.source))
    && forall k :: 0 <= k < |pushes| ==> RawString(CString(pushes[k].id))
  }

  /** The text is a JSON object that names the reporter, the generator and the time, and lists what was
      pushed: in its order, under its name, with its value rounded to five decimals. */
  ghost predicate PayloadSays(text: string, reporter: string, generator: string, now: int, pushes: seq<Push>) {
    && ReadDoc(text).Got? && ReadDoc(text).val.val.Obj?
    && var items := ReadDoc(text).val.val.items;
       && Find(items, "reporter") == Some(Str(reporter)) && Find(items, "generator") == Some(Str(generator))
       && Find(items, "timestamp") == Some(Num(IntText(now)))
       && Find(items, "data").Some? && Find(items, "data").value.Arr?
       && var elems := Find(items, "data").value.items;
          && |elems| == |pushes|
          && forall k :: 0 <= k < |pushes| ==> ElementIs(elems[k].val, CString(pushes[k].id), pushes[k].value)
  }

  ghost predicate ElementIs(v: Value, id: string, value: real) {
    && v.Obj? && Find(v.items, "id") == Some(Str(id))
    && Find(v.items, "value").Some? && Find(v.items, "value").value.Num?
    && Strtod(Find(v.items, "value").value.text) == Rounded(value) as real / 100000.0
  }

  lemma SentSays(metrics: Metrics, pushes: seq<Push>, now: int)
    requires Quotable(metrics, pushes) && pushes != []
    ensures var generator := if metrics.source == "" then metrics.reporter else metrics.source;
      PayloadSays(SentText(metrics, pushes, now), CString(metrics.reporter), CString(generator), now, pushes)
  {
    hide PayloadText, DataText, CString, ReadDoc, RawString, IntText, Find, PayloadItems, Strtod, Rounded, ElementIs;
    var generator := if metrics.source == "" then metrics.reporter else metrics.source;
    var all := AllPrintable(pushes);
    PayloadReads(CString(metrics.reporter), CString(generator), now, all);
    var items := PayloadItems(CString(metrics.reporter), CString(generator), now, all);
    PayloadData(CString(metrics.reporter), CString(generator), now, all);
    forall k | 0 <= k < |pushes|
      ensures ElementIs(Find(items, "data").value.items[k].val, CString(pushes[k].id), pushes[k].value)
    {
      PushIs(all, k);
    }
  }

  lemma PayloadData(reporter: string, generator: string, now: int, all: seq<Push>)
    ensures Find(PayloadItems(reporter, generator, now, all), "data") == Some(Arr("", PushItems(all)))
  {
    hide Find, PushItems, IntText;
    FindAt(PayloadItems(reporter, generator, now, all), 3);
  }

  lemma PushIs(all: seq<Push>, k: nat)
    requires k < |all|
    ensures ElementIs(PushItems(all)[k].val, all[k].id, all[k].value)
  {
    hide Find, FixedText, Strtod, Rounded;
    var items := PushObject(all[k]).items;
    assert Name(items[0]) == "id" && Name(items[1]) == "value" && |Name(items[0])| != |Name(items[1])|;
    FindAt(items, 0);
    FindAt(items, 1);
    StrtodFixed(all[k].value);
  }

  function SentText(metrics: Metrics, pushes: seq<Push>, now: int): string
    reads metrics`reporter, metrics`source
  {
    var generator := if metrics.source == "" then metrics.reporter else metrics.source;
    PayloadText(CString(metrics.reporter), CString(generator), now, DataText(AllPrintable(pushes)))
  }

  lemma SentNoNul(metrics: Metrics, pushes: seq<Push>, now: int)
    ensures NoNul(SentText(metrics, pushes, now))
    ensures CString(DataText(AllPrintable(pushes))) == DataText(AllPrintable(pushes))
  {
    hide PayloadText, DataText, CString;
    CStringNoNul(metrics.reporter);
    CStringNoNul(if metrics.source == "" then metrics.reporter else metrics.source);
    forall k | 0 <= k < |pushes| ensures NoNul(AllPrintable(pushes)[k].id) {
      CStringNoNul(pushes[k].id);
    }
    DataNoNul(AllPrintable(pushes));
    CStringWhole(DataText(AllPrintable(pushes)));
    PayloadNoNul(
      CString(metrics.reporter), CString(if metrics.source == "" then metrics.reporter else metrics.source), now,
      DataText(AllPrintable(pushes)));
  }

  lemma PushMore(pushes: seq<Push>, p: Push)
    ensures DataText(pushes + [p]) == DataText(pushes) + PushText(DataText(pushes) == "", p)
  {
    hide PushText;
    assert (pushes + [p])[..|pushes|] == pushes;
    DataEmpty(pushes);
  }

  lemma DataEmpty(pushes: seq<Push>)
    ensures DataText(pushes) == "" <==> pushes == []
  {
    if pushes != [] {
      assert |PushText(|pushes| == 1, pushes[|pushes| - 1])| > 0;
    }
  }

  // ----- the payload as a document

  function PushObject(p: Push): Value {
    Obj("", [Field("id", Str(p.id)), Item(" ", Key("value", "", " "), Num(FixedText(p.value)), " ")])
  }

  /** The array element of push `k` of `n`: the format of the list and of the payload put a blank
      around them. */
  function PushItem(pushes: seq<Push>, k: nat): Item
    requires k < |pushes|
  {
    Item(if k == 0 then "  " else " ", NoKey, PushObject(pushes[k]), if k == |pushes| - 1 then " " else "")
  }

  function PushItems(pushes: seq<Push>): seq<Item> {
    seq(|pushes|, k requires 0 <= k < |pushes| => PushItem(pushes, k))
  }

  function PayloadItems(reporter: string, generator: string, time: int, pushes: seq<Push>): seq<Item> {
    [Item("  ", Key("reporter", "", " "), Str(reporter), ""),
     Field("generator", Str(generator)),
     Field("timestamp", Num(IntText(time))),
     Item(" ", Key("data", "", " "), Arr("", PushItems(pushes)), "  ")]
  }

  lemma PushObjectText(p: Push)
    ensures Render(PushObject(p)) == "{ " + Quoted("id", p.id) + ", " + Bare("value", FixedText(p.value)) + " }"
  {
    hide FixedText, Quoted, Bare, ItemText, FieldText;
    var items := PushObject(p).items;
    Pieces("id", p.id);
    FieldPrinted("id", Str(p.id));
    ValuePrinted(items[1], FixedText(p.value));
    assert RenderItems(items, 2) == RenderItems(items, 1) + "," + ItemText(items[1]);
  }

  lemma ValuePrinted(it: Item, text: string)
    requires it == Item(" ", Key("value", "", " "), Num(text), " ")
    ensures ItemText(it) == " " + Bare("value", text) + " "
  {
    assert KeyText(it.key) == "\"value\": ";
  }

  lemma PushItemText(pushes: seq<Push>, k: nat)
    requires k < |pushes|
    ensures ItemText(PushItem(pushes, k)) ==
      (if k == 0 then "  " else " ") + Render(PushObject(pushes[k])) + (if k == |pushes| - 1 then " " else "")
  {
    hide Render;
  }

  /** The printed list is the text of the array's elements. */
  lemma {:induction false} ListRendered(pushes: seq<Push>, k: nat)
    requires 0 < k <= |pushes|
    ensures RenderItems(PushItems(pushes), k) == " " + DataText(pushes[..k]) + (if k == |pushes| then " " else "")
  {
    hide RenderItems, DataText, PushItem;
    if k == 1 {
      FirstListed(pushes);
    } else {
      ListRendered(pushes, k - 1);
      NextListed(pushes, k);
    }
  }

  lemma FirstListed(pushes: seq<Push>)
    requires pushes != []
    ensures RenderItems(PushItems(pushes), 1) == " " + DataText(pushes[..1]) + (if 1 == |pushes| then " " else "")
  {
    hide PushObject, ItemText, PushItem, Render, RenderItems, DataText, PushText;
    PushItemText(pushes, 0);
    PushParts(true, pushes[0]);
    ItemsMore(PushItems(pushes), 1);
    DataMore(pushes, 1);
    Alone(Render(PushObject(pushes[0])), if 1 == |pushes| then " " else "");
  }

  lemma NextListed(pushes: seq<Push>, k: nat)
    requires 1 < k <= |pushes| && RenderItems(PushItems(pushes), k - 1) == " " + DataText(pushes[..k - 1]) + ""
    ensures RenderItems(PushItems(pushes), k) == " " + DataText(pushes[..k]) + (if k == |pushes| then " " else "")
  {
    hide PushObject, ItemText, PushItem, Render, RenderItems, DataText, PushText;
    PushItemText(pushes, k - 1);
    PushParts(false, pushes[k - 1]);
    ItemsMore(PushItems(pushes), k);
    DataMore(pushes, k);
    Joined(DataText(pushes[..k - 1]), Render(PushObject(pushes[k - 1])), if k == |pushes| then " " else "");
  }

  lemma Joined(d: string, o: string, end: string)
    ensures (" " + d + "") + "," + (" " + o + end) == " " + (d + (", " + o)) + end
  {
  }

  lemma Alone(o: string, end: string)
    ensures "  " + o + end == " " + (" " + o) + end
  {
  }

  lemma PushParts(first: bool, p: Push)
    ensures PushText(first, p) == (if first then " " else ", ") + Render(PushObject(p))
  {
    hide Render, PushObject, Quoted, Bare;
    PushObjectText(p);
  }

  lemma ItemsMore(items: seq<Item>, k: nat)
    requires 0 < k <= |items|
    ensures RenderItems(items, k) ==
      if k == 1 then ItemText(items[0]) else RenderItems(items, k - 1) + "," + ItemText(items[k - 1])
  {
    hide ItemText;
  }

  lemma DataMore(pushes: seq<Push>, k: nat)
    requires 0 < k <= |pushes|
    ensures DataText(pushes[..k]) ==
      if k == 1 then PushText(true, pushes[0]) else DataText(pushes[..k - 1]) + PushText(false, pushes[k - 1])
  {
    hide PushText;
    assert pushes[..k][..k - 1] == pushes[..k - 1];
  }

  lemma PayloadRendered(reporter: string, generator: string, time: int, pushes: seq<Push>)
    requires pushes != []
    ensures Render(Obj("", PayloadItems(reporter, generator, time, pushes))) ==
      PayloadText(reporter, generator, time, DataText(pushes))
  {
    hide ItemText, Quoted, Bare, IntText, Field, FieldText, DataText, PushItems, Render;
    var items, data := PayloadItems(reporter, generator, time, pushes), DataText(pushes);
    var p1 := "{  " + Quoted("reporter", reporter);
    Pieces("reporter", reporter);
    FirstPrinted(items, "reporter", Str(reporter));
    var p2 := p1 + ", " + Quoted("generator", generator);
    Pieces("generator", generator);
    PrintMore(items, 1, p1 + ", ", "{", "generator", Str(generator));
    var p3 := p2 + ", " + Bare("timestamp", IntText(time));
    Pieces("timestamp", IntText(time));
    PrintMore(items, 2, p2 + ", ", "{", "timestamp", Num(IntText(time)));
    ListRendered(pushes, |pushes|);
    assert pushes[..|pushes|] == pushes;
    DataPrinted(items, p3 + ", ", pushes);
  }

  lemma DataPrinted(items: seq<Item>, before: string, pushes: seq<Push>)
    requires |items| == 4 && items[3] == Item(" ", Key("data", "", " "), Arr("", PushItems(pushes)), "  ")
    requires pushes != [] && RenderItems(PushItems(pushes), |pushes|) == " " + DataText(pushes) + " "
    requires before == "{" + RenderItems(items, 3) + ", "
    ensures before + "\"data\": [ " + DataText(pushes) + " ] " + " }" == Render(Obj("", items))
  {
    hide DataText, PushItem, PushItems, ItemText, RenderItems;
    var data := DataText(pushes);
    assert Render(items[3].val) == "[ " + data + " ]" by { ListText(pushes); }
    DataField(items[3], data);
    ItemsMore(items, 4);
    ObjectText4(items);
    Glue(RenderItems(items, 3), "\"data\": [ ", data);
  }

  lemma Glue(r: string, key: string, data: string)
    ensures ("{" + r + ", ") + key + data + " ] " + " }" == "{" + (r + "," + (" " + key + data + " ]  ")) + "}"
  {
  }

  lemma ListText(pushes: seq<Push>)
    requires pushes != [] && RenderItems(PushItems(pushes), |pushes|) == " " + DataText(pushes) + " "
    ensures Render(Arr("", PushItems(pushes))) == "[ " + DataText(pushes) + " ]"
  {
    hide RenderItems, DataText, PushItem;
  }

  lemma DataField(it: Item, data: string)
    requires it == Item(" ", Key("data", "", " "), it.val, "  ") && Render(it.val) == "[ " + data + " ]"
    ensures ItemText(it) == " " + "\"data\": [ " + data + " ]  "
  {
    hide Render;
    assert KeyText(it.key) == "\"data\": ";
  }

  lemma ObjectText4(items: seq<Item>)
    requires |items| == 4
    ensures Render(Obj("", items)) == "{" + RenderItems(items, 4) + "}"
  {
    hide RenderItems;
  }

  lemma PushOk(pushes: seq<Push>, k: nat)
    requires k < |pushes| && RawString(pushes[k].id)
    ensures ItemOk(PushItem(pushes, k), false)
  {
    hide RawString, NumberText, FixedText;
    FixedNumber(pushes[k].value);
    assert RawString("id") && RawString("value") by { PlainKeys(); }
    var o := PushObject(pushes[k]);
    PrintedOk(o.items[0]);
    PrintedOk(o.items[1]);
    assert WellFormed(o);
  }

  lemma PlainKeys()
    ensures RawString("id") && RawString("value") && RawString("reporter") && RawString("generator")
    ensures RawString("timestamp") && RawString("data")
  {
    hide RawString;
    PlainRaw("id");
    PlainRaw("value");
    PlainRaw("reporter");
    PlainRaw("generator");
    PlainRaw("timestamp");
    PlainRaw("data");
  }

  lemma PayloadOk(reporter: string, generator: string, time: int, pushes: seq<Push>)
    requires RawString(reporter) && RawString(generator) && forall k :: 0 <= k < |pushes| ==> RawString(pushes[k].id)
    ensures WellFormed(Obj("", PayloadItems(reporter, generator, time, pushes)))
  {
    hide RawString, NumberText, IntText, ItemOk, PushItem;
    PlainKeys();
    IntNumber(time);
    var items := PayloadItems(reporter, generator, time, pushes);
    forall k | 0 <= k < |pushes| ensures ItemOk(PushItems(pushes)[k], false) {
      PushOk(pushes, k);
    }
    assert WellFormed(items[3].val);
    PrintedOk(items[0]);
    PrintedOk(items[1]);
    PrintedOk(items[2]);
    PrintedOk(items[3]);
  }

  /** The payload is a JSON object whose data array lists the pushes in their order. */
  lemma PayloadReads(reporter: string, generator: string, time: int, pushes: seq<Push>)
    requires pushes != []
    requires RawString(reporter) && RawString(generator) && forall k :: 0 <= k < |pushes| ==> RawString(pushes[k].id)
    ensures var r, items := ReadDoc(PayloadText(reporter, generator, time, DataText(pushes))),
      PayloadItems(reporter, generator, time, pushes);
      && r.Got? && r.val.val == Obj("", items)
      && Find(items, "reporter") == Some(Str(reporter)) && Find(items, "generator") == Some(Str(generator))
      && Find(items, "timestamp") == Some(Num(IntText(time)))
      && LengthOf(Find(items, "data")) == |pushes|
      && forall k :: 0 <= k < |pushes| ==> Lists(FindElement(items, "data", k), pushes[k])
  {
    hide RawString, IntText, ReadDoc, Render, WellFormed, PayloadText, DataText, PushItem, Lists, Find;
    PayloadRendered(reporter, generator, time, pushes);
    PayloadOk(reporter, generator, time, pushes);
    ReadRendered(Obj("", PayloadItems(reporter, generator, time, pushes)));
    var items := PayloadItems(reporter, generator, time, pushes);
    assert Name(items[0]) == "reporter" && Name(items[1]) == "generator" && Name(items[2]) == "timestamp";
    assert Name(items[3]) == "data";
    assert |Name(items[0])| == 8 && |Name(items[1])| == 9 && |Name(items[2])| == 9 && |Name(items[3])| == 4;
    assert Name(items[1])[0] != Name(items[2])[0];
    FindAt(items, 0);
    FindAt(items, 1);
    FindAt(items, 2);
    FindAt(items, 3);
    forall k | 0 <= k < |pushes| ensures Lists(FindElement(items, "data", k), pushes[k]) {
      PushListed(pushes, k);
    }
  }

  /** The element says the name and the value, rounded to five decimals. */
  predicate Lists(e: Option<Value>, p: Push) {
    && MembersOf(e).Some?
    && Find(MembersOf(e).value, "id") == Some(Str(p.id))
    && NumberOf(Find(MembersOf(e).value, "value")) == Rounded(p.value) as real / 100000.0
  }

  lemma PushListed(pushes: seq<Push>, k: nat)
    requires k < |pushes|
    ensures Lists(Some(PushItems(pushes)[k].val), pushes[k])
  {
    hide FixedText, Strtod, Rounded, Find;
    var items := PushObject(pushes[k]).items;
    assert Name(items[0]) == "id" && Name(items[1]) == "value" && |Name(items[0])| != |Name(items[1])|;
    FindAt(items, 0);
    FindAt(items, 1);
    StrtodFixed(pushes[k].value);
  }

  /** jw_new refuses every such payload its token array has room for: the data array is the last
      member, and its last element is an object that ends in a number. */
  lemma PayloadRefused(
    m0: Memory, m1: Memory, st: Option<nat>, reporter: string, generator: string, time: int, pushes: seq<Push>)
    requires pushes != []
    requires RawString(reporter) && RawString(generator) && forall k :: 0 <= k < |pushes| ==> RawString(pushes[k].id)
    requires Count(Obj("", PayloadItems(reporter, generator, time, pushes))) <= MAX_THINGS
    requires NewPost(m0, m1, PayloadText(reporter, generator, time, DataText(pushes)), st)
    ensures st.None?
  {
    hide RawString, IntText, ReadDoc, Render, WellFormed, PayloadText, DataText, Tidy, Untouched, Count, Find,
      FindElement, Lists;
    hide LevelOk, PayloadItems;
    PayloadReads(reporter, generator, time, pushes);
    PayloadTail(reporter, generator, time, pushes);
  }

  lemma PayloadTail(reporter: string, generator: string, time: int, pushes: seq<Push>)
    requires pushes != []
    ensures !LevelOk(PayloadItems(reporter, generator, time, pushes))
  {
    hide IntText, FixedText;
    var items := PayloadItems(reporter, generator, time, pushes);
    var last := PushItems(pushes)[|pushes| - 1].val;
    assert last == PushObject(pushes[|pushes| - 1]);
    assert !EndsInString(last);
    assert !EndsInString(Last(items)) && Tail(Last(items));
  }
}
