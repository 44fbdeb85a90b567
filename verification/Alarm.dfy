/** The Alarm class: the alarm message it prints, read back with jw_new. */
module AlarmClass {
  import opened Document
  import opened Jsmn
  import opened Numbers
  import opened Memory
  import opened Accepts
  import opened Parser
  import opened Lookup
  import opened Jwrapper
  import opened JhashClass
  import opened Printing

  const SEV_CRIT := 1
  const SEV_MAJOR := 2
  const SEV_MINOR := 3
  const SEV_WARN := 4
  const SEV_CLEAR := 5

  const ACT_CLEAR := 2
  const ACT_CLEAR_ALL := 3

  function SeverityName(sev: int): string {
    if sev == SEV_CRIT then "CRITICAL"
    else if sev == SEV_MAJOR then "MAJOR"
    else if sev == SEV_MINOR then "MINOR"
    else if sev == SEV_WARN then "WARNING"
    else if sev == SEV_CLEAR then "CLEARED"
    else "DEFAULT"
  }

  function ActionName(action: int): string {
    if action == ACT_CLEAR then "CLEAR" else if action == ACT_CLEAR_ALL then "CLEARALL" else "RAISE"
  }

  /** What one alarm message says. */
  datatype Report = Report(
    meId: string, appId: string, problem: int, severity: string,
    info: string, addInfo: string, action: string, time: int)

  /** The output of the format string. */
  function AlarmText(r: Report): string {
    "{  " + Quoted("managedObjectId", r.meId) + ", "
    + Quoted("applicationId", r.appId) + ", "
    + Bare("specificProblem", IntText(r.problem)) + ", "
    + Quoted("perceivedSeverity", r.severity) + ", "
    + Quoted("identifyingInfo", r.info) + ", "
    + Quoted("additionalInfo", r.addInfo) + ", "
    + Quoted("AlarmAction", r.action) + ", "
    + Bare("AlarmTime", IntText(r.time)) + " }"
  }

  class Alarm {
    var meId: string
    var appId: string
    var problemId: int
    var severity: string
    var info: string
    var addInfo: string

    constructor (probId: int, meid: string)
      ensures meId == meid && problemId == probId && appId == "" && severity == "" && info == "" && addInfo == ""
    {
      meId, problemId, appId, severity, info, addInfo := meid, probId, "", "", "", "";
    }

    method SetSeverity(sev: int)
      modifies this`severity
      ensures severity == SeverityName(sev)
      ensures (sev == 1 ==> severity == "CRITICAL") && (sev == 2 ==> severity == "MAJOR")
      ensures (sev == 3 ==> severity == "MINOR") && (sev == 4 ==> severity == "WARNING")
      ensures (sev == 5 ==> severity == "CLEARED") && (!(1 <= sev <= 5) ==> severity == "DEFAULT")
    {
      match sev {
        case 1 => severity := "CRITICAL";
        case 2 => severity := "MAJOR";
        case 3 => severity := "MINOR";
        case 4 => severity := "WARNING";
        case 5 => severity := "CLEARED";
        case _ => severity := "DEFAULT";
      }
    }

    /** The message for an action at a time; a missing application id or severity has a default. The
        strings are printed as C strings. */
    function Message(action: int, progname: string, now: int): Report
      reads this
    {
      Report(
        CString(meId), CString(if appId == "" then progname else appId), problemId,
        CString(if severity == "" then "WARNING" else severity), CString(info), CString(addInfo),
        ActionName(action), now)
    }

    method BuildAlarm(action: int, payload: array<char>, len: nat, progname: string, now: int) returns (used: nat)
      requires len <= payload.Length
      modifies this, payload
      ensures appId == old(if appId == "" then progname else appId)
      ensures severity == old(if severity == "" then "WARNING" else severity)
      ensures meId == old(meId) && problemId == old(problemId) && info == old(info) && addInfo == old(addInfo)
      ensures var text := AlarmText(old(Message(action, progname, now)));
        used == |text| && payload[..] == Printed(old(payload[..]), len, text)
    {
      hide AlarmText, Printed, CString;
      if appId == "" {
        appId := progname;
      }
      if severity == "" {
        SetSeverity(SEV_WARN);
      }
      var maction := if action == ACT_CLEAR then "CLEAR" else if action == ACT_CLEAR_ALL then "CLEARALL" else "RAISE";
      var report := Report(
        CString(meId), CString(appId), problemId, CString(severity), CString(info), CString(addInfo), maction, now);
      used := Snprintf(payload, len, AlarmText(report));
    }
  }

  // ----- the message as a document

  function AlarmItems(r: Report): seq<Item> {
    [Item("  ", Key("managedObjectId", "", " "), Str(r.meId), ""),
     Field("applicationId", Str(r.appId)),
     Field("specificProblem", Num(IntText(r.problem))),
     Field("perceivedSeverity", Str(r.severity)),
     Field("identifyingInfo", Str(r.info)),
     Field("additionalInfo", Str(r.addInfo)),
     Field("AlarmAction", Str(r.action)),
     Item(" ", Key("AlarmTime", "", " "), Num(IntText(r.time)), " ")]
  }

  /** Every text of the message can stand between quotes. */
  predicate Quotable(r: Report) {
    RawString(r.meId) && RawString(r.appId) && RawString(r.severity) && RawString(r.info) && RawString(r.addInfo)
    && RawString(r.action)
  }

  lemma AlarmRendered(r: Report)
    ensures Render(Obj("", AlarmItems(r))) == AlarmText(r)
  {
    hide ItemText, RenderItems, Quoted, Bare, IntText, Field, FieldText;
    var items := AlarmItems(r);
    var p1 := "{  " + Quoted("managedObjectId", r.meId);
    Pieces("managedObjectId", r.meId);
    FirstPrinted(items, "managedObjectId", Str(r.meId));
    var p2 := p1 + ", " + Quoted("applicationId", r.appId);
    Pieces("applicationId", r.appId);
    PrintMore(items, 1, p1 + ", ", "{", "applicationId", Str(r.appId));
    var p3 := p2 + ", " + Bare("specificProblem", IntText(r.problem));
    Pieces("specificProblem", IntText(r.problem));
    PrintMore(items, 2, p2 + ", ", "{", "specificProblem", Num(IntText(r.problem)));
    var p4 := p3 + ", " + Quoted("perceivedSeverity", r.severity);
    Pieces("perceivedSeverity", r.severity);
    PrintMore(items, 3, p3 + ", ", "{", "perceivedSeverity", Str(r.severity));
    var p5 := p4 + ", " + Quoted("identifyingInfo", r.info);
    Pieces("identifyingInfo", r.info);
    PrintMore(items, 4, p4 + ", ", "{", "identifyingInfo", Str(r.info));
    var p6 := p5 + ", " + Quoted("additionalInfo", r.addInfo);
    Pieces("additionalInfo", r.addInfo);
    PrintMore(items, 5, p5 + ", ", "{", "additionalInfo", Str(r.addInfo));
    var p7 := p6 + ", " + Quoted("AlarmAction", r.action);
    Pieces("AlarmAction", r.action);
    PrintMore(items, 6, p6 + ", ", "{", "AlarmAction", Str(r.action));
    LastPrinted(items, p7 + ", ", IntText(r.time));
    assert AlarmText(r) == p7 + ", " + Bare("AlarmTime", IntText(r.time)) + " }";
  }

  lemma LastPrinted(items: seq<Item>, before: string, time: string)
    requires |items| == 8 && items[7] == Item(" ", Key("AlarmTime", "", " "), Num(time), " ")
    requires before == "{" + RenderItems(items, 7) + ", "
    ensures before + Bare("AlarmTime", time) + " }" == Render(Obj("", items))
  {
    hide ItemText, RenderItems;
    LastText(items[7], "\"AlarmTime\": ", time);
    assert RenderItems(items, 8) == RenderItems(items, 7) + "," + ItemText(items[7]) by { LastRender(items); }
    Around(RenderItems(items, 7), "\"AlarmTime\": ", time);
  }

  lemma LastRender(items: seq<Item>)
    requires |items| == 8
    ensures RenderItems(items, 8) == RenderItems(items, 7) + "," + ItemText(items[7])
  {
    hide ItemText;
  }

  lemma LastText(it: Item, key: string, time: string)
    requires it == Item(" ", it.key, Num(time), " ") && it.key.Key? && KeyText(it.key) == key
    ensures ItemText(it) == " " + key + time + " "
  {
    hide KeyText;
  }

  lemma Around(r: string, key: string, time: string)
    ensures "{" + r + ", " + (key + time) + " }" == "{" + (r + "," + (" " + key + time + " ")) + "}"
  {
  }

  lemma AlarmOk(r: Report)
    requires Quotable(r)
    ensures WellFormed(Obj("", AlarmItems(r)))
  {
    hide RawString, NumberText, IntText, ItemOk;
    IntNumber(r.problem);
    IntNumber(r.time);
    var items := AlarmItems(r);
    AlarmNames();
    PrintedOk(items[0]);
    PrintedOk(items[1]);
    PrintedOk(items[2]);
    PrintedOk(items[3]);
    PrintedOk(items[4]);
    PrintedOk(items[5]);
    PrintedOk(items[6]);
    PrintedOk(items[7]);
  }

  lemma PlainNames()
    ensures Plain("managedObjectId") && Plain("applicationId") && Plain("specificProblem") && Plain("perceivedSeverity")
  {
  }

  lemma MorePlainNames()
    ensures Plain("identifyingInfo") && Plain("additionalInfo") && Plain("AlarmAction") && Plain("AlarmTime")
  {
  }

  lemma AlarmNames()
    ensures RawString("managedObjectId") && RawString("applicationId") && RawString("specificProblem")
    ensures RawString("perceivedSeverity") && RawString("identifyingInfo") && RawString("additionalInfo")
    ensures RawString("AlarmAction") && RawString("AlarmTime")
  {
    hide RawString, Plain;
    PlainNames();
    MorePlainNames();
    PlainRaw("managedObjectId");
    PlainRaw("applicationId");
    PlainRaw("specificProblem");
    PlainRaw("perceivedSeverity");
    PlainRaw("identifyingInfo");
    PlainRaw("additionalInfo");
    PlainRaw("AlarmAction");
    PlainRaw("AlarmTime");
  }

  lemma AlarmCount(r: Report)
    ensures Count(Obj("", AlarmItems(r))) <= MAX_THINGS
  {
    var items := AlarmItems(r);
    LeafCount(items, |items|);
  }

  lemma {:induction false} LeafCount(items: seq<Item>, n: nat)
    requires n <= |items| && forall k :: 0 <= k < n ==> !items[k].val.Obj? && !items[k].val.Arr?
    ensures CountItems(items, n) <= 2 * n
  {
    if n > 0 {
      LeafCount(items, n - 1);
      assert Count(items[n - 1].val) == 1;
      assert CountItem(items[n - 1]) <= 2;
    }
  }

  /** The message is an object that jw_new gets right. */
  lemma AlarmParses(r: Report)
    requires Quotable(r)
    ensures var text := AlarmText(r);
      ObjectText(text) && Members(text) == AlarmItems(r) && Good(AlarmItems(r)) && NoNul(text)
  {
    hide AlarmText, ReadDoc, Render, WellFormed, IntText, Count, AlarmItems;
    AlarmRendered(r);
    AlarmOk(r);
    AlarmCount(r);
    ReadRendered(Obj("", AlarmItems(r)));
    RenderNoNul(Obj("", AlarmItems(r)));
    AlarmGood(r);
  }

  lemma AlarmGood(r: Report)
    ensures Good(AlarmItems(r))
  {
    hide IntText;
    var items := AlarmItems(r);
    forall k | 0 <= k < |items| ensures GoodValue(items[k].val) && Flat(items[k].val) {
    }
  }

  lemma AlarmFinds(r: Report)
    ensures var items := AlarmItems(r);
      && Find(items, "managedObjectId") == Some(Str(r.meId)) && Find(items, "applicationId") == Some(Str(r.appId))
      && Find(items, "specificProblem") == Some(Num(IntText(r.problem)))
      && Find(items, "perceivedSeverity") == Some(Str(r.severity))
      && Find(items, "identifyingInfo") == Some(Str(r.info))
      && Find(items, "additionalInfo") == Some(Str(r.addInfo)) && Find(items, "AlarmAction") == Some(Str(r.action))
      && Find(items, "AlarmTime") == Some(Num(IntText(r.time)))
  {
    hide IntText, Find;
    var items := AlarmItems(r);
    assert Name(items[0]) == "managedObjectId" && Name(items[1]) == "applicationId"
      && Name(items[2]) == "specificProblem"
      && Name(items[3]) == "perceivedSeverity" && Name(items[4]) == "identifyingInfo"
      && Name(items[5]) == "additionalInfo"
      && Name(items[6]) == "AlarmAction" && Name(items[7]) == "AlarmTime";
    AlarmNamesDiffer(r);
    FindAt(items, 0);
    FindAt(items, 1);
    FindAt(items, 2);
    FindAt(items, 3);
    FindAt(items, 4);
    FindAt(items, 5);
    FindAt(items, 6);
    FindAt(items, 7);
  }

  lemma AlarmNamesDiffer(r: Report)
    ensures var items := AlarmItems(r); forall j, k :: 0 <= j < k < |items| ==> Name(items[j]) != Name(items[k])
  {
    hide IntText;
    var lens := [15, 13, 15, 17, 15, 14, 11, 9];
    var items := AlarmItems(r);
    assert forall k :: 0 <= k < 8 ==> |Name(items[k])| == lens[k];
    assert Name(items[0])[0] != Name(items[2])[0] && Name(items[0])[0] != Name(items[4])[0];
    assert Name(items[2])[0] != Name(items[4])[0];
  }

  /** jw_new of a printed alarm succeeds, and the getters return every field as it was. */
  lemma AlarmReadBack(m0: Memory, m1: Memory, r: Report, st: Option<nat>)
    requires Quotable(r) && NewPost(m0, m1, AlarmText(r), st)
    ensures st.Some? && Readable(m1, st)
    ensures ReadsText(m1, st, "managedObjectId", r.meId) && ReadsText(m1, st, "applicationId", r.appId)
    ensures JwValue(m1, st, "specificProblem") == r.problem as real && JwValue(m1, st, "AlarmTime") == r.time as real
    ensures ReadsText(m1, st, "perceivedSeverity", r.severity) && ReadsText(m1, st, "identifyingInfo", r.info)
    ensures ReadsText(m1, st, "additionalInfo", r.addInfo) && ReadsText(m1, st, "AlarmAction", r.action)
  {
    hide AlarmText, ReadDoc, IntText, AlarmItems, Tidy, Untouched, RepTab, Blocks, Good, UniqueNames,
      LevelOk,
      Readable, Find, Holds, Root, Quotable, ReadsText, JwValue;
    AlarmParses(r);
    GoodLevel(AlarmItems(r));
    RootHolds(m1, m0.next, AlarmItems(r), Inside(AlarmText(r)));
    AlarmFinds(r);
    var items := AlarmItems(r);
    TextRead(m1, st, items, "managedObjectId", r.meId);
    TextRead(m1, st, items, "applicationId", r.appId);
    NumberRead(m1, st, items, "specificProblem", r.problem);
    TextRead(m1, st, items, "perceivedSeverity", r.severity);
    TextRead(m1, st, items, "identifyingInfo", r.info);
    TextRead(m1, st, items, "additionalInfo", r.addInfo);
    TextRead(m1, st, items, "AlarmAction", r.action);
    NumberRead(m1, st, items, "AlarmTime", r.time);
  }

  lemma TextRead(m: Memory, st: Option<nat>, items: seq<Item>, name: string, s: string)
    requires Sees(m, st, items) && Find(items, name) == Some(Str(s))
    ensures Readable(m, st) && ReadsText(m, st, name, s)
  {
    hide Sees, Readable, JwString, StdString, Find;
    ReadersAnswer(m, st, items, name, 0);
  }

  lemma NumberRead(m: Memory, st: Option<nat>, items: seq<Item>, name: string, n: int)
    requires Sees(m, st, items) && Find(items, name) == Some(Num(IntText(n)))
    ensures Readable(m, st) && JwValue(m, st, name) == n as real
  {
    hide Sees, Readable, Find, IntText, Strtod;
    ReadersAnswer(m, st, items, name, 0);
    StrtodInt(n);
  }

  ghost predicate ReadsText(m: Memory, st: Option<nat>, name: string, s: string)
    requires Readable(m, st)
  {
    JwIs(m, st, name, PtString) && PtrLive(m, JwString(m, st, name)) && StdString(m, JwString(m, st, name)) == s
  }

  /** The whole way: print an alarm into a payload that has room for it, and parse the payload. */
  method PrintAndParse(
    h: Heap, alarm: Alarm, action: int, payload: array<char>, progname: string, now: int, junk: Token)
    returns (st: Option<nat>)
    requires Tidy(h.mem)
    requires Quotable(alarm.Message(action, progname, now))
    requires |AlarmText(alarm.Message(action, progname, now))| < payload.Length
    modifies h, alarm, payload
    ensures NewPost(old(h.mem), h.mem, old(AlarmText(alarm.Message(action, progname, now))), st)
    ensures st.Some? && Readable(h.mem, st)
    ensures ReadsText(h.mem, st, "managedObjectId", CString(old(alarm.meId)))
    ensures ReadsText(
      h.mem, st, "applicationId", CString(if old(alarm.appId) == "" then progname else old(alarm.appId)))
    ensures ReadsText(
      h.mem, st, "perceivedSeverity", CString(if old(alarm.severity) == "" then "WARNING" else old(alarm.severity)))
    ensures ReadsText(h.mem, st, "identifyingInfo", CString(old(alarm.info)))
    ensures ReadsText(h.mem, st, "additionalInfo", CString(old(alarm.addInfo)))
    ensures ReadsText(
      h.mem, st, "AlarmAction", if action == 2 then "CLEAR" else if action == 3 then "CLEARALL" else "RAISE")
    ensures JwValue(h.mem, st, "specificProblem") == old(alarm.problemId) as real
    ensures JwValue(h.mem, st, "AlarmTime") == now as real
  {
    hide ReadsText, Readable, JwValue, AlarmText, NewPost, Tidy, JunkOk, Quotable, CString, ReadDoc;
    ghost var r := alarm.Message(action, progname, now);
    AlarmParses(r);
    var used := alarm.BuildAlarm(action, payload, payload.Length, progname, now);
    PrintedReads(old(payload[..]), payload.Length, AlarmText(r));
    AlarmJunk(r, junk);
    st := JwNew(h, Some(CString(payload[..])), junk);
    AlarmReadBack(old(h.mem), h.mem, r, st);
  }

  /** No object of the message is in tail position, so nothing past the last token is read. */
  lemma AlarmJunk(r: Report, junk: Token)
    requires Quotable(r)
    ensures JunkOk(AlarmText(r), junk)
  {
    hide AlarmText, ReadDoc, Render, WellFormed, IntText, AlarmItems, Quotable;
    AlarmRendered(r);
    AlarmOk(r);
    ReadRendered(Obj("", AlarmItems(r)));
    AlarmNoTail(r);
  }

  lemma AlarmNoTail(r: Report)
    ensures !HasTail(Obj("", AlarmItems(r)))
  {
    hide IntText;
    var items := AlarmItems(r);
    forall k | 0 <= k < |items| ensures !HasTail(items[k].val) && !Tail(items[k].val) {
    }
  }
}
