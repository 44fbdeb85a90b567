/** The Config class: getters that all move one shared cursor, proved to answer as lookups in the
    configuration document. */
module ConfigClass {
  import opened Document
  import opened Jsmn
  import opened Numbers
  import opened Memory
  import opened Accepts
  import opened Parser
  import opened Lookup
  import opened Jwrapper
  import opened JhashClass

  // ----- what the getters are meant to answer

  function Controls(doc: seq<Item>, name: string): Option<Value> {
    match MembersOf(Find(doc, "controls"))
    case None => None
    case Some(controls) => Find(controls, name)
  }

  function ControlStr(doc: seq<Item>, name: string, defval: string): string {
    if TextOr(Controls(doc, name)) != "" then TextOr(Controls(doc, name)) else defval
  }

  function ControlBool(doc: seq<Item>, name: string, defval: bool): bool {
    if Controls(doc, name).Some? then Trunc(NumberOf(Controls(doc, name))) == 1 else defval
  }

  function ControlValue(doc: seq<Item>, name: string, defval: real): real {
    if Controls(doc, name).Some? then NumberOf(Controls(doc, name)) else defval
  }

  /** The elements of the array messaging.ports. */
  function Ports(doc: seq<Item>): seq<Item> {
    match MembersOf(Find(doc, "messaging"))
    case None => []
    case Some(messaging) =>
      match Find(messaging, "ports")
      case Some(Arr(_, ports)) => ports
      case _ => []
  }

  /** An element that is an object of that name; one without a name has the empty one. */
  predicate IsPort(v: Value, name: string) { v.Obj? && TextOr(Find(v.items, "name")) == name }

  predicate FirstPort(ports: seq<Item>, name: string, k: nat) {
    k < |ports| && IsPort(ports[k].val, name) && forall j :: 0 <= j < k ==> !IsPort(ports[j].val, name)
  }

  function PortText(v: Value): string
    requires v.Obj?
  {
    IntText(Trunc(NumberOf(Find(v.items, "port"))))
  }

  /** The port of the first object of that name, or nothing. */
  function PortOf(ports: seq<Item>, name: string): string {
    if ports == [] then ""
    else if IsPort(ports[0].val, name) then PortText(ports[0].val)
    else PortOf(ports[1..], name)
  }

  lemma {:induction false} PortFound(ports: seq<Item>, name: string, k: nat)
    requires FirstPort(ports, name, k)
    ensures PortOf(ports, name) == PortText(ports[k].val)
  {
    hide IsPort, PortText;
    if k > 0 {
      PortFound(ports[1..], name, k - 1);
    }
  }

  lemma {:induction false} PortMissing(ports: seq<Item>, name: string)
    requires forall k :: 0 <= k < |ports| ==> !IsPort(ports[k].val, name)
    ensures PortOf(ports, name) == ""
  {
    hide IsPort, PortText;
    if ports != [] {
      PortMissing(ports[1..], name);
    }
  }

  // ----- the same, by the kind of value in the file

  /** A control of the object "controls": true is true, false and null are false, a number is true when it
      is 1; only a text that is not empty answers as a text, and only what is missing leaves a default. */
  lemma ControlSays(doc: seq<Item>, w: string, controls: seq<Item>, name: string, s: string, b: bool, x: real)
    requires Find(doc, "controls") == Some(Obj(w, controls))
    ensures match Find(controls, name)
      case None => ControlStr(doc, name, s) == s && ControlBool(doc, name, b) == b && ControlValue(doc, name, x) == x
      case Some(True) =>
        ControlStr(doc, name, s) == s && ControlBool(doc, name, b) && ControlValue(doc, name, x) == 1.0
      case Some(Num(text)) => ControlStr(doc, name, s) == s && ControlValue(doc, name, x) == Strtod(text)
      case Some(Str(raw)) =>
        && ControlStr(doc, name, s) == (if raw != "" then raw else s)
        && !ControlBool(doc, name, b) && ControlValue(doc, name, x) == 0.0
      case _ => ControlStr(doc, name, s) == s && !ControlBool(doc, name, b) && ControlValue(doc, name, x) == 0.0
  {
    hide Find, Strtod;
    TruncMeans(0.0);
    TruncMeans(1.0);
  }

  lemma ControlNumber(doc: seq<Item>, w: string, controls: seq<Item>, name: string, n: int, b: bool, x: real)
    requires Find(doc, "controls") == Some(Obj(w, controls)) && Find(controls, name) == Some(Num(IntText(n)))
    ensures ControlBool(doc, name, b) == (n == 1) && ControlValue(doc, name, x) == n as real
  {
    hide Find, Strtod, IntText, Trunc;
    StrtodInt(n);
    TruncWhole(n);
  }

  /** Without that object every control has its default. */
  lemma ControlDefault(doc: seq<Item>, name: string, s: string, b: bool, x: real)
    requires Find(doc, "controls").None? || !Find(doc, "controls").value.Obj?
    ensures ControlStr(doc, name, s) == s && ControlBool(doc, name, b) == b && ControlValue(doc, name, x) == x
  {
    hide Find;
  }

  predicate HasPort(v: Value, name: string) { v.Obj? && Find(v.items, "name") == Some(Str(name)) }

  /** The port of the first object of that name in the array "ports" of the object "messaging". */
  lemma PortSays(
    doc: seq<Item>, w: string, messaging: seq<Item>, w': string, ports: seq<Item>, k: nat, name: string, p: int)
    requires Find(doc, "messaging") == Some(Obj(w, messaging)) && Find(messaging, "ports") == Some(Arr(w', ports))
    requires name != "" && k < |ports| && HasPort(ports[k].val, name)
    requires forall j :: 0 <= j < k ==> !HasPort(ports[j].val, name)
    requires Find(ports[k].val.items, "port") == Some(Num(IntText(p)))
    ensures PortOf(Ports(doc), name) == IntText(p)
  {
    hide Find, Strtod, IntText, Trunc, PortOf;
    StrtodInt(p);
    TruncWhole(p);
    PortFound(ports, name, k);
  }

  /** Nothing, when no object there has the name. */
  lemma PortNone(doc: seq<Item>, w: string, messaging: seq<Item>, name: string)
    requires Find(doc, "messaging") == Some(Obj(w, messaging)) && name != ""
    requires match Find(messaging, "ports")
      case Some(Arr(_, ports)) => forall j :: 0 <= j < |ports| ==> !HasPort(ports[j].val, name)
      case _ => true
    ensures PortOf(Ports(doc), name) == ""
  {
    hide Find, PortOf;
    PortMissing(Ports(doc), name);
  }

  /** What the configuration file holds for the getters: nothing, unless it is an object of at most
      4096 tokens that jw_new accepts. */
  ghost function Seen(text: string): seq<Item> {
    if ObjectText(text) && LevelOk(Members(text)) then Members(text) else []
  }

  /** The object "controls", if there is one, keeps the rules of its level. */
  ghost predicate ControlsSound(doc: seq<Item>) {
    Enter(doc, Member("controls")).Some? ==> LevelOk(Enter(doc, Member("controls")).value)
  }

  /** So do the object "messaging" and the objects in its array "ports", as far as a search for `name`
      comes. */
  ghost predicate PortsSound(doc: seq<Item>, name: string) {
    Enter(doc, Member("messaging")).Some? ==>
      && LevelOk(Enter(doc, Member("messaging")).value)
      && forall i: nat :: Entered(Ports(doc), name, i) ==> LevelOk(Ports(doc)[i].val.items)
  }

  /** Element `i` is an object, and none before it has the name. */
  predicate Entered(ports: seq<Item>, name: string, i: nat) {
    i < |ports| && ports[i].val.Obj? && forall j :: 0 <= j < i ==> !IsPort(ports[j].val, name)
  }

  class Config {
    var jh: Jhash?
    ghost var doc: seq<Item>

    ghost predicate Valid(h: Heap)
      reads this, jh, h
    {
      if jh == null then doc == []
      else RootOf(jh.Now()).Some? && Sees(h.mem, RootOf(jh.Now()), doc)
    }

    /** The cursor is at the root. */
    ghost predicate AtRoot()
      reads this, jh
    {
      jh != null ==> jh.st == RootOf(jh.Now())
    }

    /** jparse on the contents of the file; those of a file that cannot be opened are empty. */
    constructor (h: Heap, contents: string, junk: Token)
      requires Tidy(h.mem) && NoNul(contents) && JunkOk(contents, junk)
      modifies h
      ensures Known(contents) ==> Valid(h) && AtRoot()
      ensures Known(contents) ==>
        doc == if ObjectText(contents) && LevelOk(Members(contents)) then Members(contents) else []
      ensures jh == null || fresh(jh)
    {
      hide Tidy, JunkOk, NewPost, Known, Sees, Seen;
      var njh := new Jhash(h, Some(contents), junk);
      if Known(contents) {
        ParsedSees(old(h.mem), h.mem, contents, njh.st);
      }
      if njh.ParseErrors() {
        jh := null;
        if Known(contents) {
          SeesNull(h.mem, Seen(contents));
        }
      } else {
        jh := njh;
      }
      doc := Seen(contents);
      SeenIs(contents);
    }

    method GetControlStr(h: Heap, name: string, defval: string) returns (rv: string)
      requires Valid(h) && ControlsSound(doc)
      modifies jh
      ensures rv == ControlStr(doc, CString(name), defval)
      ensures Valid(h) && AtRoot()
    {
      hide Sees, Stands, LevelOk, Readable, Choose, CStr;
      rv := defval;
      if jh == null {
        NoControls(CString(name));
        return;
      }
      jh.UnsetBlob();
      ChooseAnswers(h.mem, jh.Now(), doc, Member("controls"));
      var ok := jh.SetBlob(h, "controls");
      if ok {
        var controls := Enter(doc, Member("controls")).value;
        ReadersAnswer(h.mem, jh.st, controls, CString(name), 0);
        if JwExists(h.mem, jh.st, CString(name)) {
          var value := StdString(h.mem, JwString(h.mem, jh.st, CString(name)));
          if value != "" {
            rv := value;
          }
        }
      }
      jh.UnsetBlob();
    }

    method GetControlBool(h: Heap, name: string, defval: bool) returns (rv: bool)
      requires Valid(h) && ControlsSound(doc)
      modifies jh
      ensures rv == ControlBool(doc, CString(name), defval)
      ensures Valid(h) && AtRoot()
    {
      hide Sees, Stands, LevelOk, Readable, Choose, CStr, Strtod, JhashClass.Bool;
      rv := defval;
      if jh == null {
        NoControls(CString(name));
        return;
      }
      jh.UnsetBlob();
      ChooseAnswers(h.mem, jh.Now(), doc, Member("controls"));
      var ok := jh.SetBlob(h, "controls");
      if ok {
        var controls := Enter(doc, Member("controls")).value;
        ReadersAnswer(h.mem, jh.st, controls, CString(name), 0);
        if JwExists(h.mem, jh.st, CString(name)) {
          rv := JhashClass.Bool(h.mem, jh.st, CString(name));
        }
      }
      jh.UnsetBlob();
    }

    method GetControlValue(h: Heap, name: string, defval: real) returns (rv: real)
      requires Valid(h) && ControlsSound(doc)
      modifies jh
      ensures rv == ControlValue(doc, CString(name), defval)
      ensures Valid(h) && AtRoot()
    {
      hide Sees, Stands, LevelOk, Readable, Choose, CStr, Strtod;
      rv := defval;
      if jh == null {
        NoControls(CString(name));
        return;
      }
      jh.UnsetBlob();
      ChooseAnswers(h.mem, jh.Now(), doc, Member("controls"));
      var ok := jh.SetBlob(h, "controls");
      if ok {
        var controls := Enter(doc, Member("controls")).value;
        ReadersAnswer(h.mem, jh.st, controls, CString(name), 0);
        if JwExists(h.mem, jh.st, CString(name)) {
          rv := JwValue(h.mem, jh.st, CString(name));
        }
      }
      jh.UnsetBlob();
    }

    method GetPort(h: Heap, name: string) returns (rv: string)
      requires Valid(h) && PortsSound(doc, name)
      modifies jh
      ensures rv == PortOf(Ports(doc), name)
      ensures Valid(h) && AtRoot()
    {
      hide Sees, Stands, LevelOk, Readable, Choose, CStr, Strtod, IsPort, Find, PortOf, JwBlob,
        JwObjEle;
      rv := "";
      if jh == null {
        NoPorts(doc, name);
        return;
      }
      jh.UnsetBlob();
      ghost var messaging := Enter(doc, Member("messaging"));
      ChooseAnswers(h.mem, jh.Now(), doc, Member("messaging"));
      var ok := jh.SetBlob(h, "messaging");
      if ok {
        ghost var ports := Ports(doc);
        ReadersAnswer(h.mem, jh.st, messaging.value, "ports", 0);
        var nele := JwArrayLen(h.mem, jh.st, "ports");
        var i := 0;
        while i < nele
          invariant 0 <= i && |ports| == (if nele < 0 then 0 else nele)
          invariant i <= |ports|
          invariant jh == old(jh) && jh != null && RootOf(jh.Now()) == old(RootOf(jh.Now())) && jh.masterSt.Some?
          invariant Sees(h.mem, jh.st, messaging.value)
          invariant forall j :: 0 <= j < i ==> !IsPort(ports[j].val, name)
        {
          ghost var el := ports[i].val;
          PortElement(doc, i);
          assert el.Obj? ==> Entered(ports, name, i);
          ChooseAnswers(h.mem, jh.Now(), messaging.value, Element("ports", i));
          ok := jh.SetBlobEle(h, "ports", i);
          if ok {
            ReadersAnswer(h.mem, jh.st, el.items, "name", 0);
            var pname := StdString(h.mem, JwString(h.mem, jh.st, "name"));
            IsPortIs(el, name);
            if pname == name {
              ReadersAnswer(h.mem, jh.st, el.items, "port", 0);
              var value := JwValue(h.mem, jh.st, "port");
              rv := IntText(Trunc(value));
              PortFound(ports, name, i);
              jh.UnsetBlob();
              return;
            }
          } else {
            IsPortIs(el, name);
          }
          jh.UnsetBlob();
          ChooseAnswers(h.mem, jh.Now(), doc, Member("messaging"));
          ok := jh.SetBlob(h, "messaging");
          i := i + 1;
        }
        PortMissing(ports, name);
      } else {
        NoPorts(doc, name);
      }
      jh.UnsetBlob();
    }
  }

  /** A selection of an object that breaks the rules leaves a current table that is released or refers
      to something released; the getters read it next. */
  lemma UnsoundDead(m: Memory, c: Cursor, doc: seq<Item>, name: string)
    requires c.st.Some? && Sees(m, c.st, doc)
    requires Enter(doc, Member(name)).Some?
    ensures Readable(m, c.st) && Choose(m, c, Member(name)).1
    ensures Readable(m, Choose(m, c, Member(name)).0.st) <==> LevelOk(Enter(doc, Member(name)).value)
  {
    hide Sees, Stands, Readable, Choose, LevelOk, Enter;
    ChooseAnswers(m, c, doc, Member(name));
    StandsReadable(m, Choose(m, c, Member(name)).0.st.value, Enter(doc, Member(name)).value);
  }

  lemma ParsedSees(m0: Memory, m1: Memory, text: string, st: Option<nat>)
    requires NewPost(m0, m1, text, st) && Known(text)
    ensures Sees(m1, st, Seen(text))
  {
    hide ReadDoc, Tidy, Untouched, Root, Holds, Good, LevelOk, Known;
    if !ObjectText(text) && st.Some? {
      RootHolds(m1, m0.next, [], 0);
    }
  }

  lemma SeenIs(text: string)
    ensures Seen(text) == if ObjectText(text) && LevelOk(Members(text)) then Members(text) else []
  {
  }

  lemma SeesNull(m: Memory, items: seq<Item>)
    requires Sees(m, None, items)
    ensures items == []
  {
  }

  lemma NoControls(name: string)
    ensures Controls([], name) == None
  {
  }

  lemma NoPorts(doc: seq<Item>, name: string)
    requires doc == [] || Enter(doc, Member("messaging")).None?
    ensures PortOf(Ports(doc), name) == ""
  {
  }

  lemma PortElement(doc: seq<Item>, i: nat)
    requires i < |Ports(doc)|
    ensures Enter(doc, Member("messaging")).Some?
    ensures Enter(Enter(doc, Member("messaging")).value, Element("ports", i)) == MembersOf(Some(Ports(doc)[i].val))
  {
  }

  lemma IsPortIs(v: Value, name: string)
    ensures IsPort(v, name) <==> v.Obj? && TextOr(Find(v.items, "name")) == name
  {
  }

  // ----- any calls in any order

  datatype Query = AskStr(name: string, dstr: string) | AskBool(name: string, dbool: bool)
    | AskValue(name: string, dvalue: real) | AskPort(name: string)

  datatype Reply = AString(s: string) | ABool(b: bool) | AValue(x: real)

  /** The answer of the document alone. */
  function Answer(doc: seq<Item>, q: Query): Reply {
    match q
    case AskStr(name, d) => AString(ControlStr(doc, CString(name), d))
    case AskBool(name, d) => ABool(ControlBool(doc, CString(name), d))
    case AskValue(name, d) => AValue(ControlValue(doc, CString(name), d))
    case AskPort(name) => AString(PortOf(Ports(doc), name))
  }

  /** What the question comes to keeps the rules. */
  ghost predicate Askable(doc: seq<Item>, q: Query) {
    if q.AskPort? then PortsSound(doc, q.name) else ControlsSound(doc)
  }

  /** Whatever was asked before, and wherever a caller left the cursor, each call answers as the
      document does. */
  method AskAll(h: Heap, config: Config, qs: seq<Query>) returns (rs: seq<Reply>)
    requires config.Valid(h) && forall i :: 0 <= i < |qs| ==> Askable(config.doc, qs[i])
    modifies config.jh
    ensures config.Valid(h) && |rs| == |qs|
    ensures forall i :: 0 <= i < |qs| ==> rs[i] == Answer(config.doc, qs[i])
  {
    hide ControlStr, ControlBool, ControlValue, PortOf, Sees, PortsSound, ControlsSound;
    rs := [];
    for i := 0 to |qs|
      invariant |rs| == i && config.Valid(h)
      invariant forall j :: 0 <= j < i ==> rs[j] == Answer(config.doc, qs[j])
    {
      var r;
      assert Askable(config.doc, qs[i]);
      match qs[i] {
        case AskStr(name, d) =>
          var s := config.GetControlStr(h, name, d);
          r := AString(s);
        case AskBool(name, d) =>
          var b := config.GetControlBool(h, name, d);
          r := ABool(b);
        case AskValue(name, d) =>
          var x := config.GetControlValue(h, name, d);
          r := AValue(x);
        case AskPort(name) =>
          var s := config.GetPort(h, name);
          r := AString(s);
      }
      rs := rs + [r];
    }
  }
}
