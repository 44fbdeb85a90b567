/** The Messenger class: registering callbacks, and the loop that receives messages and drives them. */
module MessengerClass {
  import opened Lookup
  import opened MessageClass

  const DEFAULT_CALLBACK := -1

  /** A user function and its data, by their addresses. */
  datatype Callback = Callback(fun: int, data: int)

  /** What one rmr_torcv_msg brings: a null pointer, a buffer whose state is not good (a time out,
      mostly), or a message. */
  datatype Arrival = Nothing | Bad | Good(mtype: int)

  /** A callback that was driven, and the type of the message it was given. */
  datatype Driven = Driven(cb: Callback, mtype: int)

  /** The callback for a type: its own, else the default one, else none. */
  function Chosen(cbHash: map<int, Callback>, callbacks: bool, mtype: int): Option<Callback> {
    if callbacks && mtype in cbHash then Some(cbHash[mtype])
    else if DEFAULT_CALLBACK in cbHash then Some(cbHash[DEFAULT_CALLBACK])
    else None
  }

  predicate Wanted(cbHash: map<int, Callback>, callbacks: bool, a: Arrival) {
    a.Good? && Chosen(cbHash, callbacks, a.mtype).Some?
  }

  /** What some arrivals should drive: for each message that has one, its callback. */
  function Expected(cbHash: map<int, Callback>, callbacks: bool, arrivals: seq<Arrival>): seq<Driven> {
    if arrivals == [] then []
    else
      var before, a := Expected(cbHash, callbacks, arrivals[..|arrivals| - 1]), arrivals[|arrivals| - 1];
      if Wanted(cbHash, callbacks, a) then before + [Driven(Chosen(cbHash, callbacks, a.mtype).value, a.mtype)]
      else before
  }

  /** The buffers but the one in the receiver's hands are owned by the messages. */
  ghost predicate Split(rmr: Rmr, world: set<Message>, mbuf: Option<nat>)
    reads rmr, world
  {
    rmr.Valid() && Of(mbuf) <= rmr.bufs.Keys && Sole(rmr.bufs.Keys - Of(mbuf), Holding(world))
  }

  /** The messages with the one of the loop, if it has one. */
  ghost function With(world: set<Message>, m: Message?): set<Message> { if m == null then world else world + {m} }

  /** All buffers are owned, but the loop has one of them in its hands as well. */
  ghost predicate TwoHolders(rmr: Rmr, world: set<Message>, m: Message, mbuf: Option<nat>)
    reads rmr, world, m
  {
    Owned(rmr, world) && m in world && mbuf.Some? && m.mbuf == mbuf && mbuf.value in rmr.bufs
    && !Split(rmr, world, mbuf)
  }

  /** rmr_torcv_msg takes the last buffer back, or none, and gives the same, another or none. */
  method Torcv(rmr: Rmr, b: Option<nat>, arrival: Arrival, ghost world: set<Message>) returns (c: Option<nat>)
    requires Split(rmr, world, b)
    modifies rmr
    ensures Split(rmr, world, c) && (c.None? <==> arrival.Nothing?)
    ensures c.Some? ==> (rmr.bufs[c.value].state == RMR_OK <==> arrival.Good?)
    ensures arrival.Good? ==> rmr.bufs[c.value].mtype == arrival.mtype
  {
    hide Sole;
    ghost var owned := rmr.bufs.Keys - Of(b);
    assert rmr.bufs.Keys == owned + Of(b);
    var another: bool := *;
    if b.Some? && (arrival.Nothing? || another) {
      rmr.FreeMsg(b.value);
      c := None;
    } else {
      c := b;
    }
    if c.None? && !arrival.Nothing? {
      var n := rmr.NewBuf(Buf(1, 0, 0, 0));
      c := Some(n);
    }
    assert rmr.bufs.Keys == owned + Of(c);
    if c.Some? {
      var buf: Buf := *;
      buf := buf.(state := 1);
      if arrival.Good? {
        buf := buf.(state := RMR_OK, mtype := arrival.mtype);
      }
      rmr.bufs := rmr.bufs[c.value := buf];
      assert rmr.bufs.Keys == owned + Of(c);
    }
    assert rmr.bufs.Keys - Of(c) == owned;
  }

  /** The application's side: which callbacks were driven with what. */
  class App {
    var driven: seq<Driven>

    constructor ()
      ensures driven == []
    {
      driven := [];
    }

    /** Drive_cb and the user function, which may send the message on, in whatever way and as often as
        it likes. */
    method DriveCb(cb: Callback, m: Message, rmr: Rmr, ghost world: set<Message>)
      requires Owned(rmr, world) && m in world && m.mbuf.Some?
      modifies this, m, rmr
      ensures Owned(rmr, world)
      ensures old(m.mbuf.value in rmr.bufs) && driven == old(driven) + [Driven(cb, old(rmr.bufs[m.mbuf.value].mtype))]
    {
      hide Sole;
      OwnBuffer(rmr, world, m);
      driven := driven + [Driven(cb, rmr.bufs[m.mbuf.value].mtype)];
      ghost var now := driven;
      var n: nat := *;
      while n > 0
        invariant Owned(rmr, world) && driven == now
      {
        var mtype: int, subid: int, len: int, payload: bool, kind: SendKind := *, *, *, *, *;
        var sent := m.Send(rmr, mtype, subid, len, payload, kind, world);
        n := n - 1;
      }
    }
  }

  class Messenger {
    var mrc: bool
    var cbHash: map<int, Callback>
    var callbacks: bool
    var ok2Run: bool

    constructor (mrc: bool, healthCheck: int, healthCb: Callback)
      ensures this.mrc == mrc && cbHash == map[healthCheck := healthCb] && callbacks && ok2Run
    {
      this.mrc, cbHash, callbacks, ok2Run := mrc, map[healthCheck := healthCb], true, true;
    }

    method AddMsgCb(mtype: int, fun: int, data: int)
      modifies this
      ensures cbHash == old(cbHash)[mtype := Callback(fun, data)] && callbacks
      ensures mrc == old(mrc) && ok2Run == old(ok2Run)
      ensures Chosen(cbHash, callbacks, mtype) == Some(Callback(fun, data))
      ensures mtype != DEFAULT_CALLBACK && old(callbacks) ==>
        forall other :: other != mtype ==> Chosen(cbHash, callbacks, other) == old(Chosen(cbHash, callbacks, other))
    {
      cbHash, callbacks := cbHash[mtype := Callback(fun, data)], true;
    }

    method Stop()
      modifies this`ok2Run
      ensures !ok2Run
    {
      ok2Run := false;
    }

    /** One round of the loop, which may find a message `m` of an earlier round and the loop's own
        pointer `mbuf`. A message drives its callback, if it has one, with just itself. Each buffer
        then has one holder if and only if there was a callback to drive: without one, the loop keeps
        its pointer to the buffer that the message owns. */
    method Round(rmr: Rmr, app: App, arrival: Arrival, m: Message?, mbuf: Option<nat>, ghost world: set<Message>)
      returns (m': Message?, mbuf': Option<nat>)
      requires m !in world && Split(rmr, With(world, m), mbuf)
      modifies rmr, app, if m == null then {} else {m}
      ensures m' !in world && (m' == m || fresh(m'))
      ensures !arrival.Good? ==> m' == m && app.driven == old(app.driven)
      ensures !arrival.Good? ==> Split(rmr, With(world, m'), mbuf') && (mbuf'.None? <==> arrival.Nothing?)
      ensures arrival.Good? ==> m' != null
      ensures arrival.Good? ==>
        (Split(rmr, With(world, m'), mbuf') <==> Chosen(cbHash, callbacks, arrival.mtype).Some?)
      ensures Wanted(cbHash, callbacks, arrival) ==> mbuf'.None?
      ensures Wanted(cbHash, callbacks, arrival) ==>
        app.driven == old(app.driven) + [Driven(Chosen(cbHash, callbacks, arrival.mtype).value, arrival.mtype)]
      ensures arrival.Good? && !Wanted(cbHash, callbacks, arrival) ==>
        app.driven == old(app.driven) && TwoHolders(rmr, With(world, m'), m', mbuf')
      ensures arrival.Good? && callbacks && arrival.mtype in cbHash ==>
        app.driven == old(app.driven) + [Driven(cbHash[arrival.mtype], arrival.mtype)]
      ensures arrival.Good? && !(callbacks && arrival.mtype in cbHash) && DEFAULT_CALLBACK in cbHash ==>
        app.driven == old(app.driven) + [Driven(cbHash[DEFAULT_CALLBACK], arrival.mtype)]
      ensures arrival.Good? && !(callbacks && arrival.mtype in cbHash) && DEFAULT_CALLBACK !in cbHash ==>
        app.driven == old(app.driven)
      ensures arrival.Good? ==>
        (Split(rmr, With(world, m'), mbuf') <==>
          (callbacks && arrival.mtype in cbHash) || DEFAULT_CALLBACK in cbHash)
    {
      hide Sole;
      var dcb := if DEFAULT_CALLBACK in cbHash then Some(cbHash[DEFAULT_CALLBACK]) else None;
      m' := m;
      mbuf' := Torcv(rmr, mbuf, arrival, With(world, m));
      if mbuf'.Some? && rmr.bufs[mbuf'.value].state == RMR_OK {
        var mtype := rmr.bufs[mbuf'.value].mtype;
        var next := new Message(mbuf');
        Wrapped(rmr, With(world, m), next, mbuf');
        if m != null {
          OwnApart(rmr, With(world, m) + {next}, m, next);
          m.Destroy(rmr, With(world, m) + {next});
          assert With(world, m) + {next} - {m} == With(world, next);
        }
        m' := next;
        var sel := dcb;
        if callbacks && mtype in cbHash {
          sel := Some(cbHash[mtype]);
        }
        if sel.Some? {
          app.DriveCb(sel.value, next, rmr, With(world, next));
          mbuf' := None;
          assert rmr.bufs.Keys - Of(mbuf') == rmr.bufs.Keys;
        } else {
          HeldTwice(rmr, With(world, next), next, mbuf');
        }
      }
    }

    /** The loop of one listener, for as many rounds as pass before it sees the flag lowered. While each
        message has a callback, each drives it once, in the order of arrival, and every buffer has one
        owner. A message without one may be the last: what the loop has then in its hands is a buffer
        that is released with the message. After a last bad arrival it is a buffer nobody releases. */
    method Listen(rmr: Rmr, app: App, arrivals: seq<Arrival>, ghost world: set<Message>) returns (left: Option<nat>)
      requires Owned(rmr, world)
      requires forall k :: 0 <= k < |arrivals| - 1 && arrivals[k].Good? ==> Wanted(cbHash, callbacks, arrivals[k])
      modifies rmr, app
      ensures mrc ==> app.driven == old(app.driven) + Expected(cbHash, callbacks, arrivals)
      ensures !mrc ==> app.driven == old(app.driven) && left.None? && rmr.bufs == old(rmr.bufs) && Owned(rmr, world)
      ensures mrc && !EndsUnhandled(arrivals) ==> Split(rmr, world, left)
      ensures mrc && !EndsUnhandled(arrivals) ==> (left.Some? <==> arrivals != [] && arrivals[|arrivals| - 1].Bad?)
      ensures mrc && EndsUnhandled(arrivals) ==> Owned(rmr, world) && left.Some? && left.value !in rmr.bufs
    {
      hide Sole;
      left := None;
      assert rmr.bufs.Keys - Of(left) == rmr.bufs.Keys;
      if !mrc {
        return;
      }
      var mbuf: Option<nat> := None;
      var m: Message? := null;
      assert With(world, null) == world;
      for k := 0 to |arrivals|
        invariant app.driven == old(app.driven) + Expected(cbHash, callbacks, arrivals[..k])
        invariant m !in world && (m != null ==> fresh(m))
        invariant !EndsUnhandled(arrivals[..k]) ==> Split(rmr, With(world, m), mbuf)
        invariant !EndsUnhandled(arrivals[..k]) ==> (mbuf.Some? <==> k > 0 && arrivals[k - 1].Bad?)
        invariant EndsUnhandled(arrivals[..k]) ==> m != null && TwoHolders(rmr, With(world, m), m, mbuf)
      {
        assert arrivals[..k + 1][..k] == arrivals[..k];
        m, mbuf := Round(rmr, app, arrivals[k], m, mbuf, world);
      }
      assert arrivals[..|arrivals|] == arrivals;
      left := mbuf;
      if m != null {
        if EndsUnhandled(arrivals) {
          m.Destroy(rmr, With(world, m));
        } else {
          Unwrap(rmr, m, With(world, m), left);
        }
        assert With(world, m) - {m} == world;
      }
    }

    /** The last of the arrivals is a message without a callback. */
    predicate EndsUnhandled(arrivals: seq<Arrival>)
      reads this
    {
      arrivals != [] && arrivals[|arrivals| - 1].Good? && !Wanted(cbHash, callbacks, arrivals[|arrivals| - 1])
    }
  }

  /** A messenger as its constructor leaves it, and one message of any type but that of a health check:
      a buffer has two holders already. */
  method OneUnhandled(healthCheck: int, healthCb: Callback, mtype: int, rmr: Rmr, app: App)
    returns (m: Message?, mbuf: Option<nat>)
    requires mtype != healthCheck && healthCheck != DEFAULT_CALLBACK && Owned(rmr, {})
    modifies rmr, app
    ensures m != null && mbuf.Some? && m.mbuf == mbuf && mbuf.value in rmr.bufs && !Split(rmr, {m}, mbuf)
  {
    hide Sole;
    assert rmr.bufs.Keys - Of(None) == rmr.bufs.Keys;
    var messenger := new Messenger(true, healthCheck, healthCb);
    m, mbuf := messenger.Round(rmr, app, Good(mtype), null, None, {});
    assert With({}, m) == {m};
  }

  /** What the arrivals of a listener drive, one by one: a message the callback for its type, or else the
      default one, or else none; anything else nothing. */
  lemma ExpectedSays(cbHash: map<int, Callback>, callbacks: bool, arrivals: seq<Arrival>, a: Arrival)
    ensures Expected(cbHash, callbacks, []) == []
    ensures Expected(cbHash, callbacks, arrivals + [a]) == Expected(cbHash, callbacks, arrivals) +
      if a.Good? && callbacks && a.mtype in cbHash then [Driven(cbHash[a.mtype], a.mtype)]
      else if a.Good? && DEFAULT_CALLBACK in cbHash then [Driven(cbHash[DEFAULT_CALLBACK], a.mtype)]
      else []
  {
    assert (arrivals + [a])[..|arrivals|] == arrivals;
  }

  /** A new messenger with a default callback, and one message of any type but that of a health check:
      the default callback is driven with it, and every buffer has one owner afterwards. */
  method DefaultServes(healthCheck: int, healthCb: Callback, fun: int, data: int, mtype: int, rmr: Rmr, app: App)
    returns (left: Option<nat>)
    requires mtype != healthCheck && mtype != DEFAULT_CALLBACK && Owned(rmr, {})
    modifies rmr, app
    ensures app.driven == old(app.driven) + [Driven(Callback(fun, data), mtype)]
    ensures Owned(rmr, {}) && left.None?
  {
    hide Sole, Expected;
    var messenger := new Messenger(true, healthCheck, healthCb);
    messenger.AddMsgCb(DEFAULT_CALLBACK, fun, data);
    ExpectedSays(messenger.cbHash, messenger.callbacks, [], Good(mtype));
    assert [] + [Good(mtype)] == [Good(mtype)];
    left := messenger.Listen(rmr, app, [Good(mtype)], {});
    assert rmr.bufs.Keys - Of(left) == rmr.bufs.Keys;
  }

  lemma OwnApart(rmr: Rmr, world: set<Message>, m: Message, n: Message)
    requires Owned(rmr, world) && m in world && n in world && m != n
    ensures m.mbuf.Some? ==> m.mbuf != n.mbuf
  {
    assert Holding(world)[m] == m.mbuf && Holding(world)[n] == n.mbuf;
  }

  /** The buffer just received gets its message. */
  lemma Wrapped(rmr: Rmr, world: set<Message>, m: Message, mbuf: Option<nat>)
    requires Split(rmr, world, mbuf) && m !in world && m.mbuf == mbuf
    ensures Owned(rmr, world + {m})
  {
    hide Sole;
    var owned := rmr.bufs.Keys - Of(mbuf);
    TakesOwn(owned, Holding(world), m, mbuf);
    assert owned + Of(mbuf) == rmr.bufs.Keys;
    assert Holding(world + {m}) == Holding(world)[m := mbuf];
  }

  lemma HeldTwice(rmr: Rmr, world: set<Message>, m: Message, mbuf: Option<nat>)
    requires Owned(rmr, world) && m in world && mbuf.Some? && mbuf == m.mbuf
    ensures TwoHolders(rmr, world, m, mbuf)
  {
    assert Holding(world)[m] == m.mbuf;
  }

  /** The last message goes when the loop has ended. */
  method Unwrap(rmr: Rmr, m: Message, ghost world: set<Message>, ghost left: Option<nat>)
    requires Split(rmr, world, left) && m in world
    modifies m, rmr
    ensures Split(rmr, world - {m}, left)
  {
    hide Sole;
    ghost var owned, holds: map<Message, Option<nat>> := rmr.bufs.Keys - Of(left), Holding(world);
    assert holds[m] == m.mbuf && Of(m.mbuf) <= owned by { SoleHolds(owned, holds, m); }
    if m.mbuf.Some? {
      rmr.FreeMsg(m.mbuf.value);
    }
    m.mbuf := None;
    GivesUp<Message>(owned, holds, m);
    assert rmr.bufs.Keys - Of(left) == owned - Of(holds[m]);
    assert Holding(world - {m}) == holds - {m};
  }

  lemma SoleHolds<T>(bufs: set<nat>, holds: map<T, Option<nat>>, m: T)
    requires Sole(bufs, holds) && m in holds
    ensures Of(holds[m]) <= bufs
  {
  }
}
