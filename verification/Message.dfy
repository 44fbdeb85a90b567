/** The Message class: who owns which transport buffer. RMR itself is not part of the repository; its
    calls stand here for any behaviour that hands buffers over as its callers expect. */
module MessageClass {
  import opened Lookup

  const RMR_OK := 0
  const NO_CHANGE := -99

  /** What is modelled of a transport buffer: its state, and its type, subscription and used length. */
  datatype Buf = Buf(state: int, mtype: int, subid: int, len: int)

  /** The call a send goes through; for any other kind there is none. */
  datatype SendKind = Response | Plain | Wormhole | Other

  /** A buffer handed to RMR for sending, as it was then. */
  datatype Sent = Sent(kind: SendKind, b: nat, buf: Buf)

  function Of(b: Option<nat>): set<nat> { if b.Some? then {b.value} else {} }

  /** The transport: the buffers that are not released, and what it was given to send. Numbers are
      never used again, so every call on a number that is not there would be a use after free. */
  class Rmr {
    var bufs: map<nat, Buf>
    var next: nat
    var sent: seq<Sent>

    ghost predicate Valid()
      reads this
    {
      forall b :: b in bufs ==> b < next
    }

    constructor ()
      ensures Valid() && bufs == map[] && sent == []
    {
      bufs, next, sent := map[], 0, [];
    }

    method NewBuf(buf: Buf) returns (b: nat)
      requires Valid()
      modifies this
      ensures Valid() && b == old(next) < next && bufs == old(bufs)[b := buf] && b !in old(bufs) && sent == old(sent)
    {
      b := next;
      bufs, next := bufs[b := buf], next + 1;
    }

    /** rmr_alloc_msg; `full` says that it has none to give. */
    method AllocMsg(full: bool) returns (b: Option<nat>)
      requires Valid()
      modifies this
      ensures Valid() && old(next) <= next && (b.Some? ==> old(next) <= b.value) && sent == old(sent)
      ensures (b.None? <==> full) && bufs.Keys == old(bufs.Keys) + Of(b)
    {
      b := None;
      if !full {
        var buf: Buf := *;
        var n := NewBuf(buf);
        b := Some(n);
      }
    }

    /** rmr_free_msg. */
    method FreeMsg(b: nat)
      requires Valid() && b in bufs
      modifies this
      ensures Valid() && bufs == old(bufs) - {b} && next == old(next) && sent == old(sent)
    {
      bufs := bufs - {b};
    }

    /** rmr_realloc_payload with RMR_COPY and RMR_CLONE: a second buffer like the first, which stays.
        Nothing comes of a null buffer. */
    method Clone(b: Option<nat>, full: bool) returns (c: Option<nat>)
      requires Valid() && (b.Some? ==> b.value in bufs)
      modifies this
      ensures Valid() && old(next) <= next && (c.Some? ==> old(next) <= c.value) && sent == old(sent)
      ensures c.Some? <==> b.Some? && !full
      ensures bufs == if c.Some? then old(bufs)[c.value := old(bufs)[b.value]] else old(bufs)
    {
      c := None;
      if b.Some? && !full {
        var n := NewBuf(bufs[b.value]);
        c := Some(n);
      }
    }

    /** rmr_send_msg, rmr_rts_msg and rmr_wh_send_msg take a buffer and give one back, the same or
        another. */
    method Exchange(kind: SendKind, b: nat) returns (c: nat)
      requires Valid() && b in bufs
      modifies this
      ensures Valid() && old(next) <= next && (c == b || old(next) <= c)
      ensures bufs.Keys == old(bufs.Keys) - {b} + {c}
      ensures sent == old(sent) + [Sent(kind, b, old(bufs)[b])]
    {
      sent := sent + [Sent(kind, b, bufs[b])];
      c := b;
      var buf: Buf := *;
      if * {
        FreeMsg(b);
        c := NewBuf(buf);
      } else {
        bufs := bufs[b := buf];
      }
    }

    /** rmr_realloc_payload without cloning: the same buffer or a larger one, or none. */
    method Grow(b: nat) returns (c: Option<nat>)
      requires Valid() && b in bufs
      modifies this
      ensures Valid() && old(next) <= next && (c.Some? ==> c.value == b || old(next) <= c.value) && sent == old(sent)
      ensures bufs.Keys == old(bufs.Keys) - {b} + Of(c)
    {
      c := Some(b);
      var buf: Buf := *;
      if * {
        FreeMsg(b);
        c := None;
        if * {
          var n := NewBuf(buf);
          c := Some(n);
        }
      }
    }
  }

  // ----- ownership

  /** Holders and buffers: every buffer held is there, no two holders have the same one, and every
      buffer is held. */
  ghost predicate Sole<T>(bufs: set<nat>, holds: map<T, Option<nat>>) {
    && (forall m :: m in holds && holds[m].Some? ==> holds[m].value in bufs)
    && (forall m, n :: m in holds && n in holds && m != n && holds[m].Some? ==> holds[m] != holds[n])
    && forall b :: b in bufs ==> exists m :: m in holds && holds[m] == Some(b)
  }

  /** A new holder gets a buffer nobody had. */
  lemma TakesOwn<T>(bufs: set<nat>, holds: map<T, Option<nat>>, m: T, b: Option<nat>)
    requires Sole(bufs, holds) && m !in holds && (b.Some? ==> b.value !in bufs)
    ensures Sole(bufs + Of(b), holds[m := b])
  {
    var holds' := holds[m := b];
    forall c | c in bufs + Of(b) ensures exists o :: o in holds' && holds'[o] == Some(c) {
      if c in bufs {
        var o :| o in holds && holds[o] == Some(c);
        assert holds'[o] == Some(c);
      } else {
        assert holds'[m] == Some(c);
      }
    }
  }

  /** A holder gives its buffer up. */
  lemma GivesUp<T>(bufs: set<nat>, holds: map<T, Option<nat>>, m: T)
    requires Sole(bufs, holds) && m in holds
    ensures Sole(bufs - Of(holds[m]), holds[m := None]) && Sole(bufs - Of(holds[m]), holds - {m})
  {
    var without, empty := holds - {m}, holds[m := None];
    forall c | c in bufs - Of(holds[m])
      ensures (exists o :: o in without && without[o] == Some(c)) && exists o :: o in empty && empty[o] == Some(c)
    {
      var o :| o in holds && holds[o] == Some(c);
      assert o != m && without[o] == Some(c) && empty[o] == Some(c);
    }
  }

  /** A holder exchanges its buffer for the same one or one nobody had. */
  lemma Swapped<T>(bufs: set<nat>, holds: map<T, Option<nat>>, m: T, b: Option<nat>)
    requires Sole(bufs, holds) && m in holds && (b.Some? ==> b == holds[m] || b.value !in bufs)
    ensures Sole(bufs - Of(holds[m]) + Of(b), holds[m := b])
  {
    var holds', bufs' := holds[m := b], bufs - Of(holds[m]) + Of(b);
    forall c | c in bufs' ensures exists o :: o in holds' && holds'[o] == Some(c) {
      if Some(c) != b {
        var o :| o in holds && holds[o] == Some(c);
        assert holds'[o] == Some(c);
      } else {
        assert holds'[m] == Some(c);
      }
    }
  }

  /** A holder takes over the buffer of another one and has none of its own. */
  lemma TakesOver<T>(bufs: set<nat>, holds: map<T, Option<nat>>, m: T, soi: T)
    requires Sole(bufs, holds) && soi in holds && m != soi && (m in holds ==> holds[m].None?)
    ensures Sole(bufs, holds[m := holds[soi]][soi := None])
  {
    var holds' := holds[m := holds[soi]][soi := None];
    forall c | c in bufs ensures exists o :: o in holds' && holds'[o] == Some(c) {
      var o :| o in holds && holds[o] == Some(c);
      assert holds'[if o == soi then m else o] == Some(c);
    }
  }

  ghost function Holding(world: set<Message>): map<Message, Option<nat>>
    reads world
  {
    map m | m in world :: m.mbuf
  }

  /** Every message of `world` owns its buffer alone, and every buffer is owned. */
  ghost predicate Owned(rmr: Rmr, world: set<Message>)
    reads rmr, world
  {
    rmr.Valid() && Sole(rmr.bufs.Keys, Holding(world))
  }

  lemma OwnBuffer(rmr: Rmr, world: set<Message>, m: Message)
    requires Owned(rmr, world) && m in world
    ensures m.mbuf.Some? ==> m.mbuf.value in rmr.bufs
  {
    assert Holding(world)[m] == m.mbuf;
  }

  class Message {
    var mbuf: Option<nat>

    /** A wrapper for a buffer that RMR handed out. */
    constructor (b: Option<nat>)
      ensures mbuf == b
    {
      mbuf := b;
    }

    /** A message of a new buffer. */
    static method Alloc(rmr: Rmr, full: bool, ghost world: set<Message>) returns (m: Message)
      requires Owned(rmr, world)
      modifies rmr
      ensures fresh(m) && Owned(rmr, world + {m}) && (m.mbuf.None? <==> full) && rmr.sent == old(rmr.sent)
    {
      hide Sole;
      var b := rmr.AllocMsg(full);
      m := new Message(b);
      TakesOwn(old(rmr.bufs.Keys), old(Holding(world)), m, b);
      assert Holding(world + {m}) == old(Holding(world))[m := b];
    }

    /** This message has a buffer of its own like that of the source, if it has one and RMR can. */
    ghost predicate IsCopy(rmr: Rmr, soi: Message, full: bool, before: nat)
      reads this, rmr, soi
    {
      && (mbuf.Some? <==> soi.mbuf.Some? && !full)
      && (mbuf.Some? ==>
        && before <= mbuf.value && mbuf.value in rmr.bufs && soi.mbuf.value in rmr.bufs
        && rmr.bufs[mbuf.value] == rmr.bufs[soi.mbuf.value])
    }

    /** The copy constructor. */
    constructor Copy(rmr: Rmr, soi: Message, full: bool, ghost world: set<Message>)
      requires Owned(rmr, world) && soi in world
      modifies rmr
      ensures Owned(rmr, world + {this}) && soi.mbuf == old(soi.mbuf)
      ensures IsCopy(rmr, soi, full, old(rmr.next)) && rmr.sent == old(rmr.sent)
    {
      hide Sole;
      OwnBuffer(rmr, world, soi);
      var b := rmr.Clone(soi.mbuf, full);
      mbuf := b;
      new;
      TakesOwn(old(rmr.bufs.Keys), old(Holding(world)), this, b);
      assert rmr.bufs.Keys == old(rmr.bufs.Keys) + Of(b);
      assert Holding(world + {this}) == old(Holding(world))[this := b];
    }

    /** The move constructor. */
    constructor Move(rmr: Rmr, soi: Message, ghost world: set<Message>)
      requires Owned(rmr, world) && soi in world
      modifies soi
      ensures Owned(rmr, world + {this}) && mbuf == old(soi.mbuf) && soi.mbuf == None
    {
      hide Sole;
      mbuf := soi.mbuf;
      new;
      soi.mbuf := None;
      TakesOver(rmr.bufs.Keys, old(Holding(world)), this, soi);
      assert Holding(world + {this}) == old(Holding(world))[this := old(soi.mbuf)][soi := None];
    }

    /** Releases what it holds, if anything. */
    method Drop(rmr: Rmr, ghost world: set<Message>)
      requires Owned(rmr, world) && this in world
      modifies this, rmr
      ensures Owned(rmr, world) && Owned(rmr, world - {this}) && mbuf == None
      ensures rmr.next == old(rmr.next) && rmr.sent == old(rmr.sent) && rmr.bufs == old(rmr.bufs) - Of(old(mbuf))
    {
      hide Sole;
      OwnBuffer(rmr, world, this);
      if mbuf.Some? {
        rmr.FreeMsg(mbuf.value);
      }
      mbuf := None;
      GivesUp(old(rmr.bufs.Keys), old(Holding(world)), this);
      assert rmr.bufs == old(rmr.bufs) - Of(old(mbuf));
      assert rmr.bufs.Keys == old(rmr.bufs.Keys) - Of(old(mbuf));
      assert Holding(world) == old(Holding(world))[this := None];
      assert Holding(world - {this}) == old(Holding(world)) - {this};
    }

    /** The copy assignment. */
    method Assign(rmr: Rmr, soi: Message, full: bool, ghost world: set<Message>)
      requires Owned(rmr, world) && soi in world && this in world
      modifies this, rmr
      ensures Owned(rmr, world) && soi.mbuf == old(soi.mbuf) && rmr.sent == old(rmr.sent)
      ensures soi == this ==> rmr.bufs == old(rmr.bufs)
      ensures soi != this ==> IsCopy(rmr, soi, full, old(rmr.next))
      ensures soi != this ==> rmr.bufs.Keys == old(rmr.bufs.Keys) - Of(old(mbuf)) + Of(mbuf)
    {
      hide Sole;
      if soi != this {
        Drop(rmr, world);
        ghost var bufs: set<nat>, holds: map<Message, Option<nat>> := rmr.bufs.Keys, Holding(world);
        assert Sole(bufs, holds) && this in holds && holds[this] == None;
        OwnBuffer(rmr, world, soi);
        var b := rmr.Clone(soi.mbuf, full);
        mbuf := b;
        Swapped<Message>(bufs, holds, this, b);
        assert rmr.bufs.Keys == bufs + Of(b);
        assert bufs + Of(b) == bufs - Of(holds[this]) + Of(b);
        assert Holding(world) == holds[this := b];
      }
    }

    /** The move assignment. */
    method MoveAssign(rmr: Rmr, soi: Message, ghost world: set<Message>)
      requires Owned(rmr, world) && soi in world && this in world
      modifies this, soi, rmr
      ensures Owned(rmr, world) && mbuf == old(soi.mbuf) && (soi != this ==> soi.mbuf == None)
      ensures rmr.bufs == if soi == this then old(rmr.bufs) else old(rmr.bufs) - Of(old(mbuf))
      ensures rmr.sent == old(rmr.sent)
    {
      hide Sole;
      if soi != this {
        Drop(rmr, world);
        ghost var holds: map<Message, Option<nat>>, b := Holding(world), soi.mbuf;
        mbuf := soi.mbuf;
        soi.mbuf := None;
        TakesOver<Message>(rmr.bufs.Keys, holds, this, soi);
        ghost var after: map<Message, Option<nat>> := holds[this := b];
        assert Holding(world) == after[soi := None];
      }
    }

    /** The destructor. */
    method Destroy(rmr: Rmr, ghost world: set<Message>)
      requires Owned(rmr, world) && this in world
      modifies this, rmr
      ensures Owned(rmr, world - {this}) && mbuf == None
      ensures rmr.bufs == old(rmr.bufs) - Of(old(mbuf)) && rmr.sent == old(rmr.sent)
    {
      Drop(rmr, world);
    }

    /** Sending or replying with a message that is set up: its buffer goes to RMR, and what comes back
        is kept. */
    method Resend(rmr: Rmr, kind: SendKind, ghost world: set<Message>) returns (state: bool)
      requires Owned(rmr, world) && this in world
      modifies this, rmr
      ensures Owned(rmr, world) && mbuf.Some? == old(mbuf.Some?)
      ensures state <==> mbuf.Some? && mbuf.value in rmr.bufs && rmr.bufs[mbuf.value].state == RMR_OK
      ensures old(mbuf.None?) ==> rmr.sent == old(rmr.sent)
      ensures old(mbuf.Some?) ==>
        old(mbuf.value in rmr.bufs)
        && rmr.sent == old(rmr.sent) + [Sent(kind, old(mbuf.value), old(rmr.bufs[mbuf.value]))]
    {
      hide Sole;
      OwnBuffer(rmr, world, this);
      state := false;
      if mbuf.Some? {
        var b := rmr.Exchange(kind, mbuf.value);
        mbuf := Some(b);
        Swapped(old(rmr.bufs.Keys), old(Holding(world)), this, Some(b));
        assert Holding(world) == old(Holding(world))[this := Some(b)];
        state := rmr.bufs[b].state == RMR_OK;
      }
    }

    /** The fields that a send sets before anything else. */
    method SetFields(rmr: Rmr, mtype: int, subid: int, len: int, ghost world: set<Message>)
      requires Owned(rmr, world) && this in world && mbuf.Some?
      modifies rmr
      ensures Owned(rmr, world) && rmr.sent == old(rmr.sent) && rmr.next == old(rmr.next)
      ensures old(mbuf.value in rmr.bufs)
      ensures rmr.bufs == old(rmr.bufs)[mbuf.value := SetUp(old(rmr.bufs[mbuf.value]), mtype, subid, len)]
    {
      hide Sole;
      OwnBuffer(rmr, world, this);
      var buf := rmr.bufs[mbuf.value];
      if mtype != NO_CHANGE {
        buf := buf.(mtype := mtype);
      }
      if subid != NO_CHANGE {
        buf := buf.(subid := subid);
      }
      if len != NO_CHANGE {
        buf := buf.(len := len);
      }
      rmr.bufs := rmr.bufs[mbuf.value := buf];
      assert rmr.bufs.Keys == old(rmr.bufs.Keys) && Holding(world) == old(Holding(world));
    }

    /** The send workhorse. Type, subscription and length are set unless they are not to change. With a
        payload the buffer is then grown, and the message is left without one when that fails. Then the
        buffer is sent once, in the way asked for. */
    method Send(rmr: Rmr, mtype: int, subid: int, len: int, payload: bool, kind: SendKind, ghost world: set<Message>)
      returns (state: bool)
      requires Owned(rmr, world) && this in world
      modifies this, rmr
      ensures Owned(rmr, world) && (mbuf.Some? ==> old(mbuf.Some?)) && (old(mbuf.Some?) && !payload ==> mbuf.Some?)
      ensures state <==> mbuf.Some? && mbuf.value in rmr.bufs && rmr.bufs[mbuf.value].state == RMR_OK
      ensures mbuf.None? || kind == Other ==> rmr.sent == old(rmr.sent)
      ensures mbuf.Some? && kind != Other ==>
        |rmr.sent| == |old(rmr.sent)| + 1 && rmr.sent[..|old(rmr.sent)|] == old(rmr.sent)
        && rmr.sent[|old(rmr.sent)|].kind == kind
      ensures mbuf.Some? && kind != Other && !payload ==>
        old(mbuf.value in rmr.bufs)
        && rmr.sent == old(rmr.sent) +
          [Sent(kind, old(mbuf.value), SetUp(old(rmr.bufs[mbuf.value]), mtype, subid, len))]
    {
      hide Sole;
      OwnBuffer(rmr, world, this);
      state := false;
      if mbuf.Some? {
        SetFields(rmr, mtype, subid, len, world);
        ghost var bufs: set<nat>, holds: map<Message, Option<nat>> := rmr.bufs.Keys, Holding(world);
        if payload {
          var b := rmr.Grow(mbuf.value);
          mbuf := b;
          Swapped<Message>(bufs, holds, this, b);
          assert Holding(world) == holds[this := b];
          if mbuf.None? {
            return false;
          }
        }
        OwnBuffer(rmr, world, this);
        if kind == Other {
          state := rmr.bufs[mbuf.value].state == RMR_OK;
        } else {
          state := Resend(rmr, kind, world);
        }
      }
    }
  }

  /** The fields of a buffer once a send has set them; -99 is for one that is not to change. */
  function SetUp(buf: Buf, mtype: int, subid: int, len: int): (r: Buf)
    ensures r.state == buf.state
    ensures mtype == -99 ==> r.mtype == buf.mtype
    ensures mtype != -99 ==> r.mtype == mtype
    ensures subid == -99 ==> r.subid == buf.subid
    ensures subid != -99 ==> r.subid == subid
    ensures len == -99 ==> r.len == buf.len
    ensures len != -99 ==> r.len == len
  {
    Buf(buf.state, if mtype == NO_CHANGE then buf.mtype else mtype, if subid == NO_CHANGE then buf.subid else subid,
        if len == NO_CHANGE then buf.len else len)
  }
}
