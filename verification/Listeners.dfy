/** Xapp::Run and Halt: n listeners on one messenger, their steps interleaved in any way. */
module Listeners {
  import opened Lookup
  import opened MessengerClass

  /** Where a listener is: not started, at the loop's test, inside the receive, holding a message,
      inside a callback, or returned. */
  datatype Phase = Idle | Test | Receiving | Holding(mtype: int) | Driving(cb: Callback) | Ended

  /** A listener, with the types it received and what it drove for them, and how many receives it
      finished and callbacks it started since Halt. */
  datatype Thread = Thread(phase: Phase, got: seq<int>, drove: seq<Option<Callback>>, lateGets: nat, lateCalls: nat)

  /** Run in the calling thread: starting the others, listening itself, waiting for them, returned. */
  datatype Main = Starting(i: nat) | Listening | Joining(j: nat) | Returned

  /** The last of the listeners is the calling thread. The callbacks are registered before Run. */
  datatype State = State(cbHash: map<int, Callback>, callbacks: bool, ok2Run: bool, main: Main, ths: seq<Thread>)

  datatype Act = Start | Look(t: nat) | Receive(t: nat, arrival: Arrival)
    | Choose(t: nat) | Finish(t: nat) | Join | Halt

  predicate Init(s: State) {
    && s.ths != [] && s.ok2Run && s.main == Starting(0)
    && forall t :: 0 <= t < |s.ths| ==> s.ths[t] == Thread(Idle, [], [], 0, 0)
  }

  predicate Can(s: State, a: Act)
    requires s.ths != []
  {
    match a
    case Start => s.main.Starting? && s.main.i < |s.ths|
    case Look(t) => t < |s.ths| && s.ths[t].phase == Test
    case Receive(t, _) => t < |s.ths| && s.ths[t].phase == Receiving
    case Choose(t) => t < |s.ths| && s.ths[t].phase.Holding?
    case Finish(t) => t < |s.ths| && s.ths[t].phase.Driving?
    case Join =>
      || (s.main == Listening && s.ths[|s.ths| - 1].phase == Ended)
      || (s.main.Joining? && (s.main.j < |s.ths| - 1 ==> s.ths[s.main.j].phase == Ended))
    case Halt => true
  }

  function With(s: State, t: nat, th: Thread): State
    requires t < |s.ths|
  {
    s.(ths := s.ths[t := th])
  }

  function Step(s: State, a: Act): State
    requires s.ths != [] && Can(s, a)
  {
    match a
    case Start =>
      var i := s.main.i;
      With(s, i, s.ths[i].(phase := Test)).(main := if i == |s.ths| - 1 then Listening else Starting(i + 1))
    case Look(t) => With(s, t, s.ths[t].(phase := if s.ok2Run then Receiving else Ended))
    case Receive(t, arrival) =>
      var th := s.ths[t].(lateGets := s.ths[t].lateGets + if s.ok2Run then 0 else 1);
      With(s, t, if arrival.Good? then th.(phase := Holding(arrival.mtype), got := th.got + [arrival.mtype])
                 else th.(phase := Test))
    case Choose(t) =>
      var cb := Chosen(s.cbHash, s.callbacks, s.ths[t].phase.mtype);
      var th := s.ths[t].(drove := s.ths[t].drove + [cb]);
      With(s, t, if cb.Some? then th.(phase := Driving(cb.value), lateCalls := th.lateCalls + if s.ok2Run then 0 else 1)
                 else th.(phase := Test))
    case Finish(t) => With(s, t, s.ths[t].(phase := Test))
    case Join =>
      if s.main == Listening then s.(main := Joining(0))
      else if s.main.j < |s.ths| - 1 then s.(main := Joining(s.main.j + 1))
      else s.(main := Returned)
    case Halt => s.(ok2Run := false)
  }

  // ----- what every interleaving keeps

  /** What a listener drove is what it should have driven, message by message; only a message still in
      its hands is missing. */
  predicate Dispatched(s: State, th: Thread) {
    && |th.drove| == |th.got| - (if th.phase.Holding? then 1 else 0)
    && (forall k :: 0 <= k < |th.drove| ==> th.drove[k] == Chosen(s.cbHash, s.callbacks, th.got[k]))
    && (th.phase.Holding? ==> th.got[|th.got| - 1] == th.phase.mtype)
  }

  /** After Halt a listener finishes at most one receive and starts at most one callback. */
  predicate Punctual(s: State, th: Thread) {
    && th.lateGets <= 1 && th.lateCalls <= 1
    && (s.ok2Run ==> th.lateGets == 0 && th.lateCalls == 0)
    && (th.phase.Idle? || th.phase.Receiving? ==> th.lateGets == 0 && th.lateCalls == 0)
    && (th.phase.Holding? ==> th.lateCalls == 0)
  }

  /** A thread is idle until it is started, and only ended ones are joined. */
  predicate Managed(s: State) {
    match s.main
    case Starting(i) => i < |s.ths| && forall t :: 0 <= t < |s.ths| ==> (s.ths[t].phase == Idle <==> t >= i)
    case Listening => forall t :: 0 <= t < |s.ths| ==> s.ths[t].phase != Idle
    case Joining(j) =>
      && j <= |s.ths| - 1 && s.ths[|s.ths| - 1].phase == Ended
      && (forall t :: 0 <= t < |s.ths| ==> s.ths[t].phase != Idle)
      && forall t :: 0 <= t < j ==> s.ths[t].phase == Ended
    case Returned => forall t :: 0 <= t < |s.ths| ==> s.ths[t].phase == Ended
  }

  predicate Inv(s: State) {
    && s.ths != [] && Managed(s)
    && forall t :: 0 <= t < |s.ths| ==> Dispatched(s, s.ths[t]) && Punctual(s, s.ths[t])
  }

  lemma StepInv(s: State, a: Act)
    requires Inv(s) && Can(s, a)
    ensures Inv(Step(s, a))
  {
    StepManaged(s, a);
    var s' := Step(s, a);
    forall t | 0 <= t < |s'.ths| ensures Dispatched(s', s'.ths[t]) && Punctual(s', s'.ths[t]) {
      StepThread(s, a, t);
    }
  }

  lemma StepManaged(s: State, a: Act)
    requires Inv(s) && Can(s, a)
    ensures Managed(Step(s, a)) && |Step(s, a).ths| == |s.ths|
  {
    hide Dispatched, Punctual, Chosen;
    if a.Start? {
      Started(s);
    } else if !a.Join? && !a.Halt? {
      Moved(s, a.t, Step(s, a).ths[a.t]);
    }
  }

  lemma Started(s: State)
    requires s.ths != [] && Managed(s) && Can(s, Start)
    ensures Managed(Step(s, Start))
  {
  }

  /** A listener that is running takes a step. */
  lemma Moved(s: State, t: nat, th: Thread)
    requires Managed(s) && t < |s.ths| && s.ths[t].phase != Idle && s.ths[t].phase != Ended && th.phase != Idle
    ensures Managed(With(s, t, th))
  {
  }

  lemma StepThread(s: State, a: Act, t: nat)
    requires Inv(s) && Can(s, a) && t < |s.ths|
    ensures |Step(s, a).ths| == |s.ths| && Dispatched(Step(s, a), Step(s, a).ths[t])
    ensures Punctual(Step(s, a), Step(s, a).ths[t])
  {
    assert Dispatched(s, s.ths[t]) && Punctual(s, s.ths[t]);
    if Step(s, a).ths[t] != s.ths[t] {
      OwnStep(s, a, t);
    }
  }

  lemma OwnStep(s: State, a: Act, t: nat)
    requires s.ths != [] && Managed(s) && Can(s, a) && t < |s.ths| && Step(s, a).ths[t] != s.ths[t]
    requires Dispatched(s, s.ths[t]) && Punctual(s, s.ths[t])
    ensures Dispatched(Step(s, a), Step(s, a).ths[t]) && Punctual(Step(s, a), Step(s, a).ths[t])
  {
    hide Chosen, Dispatched, Punctual;
    OwnDispatched(s, a, t);
    OwnPunctual(s, a, t);
  }

  lemma OwnDispatched(s: State, a: Act, t: nat)
    requires s.ths != [] && Managed(s) && Can(s, a) && t < |s.ths| && Step(s, a).ths[t] != s.ths[t]
    requires Dispatched(s, s.ths[t])
    ensures Dispatched(Step(s, a), Step(s, a).ths[t])
  {
    hide Chosen;
  }

  lemma OwnPunctual(s: State, a: Act, t: nat)
    requires s.ths != [] && Managed(s) && Can(s, a) && t < |s.ths| && Step(s, a).ths[t] != s.ths[t]
    requires Punctual(s, s.ths[t])
    ensures Punctual(Step(s, a), Step(s, a).ths[t])
  {
    hide Chosen;
  }

  predicate CanAll(s: State, acts: seq<Act>)
    decreases |acts|
  {
    acts == [] || (s.ths != [] && Can(s, acts[0]) && Step(s, acts[0]).ths != [] && CanAll(Step(s, acts[0]), acts[1..]))
  }

  function DoAll(s: State, acts: seq<Act>): State
    requires CanAll(s, acts)
    decreases |acts|
  {
    if acts == [] then s else DoAll(Step(s, acts[0]), acts[1..])
  }

  lemma {:induction false} AllInv(s: State, acts: seq<Act>)
    requires Inv(s) && CanAll(s, acts)
    ensures Inv(DoAll(s, acts))
    decreases |acts|
  {
    hide Inv, Can, Step;
    if acts != [] {
      StepInv(s, acts[0]);
      AllInv(Step(s, acts[0]), acts[1..]);
    }
  }

  /** For every interleaving of n listeners: each message drove just the callback for its type or the
      default one, or was dropped when there is neither; each listener does at most one receive and
      one callback after Halt; and when Run has returned all of them have. */
  lemma EveryInterleaving(s: State, acts: seq<Act>)
    requires Init(s) && CanAll(s, acts)
    ensures var r := DoAll(s, acts);
      && |r.ths| == |s.ths| && r.cbHash == s.cbHash && r.callbacks == s.callbacks
      && (forall t :: 0 <= t < |r.ths| ==> Dispatched(r, r.ths[t]) && r.ths[t].lateGets <= 1 && r.ths[t].lateCalls <= 1)
      && (r.main == Returned ==> forall t :: 0 <= t < |r.ths| ==> r.ths[t].phase == Ended)
    ensures var r := DoAll(s, acts);
      forall t, k :: 0 <= t < |r.ths| && 0 <= k < |r.ths[t].drove| ==>
        k < |r.ths[t].got| &&
        r.ths[t].drove[k] ==
          if s.callbacks && r.ths[t].got[k] in s.cbHash then Some(s.cbHash[r.ths[t].got[k]])
          else if DEFAULT_CALLBACK in s.cbHash then Some(s.cbHash[DEFAULT_CALLBACK])
          else None
    ensures forall t :: 0 <= t < |s.ths| ==> DoAll(s, acts).ths[t].got == Arrived(acts, t)
  {
    AllInv(s, acts);
    AllSame(s, acts);
    var r := DoAll(s, acts);
    forall t: nat | t < |s.ths| ensures r.ths[t].got == Arrived(acts, t) {
      AllGot(s, acts, t);
      assert [] + Arrived(acts, t) == Arrived(acts, t);
    }
    forall t | 0 <= t < |r.ths| ensures Dispatched(r, r.ths[t]) && r.ths[t].lateGets <= 1 && r.ths[t].lateCalls <= 1 {
      assert Punctual(r, r.ths[t]);
    }
  }

  lemma {:induction false} AllSame(s: State, acts: seq<Act>)
    requires CanAll(s, acts)
    ensures var r := DoAll(s, acts); |r.ths| == |s.ths| && r.cbHash == s.cbHash && r.callbacks == s.callbacks
    ensures !s.ok2Run ==> !DoAll(s, acts).ok2Run
    decreases |acts|
  {
    if acts != [] {
      AllSame(Step(s, acts[0]), acts[1..]);
    }
  }

  /** The types of the messages that listener `t` received, by the steps alone. */
  function Arrived(acts: seq<Act>, t: nat): seq<int>
    decreases |acts|
  {
    if acts == [] then []
    else if acts[0].Receive? && acts[0].t == t && acts[0].arrival.Good?
    then [acts[0].arrival.mtype] + Arrived(acts[1..], t)
    else Arrived(acts[1..], t)
  }

  lemma {:induction false} AllGot(s: State, acts: seq<Act>, t: nat)
    requires CanAll(s, acts) && t < |s.ths|
    ensures |DoAll(s, acts).ths| == |s.ths| && DoAll(s, acts).ths[t].got == s.ths[t].got + Arrived(acts, t)
    decreases |acts|
  {
    hide Chosen;
    if acts != [] {
      AllGot(Step(s, acts[0]), acts[1..], t);
    }
  }

  /** How many steps of a kind listener `t` takes. */
  function Receives(acts: seq<Act>, t: nat): nat
    decreases |acts|
  {
    if acts == [] then 0 else Receives(acts[1..], t) + if acts[0].Receive? && acts[0].t == t then 1 else 0
  }

  function Dispatches(acts: seq<Act>, t: nat): nat
    decreases |acts|
  {
    if acts == [] then 0 else Dispatches(acts[1..], t) + if acts[0] == Choose(t) then 1 else 0
  }

  /** Counted by the steps: after Halt every listener finishes at most one receive, and only one that was
      under way, and picks a callback for at most one message. */
  lemma AfterHalt(s: State, before: seq<Act>, after: seq<Act>, t: nat)
    requires Init(s) && CanAll(s, before) && Halt in before && CanAll(DoAll(s, before), after) && t < |s.ths|
    ensures Receives(after, t) <= 1 && Dispatches(after, t) <= 1
    ensures |DoAll(s, before).ths| == |s.ths|
    ensures !DoAll(s, before).ths[t].phase.Receiving? ==> Receives(after, t) == 0
  {
    HaltLowers(s, before);
    AllSame(s, before);
    FewLeft(DoAll(s, before), after, t);
  }

  lemma {:induction false} HaltLowers(s: State, acts: seq<Act>)
    requires CanAll(s, acts) && Halt in acts
    ensures !DoAll(s, acts).ok2Run
    decreases |acts|
  {
    if acts[0] == Halt {
      AllSame(Step(s, acts[0]), acts[1..]);
    } else {
      HaltLowers(Step(s, acts[0]), acts[1..]);
    }
  }

  lemma {:induction false} FewLeft(s: State, acts: seq<Act>, t: nat)
    requires CanAll(s, acts) && !s.ok2Run && t < |s.ths|
    ensures Receives(acts, t) <= if s.ths[t].phase.Receiving? then 1 else 0
    ensures Dispatches(acts, t) <= if s.ths[t].phase.Receiving? || s.ths[t].phase.Holding? then 1 else 0
    decreases |acts|
  {
    hide Chosen;
    if acts != [] {
      var s' := Step(s, acts[0]);
      assert !s'.ok2Run && |s'.ths| == |s.ths|;
      FewLeft(s', acts[1..], t);
    }
  }

  // ----- after Halt everything comes to an end

  function Rank(p: Phase): nat {
    match p
    case Ended => 0
    case Test => 1
    case Driving(_) => 2
    case Holding(_) => 3
    case Receiving => 4
    case Idle => 2
  }

  function Ranks(ths: seq<Thread>): nat {
    if ths == [] then 0 else Ranks(ths[..|ths| - 1]) + Rank(ths[|ths| - 1].phase)
  }

  /** How many steps are left at most. */
  function Left(s: State): nat {
    Ranks(s.ths) + match s.main
                   case Starting(_) => |s.ths| + 2
                   case Listening => |s.ths| + 1
                   case Joining(j) => if j < |s.ths| then |s.ths| - j else 0
                   case Returned => 0
  }

  lemma {:induction false} RanksUpdate(ths: seq<Thread>, t: nat, th: Thread)
    requires t < |ths|
    ensures Ranks(ths[t := th]) == Ranks(ths) - Rank(ths[t].phase) + Rank(th.phase)
    decreases |ths|
  {
    var n := |ths| - 1;
    if t == n {
      assert ths[t := th][..n] == ths[..n];
    } else {
      assert ths[t := th][..n] == ths[..n][t := th];
      RanksUpdate(ths[..n], t, th);
    }
  }

  lemma StepCloser(s: State, a: Act)
    requires Inv(s) && Can(s, a) && !s.ok2Run && a != Halt
    ensures Left(Step(s, a)) < Left(s)
  {
    hide Dispatched, Punctual, Chosen, Ranks;
    if a.Start? {
      RanksUpdate(s.ths, s.main.i, s.ths[s.main.i].(phase := Test));
    } else if !a.Join? {
      OwnCloser(s, a);
      RanksUpdate(s.ths, a.t, Step(s, a).ths[a.t]);
    }
  }

  lemma OwnCloser(s: State, a: Act)
    requires s.ths != [] && Can(s, a) && !s.ok2Run && a != Halt && !a.Start? && !a.Join?
    ensures Rank(Step(s, a).ths[a.t].phase) < Rank(s.ths[a.t].phase)
    ensures Step(s, a) == With(s, a.t, Step(s, a).ths[a.t])
  {
    hide Chosen;
  }

  /** Some listener or Run itself can always take a step until Run has returned. */
  lemma NotStuck(s: State) returns (a: Act)
    requires Inv(s) && s.main != Returned
    ensures a != Halt && Can(s, a)
  {
    match s.main {
      case Starting(_) => a := Start;
      case Listening => a := NextOf(s, |s.ths| - 1);
      case Joining(j) => a := if j < |s.ths| - 1 then NextOf(s, j) else Join;
    }
  }

  function NextOf(s: State, t: nat): (a: Act)
    requires Inv(s) && t < |s.ths|
    requires ((s.main == Listening && t == |s.ths| - 1) || (s.main == Joining(t) && t < |s.ths| - 1))
    ensures a != Halt && Can(s, a)
  {
    match s.ths[t].phase
    case Test => Look(t)
    case Receiving => Receive(t, Nothing)
    case Holding(_) => Choose(t)
    case Driving(_) => Finish(t)
    case _ => Join
  }

  lemma Populated(s: State)
    requires Inv(s)
    ensures s.ths != []
  {
  }

  /** After Halt, a run takes at most `Left` more steps, and it can go on until Run has returned: so
      Run returns however the listeners are scheduled. */
  lemma {:induction false} HaltReturns(s: State, acts: seq<Act>)
    requires Inv(s) && !s.ok2Run && CanAll(s, acts) && forall k :: 0 <= k < |acts| ==> acts[k] != Halt
    ensures |acts| + Left(DoAll(s, acts)) <= Left(s)
    ensures var r := DoAll(s, acts); r.ths != [] && (r.main == Returned || exists a :: a != Halt && Can(r, a))
    decreases |acts|
  {
    hide Inv, Left, Can;
    Populated(s);
    if acts == [] {
      if s.main != Returned {
        var a := NotStuck(s);
      }
    } else {
      StepInv(s, acts[0]);
      StepCloser(s, acts[0]);
      HaltReturns(Step(s, acts[0]), acts[1..]);
    }
  }
}
