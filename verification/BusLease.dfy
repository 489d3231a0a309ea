/** The process bus, drained by one window at a time (launch.rs): a lease takes the receiver
    out of a shared slot and, when dropped, puts it back and wakes one waiting window. The
    wake-up keeps a permit when nobody waits, and passes on when the woken window closes first
    (tokio's Notify; that is how it is taken to behave here). */
module BusLease {

  import opened Wrappers

  /** The shared slot. */
  class Boot<Receiver(==)> {
    var slot: Option<Receiver>

    /** The slot is as the machine below has it. */
    ghost predicate Is(s: State)
      reads this
    {
      slot.Some? == s.full
    }

    constructor (rx: Receiver)
      ensures slot == Some(rx) && Is(INITIAL)
    {
      slot := Some(rx);
    }

    /** A lease is the receiver, taken out of the slot. */
    method Take() returns (lease: Option<Receiver>)
      modifies this
      ensures lease == old(slot) && slot == None
      ensures forall s, w :: old(Is(s)) && Enabled(s, TryTake(w)) ==>
        Is(Next(s, TryTake(w))) && (lease.Some? <==> At(Next(s, TryTake(w)), w, Holding))
    {
      lease := slot;
      slot := None;
    }

    /** The first half of dropping a lease; the second wakes a window. */
    method PutBack(rx: Receiver)
      requires slot == None
      modifies this
      ensures slot == Some(rx)
      ensures forall s, w :: Enabled(s, DropLease(w)) ==> Is(Next(s, DropLease(w)))
    {
      slot := Some(rx);
    }
  }

  /** A window's drain task: about to try for the first time; about to try since it was woken or
      found a permit; holding a lease; about to wait, having found the slot empty; waiting in
      the queue; woken there; dropping its lease, the slot filled and nobody woken yet; or
      closed as it was woken, its wake-up not passed on yet. */
  datatype Phase = Fresh | Retrying | Holding | Deciding | Parked | Woken | Notifying | PassingOn

  /** `full`: the receiver is in the slot. `queue`: the parked windows, first come first. */
  datatype State = State(full: bool, permit: bool, windows: map<nat, Phase>, queue: seq<nat>)

  datatype Step =
    | Open(w: nat)
    | TryTake(w: nat)
    | Wait(w: nat)
    | Resume(w: nat)
    | DropLease(w: nat)
    | Notify(w: nat)
    | Close(w: nat)

  predicate At(s: State, w: nat, p: Phase) { w in s.windows && s.windows[w] == p }

  predicate Enabled(s: State, step: Step)
  {
    match step
    case Open(w) => w !in s.windows
    case TryTake(w) => At(s, w, Fresh) || At(s, w, Retrying)
    case Wait(w) => At(s, w, Deciding)
    case Resume(w) => At(s, w, Woken)
    case DropLease(w) => At(s, w, Holding)
    case Notify(w) => At(s, w, Notifying) || At(s, w, PassingOn)
    // A task is dropped where it awaits or has not begun; a holder by DropLease.
    case Close(w) => At(s, w, Fresh) || At(s, w, Parked) || At(s, w, Woken)
  }

  function Without(queue: seq<nat>, w: nat): seq<nat>
  {
    if queue == [] then [] else if queue[0] == w then queue[1..] else [queue[0]] + Without(queue[1..], w)
  }

  function Next(s: State, step: Step): State
    requires Enabled(s, step)
  {
    match step
    case Open(w) => s.(windows := s.windows[w := Fresh])
    case TryTake(w) =>
      if s.full then s.(full := false, windows := s.windows[w := Holding]) else s.(windows := s.windows[w := Deciding])
    case Wait(w) =>
      if s.permit then s.(permit := false, windows := s.windows[w := Retrying])
      else s.(windows := s.windows[w := Parked], queue := s.queue + [w])
    case Resume(w) => s.(windows := s.windows[w := Retrying])
    case DropLease(w) => s.(full := true, windows := s.windows[w := Notifying])
    case Notify(w) =>
      var rest := s.(windows := s.windows - {w});
      if s.queue != [] && s.queue[0] in rest.windows
      then rest.(windows := rest.windows[s.queue[0] := Woken], queue := s.queue[1..])
      else rest.(permit := true)
    case Close(w) =>
      if At(s, w, Woken) then s.(windows := s.windows[w := PassingOn])
      else s.(windows := s.windows - {w}, queue := Without(s.queue, w))
  }

  ghost predicate SomeoneHolds(s: State) { exists w :: At(s, w, Holding) }

  /** The receiver is in the slot or in exactly one lease. */
  ghost predicate OneReceiver(s: State)
  {
    && (s.full <==> !SomeoneHolds(s))
    && (forall v, w :: At(s, v, Holding) && At(s, w, Holding) ==> v == w)
  }

  /** The queue lists the parked windows, each once. */
  ghost predicate QueueFits(s: State)
  {
    && (forall w :: At(s, w, Parked) <==> w in s.queue)
    && (forall i, j :: 0 <= i < j < |s.queue| ==> s.queue[i] != s.queue[j])
  }

  /** A window that waits for the bus, or has decided to. */
  predicate Waits(s: State, w: nat) { w in s.windows && s.windows[w] in {Parked, Deciding} }

  /** A window that is giving a wake-up, or was given one and has not used it yet. */
  predicate Carries(s: State, w: nat) { w in s.windows && s.windows[w] in {Notifying, PassingOn, Woken, Retrying} }

  /** A wake-up is on its way. */
  ghost predicate WakeUpPending(s: State) { s.permit || exists w :: Carries(s, w) }

  ghost predicate SomeoneWaits(s: State) { exists w :: Waits(s, w) }

  ghost predicate Inv(s: State)
  {
    && OneReceiver(s)
    && QueueFits(s)
    && (s.permit ==> s.queue == [])
    && (s.full && SomeoneWaits(s) ==> WakeUpPending(s))
  }

  const INITIAL := State(true, false, map[], [])

  lemma {:induction false} WithoutIs(queue: seq<nat>, w: nat)
    requires forall i, j :: 0 <= i < j < |queue| ==> queue[i] != queue[j]
    ensures forall v :: v in Without(queue, w) <==> v in queue && v != w
    ensures forall i, j :: 0 <= i < j < |Without(queue, w)| ==> Without(queue, w)[i] != Without(queue, w)[j]
  {
    if queue != [] {
      assert queue == [queue[0]] + queue[1..];
      WithoutIs(queue[1..], w);
      if queue[0] != w {
        var rest := Without(queue[1..], w);
        forall i, j | 0 <= i < j < |Without(queue, w)|
          ensures Without(queue, w)[i] != Without(queue, w)[j]
        {
          assert Without(queue, w)[j] == rest[j - 1];
          assert rest[j - 1] in rest;
        }
      }
    }
  }

  lemma MoveKeepsReceiver(s: State, step: Step)
    requires Inv(s) && Enabled(s, step)
    ensures OneReceiver(Next(s, step))
  {
    var s' := Next(s, step);
    forall w | At(s', w, Holding)
      ensures At(s, w, Holding) || (step == TryTake(w) && s.full)
    {
    }
    if s'.full {
      if step.DropLease? {
        assert At(s, step.w, Holding);
      }
    } else if s.full {
      assert At(s', step.w, Holding);
    } else {
      var h :| At(s, h, Holding);
      if step.Notify? && s.queue != [] {
        assert s.queue[0] in s.queue && At(s, s.queue[0], Parked);
      }
      assert At(s', h, Holding);
    }
  }

  lemma MoveKeepsQueue(s: State, step: Step)
    requires Inv(s) && Enabled(s, step)
    ensures QueueFits(Next(s, step)) && (Next(s, step).permit ==> Next(s, step).queue == [])
  {
    var s' := Next(s, step);
    match step
    case Wait(w) =>
      assert !At(s, w, Parked);
      ParkedFollow(s, s', w);
    case Notify(w) =>
      assert !At(s, w, Parked);
      if s.queue != [] {
        var first := s.queue[0];
        assert first in s.queue && At(s, first, Parked);
        assert s.queue == [first] + s.queue[1..];
        assert first !in s.queue[1..];
        forall v
          ensures At(s', v, Parked) <==> v in s'.queue
        {
          assert At(s, v, Parked) <==> v in s.queue;
        }
      } else {
        ParkedFollow(s, s', w);
      }
    case Close(w) =>
      WithoutIs(s.queue, w);
      assert At(s, w, Woken) ==> !At(s, w, Parked);
      ParkedFollow(s, s', w);
    case _ =>
      assert !At(s, step.w, Parked);
      ParkedFollow(s, s', step.w);
  }

  /** The queue follows one window's move. */
  lemma ParkedFollow(s: State, s': State, w: nat)
    requires QueueFits(s)
    requires forall v :: v != w ==>
               (v in s.windows <==> v in s'.windows) && (v in s.windows ==> s'.windows[v] == s.windows[v])
    requires forall v :: v != w ==> (v in s.queue <==> v in s'.queue)
    requires At(s', w, Parked) <==> w in s'.queue
    ensures forall v :: At(s', v, Parked) <==> v in s'.queue
  {
    forall v
      ensures At(s', v, Parked) <==> v in s'.queue
    {
      assert At(s, v, Parked) <==> v in s.queue;
    }
  }

  /** A wake-up on its way stays so until the slot is emptied or nobody is left waiting. */
  lemma MoveKeepsWakeUp(s: State, step: Step)
    requires Inv(s) && Enabled(s, step)
    ensures Next(s, step).full && SomeoneWaits(Next(s, step)) ==> WakeUpPending(Next(s, step))
  {
    var s' := Next(s, step);
    if s'.full && SomeoneWaits(s') {
      match step
      case DropLease(w) => assert Carries(s', w);
      case Notify(w) =>
        if !s'.permit {
          assert Carries(s', s.queue[0]);
        }
      case Wait(w) =>
        assert Waits(s, w);
        if s.permit {
          assert Carries(s', w);
        } else {
          OtherPending(s, s', w);
        }
      case Resume(w) => assert Carries(s', w);
      case _ =>
        if Carries(s', step.w) {
        } else {
          SomeoneWaited(s, s', step.w);
          OtherPending(s, s', step.w);
        }
    }
  }

  /** A move of a window that carried no wake-up leaves every wake-up there was. */
  lemma OtherPending(s: State, s': State, w: nat)
    requires WakeUpPending(s) && s'.permit == s.permit
    requires forall v :: v != w && v in s.windows ==> v in s'.windows && s'.windows[v] == s.windows[v]
    requires !Carries(s, w)
    ensures WakeUpPending(s')
  {
    if !s.permit {
      var v :| Carries(s, v);
      assert Carries(s', v);
    }
  }

  lemma SomeoneWaited(s: State, s': State, w: nat)
    requires SomeoneWaits(s') && !Waits(s', w)
    requires forall v :: v != w && v in s'.windows ==> v in s.windows && s'.windows[v] == s.windows[v]
    ensures SomeoneWaits(s)
  {
    var v :| Waits(s', v);
    assert Waits(s, v);
  }

  lemma NextKeepsInv(s: State, step: Step)
    requires Inv(s) && Enabled(s, step)
    ensures Inv(Next(s, step))
  {
    MoveKeepsReceiver(s, step);
    MoveKeepsQueue(s, step);
    MoveKeepsWakeUp(s, step);
  }

  ghost predicate IsRun(states: seq<State>, steps: seq<Step>)
  {
    && |states| == |steps| + 1
    && states[0] == INITIAL
    && forall i :: 0 <= i < |steps| ==> Enabled(states[i], steps[i]) && states[i + 1] == Next(states[i], steps[i])
  }

  /** In every run the receiver is in the slot or in exactly one lease, and whenever it is in
      the slot while a window waits, a wake-up is on its way. */
  lemma {:induction false} BusIsNeverLost(states: seq<State>, steps: seq<Step>)
    requires IsRun(states, steps)
    ensures Inv(states[|steps|])
    decreases |steps|
  {
    var last := |steps|;
    if last == 0 {
      assert forall w :: !At(INITIAL, w, Holding) && !Waits(INITIAL, w);
    } else {
      BusIsNeverLost(states[..last], steps[..last - 1]);
      NextKeepsInv(states[last - 1], steps[last - 1]);
    }
  }

  /** No window has a move of its own left. */
  predicate Quiet(s: State) { forall w <- s.windows :: s.windows[w] == Holding || s.windows[w] == Parked }

  /** When everything has settled and a window is open, one window drains the bus. */
  lemma QuietBusIsDrained(s: State)
    requires Inv(s) && Quiet(s) && s.windows != map[]
    ensures !s.full && exists w :: At(s, w, Holding)
  {
    assert s.windows.Keys != {};
    var w :| w in s.windows.Keys;
    assert At(s, w, Holding) || At(s, w, Parked);
    assert At(s, w, Parked) ==> Waits(s, w) && w in s.queue;
    assert !exists v :: Carries(s, v);
  }
}
