/** Opening files into a window whose session may still be booting (session_boot.rs): registered
    when it is ready, queued while it boots, dropped when it has failed. Steps are cut where
    the code awaits; packages, folders and SQLite files, which go elsewhere, are left out. */
module OpenQueue {

  datatype Slot = Booting | Ready | Failed

  datatype Route = Register | Queue | Discard

  function RouteOf(slot: Slot): Route
  {
    match slot case Ready => Register case Booting => Queue case Failed => Discard
  }

  /** One path in one request to open it. */
  datatype Request = Request(id: nat)

  /** `batches` are being registered; `lost` is what was dropped, and `asked` every request, in
      order. `landing` holds between the slot's becoming ready and the queue's being taken. */
  datatype State = State(slot: Slot, landing: bool, queue: seq<Request>, batches: seq<seq<Request>>,
                         tabs: seq<Request>, lost: seq<Request>, asked: seq<Request>)

  class Window {
    var slot: Slot
    var queue: seq<Request>
    var batches: seq<seq<Request>>
    var tabs: seq<Request>

    /** The window is where the machine below is. */
    ghost predicate Is(s: State)
      reads this
    {
      slot == s.slot && queue == s.queue && batches == s.batches && tabs == s.tabs
    }

    /** A window opens booting, on the paths it was launched with. */
    constructor (launch: seq<Request>)
      ensures Is(Start(launch)) && slot == Booting && queue == launch && batches == [] && tabs == []
    {
      slot, queue, batches, tabs := Booting, launch, [], [];
    }

    /** Where the paths go is decided at once; registering them takes its time. */
    method OpenPaths(paths: seq<Request>)
      modifies this
      ensures slot == old(slot) && tabs == old(tabs)
      ensures queue == if paths != [] && RouteOf(slot).Queue? then old(queue) + paths else old(queue)
      ensures batches == if paths != [] && RouteOf(slot).Register? then old(batches) + [paths] else old(batches)
      ensures forall s :: old(Is(s)) && Enabled(s, Open(paths)) ==> Is(Next(s, Open(paths)))
    {
      if paths == [] {
        return;
      }
      match RouteOf(slot) {
        case Register => batches := batches + [paths];
        case Queue => queue := queue + paths;
        case Discard =>
      }
    }

    /** One batch is read: its files get their tabs, in order. */
    method Registered(b: nat)
      requires b < |batches|
      modifies this
      ensures slot == old(slot) && queue == old(queue)
      ensures batches == old(batches)[..b] + old(batches)[b + 1..] && tabs == old(tabs) + old(batches)[b]
      ensures forall s :: old(Is(s)) && Enabled(s, Finish(b)) ==> Is(Next(s, Finish(b)))
    {
      for i := 0 to |batches[b]|
        invariant slot == old(slot) && queue == old(queue) && batches == old(batches)
        invariant tabs == old(tabs) + batches[b][..i]
      {
        tabs := tabs + [batches[b][i]];
      }
      assert batches[b][..|batches[b]|] == batches[b];
      batches := batches[..b] + batches[b + 1..];
    }

    /** The session is there: publish it, then open what was queued, in one batch. */
    method Land()
      modifies this
      ensures slot == Ready && queue == [] && tabs == old(tabs)
      ensures batches == if old(queue) == [] then old(batches) else old(batches) + [old(queue)]
      ensures forall s :: old(Is(s)) && Enabled(s, PublishReady) ==> Is(Next(Next(s, PublishReady), TakeQueue))
    {
      slot := Ready;
      var queued := queue;
      queue := [];
      OpenPaths(queued);
    }

    /** The session could not be built: what was queued is dropped. */
    method LandFailure()
      modifies this
      ensures slot == Failed && queue == [] && tabs == old(tabs) && batches == old(batches)
      ensures forall s :: old(Is(s)) && Enabled(s, Event.LandFailure) ==> Is(Next(s, Event.LandFailure))
    {
      slot := Failed;
      queue := [];
    }

    /** Build again, which only a failed window can. */
    method Retry()
      modifies this`slot
      ensures slot == if old(slot).Failed? then Booting else old(slot)
      ensures forall s :: old(Is(s)) && Enabled(s, Event.Retry) ==> Is(Next(s, Event.Retry))
    {
      if slot.Failed? {
        slot := Booting;
      }
    }
  }

  // ---- the window over time

  datatype Event =
    | Open(paths: seq<Request>)
    | PublishReady
    | TakeQueue
    | LandFailure
    | Finish(batch: nat)
    | Retry

  /** A build ends only a boot; the queue is taken where the session is published; a request is
      new. */
  predicate Enabled(s: State, ev: Event)
  {
    match ev
    case Open(paths) => !s.landing && Distinct(s.asked + paths)
    case PublishReady => s.slot.Booting? && !s.landing
    case TakeQueue => s.landing
    case LandFailure => s.slot.Booting? && !s.landing
    case Finish(b) => !s.landing && b < |s.batches|
    case Retry => s.slot.Failed? && !s.landing
  }

  predicate Distinct(q: seq<Request>) { forall i, j :: 0 <= i < j < |q| ==> q[i] != q[j] }

  function WithBatch(batches: seq<seq<Request>>, paths: seq<Request>): seq<seq<Request>>
  {
    if paths == [] then batches else batches + [paths]
  }

  function Next(s: State, ev: Event): State
    requires Enabled(s, ev)
  {
    match ev
    case Open(paths) =>
      var s' := s.(asked := s.asked + paths);
      (match RouteOf(s.slot)
       case Register => s'.(batches := WithBatch(s.batches, paths))
       case Queue => s'.(queue := s.queue + paths)
       case Discard => s'.(lost := s.lost + paths))
    case PublishReady => s.(slot := Ready, landing := true)
    case TakeQueue => s.(landing := false, queue := [], batches := WithBatch(s.batches, s.queue))
    case LandFailure => s.(slot := Failed, lost := s.lost + s.queue, queue := [])
    case Finish(b) => s.(batches := s.batches[..b] + s.batches[b + 1..], tabs := s.tabs + s.batches[b])
    case Retry => s.(slot := Booting)
  }

  function Flat(batches: seq<seq<Request>>): seq<Request>
  {
    if batches == [] then [] else Flat(batches[..|batches| - 1]) + batches[|batches| - 1]
  }

  lemma FlatSnoc(batches: seq<seq<Request>>, batch: seq<Request>)
    ensures multiset(Flat(batches + [batch])) == multiset(Flat(batches)) + multiset(batch)
  {
    assert (batches + [batch])[..|batches|] == batches;
  }

  lemma {:induction false} FlatBoth(a: seq<seq<Request>>, b: seq<seq<Request>>)
    ensures multiset(Flat(a + b)) == multiset(Flat(a)) + multiset(Flat(b))
  {
    if b == [] {
      assert a + b == a;
    } else {
      var init, last := b[..|b| - 1], b[|b| - 1];
      assert b == init + [last];
      assert a + b == (a + init) + [last];
      FlatBoth(a, init);
      FlatSnoc(a + init, last);
      FlatSnoc(init, last);
    }
  }

  lemma FlatAround(before: seq<seq<Request>>, batch: seq<Request>, after: seq<seq<Request>>)
    ensures multiset(Flat(before + [batch] + after)) == multiset(Flat(before + after)) + multiset(batch)
  {
    FlatBoth(before + [batch], after);
    FlatSnoc(before, batch);
    FlatBoth(before, after);
  }

  lemma FlatTake(batches: seq<seq<Request>>, b: nat)
    requires b < |batches|
    ensures multiset(Flat(batches)) == multiset(Flat(batches[..b] + batches[b + 1..])) + multiset(batches[b])
  {
    Parts(batches, b);
    var before, batch, after := batches[..b], batches[b], batches[b + 1..];
    FlatAround(before, batch, after);
  }

  lemma Parts<T>(xs: seq<T>, k: nat)
    requires k < |xs|
    ensures xs == xs[..k] + [xs[k]] + xs[k + 1..]
  {
  }

  /** Where every request is. */
  function Everywhere(s: State): multiset<Request>
  {
    multiset(s.queue) + multiset(Flat(s.batches)) + multiset(s.tabs) + multiset(s.lost)
  }

  /** `a` is the end of `b`. */
  predicate EndOf(a: seq<Request>, b: seq<Request>) { |a| <= |b| && b[|b| - |a|..] == a }

  ghost predicate Inv(s: State)
  {
    && multiset(s.asked) == Everywhere(s)
    && Distinct(s.asked)
    && (s.queue != [] ==> s.slot.Booting? || s.landing)
    && (s.landing ==> s.slot.Ready?)
    && EndOf(s.queue, s.asked)
  }

  function Start(launch: seq<Request>): (s: State)
    ensures s.slot.Booting? && s.asked == s.queue == launch && s.tabs == []
  {
    State(Booting, false, launch, [], [], [], launch)
  }

  lemma FlatMore(batches: seq<seq<Request>>, paths: seq<Request>)
    ensures multiset(Flat(WithBatch(batches, paths))) == multiset(Flat(batches)) + multiset(paths)
  {
    if paths != [] {
      assert (batches + [paths])[..|batches|] == batches;
    }
  }

  lemma OpenConserves(s: State, paths: seq<Request>)
    requires Enabled(s, Open(paths))
    ensures Everywhere(Next(s, Open(paths))) == Everywhere(s) + multiset(paths)
  {
    match RouteOf(s.slot)
    case Register => FlatMore(s.batches, paths);
    case Queue => assert multiset(s.queue + paths) == multiset(s.queue) + multiset(paths);
    case Discard => assert multiset(s.lost + paths) == multiset(s.lost) + multiset(paths);
  }

  lemma FinishConserves(s: State, b: nat)
    requires Enabled(s, Finish(b))
    ensures Everywhere(Next(s, Finish(b))) == Everywhere(s)
  {
    FlatTake(s.batches, b);
    assert multiset(s.tabs + s.batches[b]) == multiset(s.tabs) + multiset(s.batches[b]);
  }

  /** No step loses sight of a request. */
  lemma NextConserves(s: State, ev: Event)
    requires Enabled(s, ev)
    ensures Everywhere(Next(s, ev)) == Everywhere(s) + (if ev.Open? then multiset(ev.paths) else multiset{})
  {
    match ev
    case Open(paths) => OpenConserves(s, paths);
    case TakeQueue => FlatMore(s.batches, s.queue);
    case Finish(b) => FinishConserves(s, b);
    case LandFailure => assert multiset(s.lost + s.queue) == multiset(s.lost) + multiset(s.queue);
    case _ =>
  }

  lemma NextKeepsInv(s: State, ev: Event)
    requires Inv(s) && Enabled(s, ev)
    ensures Inv(Next(s, ev))
  {
    NextAccounts(s, ev);
    match ev
    case Open(paths) =>
      if s.slot.Booting? {
        EndGrows(s.queue, s.asked, paths);
      }
    case _ =>
  }

  lemma NextAccounts(s: State, ev: Event)
    requires multiset(s.asked) == Everywhere(s) && Enabled(s, ev)
    ensures multiset(Next(s, ev).asked) == Everywhere(Next(s, ev))
  {
    NextConserves(s, ev);
    assert Next(s, ev).asked == if ev.Open? then s.asked + ev.paths else s.asked;
  }

  lemma EndGrows(a: seq<Request>, b: seq<Request>, more: seq<Request>)
    requires EndOf(a, b)
    ensures EndOf(a + more, b + more)
  {
    assert (b + more)[|b| - |a|..] == b[|b| - |a|..] + more;
  }

  ghost predicate IsRun(states: seq<State>, events: seq<Event>)
  {
    && |states| == |events| + 1
    && forall i :: 0 <= i < |events| ==> Enabled(states[i], events[i]) && states[i + 1] == Next(states[i], events[i])
  }

  /** Over every run from a launch: every request is in one place, none twice; the queue holds
      its requests in the order they were made, and only while the session boots or lands. */
  lemma {:induction false} NothingTwiceNothingAstray(states: seq<State>, events: seq<Event>, launch: seq<Request>)
    requires IsRun(states, events) && states[0] == Start(launch) && Distinct(launch)
    ensures Inv(states[|events|])
    ensures forall r: Request :: Everywhere(states[|events|])[r] <= 1
    ensures Distinct(states[|events|].tabs)
    decreases |events|
  {
    var n := |events|;
    if n > 0 {
      NothingTwiceNothingAstray(states[..n], events[..n - 1], launch);
      NextKeepsInv(states[n - 1], events[n - 1]);
    }
    DistinctCounts(states[n].asked);
    var tabs := states[n].tabs;
    forall r: Request
      ensures multiset(tabs)[r] <= 1
    {
      assert multiset(tabs)[r] <= Everywhere(states[n])[r];
    }
    CountsDistinct(tabs);
  }

  lemma CountsTwo(q: seq<Request>, i: nat, j: nat)
    requires i < j < |q| && q[i] == q[j]
    ensures multiset(q)[q[j]] >= 2
  {
    var head, tail := q[..j], [q[j]] + q[j + 1..];
    assert q == head + tail;
    assert head[i] == q[j] && q[j] in multiset(head) && q[j] in multiset(tail);
  }

  lemma CountsDistinct(q: seq<Request>)
    requires forall r: Request :: multiset(q)[r] <= 1
    ensures Distinct(q)
  {
    forall i, j | 0 <= i < j < |q|
      ensures q[i] != q[j]
    {
      if q[i] == q[j] {
        CountsTwo(q, i, j);
      }
    }
  }

  lemma {:induction false} DistinctCounts(q: seq<Request>)
    requires Distinct(q)
    ensures forall r: Request :: multiset(q)[r] <= 1
  {
    if q != [] {
      var init := q[..|q| - 1];
      DistinctCounts(init);
      assert q == init + [q[|q| - 1]];
    }
  }

  /** A request is lost as it meets a failed session, or waits as one fails. */
  predicate Loses(s: State, ev: Event, r: Request)
  {
    (ev.Open? && r in ev.paths && s.slot.Failed?) || (ev.LandFailure? && r in s.queue)
  }

  /** Over every run: what is lost is just what was opened on a failed session or was queued as
      one failed, and nothing comes back from there. */
  lemma {:induction false} LostOnlyToFailure(states: seq<State>, events: seq<Event>, launch: seq<Request>, r: Request)
    requires IsRun(states, events) && states[0] == Start(launch)
    ensures r in states[|events|].lost <==> exists i :: 0 <= i < |events| && Loses(states[i], events[i], r)
    decreases |events|
  {
    var n := |events|;
    if n > 0 {
      LostOnlyToFailure(states[..n], events[..n - 1], launch, r);
      assert r in states[n].lost <==> r in states[n - 1].lost || Loses(states[n - 1], events[n - 1], r);
    }
  }

  /** While a session boots, the queue gets just what is asked for. */
  lemma {:induction false} BootQueues(states: seq<State>, events: seq<Event>, j: nat, i: nat)
    requires IsRun(states, events) && j <= i <= |events|
    requires forall k :: j <= k <= i ==> states[k].slot.Booting? && !states[k].landing
    ensures states[j].asked <= states[i].asked
    ensures states[i].queue == states[j].queue + states[i].asked[|states[j].asked|..]
  {
    if j < i {
      BootQueues(states, events, j, i - 1);
      assert states[i] == Next(states[i - 1], events[i - 1]);
    }
  }

  /** `q` stands in `tabs` without a gap. */
  ghost predicate Together(q: seq<Request>, tabs: seq<Request>) { exists a :: Begins(q, tabs, a) }

  predicate Begins(q: seq<Request>, tabs: seq<Request>, a: nat) { a + |q| <= |tabs| && tabs[a..a + |q|] == q }

  lemma StaysTogether(s: State, ev: Event, q: seq<Request>)
    requires Enabled(s, ev) && (q in s.batches || Together(q, s.tabs))
    ensures q in Next(s, ev).batches || Together(q, Next(s, ev).tabs)
  {
    var s' := Next(s, ev);
    if q in s.batches {
      var i :| 0 <= i < |s.batches| && s.batches[i] == q;
      if ev.Finish? {
        if i == ev.batch {
          assert Begins(q, s'.tabs, |s.tabs|);
        } else {
          assert s'.batches[if i < ev.batch then i else i - 1] == q;
        }
      } else {
        assert s'.batches[i] == q;
      }
    } else {
      var a :| Begins(q, s.tabs, a);
      assert s.tabs <= s'.tabs;
      assert Begins(q, s'.tabs, a);
    }
  }

  lemma {:induction false} StayTogether(states: seq<State>, events: seq<Event>, m: nat, n: nat, q: seq<Request>)
    requires IsRun(states, events) && m <= n <= |events|
    requires q in states[m].batches || Together(q, states[m].tabs)
    ensures q in states[n].batches || Together(q, states[n].tabs)
  {
    if m < n {
      StayTogether(states, events, m, n - 1, q);
      StaysTogether(states[n - 1], events[n - 1], q);
    }
  }

  /** What was asked for between two states of a run. */
  function AskedSince(states: seq<State>, j: nat, i: nat): seq<Request>
    requires j <= i < |states| && |states[j].asked| <= |states[i].asked|
  {
    if j == 0 then states[i].asked else states[i].asked[|states[j].asked|..]
  }

  /** Over every run: when a boot that began at `j`, with the window or a retry, lands at `i`, all
      that was asked for meanwhile, what the window was launched with included, is opened in one
      batch; and from then on it is being registered, or it stands in the tabs without a gap, in
      the order it was asked for. */
  lemma LandingDrainsInOrder(states: seq<State>, events: seq<Event>, launch: seq<Request>, j: nat, i: nat, n: nat)
    requires IsRun(states, events) && states[0] == Start(launch) && Distinct(launch)
    requires j <= i && i + 2 <= n <= |events|
    requires (j == 0 || events[j - 1].Retry?) && events[i].PublishReady?
    requires forall k :: j <= k < i ==> states[k].slot.Booting? && !states[k].landing
    ensures |states[j].asked| <= |states[i].asked|
    ensures var q := AskedSince(states, j, i);
            && states[i].queue == q && states[i + 2].queue == []
            && (q == [] || q in states[n].batches || Together(q, states[n].tabs))
  {
    assert Enabled(states[i], events[i]) && Enabled(states[i + 1], events[i + 1]);
    BootQueues(states, events, j, i);
    if j > 0 {
      assert Enabled(states[j - 1], events[j - 1]) && states[j] == Next(states[j - 1], events[j - 1]);
      NothingTwiceNothingAstray(states[..j], events[..j - 1], launch);
    }
    var q := AskedSince(states, j, i);
    if j == 0 {
      assert states[i].asked == launch + states[i].asked[|launch|..];
    } else {
      assert states[j].queue == [] && [] + q == q;
    }
    var k := i + 1;
    assert states[k] == Next(states[i], events[i]) && events[k].TakeQueue?;
    assert states[k + 1] == Next(states[k], events[k]);
    if q != [] {
      assert states[i + 2].batches == states[i + 1].batches + [q];
      assert states[i + 2].batches[|states[i + 1].batches|] == q;
      StayTogether(states, events, i + 2, n, q);
    }
  }

  /** Over every run that ends with a session and nothing under way: a request made in it is open,
      just once, exactly when no failure in the run lost it, and else it is not. */
  lemma SettledAccountsForAll(states: seq<State>, events: seq<Event>, launch: seq<Request>, r: Request)
    requires IsRun(states, events) && states[0] == Start(launch) && Distinct(launch)
    requires var s := states[|events|]; s.slot.Ready? && !s.landing && s.batches == []
    requires r in states[|events|].asked
    ensures multiset(states[|events|].tabs)[r]
         == if exists i :: 0 <= i < |events| && Loses(states[i], events[i], r) then 0 else 1
  {
    var s := states[|events|];
    NothingTwiceNothingAstray(states, events, launch);
    LostOnlyToFailure(states, events, launch, r);
    AskedOnce(s, r);
  }

  lemma AskedOnce(s: State, r: Request)
    requires Inv(s) && s.slot.Ready? && !s.landing && s.batches == [] && r in s.asked
    ensures multiset(s.tabs)[r] == if r in s.lost then 0 else 1
  {
    DistinctCounts(s.asked);
    assert s.queue == [] && r in multiset(s.asked);
    assert multiset(s.asked)[r] == multiset(s.tabs)[r] + multiset(s.lost)[r];
    assert r in s.lost <==> multiset(s.lost)[r] > 0;
  }
}
