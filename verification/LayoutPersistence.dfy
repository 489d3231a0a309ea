/** A window's layout and its file (session_boot.rs): an effect, some time after a change, starts
    a timer, and only the newest timer writes. */
module LayoutPersistence {

  import opened Wrappers

  /** A timer, by the generation that it starts and the layout that it carries. */
  datatype Timer<L> = Timer(epoch: nat, layout: L)

  datatype State<L> =
    State(disk: Option<L>, known: Option<L>, shown: L, generation: nat, timers: seq<Timer<L>>, writes: nat)

  /** A window whose session has just landed, before its effect has run. */
  function Opened<L>(disk: Option<L>, shown: L): State<L> { State(disk, None, shown, 0, [], 0) }

  /** What a window opens with: the layout on disk, or the default one. */
  function Restored<L>(s: State<L>, default: L): L { if s.disk.Some? then s.disk.value else default }

  function Effect<L(==)>(s: State<L>, default: L): State<L>
  {
    if s.known.None? then s.(known := Some(Restored(s, default)), shown := Restored(s, default))
    else if s.known.value == s.shown then s
    else
      s.(known := Some(s.shown), generation := s.generation + 1,
         timers := s.timers + [Timer(s.generation + 1, s.shown)])
  }

  function Fired<L>(s: State<L>, k: nat): State<L>
    requires k < |s.timers|
  {
    var timer := s.timers[k];
    var rest := s.timers[..k] + s.timers[k + 1..];
    if timer.epoch != s.generation then s.(timers := rest)
    else s.(timers := rest, disk := Some(timer.layout), writes := s.writes + 1)
  }

  class Window<L(==)> {
    var disk: Option<L>
    var known: Option<L>
    var shown: L
    var generation: nat
    var timers: seq<Timer<L>>
    ghost var writes: nat
    const default: L

    ghost function View(): State<L>
      reads this
    {
      State(disk, known, shown, generation, timers, writes)
    }

    constructor (disk: Option<L>, shown: L, default: L)
      ensures View() == Opened(disk, shown) && this.default == default
    {
      this.disk, this.known, this.shown, this.default := disk, None, shown, default;
      generation, timers, writes := 0, [], 0;
    }

    method RunEffect()
      modifies this
      ensures View() == Effect(old(View()), default)
    {
      if known.None? {
        var restored := if disk.Some? then disk.value else default;
        known := Some(restored);
        shown := restored;
        return;
      }
      if known == Some(shown) {
        return;
      }
      known := Some(shown);
      generation := generation + 1;
      timers := timers + [Timer(generation, shown)];
    }

    /** The effect that this sets off runs later. */
    method Change(layout: L)
      modifies this
      ensures View() == old(View()).(shown := layout)
    {
      shown := layout;
    }

    /** Timers fire in any order. */
    method Fire(k: nat)
      requires k < |timers|
      modifies this
      ensures View() == Fired(old(View()), k)
    {
      var timer := timers[k];
      timers := timers[..k] + timers[k + 1..];
      if timer.epoch != generation {
        return;
      }
      disk := Some(timer.layout);
      writes := writes + 1;
    }
  }

  datatype Event<L> = Change(layout: L) | RunEffect | Fire(k: nat)

  predicate Enabled<L>(s: State<L>, ev: Event<L>) { ev.Fire? ==> ev.k < |s.timers| }

  function Next<L(==)>(s: State<L>, ev: Event<L>, default: L): State<L>
    requires Enabled(s, ev)
  {
    match ev
    case Change(layout) => s.(shown := layout)
    case RunEffect => Effect(s, default)
    case Fire(k) => Fired(s, k)
  }

  /** The timer `k` is of the current generation. */
  predicate Current<L>(s: State<L>, k: int) { 0 <= k < |s.timers| && s.timers[k].epoch == s.generation }

  ghost predicate Waits<L>(s: State<L>) { exists k :: Current(s, k) }

  /** What is known is on disk, or in the one timer of the current generation. */
  ghost predicate Kept<L>(s: State<L>, default: L)
    requires s.known.Some?
  {
    Restored(s, default) == s.known.value || Waits(s)
  }

  /** Timers are numbered apart and never ahead of the generation. */
  ghost predicate Numbered<L>(s: State<L>)
  {
    && (forall k :: 0 <= k < |s.timers| ==> s.timers[k].epoch <= s.generation)
    && (forall j, k :: 0 <= j < k < |s.timers| ==> s.timers[j].epoch != s.timers[k].epoch)
  }

  /** The current timer carries the layout known, and what is known is kept; before the restore
      there is none of this. */
  ghost predicate Inv<L>(s: State<L>, default: L)
  {
    && Numbered(s)
    && (s.known.None? ==> s.timers == [] && s.generation == 0 && s.writes == 0)
    && (s.known.Some? ==> Kept(s, default) && forall k :: Current(s, k) ==> s.timers[k].layout == s.known.value)
  }

  lemma FiringKeepsWaits<L>(s: State<L>, k: nat)
    requires k < |s.timers| && Numbered(s)
    ensures Waits(Fired(s, k)) <==> Waits(s) && !Current(s, k)
  {
    var s' := Fired(s, k);
    if j :| Current(s, j) && j != k {
      assert Current(s', if j < k then j else j - 1);
    }
    if j :| Current(s', j) {
      assert Current(s, if j < k then j else j + 1);
    }
  }

  lemma EffectWaits<L>(s: State<L>, default: L)
    requires s.known.Some? && s.known.value != s.shown
    ensures Waits(Effect(s, default))
  {
    assert Current(Effect(s, default), |s.timers|);
  }

  lemma FiringKeepsTimers<L>(s: State<L>, k: nat)
    requires k < |s.timers| && Numbered(s)
    ensures Numbered(Fired(s, k))
    ensures forall j :: Current(Fired(s, k), j) ==> Current(s, if j < k then j else j + 1)
  {
    var s' := Fired(s, k);
    assert forall j :: 0 <= j < |s'.timers| ==> s'.timers[j] == s.timers[if j < k then j else j + 1];
  }

  lemma FiringKeepsInv<L>(s: State<L>, k: nat, default: L)
    requires Inv(s, default) && k < |s.timers|
    ensures Inv(Fired(s, k), default)
  {
    var s' := Fired(s, k);
    FiringKeepsWaits(s, k);
    FiringKeepsTimers(s, k);
    assert s.timers[k].epoch == s.generation <==> Current(s, k);
    forall j | Current(s', j)
      ensures s'.timers[j].layout == s.known.value
    {
      assert Current(s, if j < k then j else j + 1);
    }
  }

  lemma NextKeepsInv<L>(s: State<L>, ev: Event<L>, default: L)
    requires Inv(s, default) && Enabled(s, ev)
    ensures Inv(Next(s, ev, default), default)
  {
    match ev
    case Change(layout) =>
      var s' := Next(s, ev, default);
      assert forall k :: Current(s', k) <==> Current(s, k);
    case RunEffect =>
      if s.known.Some? && s.known.value != s.shown {
        EffectWaits(s, default);
      }
    case Fire(k) => FiringKeepsInv(s, k, default);
  }

  ghost predicate IsRun<L>(states: seq<State<L>>, events: seq<Event<L>>, default: L)
  {
    && |states| == |events| + 1
    && forall i :: 0 <= i < |events| ==>
         Enabled(states[i], events[i]) && states[i + 1] == Next(states[i], events[i], default)
  }

  /** Over every run, with changes, runs of the effect and timers in any order: the last layout
      known is on disk or in exactly one pending timer of the current generation, which carries
      it; and when no timer is left, it is on disk. Before the restore nothing is written. */
  lemma {:induction false} LastLayoutReachesDisk<L>(states: seq<State<L>>, events: seq<Event<L>>, default: L)
    requires IsRun(states, events, default) && states[0] == Opened(states[0].disk, states[0].shown)
    ensures var s := states[|events|];
            && Inv(s, default)
            && (s.known.None? ==> s.disk == states[0].disk && s.writes == 0)
            && (s.known.Some? ==>
                  (Restored(s, default) == s.known.value ||
                   exists k :: Current(s, k) && s.timers[k].layout == s.known.value
                               && forall j :: Current(s, j) ==> j == k))
            && (s.known.Some? && s.timers == [] ==> Restored(s, default) == s.known.value)
    decreases |events|
  {
    var n := |events|;
    if n > 0 {
      LastLayoutReachesDisk(states[..n], events[..n - 1], default);
      NextKeepsInv(states[n - 1], events[n - 1], default);
    }
    var s := states[n];
    if s.known.Some? && Restored(s, default) != s.known.value {
      var k :| Current(s, k);
      assert forall j :: Current(s, j) ==> j == k;
    }
  }

  /** A change that the effect has seen, with no other since, is what is known and shown. */
  lemma {:induction false} EffectMakesKnown<L>(states: seq<State<L>>, events: seq<Event<L>>, c: nat, e: nat, default: L)
    requires IsRun(states, events, default) && c < e < |events|
    requires states[c].known.Some? && events[c].Change? && events[e].RunEffect?
    requires forall i :: c < i < |events| ==> !events[i].Change?
    ensures states[|events|].known == Some(events[c].layout) && states[|events|].shown == events[c].layout
    decreases |events|
  {
    var n := |events|;
    if e < n - 1 {
      EffectMakesKnown(states[..n], events[..n - 1], c, e, default);
    } else {
      ShownSince(states, events, c, n - 1, default);
    }
  }

  lemma {:induction false} ShownSince<L>(states: seq<State<L>>, events: seq<Event<L>>, c: nat, n: nat, default: L)
    requires IsRun(states, events, default) && c < n < |states|
    requires states[c].known.Some? && events[c].Change? && forall i :: c < i < n ==> !events[i].Change?
    ensures states[n].known.Some? && states[n].shown == events[c].layout
    decreases n
  {
    if n > c + 1 {
      ShownSince(states, events, c, n - 1, default);
    }
    assert states[n] == Next(states[n - 1], events[n - 1], default);
  }

  /** So the layout last set after the restore is the one that the next window opens with, once
      the effect has run and the timers have. */
  lemma LastChangeIsRestored<L>(states: seq<State<L>>, events: seq<Event<L>>, c: nat, e: nat, default: L)
    requires IsRun(states, events, default) && states[0] == Opened(states[0].disk, states[0].shown) && c < e < |events|
    requires states[c].known.Some? && events[c].Change? && events[e].RunEffect?
    requires forall i :: c < i < |events| ==> !events[i].Change?
    requires states[|events|].timers == []
    ensures Restored(states[|events|], default) == events[c].layout
  {
    LastLayoutReachesDisk(states, events, default);
    EffectMakesKnown(states, events, c, e, default);
  }

  function Changes<L>(events: seq<Event<L>>): nat
  {
    if events == [] then 0
    else Changes(events[..|events| - 1]) + (if events[|events| - 1].Change? then 1 else 0)
  }

  /** A write is of a generation that waits for it, and a generation of a change not yet known. */
  ghost predicate Thrifty<L>(s: State<L>, changes: nat)
  {
    && s.writes + (if Waits(s) && s.known.Some? then 1 else 0) <= s.generation
    && s.generation + (if s.known.Some? && s.known.value != s.shown then 1 else 0) <= changes
  }

  lemma NextKeepsThrift<L>(s: State<L>, ev: Event<L>, changes: nat, default: L)
    requires Inv(s, default) && Enabled(s, ev) && Thrifty(s, changes)
    ensures Thrifty(Next(s, ev, default), changes + (if ev.Change? then 1 else 0))
  {
    match ev
    case Change(layout) =>
      if k :| Current(Next(s, ev, default), k) {
        assert Current(s, k);
      }
    case RunEffect => assert s.known.None? ==> !Waits(Effect(s, default));
    case Fire(k) =>
      assert s.timers[k].epoch == s.generation <==> Current(s, k);
      FiringKeepsWaits(s, k);
  }

  /** Over every run the file is written at most once for every change. */
  lemma {:induction false} WritesAtMostChanges<L>(states: seq<State<L>>, events: seq<Event<L>>, default: L)
    requires IsRun(states, events, default) && states[0] == Opened(states[0].disk, states[0].shown)
    ensures Thrifty(states[|events|], Changes(events)) && states[|events|].writes <= Changes(events)
    decreases |events|
  {
    var n := |events|;
    if n > 0 {
      WritesAtMostChanges(states[..n], events[..n - 1], default);
      LastLayoutReachesDisk(states[..n], events[..n - 1], default);
      NextKeepsThrift(states[n - 1], events[n - 1], Changes(events[..n - 1]), default);
    }
  }

  /** The layout was set by a change after the restore, among the first `n` events. */
  ghost predicate SetBy<L>(states: seq<State<L>>, events: seq<Event<L>>, n: nat, layout: L)
    requires |states| == |events| + 1 && n <= |events|
  {
    exists c :: 0 <= c < n && events[c] == Event<L>.Change(layout) && states[c].known.Some?
  }

  /** What the timers carry, and what is shown and not yet known, was set by changes. */
  ghost predicate FromChanges<L>(states: seq<State<L>>, events: seq<Event<L>>, n: nat, s: State<L>)
    requires |states| == |events| + 1 && n <= |events|
  {
    && (forall t <- s.timers :: SetBy(states, events, n, t.layout))
    && (s.known.Some? && s.known.value != s.shown ==> SetBy(states, events, n, s.shown))
  }

  lemma NextFromChanges<L>(states: seq<State<L>>, events: seq<Event<L>>, n: nat, s: State<L>, default: L)
    requires |states| == |events| + 1 && n < |events| && s == states[n]
    requires Enabled(s, events[n]) && FromChanges(states, events, n, s)
    ensures FromChanges(states, events, n + 1, Next(s, events[n], default))
  {
    SetByLater(states, events, n + 1);
    match events[n]
    case Change(layout) => assert events[n] == Event<L>.Change(layout);
    case RunEffect =>
    case Fire(j) => FiredTimers(s, j);
  }

  lemma {:induction false} TimersAreChanges<L>(states: seq<State<L>>, events: seq<Event<L>>, n: nat, default: L)
    requires IsRun(states, events, default) && states[0] == Opened(states[0].disk, states[0].shown) && n <= |events|
    ensures Inv(states[n], default) && FromChanges(states, events, n, states[n])
  {
    if n > 0 {
      TimersAreChanges(states, events, n - 1, default);
      NextKeepsInv(states[n - 1], events[n - 1], default);
      NextFromChanges(states, events, n - 1, states[n - 1], default);
    }
  }

  lemma FiredTimers<L>(s: State<L>, j: nat)
    requires j < |s.timers|
    ensures forall t <- Fired(s, j).timers :: t in s.timers
  {
  }

  lemma SetByLater<L>(states: seq<State<L>>, events: seq<Event<L>>, n: nat)
    requires |states| == |events| + 1 && 0 < n <= |events|
    ensures forall layout :: SetBy(states, events, n - 1, layout) ==> SetBy(states, events, n, layout)
  {
  }

  /** Over every run, the file is written, or its layout changed, only as a timer of the current
      generation fires; and what is written then is the layout last known, which a change after
      the restore has set: the restored layout is not written back. */
  lemma WritesOnlyChanges<L>(states: seq<State<L>>, events: seq<Event<L>>, i: nat, default: L)
    requires IsRun(states, events, default) && states[0] == Opened(states[0].disk, states[0].shown) && i < |events|
    requires states[i + 1].writes != states[i].writes || states[i + 1].disk != states[i].disk
    ensures events[i].Fire? && Current(states[i], events[i].k)
    ensures states[i + 1].disk == states[i].known && states[i + 1].writes == states[i].writes + 1
    ensures states[i].known.Some? && SetBy(states, events, i, states[i].known.value)
  {
    TimersAreChanges(states, events, i, default);
    assert Enabled(states[i], events[i]) && states[i + 1] == Next(states[i], events[i], default);
  }

  /** Firing whatever timers there are, one after another in some order, ends the run with the
      last layout known on disk, after one write at most. */
  lemma {:induction false} DrainWritesOnce<L>(s: State<L>, order: seq<nat>, default: L)
    requires s.known.Some? && Inv(s, default)
    requires |order| == |s.timers| && forall i :: 0 <= i < |order| ==> order[i] < |s.timers| - i
    ensures var end := Drained(s, order);
            && end.timers == [] && end.known == s.known && Restored(end, default) == s.known.value
            && end.writes == s.writes + (if Waits(s) then 1 else 0)
    decreases |order|
  {
    if order == [] {
      assert !Waits(s);
    } else {
      NextKeepsInv(s, Event<L>.Fire(order[0]), default);
      FiringKeepsWaits(s, order[0]);
      var s' := Fired(s, order[0]);
      forall i | 0 <= i < |order[1..]|
        ensures order[1..][i] < |s'.timers| - i
      {
        assert order[1..][i] == order[i + 1];
      }
      assert s.timers[order[0]].epoch == s.generation <==> Current(s, order[0]);
      DrainWritesOnce(s', order[1..], default);
    }
  }

  function Drained<L>(s: State<L>, order: seq<nat>): State<L>
    requires |order| == |s.timers| && forall i :: 0 <= i < |order| ==> order[i] < |s.timers| - i
    decreases |order|
  {
    if order == [] then s
    else
      assert forall i :: 0 <= i < |order[1..]| ==> order[1..][i] == order[i + 1];
      Drained(Fired(s, order[0]), order[1..])
  }
}
