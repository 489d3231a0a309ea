/** The slot that says which query the connection is running, and for which lane
    (duckdb_engine.rs): what scopes an interrupt to a query. `begin_query` takes a token and
    installs it in two steps, between which anything may happen. */
module QuerySlot {

  import opened Wrappers

  datatype Lane = Console | Grid | View | Other

  type Slot = Option<(nat, Lane)>

  function Token(slot: Slot): Option<nat> { if slot.Some? then Some(slot.value.0) else None }

  class QueryControl {
    var inflight: Slot
    var nextToken: nat
    var interruptsFired: nat

    /** The object is where the machine below is. */
    ghost predicate Is(s: State)
      reads this
    {
      inflight == s.slot && nextToken == s.next && interruptsFired == s.fired
    }

    constructor ()
      ensures Is(INITIAL)
    {
      inflight := None;
      nextToken := 1;
      interruptsFired := 0;
    }

    /** The first step of `begin_query`: a token nobody had. */
    method Mint() returns (token: nat)
      modifies this`nextToken
      ensures token == old(nextToken) && nextToken == old(nextToken) + 1
      ensures forall s, lane :: old(Is(s)) ==> Is(Next(s, Event.Mint(lane)))
    {
      token := nextToken;
      nextToken := nextToken + 1;
    }

    /** The second: whatever query was in the slot is displaced. */
    method Install(token: nat, lane: Lane)
      modifies this`inflight
      ensures inflight == Some((token, lane))
      ensures forall s ::
                old(Is(s)) && token in s.minted && s.minted[token] == lane ==> Is(Next(s, Event.Install(token)))
    {
      inflight := Some((token, lane));
    }

    method EndQuery(token: nat)
      modifies this`inflight
      ensures inflight == if Token(old(inflight)) == Some(token) then None else old(inflight)
      ensures forall s :: old(Is(s)) && token in s.running ==> Is(Next(s, End(token)))
    {
      if inflight.Some? && inflight.value.0 == token {
        inflight := None;
      }
    }

    method InterruptScoped(token: nat) returns (fired: bool)
      modifies this`interruptsFired
      ensures fired <==> Token(inflight) == Some(token)
      ensures interruptsFired == old(interruptsFired) + (if fired then 1 else 0)
      ensures forall s :: old(Is(s)) ==> Is(Next(s, Scoped(token))) && (fired <==> Fires(s, Scoped(token)))
    {
      fired := inflight.Some? && inflight.value.0 == token;
      if fired {
        FireInterrupt();
      }
    }

    method InterruptLane(lane: Lane) returns (fired: bool)
      modifies this`interruptsFired
      ensures fired <==> inflight.Some? && inflight.value.1 == lane
      ensures interruptsFired == old(interruptsFired) + (if fired then 1 else 0)
      ensures forall s :: old(Is(s)) ==> Is(Next(s, ByLane(lane))) && (fired <==> Fires(s, ByLane(lane)))
    {
      fired := inflight.Some? && inflight.value.1 == lane;
      if fired {
        FireInterrupt();
      }
    }

    method FireInterrupt()
      modifies this`interruptsFired
      ensures interruptsFired == old(interruptsFired) + 1
    {
      interruptsFired := interruptsFired + 1;
    }
  }

  // ---- callers, interleaved

  /** What a caller does: a token is ended only by who was given it, once its query began. */
  datatype Event =
    | Mint(lane: Lane)
    | Install(token: nat)
    | End(token: nat)
    | Scoped(token: nat)
    | ByLane(lane: Lane)

  /** `minted` tokens are taken and not installed yet, `running` ones begun and not ended. */
  datatype State = State(slot: Slot, next: nat, fired: nat, minted: map<nat, Lane>, running: set<nat>, ended: set<nat>)

  const INITIAL := State(None, 1, 0, map[], {}, {})

  predicate Enabled(s: State, ev: Event)
  {
    match ev
    case Install(token) => token in s.minted
    case End(token) => token in s.running
    case _ => true
  }

  function Fires(s: State, ev: Event): bool
  {
    match ev
    case Scoped(token) => Token(s.slot) == Some(token)
    case ByLane(lane) => s.slot.Some? && s.slot.value.1 == lane
    case _ => false
  }

  function Next(s: State, ev: Event): State
    requires Enabled(s, ev)
  {
    match ev
    case Mint(lane) => s.(next := s.next + 1, minted := s.minted[s.next := lane])
    case Install(token) =>
      s.(slot := Some((token, s.minted[token])), minted := s.minted - {token}, running := s.running + {token})
    case End(token) =>
      s.(slot := if Token(s.slot) == Some(token) then None else s.slot,
         running := s.running - {token}, ended := s.ended + {token})
    case _ => s.(fired := s.fired + (if Fires(s, ev) then 1 else 0))
  }

  /** Every token is in one stage of its life, and the slot holds one that is running. */
  ghost predicate Inv(s: State)
  {
    && (forall t :: t in s.minted || t in s.running || t in s.ended ==> t < s.next)
    && (forall t :: t in s.minted ==> t !in s.running && t !in s.ended)
    && (forall t :: t in s.running ==> t !in s.ended)
    && (s.slot.Some? ==> s.slot.value.0 in s.running)
  }

  lemma NextKeepsInv(s: State, ev: Event)
    requires Inv(s) && Enabled(s, ev)
    ensures Inv(Next(s, ev))
    ensures s.next !in s.minted && s.next !in s.running && s.next !in s.ended
  {
  }

  ghost predicate IsRun(states: seq<State>, events: seq<Event>)
  {
    && |states| == |events| + 1
    && states[0] == INITIAL
    && forall i :: 0 <= i < |events| ==> Enabled(states[i], events[i]) && states[i + 1] == Next(states[i], events[i])
  }

  lemma {:induction false} RunKeepsInv(states: seq<State>, events: seq<Event>, i: nat)
    requires IsRun(states, events) && i <= |events|
    ensures Inv(states[i])
  {
    if i > 0 {
      RunKeepsInv(states, events, i - 1);
      NextKeepsInv(states[i - 1], events[i - 1]);
    }
  }

  /** The token a mint gives. */
  function Given(s: State): nat { s.next }

  /** Tokens are given in ascending order, so no two mints give the same one. */
  lemma {:induction false} TokensAscend(states: seq<State>, events: seq<Event>, i: nat, j: nat)
    requires IsRun(states, events) && i < j < |events|
    requires events[i].Mint? && events[j].Mint?
    ensures Given(states[i]) < Given(states[j])
  {
    NextGrows(states, events, i + 1, j);
  }

  lemma {:induction false} NextGrows(states: seq<State>, events: seq<Event>, i: nat, j: nat)
    requires IsRun(states, events) && i <= j <= |events|
    ensures states[i].next <= states[j].next
  {
    if i < j {
      NextGrows(states, events, i, j - 1);
    }
  }

  /** Past its installation and not in the slot: ended, or displaced by another query. */
  predicate Stale(s: State, token: nat) { (token in s.running || token in s.ended) && Token(s.slot) != Some(token) }

  /** A stale token stays stale: its interrupt never fires again, and ending it changes no
      slot. */
  lemma {:induction false} StaleStaysStale(states: seq<State>, events: seq<Event>, i: nat, j: nat, token: nat)
    requires IsRun(states, events) && i <= j <= |events|
    requires Stale(states[i], token)
    ensures Stale(states[j], token)
    ensures !Fires(states[j], Scoped(token))
    ensures token in states[j].running ==> Next(states[j], End(token)).slot == states[j].slot
  {
    if i < j {
      StaleStaysStale(states, events, i, j - 1, token);
      RunKeepsInv(states, events, j - 1);
    }
  }

  /** Once ended, a token is never in the slot again. */
  lemma EndedNeverReturns(states: seq<State>, events: seq<Event>, i: nat, j: nat, token: nat)
    requires IsRun(states, events) && i < j <= |events|
    requires events[i] == End(token)
    ensures Token(states[j].slot) != Some(token)
  {
    RunKeepsInv(states, events, i);
    StaleStaysStale(states, events, i + 1, j, token);
  }

  /** A query that another displaced is stale when the other's token goes in, whichever of
      the two was minted first. */
  lemma DisplacedIsStale(states: seq<State>, events: seq<Event>, i: nat, token: nat)
    requires IsRun(states, events) && i < |events|
    requires Token(states[i].slot) == Some(token)
    requires events[i].Install?
    ensures Stale(states[i + 1], token)
  {
    RunKeepsInv(states, events, i);
  }

  /** How many of the events fired an interrupt. */
  function FiredCount(states: seq<State>, events: seq<Event>): nat
    requires |states| >= |events|
  {
    if events == [] then 0
    else
      var last := |events| - 1;
      FiredCount(states[..last], events[..last]) + (if Fires(states[last], events[last]) then 1 else 0)
  }

  /** The counter is the number of interrupts that said they fired. */
  lemma {:induction false} CounterCounts(states: seq<State>, events: seq<Event>)
    requires IsRun(states, events)
    ensures states[|events|].fired == FiredCount(states, events)
  {
    if events != [] {
      var last := |events| - 1;
      CounterCounts(states[..last + 1], events[..last]);
      FiredCountPrefix(states[..last + 1], states[..last], events[..last]);
    }
  }

  lemma {:induction false} FiredCountPrefix(a: seq<State>, b: seq<State>, events: seq<Event>)
    requires |a| >= |events| && |b| >= |events| && a[..|events|] == b[..|events|]
    ensures FiredCount(a, events) == FiredCount(b, events)
  {
    if events != [] {
      var last := |events| - 1;
      assert a[..last] == a[..|events|][..last] == b[..|events|][..last] == b[..last];
      assert a[last] == a[..|events|][last] == b[..|events|][last] == b[last];
    }
  }

  /** An older token can displace a newer one: minted first, installed last. */
  lemma OlderDisplacesNewer() returns (states: seq<State>, events: seq<Event>)
    ensures IsRun(states, events) && |events| > 0
    ensures Token(states[|events| - 1].slot) == Some(2) && Token(states[|events|].slot) == Some(1)
  {
    events := [Mint(View), Mint(Console), Install(2), Install(1)];
    var s1 := Next(INITIAL, events[0]);
    var s2 := Next(s1, events[1]);
    var s3 := Next(s2, events[2]);
    var s4 := Next(s3, events[3]);
    states := [INITIAL, s1, s2, s3, s4];
  }
}
