/**
 * The command queue: a channel whose capacity is the number of workers, blocking senders, and closing on shutdown.
 * Every call of the queued handler has a number of its own. A call whose send hits the closed channel returns an error.
 */
module CommandQueue {
  import opened Sets

  datatype State = State(
    workers: nat,           // number of workers, and capacity of the channel
    calls: set<nat>,        // calls begun so far
    pending: set<nat>,      // calls in their send, blocked or not
    refused: set<nat>,      // calls that returned an error
    accepted: seq<nat>,     // calls that returned nil, in the order of their sends
    buffer: seq<nat>,
    received: seq<nat>,     // in the order of their receives
    busy: map<nat, nat>,    // the call each busy worker handles
    handled: seq<nat>,
    stopped: set<nat>,      // workers whose loop has ended
    closed: bool)

  datatype Event =
    | Begin(call: nat)
    | Send(call: nat)
    | Panic(call: nat)
    | Receive(worker: nat)
    | Finish(worker: nat)
    | Stop(worker: nat)
    | Close

  function Initial(workers: nat): State {
    State(workers, {}, {}, {}, [], [], [], map[], [], {}, false)
  }

  predicate Idle(s: State, worker: nat) {
    worker < s.workers && worker !in s.busy && worker !in s.stopped
  }

  predicate Enabled(s: State, e: Event) {
    match e
    case Begin(call) => call !in s.calls
    case Send(call) => call in s.pending && !s.closed && |s.buffer| < s.workers
    case Panic(call) => call in s.pending && s.closed
    case Receive(worker) => Idle(s, worker) && s.buffer != []
    case Finish(worker) => worker in s.busy
    case Stop(worker) => Idle(s, worker) && s.closed && s.buffer == []
    case Close => !s.closed
  }

  function Step(s: State, e: Event): State
    requires Enabled(s, e)
  {
    match e
    case Begin(call) => s.(calls := s.calls + {call}, pending := s.pending + {call})
    case Send(call) => s.(pending := s.pending - {call}, accepted := s.accepted + [call], buffer := s.buffer + [call])
    case Panic(call) => s.(pending := s.pending - {call}, refused := s.refused + {call})
    case Receive(worker) =>
      s.(buffer := s.buffer[1..], received := s.received + [s.buffer[0]], busy := s.busy[worker := s.buffer[0]])
    case Finish(worker) => s.(busy := s.busy - {worker}, handled := s.handled + [s.busy[worker]])
    case Stop(worker) => s.(stopped := s.stopped + {worker})
    case Close => s.(closed := true)
  }

  /** The events can happen in this order, starting from s. */
  predicate Possible(s: State, events: seq<Event>)
    decreases |events|
  {
    events == [] || (Enabled(s, events[0]) && Possible(Step(s, events[0]), events[1..]))
  }

  function Exec(s: State, events: seq<Event>): State
    requires Possible(s, events)
    decreases |events|
  {
    if events == [] then s else Exec(Step(s, events[0]), events[1..])
  }

  // ----- conservation

  ghost function HeldBy(s: State, call: nat): set<nat> {
    set w | w in s.busy && s.busy[w] == call
  }

  /** How often a call is in the buffer, held by a worker, or handled. */
  ghost function Places(s: State, call: nat): nat {
    multiset(s.buffer)[call] + |HeldBy(s, call)| + multiset(s.handled)[call]
  }

  ghost predicate Bounded(s: State) {
    && |s.buffer| <= s.workers
    && (forall w :: w in s.busy ==> w < s.workers)
    && (s.stopped != {} ==> s.closed && s.buffer == [])
  }

  /** Every call is in exactly one of: sending, refused, accepted; and no call is accepted twice. */
  ghost predicate Sorted(s: State) {
    && s.pending !! s.refused
    && s.calls == s.pending + s.refused + (set c | c in s.accepted)
    && (forall c :: c in s.accepted ==> c !in s.pending && c !in s.refused)
    && (forall c :: multiset(s.accepted)[c] <= 1)
  }

  ghost predicate Invariant(s: State) {
    && Bounded(s)
    && Sorted(s)
    && s.accepted == s.received + s.buffer
    && forall c :: Places(s, c) == multiset(s.accepted)[c]
  }

  lemma HeldAfter(s: State, e: Event, c: nat)
    requires Enabled(s, e)
    ensures var t := Step(s, e);
            HeldBy(t, c) == if e.Receive? && s.buffer[0] == c then HeldBy(s, c) + {e.worker}
                            else if e.Finish? && s.busy[e.worker] == c then HeldBy(s, c) - {e.worker}
                            else HeldBy(s, c)
  {
  }

  lemma PlacesAfter(s: State, e: Event, c: nat)
    requires Enabled(s, e)
    ensures Places(Step(s, e), c) == Places(s, c) + (if e == Send(c) then 1 else 0)
  {
    HeldAfter(s, e, c);
    match e
    case Send(call) =>
      assert multiset(s.buffer + [call]) == multiset(s.buffer) + multiset{call};
    case Receive(worker) =>
      assert s.buffer == [s.buffer[0]] + s.buffer[1..];
      assert worker !in HeldBy(s, c);
    case Finish(worker) =>
      assert multiset(s.handled + [s.busy[worker]]) == multiset(s.handled) + multiset{s.busy[worker]};
      assert s.busy[worker] == c ==> worker in HeldBy(s, c);
    case _ =>
  }

  lemma SortedStep(s: State, e: Event)
    requires Enabled(s, e) && Sorted(s)
    ensures Sorted(Step(s, e))
  {
    var t := Step(s, e);
    if e.Send? {
      assert multiset(t.accepted) == multiset(s.accepted) + multiset{e.call};
      assert e.call !in multiset(s.accepted);
      assert forall c :: c in t.accepted <==> c in s.accepted || c == e.call;
    }
  }

  lemma PlacesStep(s: State, e: Event, c: nat)
    requires Enabled(s, e) && Places(s, c) == multiset(s.accepted)[c]
    ensures Places(Step(s, e), c) == multiset(Step(s, e).accepted)[c]
  {
    hide Places;
    PlacesAfter(s, e, c);
    if e.Send? {
      assert multiset(s.accepted + [e.call]) == multiset(s.accepted) + multiset{e.call};
    }
  }

  lemma InvariantStep(s: State, e: Event)
    requires Enabled(s, e) && Invariant(s)
    ensures Invariant(Step(s, e))
  {
    hide Places, Sorted;
    SortedStep(s, e);
    var t := Step(s, e);
    forall c
      ensures Places(t, c) == multiset(t.accepted)[c]
    {
      PlacesStep(s, e, c);
    }
    assert t.accepted == t.received + t.buffer;
  }

  lemma {:induction false} InvariantHolds(s: State, events: seq<Event>)
    requires Invariant(s) && Possible(s, events)
    ensures Invariant(Exec(s, events)) && Exec(s, events).workers == s.workers
    decreases |events|
  {
    if events != [] {
      InvariantStep(s, events[0]);
      InvariantHolds(Step(s, events[0]), events[1..]);
    }
  }

  lemma BusyBound(s: State)
    requires Bounded(s)
    ensures |s.busy| <= s.workers
  {
    SubsetSize(s.busy.Keys, Below(s.workers));
    assert |s.busy| == |s.busy.Keys|;
  }

  ghost function Below(n: nat): (all: set<nat>)
    ensures |all| == n
    ensures forall w :: w in all ==> w < n
    ensures forall w: nat :: w < n ==> w in all
  {
    if n == 0 then {} else Below(n - 1) + {n - 1}
  }

  /**
   * In every interleaving: a call that returned nil is in exactly one place, any other in none; buffer and workers stay
   * within their count; calls are received in the order of their sends; a call that returned an error is never handled.
   */
  lemma Conservation(workers: nat, events: seq<Event>)
    requires Possible(Initial(workers), events)
    ensures var s := Exec(Initial(workers), events);
            && (forall c :: Places(s, c) == if c in s.accepted then 1 else 0)
            && |s.buffer| <= workers && |s.busy| <= workers
            && s.accepted == s.received + s.buffer
            && (forall c :: c in s.refused ==> c !in s.handled && Places(s, c) == 0)
            && (forall c :: c in s.calls ==> c in s.pending || c in s.refused || c in s.accepted)
  {
    var s0 := Initial(workers);
    assert forall c :: HeldBy(s0, c) == {};
    assert Invariant(s0);
    InvariantHolds(s0, events);
    var s := Exec(s0, events);
    BusyBound(s);
    forall c
      ensures Places(s, c) == if c in s.accepted then 1 else 0
      ensures c in s.refused ==> c !in s.handled
    {
      assert c in s.accepted <==> multiset(s.accepted)[c] > 0;
      assert c in s.handled ==> multiset(s.handled)[c] > 0;
    }
  }

  // ----- progress

  /** Receives and finishes still to happen for the accepted calls. */
  function Remaining(s: State): nat {
    2 * |s.buffer| + |s.busy|
  }

  predicate IsWork(e: Event) {
    e.Receive? || e.Finish?
  }

  function WorkSteps(events: seq<Event>): nat {
    if events == [] then 0 else (if IsWork(events[0]) then 1 else 0) + WorkSteps(events[1..])
  }

  lemma RemainingAfter(s: State, e: Event)
    requires Enabled(s, e) && s.closed
    ensures var t := Step(s, e);
            && t.closed && t.accepted == s.accepted
            && Remaining(s) == Remaining(t) + (if IsWork(e) then 1 else 0)
  {
    var t := Step(s, e);
    if e.Receive? {
      assert t.busy.Keys == s.busy.Keys + {e.worker};
      assert |t.busy| == |t.busy.Keys| && |s.busy| == |s.busy.Keys|;
    } else if e.Finish? {
      assert t.busy.Keys == s.busy.Keys - {e.worker};
      assert |t.busy| == |t.busy.Keys| && |s.busy| == |s.busy.Keys|;
    }
  }

  /** As long as something accepted is not handled, a worker can make a step. */
  lemma WorkerCanStep(s: State)
    requires Invariant(s)
    ensures Remaining(s) > 0 <==> exists w :: Enabled(s, Receive(w)) || Enabled(s, Finish(w))
  {
    if w :| w in s.busy {
      assert Enabled(s, Finish(w));
      assert |s.busy.Keys| > 0;
    } else if s.buffer != [] {
      assert s.busy == map[];
      assert Idle(s, 0) && Enabled(s, Receive(0));
    } else {
      assert s.busy == map[];
    }
  }

  lemma DrainedMeansHandled(s: State)
    requires Invariant(s) && Remaining(s) == 0
    ensures multiset(s.handled) == multiset(s.accepted)
  {
    forall c
      ensures multiset(s.handled)[c] == multiset(s.accepted)[c]
    {
      assert HeldBy(s, c) == {};
      assert Places(s, c) == multiset(s.accepted)[c];
    }
  }

  lemma {:induction false} RemainingFalls(s: State, events: seq<Event>)
    requires s.closed && Possible(s, events)
    ensures var t := Exec(s, events);
            t.closed && t.accepted == s.accepted && WorkSteps(events) + Remaining(t) == Remaining(s)
    decreases |events|
  {
    if events != [] {
      RemainingAfter(s, events[0]);
      RemainingFalls(Step(s, events[0]), events[1..]);
    }
  }

  /**
   * After the close nothing is accepted any more, each step of a worker brings the drain one step nearer, and workers
   * can make steps exactly until every accepted call is handled, once.
   */
  lemma Drain(workers: nat, before: seq<Event>, after: seq<Event>)
    requires Possible(Initial(workers), before)
    requires Exec(Initial(workers), before).closed && Possible(Exec(Initial(workers), before), after)
    ensures var s := Exec(Initial(workers), before);
            var t := Exec(s, after);
            && t.accepted == s.accepted
            && WorkSteps(after) + Remaining(t) == Remaining(s)
            && ((exists w :: Enabled(t, Receive(w)) || Enabled(t, Finish(w))) <==> WorkSteps(after) < Remaining(s))
            && (WorkSteps(after) == Remaining(s) ==> multiset(t.handled) == multiset(s.accepted))
  {
    var s0 := Initial(workers);
    assert forall c :: HeldBy(s0, c) == {};
    assert Invariant(s0);
    InvariantHolds(s0, before);
    var s := Exec(s0, before);
    InvariantHolds(s, after);
    RemainingFalls(s, after);
    var t := Exec(s, after);
    WorkerCanStep(t);
    if Remaining(t) == 0 {
      DrainedMeansHandled(t);
    }
  }

  /** With at least one worker no sender waits in vain: it can go on, or some worker can make room. */
  lemma SendersAreServed(workers: nat, events: seq<Event>, call: nat)
    requires workers > 0 && Possible(Initial(workers), events)
    requires call in Exec(Initial(workers), events).pending
    ensures var s := Exec(Initial(workers), events);
            || Enabled(s, Send(call)) || Enabled(s, Panic(call))
            || exists w :: Enabled(s, Receive(w)) || Enabled(s, Finish(w))
  {
    var s0 := Initial(workers);
    assert forall c :: HeldBy(s0, c) == {};
    assert Invariant(s0);
    InvariantHolds(s0, events);
    WorkerCanStep(Exec(s0, events));
  }
}
