/**
 * Status calls that overlap: every remote call is a step of its own, and calls for one device may follow each other in
 * any order between these steps. Edits of others, recorded receivers and passing time come in between.
 */
module WmbusOverlaps {
  import opened Lists
  import opened DeviceAttributes
  import opened WmbusSync
  import opened WmbusMigration
  import opened WmbusRuns

  datatype Phase = Begun | Missed | Fetched(fetched: seq<Attribute>) | Sent | Finished | Aborted

  datatype Call = Call(id: string, view: seq<Attribute>, value: string, phase: Phase)

  datatype System = System(state: State, calls: map<nat, Call>)

  /** Begin tests the view; the others are the get, the read of the device, the update request and the set. */
  datatype Action =
    | Aside(e: Event)
    | Begin(call: nat, id: string, seen: nat, view: seq<Attribute>, value: string)
    | Look(call: nat, works: bool)
    | Fetch(call: nat, works: bool, fetched: seq<Attribute>)
    | Send(call: nat, update: Update)
    | Remember(call: nat, works: bool)

  predicate In(s: System, call: nat, phase: Phase) {
    call in s.calls && s.calls[call].phase == phase
  }

  predicate Can(s: System, a: Action) {
    match a
    case Aside(e) => !e.Status?
    case Begin(call, _, _, _, _) => call !in s.calls
    case Look(call, _) => In(s, call, Begun)
    case Fetch(call, _, _) => In(s, call, Missed) && ShowsLegacy(s.calls[call].view)
    case Send(call, _) =>
      && call in s.calls
      && var c := s.calls[call]; c.phase.Fetched? || (c.phase.Missed? && !ShowsLegacy(c.view))
    case Remember(call, _) => In(s, call, Sent)
  }

  function Moved(s: System, call: nat, phase: Phase): map<nat, Call>
    requires call in s.calls
  {
    s.calls[call := s.calls[call].(phase := phase)]
  }

  /** The device's list after the update request of a call. */
  function Requested(stored: seq<Attribute>, c: Call): seq<Attribute> {
    if c.phase.Fetched? then Migrated(stored, c.phase.fetched, c.value)
    else Updated(stored, [CONNECTOR], [KeyOk(c.value)])
  }

  /** The update request of the call is applied. */
  predicate Applies(s: System, a: Action) {
    a.Send? && a.call in s.calls && !a.update.NotApplied? && s.calls[a.call].id in s.state.world.devices
  }

  predicate Found(s: System, c: Call) {
    var key := StatusKey(c.id);
    Live(s.state.world.cache, key, s.state.now) && s.state.world.cache[key].value == c.value
  }

  function Perform(deviceExpiration: int, s: System, a: Action): System
    requires Can(s, a)
  {
    match a
    case Aside(e) => s.(state := Step(deviceExpiration, s.state, e))
    case Begin(call, id, _, view, value) =>
      s.(calls := s.calls[call := Call(id, view, value, if Settled(view, value) then Finished else Begun)])
    case Look(call, works) =>
      s.(calls := Moved(s, call, if works && Found(s, s.calls[call]) then Finished else Missed))
    case Fetch(call, works, fetched) =>
      s.(calls := Moved(s, call, if works then Fetched(fetched) else Aborted))
    case Send(call, update) =>
      var c, w := s.calls[call], s.state.world;
      if !Applies(s, a) then s.(calls := Moved(s, call, Aborted))
      else
        System(s.state.(world := Written(w, c.id, Requested(w.devices[c.id], c))),
               Moved(s, call, if update.Acknowledged? then Sent else Aborted))
    case Remember(call, works) =>
      var c, w := s.calls[call], s.state.world;
      var entry := Entry(c.value, s.state.now + deviceExpiration);
      var remembering := s.state.(world := Remembering(w, StatusKey(c.id), entry));
      System(if works && deviceExpiration > 0 then remembering else s.state, Moved(s, call, Finished))
  }

  datatype OverlapRun = OverlapRun(deviceExpiration: int, systems: seq<System>, actions: seq<Action>) {
    ghost predicate Follows()
      ensures Follows() ==> |systems| == |actions| + 1
    {
      && |systems| == |actions| + 1
      && forall n :: 0 <= n < |actions| ==>
           Can(systems[n], actions[n]) && systems[n + 1] == Perform(deviceExpiration, systems[n], actions[n])
    }
  }

  function Last(r: OverlapRun): System
    requires r.systems != []
  {
    r.systems[|r.systems| - 1]
  }

  lemma Grow(r: OverlapRun, a: Action) returns (t: OverlapRun)
    requires r.Follows() && Can(Last(r), a)
    ensures t.Follows() && t.deviceExpiration == r.deviceExpiration && t.systems[0] == r.systems[0]
    ensures t.actions == r.actions + [a] && Last(t) == Perform(r.deviceExpiration, Last(r), a)
  {
    hide Perform, Can;
    t := OverlapRun(r.deviceExpiration, r.systems + [Perform(r.deviceExpiration, Last(r), a)], r.actions + [a]);
  }

  // ----- a call that nothing interrupts

  ghost predicate OnlyCall(actions: seq<Action>, call: nat) {
    forall a :: a in actions ==> IsOf(a, call)
  }

  lemma TickStep(deviceExpiration: int, span: nat)
    ensures forall s: State :: Step(deviceExpiration, s, Tick(span)) == s.(now := s.now + span)
  {
  }

  /** The call as it is before its update request, or when it ends without one. */
  predicate Prepared(s: State, e: Event, c: Call)
    requires e.Status?
  {
    && c.id == e.id && c.view == e.view && c.value == e.value
    && c.phase == if Settled(e.view, e.value) || Hits(s, e) then Finished
                  else if !ShowsLegacy(e.view) then Missed
                  else if e.remote.managerReads then Fetched(e.fetched)
                  else Aborted
  }

  lemma PrepareAlone(deviceExpiration: int, s: State, e: Event, calls: map<nat, Call>, call: nat)
    returns (r: OverlapRun)
    requires e.Status? && call !in calls
    ensures r.Follows() && r.deviceExpiration == deviceExpiration && r.systems[0] == System(s, calls)
    ensures |r.actions| > 0 && r.actions[0] == Begin(call, e.id, e.seen, e.view, e.value) && OnlyCall(r.actions, call)
    ensures Last(r).state == s && call in Last(r).calls && Prepared(s, e, Last(r).calls[call])
  {
    hide Settled, ShowsLegacy, Requested, Step, OverlapRun.Follows;
    r := RunAt(deviceExpiration, System(s, calls));
    r := Grow(r, Begin(call, e.id, e.seen, e.view, e.value));
    if !Settled(e.view, e.value) {
      r := Grow(r, Look(call, e.remote.cacheReads));
      if !Hits(s, e) && ShowsLegacy(e.view) {
        r := Grow(r, Fetch(call, e.remote.managerReads, e.fetched));
      }
    }
  }

  lemma RunAt(deviceExpiration: int, s: System) returns (r: OverlapRun)
    ensures r == OverlapRun(deviceExpiration, [s], []) && r.Follows()
  {
    r := OverlapRun(deviceExpiration, [s], []);
  }

  predicate IsOf(a: Action, call: nat) {
    if a.Aside? then a.e.Tick? else a.call == call
  }

  /** One more action of the call, or time passing. */
  lemma GrowAlone(r: OverlapRun, a: Action, call: nat) returns (t: OverlapRun)
    requires r.Follows() && Can(Last(r), a) && OnlyCall(r.actions, call) && IsOf(a, call)
    ensures t.Follows() && t.deviceExpiration == r.deviceExpiration && t.systems[0] == r.systems[0]
    ensures r.actions <= t.actions && OnlyCall(t.actions, call)
    ensures Last(t) == Perform(r.deviceExpiration, Last(r), a)
  {
    hide Perform, Can;
    t := Grow(r, a);
  }

  /** The call has ended as a sequential one does. */
  ghost predicate EndsAlike(deviceExpiration: int, t: System, s: State, e: Event, call: nat)
    requires e.Status?
  {
    && t.state == Step(deviceExpiration, s, e) && call in t.calls
    && (t.calls[call].phase.Finished? <==> StatusCall(deviceExpiration, s, e).1.Done?)
  }

  lemma WaitEndsAlike(deviceExpiration: int, before: System, s: State, e: Event, call: nat)
    requires e.Status? && before.state == s && call in before.calls && Prepared(s, e, before.calls[call])
    requires before.calls[call].phase.Finished? || before.calls[call].phase.Aborted?
    ensures EndsAlike(deviceExpiration, Perform(deviceExpiration, before, Aside(Tick(e.took))), s, e, call)
  {
    hide Settled, ShowsLegacy, Requested, StatusList, StatusCall, Step, Hits;
    StatusEffect(deviceExpiration, s, e);
    TickStep(deviceExpiration, e.took);
  }

  lemma SendEndsAlike(deviceExpiration: int, before: System, s: State, e: Event, call: nat)
    requires e.Status? && before.state == s && call in before.calls && Prepared(s, e, before.calls[call])
    requires before.calls[call].phase.Missed? || before.calls[call].phase.Fetched?
    ensures Can(before, Send(call, e.remote.update))
    ensures var sent := Perform(deviceExpiration, before, Send(call, e.remote.update));
            var waited := Perform(deviceExpiration, sent, Aside(Tick(e.took)));
            if Stores(s, e) && e.remote.update.Acknowledged? then
              var remember := Remember(call, e.remote.cacheWrites);
              && Can(waited, remember)
              && EndsAlike(deviceExpiration, Perform(deviceExpiration, waited, remember), s, e, call)
            else EndsAlike(deviceExpiration, waited, s, e, call)
  {
    hide Settled, ShowsLegacy, Requested, StatusList, StatusCall, Step, Hits, StatusKey, Written, Remembering;
    StatusEffect(deviceExpiration, s, e);
    TickStep(deviceExpiration, e.took);
    RequestedIsList(s, e, before.calls[call]);
  }

  /** Requests and remembers, if the call comes to that, after the time it takes. */
  lemma FinishAlone(before: OverlapRun, s: State, e: Event, call: nat) returns (r: OverlapRun)
    requires e.Status? && before.Follows() && Last(before).state == s
    requires call in Last(before).calls && Prepared(s, e, Last(before).calls[call])
    requires OnlyCall(before.actions, call)
    ensures r.Follows() && r.deviceExpiration == before.deviceExpiration && r.systems[0] == before.systems[0]
    ensures before.actions <= r.actions && OnlyCall(r.actions, call)
    ensures EndsAlike(r.deviceExpiration, Last(r), s, e, call)
  {
    var tick, now := Aside(Tick(e.took)), Last(before);
    var phase := now.calls[call].phase;
    assert phase.Missed? || phase.Fetched? || phase.Finished? || phase.Aborted?;
    assert forall t: System :: Can(t, tick);
    hide OverlapRun.Follows, Perform, Prepared, EndsAlike, Stores, Can, OnlyCall, Last;
    if phase.Missed? || phase.Fetched? {
      SendEndsAlike(before.deviceExpiration, now, s, e, call);
      r := GrowAlone(before, Send(call, e.remote.update), call);
      r := GrowAlone(r, tick, call);
      if Stores(s, e) && e.remote.update.Acknowledged? {
        r := GrowAlone(r, Remember(call, e.remote.cacheWrites), call);
      }
    } else {
      WaitEndsAlike(before.deviceExpiration, now, s, e, call);
      r := GrowAlone(before, tick, call);
    }
  }

  lemma RequestedIsList(s: State, e: Event, c: Call)
    requires e.Status? && Prepared(s, e, c) && (c.phase.Missed? || c.phase.Fetched?)
    ensures forall stored :: Requested(stored, c) == StatusList(stored, e.view, e.fetched, e.value)
  {
    hide Migrated, Updated, Settled, ShowsLegacy, Hits;
  }

  /** A call that takes its time but is not interrupted is one of these runs, with the same result and outcome. */
  lemma AloneIsCall(deviceExpiration: int, s: State, e: Event, calls: map<nat, Call>, call: nat)
    returns (r: OverlapRun)
    requires e.Status? && call !in calls
    ensures r.Follows() && r.deviceExpiration == deviceExpiration && r.systems[0] == System(s, calls)
    ensures |r.actions| > 0 && r.actions[0] == Begin(call, e.id, e.seen, e.view, e.value) && OnlyCall(r.actions, call)
    ensures EndsAlike(deviceExpiration, Last(r), s, e, call)
  {
    hide Prepared, EndsAlike, OnlyCall;
    r := PrepareAlone(deviceExpiration, s, e, calls, call);
    r := FinishAlone(r, s, e, call);
  }

  // ----- what one action changes

  /** Others leave the connector's origin alone. */
  ghost predicate Polite(s: System, a: Action) {
    a.Aside? ==> Respects(s.state, a.e)
  }

  /** The action sets the memory of the device. */
  predicate SetsMemory(deviceExpiration: int, s: System, a: Action, id: string) {
    a.Remember? && a.call in s.calls && s.calls[a.call].id == id && a.works && deviceExpiration > 0
  }

  lemma AsideStep(deviceExpiration: int, s: State, e: Event, id: string)
    requires !e.Status? && Respects(s, e) && id in s.world.devices
    ensures var t := Step(deviceExpiration, s, e);
            && s.now <= t.now && t.world.devices.Keys == s.world.devices.Keys && SameStatus(t.world, s.world, id)
  {
    hide Step, Respects, SameStatus;
    StatusStep(deviceExpiration, s, e, id);
    TimePasses(deviceExpiration, s, e);
    if Stores(s, e) {
      StoringIsStatus(s, e);
    }
  }

  lemma RequestedShows(stored: seq<Attribute>, c: Call)
    ensures Filter(IsConnectorKeyOk, Requested(stored, c)) == [KeyOk(c.value)]
  {
    if c.phase.Fetched? {
      MigrationWritesStatus(stored, c.phase.fetched, c.value);
    } else {
      StatusWritten(stored, c.value);
    }
  }

  /** Only an applied request for the device changes its stored status, only a set for it its memory. */
  lemma ActionStep(deviceExpiration: int, s: System, a: Action, id: string)
    requires Can(s, a) && Polite(s, a) && id in s.state.world.devices
    ensures var w, t := s.state.world, Perform(deviceExpiration, s, a);
            && s.state.now <= t.state.now && t.state.world.devices.Keys == w.devices.Keys
            && StoredStatus(t.state.world, id) == (if Applies(s, a) && s.calls[a.call].id == id then
                                                     [KeyOk(s.calls[a.call].value)]
                                                   else StoredStatus(w, id))
            && Memory(t.state.world, id) == (if SetsMemory(deviceExpiration, s, a, id) then
                                               [Entry(s.calls[a.call].value, s.state.now + deviceExpiration)]
                                             else Memory(w, id))
  {
    hide Step, Respects, Settled, ShowsLegacy, Requested;
    var t := Perform(deviceExpiration, s, a);
    match a
    case Aside(e) =>
      AsideStep(deviceExpiration, s.state, e, id);
    case Send(call, _) =>
      if Applies(s, a) {
        RequestedShows(s.state.world.devices[s.calls[call].id], s.calls[call]);
        assert t.state.world.devices.Keys == s.state.world.devices.Keys;
      }
    case Remember(call, _) =>
      KeysDiffer("", id, s.calls[call].id);
    case _ =>
  }

  /** Calls stay as they are but for the phase of the one that acts. */
  lemma CallStep(deviceExpiration: int, s: System, a: Action, c: nat)
    requires Can(s, a) && c in s.calls
    ensures var t := Perform(deviceExpiration, s, a);
            && c in t.calls && t.calls[c].(phase := Begun) == s.calls[c].(phase := Begun)
            && (a.Aside? || a.call != c ==> t.calls[c] == s.calls[c])
  {
    hide Step, Settled, ShowsLegacy, Requested;
  }

  // ----- whole runs

  ghost predicate Respected(r: OverlapRun)
    ensures Respected(r) ==> |r.systems| == |r.actions| + 1
  {
    && r.Follows()
    && r.deviceExpiration > 0
    && OneStatus(r.systems[0].state.world)
    && forall n :: 0 <= n < |r.actions| ==> Polite(r.systems[n], r.actions[n])
  }

  predicate InFlight(s: System, c: nat, id: string) {
    c in s.calls && s.calls[c].id == id && !s.calls[c].phase.Finished? && !s.calls[c].phase.Aborted?
  }

  ghost function Status(r: OverlapRun, n: nat, id: string): seq<Attribute>
    requires n < |r.systems| && id in r.systems[n].state.world.devices
  {
    StoredStatus(r.systems[n].state.world, id)
  }

  /** One action of a run, as seen from one device. */
  lemma RunStep(r: OverlapRun, n: nat, id: string)
    requires Respected(r) && n < |r.actions| && id in r.systems[n].state.world.devices
    ensures var s, a, t := r.systems[n], r.actions[n], r.systems[n + 1];
            && Can(s, a) && t == Perform(r.deviceExpiration, s, a)
            && s.state.now <= t.state.now && t.state.world.devices.Keys == s.state.world.devices.Keys
            && Status(r, n + 1, id) == (if Applies(s, a) && s.calls[a.call].id == id then [KeyOk(s.calls[a.call].value)]
                                        else Status(r, n, id))
            && Memory(t.state.world, id) == (if SetsMemory(r.deviceExpiration, s, a, id) then
                                               [Entry(s.calls[a.call].value, s.state.now + r.deviceExpiration)]
                                             else Memory(s.state.world, id))
  {
    hide Perform, Can, Polite, Memory, StoredStatus;
    ActionStep(r.deviceExpiration, r.systems[n], r.actions[n], id);
  }

  /** Time passes, the device stays, and so does every call. */
  lemma {:induction false} Persists(r: OverlapRun, id: string, m: nat, n: nat)
    requires Respected(r) && m <= n < |r.systems| && id in r.systems[0].state.world.devices
    ensures id in r.systems[m].state.world.devices && id in r.systems[n].state.world.devices
    ensures r.systems[m].state.now <= r.systems[n].state.now
    ensures forall c :: c in r.systems[m].calls ==> c in r.systems[n].calls
    decreases n
  {
    hide Respected, Perform, Memory, StoredStatus;
    if m < n {
      Persists(r, id, m, n - 1);
      RunStep(r, n - 1, id);
      forall c | c in r.systems[m].calls
        ensures c in r.systems[n].calls
      {
        CallStep(r.deviceExpiration, r.systems[n - 1], r.actions[n - 1], c);
      }
    } else if n > 0 {
      Persists(r, id, 0, n - 1);
      RunStep(r, n - 1, id);
    }
  }

  lemma {:induction false} AtMostOne(r: OverlapRun, id: string, n: nat)
    requires Respected(r) && n < |r.systems| && id in r.systems[0].state.world.devices
    ensures id in r.systems[n].state.world.devices && |Status(r, n, id)| <= 1
  {
    hide Perform, Memory;
    if n > 0 {
      AtMostOne(r, id, n - 1);
      RunStep(r, n - 1, id);
    }
  }

  lemma {:induction false} MemoryTimely(r: OverlapRun, id: string, n: nat)
    requires Respected(r) && n < |r.systems| && id in r.systems[0].state.world.devices
    requires Timely(r.deviceExpiration, r.systems[0].state, id)
    ensures Timely(r.deviceExpiration, r.systems[n].state, id)
  {
    hide Respected, Perform, Memory, StoredStatus, SetsMemory;
    if n > 0 {
      MemoryTimely(r, id, n - 1);
      Persists(r, id, n - 1, n - 1);
      RunStep(r, n - 1, id);
      MemoryMeans(r.systems[n - 1].state.world, id);
      MemoryMeans(r.systems[n].state.world, id);
    }
  }

  // ----- convergence

  /** Every call for the device that is in flight somewhere from p to j requests the value. */
  ghost predicate Agreed(r: OverlapRun, id: string, value: string, p: nat, j: nat)
    requires j < |r.systems|
  {
    forall n, c :: p <= n <= j && InFlight(r.systems[n], c, id) ==> r.systems[n].calls[c].value == value
  }

  /** Every call for the device in flight at q began after p. */
  ghost predicate BegunSince(r: OverlapRun, id: string, p: nat, q: nat)
    requires p <= q < |r.systems|
  {
    forall c :: InFlight(r.systems[q], c, id) ==> c !in r.systems[p].calls
  }

  /** A request that is applied or remembered comes from a call in flight. */
  lemma ActorInFlight(s: System, a: Action)
    requires Can(s, a) && (a.Look? || a.Fetch? || a.Send? || a.Remember?)
    ensures InFlight(s, a.call, s.calls[a.call].id)
  {
  }

  lemma {:induction false} StoredStays(r: OverlapRun, id: string, value: string, m: nat, n: nat)
    requires Respected(r) && m <= n < |r.systems| && id in r.systems[0].state.world.devices
    requires Agreed(r, id, value, m, n)
    requires id in r.systems[m].state.world.devices && Status(r, m, id) == [KeyOk(value)]
    ensures id in r.systems[n].state.world.devices && Status(r, n, id) == [KeyOk(value)]
  {
    hide Respected, Perform, Memory, StoredStatus, InFlight;
    if m < n {
      StoredStays(r, id, value, m, n - 1);
      RunStep(r, n - 1, id);
      var s, a := r.systems[n - 1], r.actions[n - 1];
      if Applies(s, a) {
        ActorInFlight(s, a);
      }
    }
  }

  /** A call that began after p and sent its request since, finds the value stored. */
  lemma {:induction false} SentIsStored(r: OverlapRun, id: string, value: string, p: nat, n: nat, c: nat)
    requires Respected(r) && p <= n < |r.systems| && id in r.systems[0].state.world.devices
    requires Agreed(r, id, value, p, n)
    requires c !in r.systems[p].calls && In(r.systems[n], c, Sent) && r.systems[n].calls[c].id == id
    ensures id in r.systems[n].state.world.devices && Status(r, n, id) == [KeyOk(value)]
  {
    hide Respected, Memory, StoredStatus, Step, Settled, ShowsLegacy, Requested, InFlight;
    if p < n {
      var s, a, t := r.systems[n - 1], r.actions[n - 1], r.systems[n];
      Persists(r, id, n - 1, n - 1);
      RunStep(r, n - 1, id);
      if Applies(s, a) {
        ActorInFlight(s, a);
      }
      if In(s, c, Sent) && !(a.Remember? && a.call == c) {
        CallStep(r.deviceExpiration, s, a, c);
        SentIsStored(r, id, value, p, n - 1, c);
      }
    }
  }

  /** Calls in flight from q on began after p. */
  lemma {:induction false} NewerCalls(r: OverlapRun, id: string, p: nat, q: nat, n: nat, c: nat)
    requires Respected(r) && p <= q <= n < |r.systems| && id in r.systems[0].state.world.devices
    requires BegunSince(r, id, p, q) && InFlight(r.systems[n], c, id)
    ensures c !in r.systems[p].calls
  {
    hide Respected, Memory, StoredStatus, Step, Settled, ShowsLegacy, Requested;
    if q < n {
      var s, a := r.systems[n - 1], r.actions[n - 1];
      Persists(r, id, p, n - 1);
      RunStep(r, n - 1, id);
      if c in s.calls {
        CallStep(r.deviceExpiration, s, a, c);
        NewerCalls(r, id, p, q, n - 1, c);
      }
    }
  }

  /** The memory is older than q, or it is the value and that is stored. */
  ghost predicate OldOrStored(r: OverlapRun, id: string, value: string, q: nat, n: nat)
    requires q < |r.systems| && n < |r.systems| && id in r.systems[n].state.world.devices
  {
    var w := r.systems[n].state.world;
    StatusKey(id) in w.cache ==>
      || w.cache[StatusKey(id)].expiry <= r.systems[q].state.now + r.deviceExpiration
      || (w.cache[StatusKey(id)].value == value && Status(r, n, id) == [KeyOk(value)])
  }

  lemma {:induction false} MemoryIsOldOrStored(r: OverlapRun, id: string, value: string, p: nat, q: nat, n: nat)
    requires Respected(r) && p <= q <= n < |r.systems| && id in r.systems[0].state.world.devices
    requires Timely(r.deviceExpiration, r.systems[0].state, id)
    requires Agreed(r, id, value, p, n) && BegunSince(r, id, p, q)
    ensures id in r.systems[n].state.world.devices && OldOrStored(r, id, value, q, n)
  {
    hide Respected, Perform, Memory, StoredStatus, InFlight, Agreed, BegunSince;
    Persists(r, id, n, n);
    if q == n {
      MemoryTimely(r, id, q);
    } else {
      var s, a, t := r.systems[n - 1], r.actions[n - 1], r.systems[n];
      AgreedShrinks(r, id, value, p, n - 1, n);
      MemoryIsOldOrStored(r, id, value, p, q, n - 1);
      RunStep(r, n - 1, id);
      MemoryMeans(s.state.world, id);
      MemoryMeans(t.state.world, id);
      if a.Remember? && s.calls[a.call].id == id {
        ActorInFlight(s, a);
        NewerCalls(r, id, p, q, n - 1, a.call);
        SentIsStored(r, id, value, p, n - 1, a.call);
        AgreedAt(r, id, value, p, n, n - 1, a.call);
      } else if Applies(s, a) {
        ActorInFlight(s, a);
        if s.calls[a.call].id == id {
          AgreedAt(r, id, value, p, n, n - 1, a.call);
        }
      }
    }
  }

  lemma AgreedShrinks(r: OverlapRun, id: string, value: string, p: nat, n: nat, j: nat)
    requires n <= j < |r.systems| && Agreed(r, id, value, p, j)
    ensures Agreed(r, id, value, p, n)
  {
  }

  lemma AgreedAt(r: OverlapRun, id: string, value: string, p: nat, j: nat, n: nat, c: nat)
    requires j < |r.systems| && Agreed(r, id, value, p, j) && p <= n <= j && InFlight(r.systems[n], c, id)
    ensures r.systems[n].calls[c].value == value
  {
  }

  /** The view a call begins with shows the device as stored in an earlier state, less than the expiration ago. */
  ghost predicate FreshBegin(r: OverlapRun, i: nat)
    requires r.Follows() && i < |r.actions| && r.actions[i].Begin?
  {
    var a := r.actions[i];
    && a.seen <= i
    && a.id in r.systems[a.seen].state.world.devices
    && IsCurrent(a.view, r.systems[a.seen].state.world.devices[a.id])
    && r.systems[i].state.now < r.systems[a.seen].state.now + r.deviceExpiration
  }

  /** The situation of the convergence: call number r.actions[i].call begins one expiration after q, and j is later. */
  ghost predicate LateCall(r: OverlapRun, value: string, p: nat, q: nat, i: nat, j: nat) {
    && Respected(r) && p <= q <= i < j < |r.systems| && r.actions[i].Begin? && r.actions[i].value == value
    && var id := r.actions[i].id;
       && id in r.systems[0].state.world.devices && Timely(r.deviceExpiration, r.systems[0].state, id)
       && Agreed(r, id, value, p, j) && BegunSince(r, id, p, q)
       && r.systems[q].state.now + r.deviceExpiration <= r.systems[i].state.now && FreshBegin(r, i)
  }

  lemma SettledIsStored(r: OverlapRun, value: string, p: nat, q: nat, i: nat)
    requires LateCall(r, value, p, q, i, i + 1) && Settled(r.actions[i].view, value)
    ensures var id := r.actions[i].id;
            id in r.systems[i + 1].state.world.devices && Status(r, i + 1, id) == [KeyOk(value)]
  {
    hide Perform, Memory, InFlight, Settled;
    var a := r.actions[i];
    if a.seen < q {
      Persists(r, a.id, a.seen, q);
    }
    AtMostOne(r, a.id, a.seen);
    ViewShowsStatus(a.view, r.systems[a.seen].state.world.devices[a.id], value);
    StoredStays(r, a.id, value, a.seen, i + 1);
  }

  lemma FoundIsStored(r: OverlapRun, value: string, p: nat, q: nat, i: nat, n: nat)
    requires LateCall(r, value, p, q, i, n)
    requires Live(r.systems[n].state.world.cache, StatusKey(r.actions[i].id), r.systems[n].state.now)
    ensures var id := r.actions[i].id; id in r.systems[n].state.world.devices && Status(r, n, id) == [KeyOk(value)]
  {
    hide Respected, Perform, Memory, InFlight, Agreed, BegunSince;
    var id := r.actions[i].id;
    MemoryIsOldOrStored(r, id, value, p, q, n);
    Persists(r, id, i, n);
  }

  lemma {:induction false} FinishedIsStored(r: OverlapRun, value: string, p: nat, q: nat, i: nat, n: nat)
    requires LateCall(r, value, p, q, i, n)
    ensures var a := r.actions[i];
            && a.id in r.systems[n].state.world.devices && a.call in r.systems[n].calls
            && r.systems[n].calls[a.call].id == a.id && r.systems[n].calls[a.call].value == value
            && a.call !in r.systems[i].calls
            && (r.systems[n].calls[a.call].phase.Finished? ==> Status(r, n, a.id) == [KeyOk(value)])
  {
    hide Memory, StoredStatus, Step, Settled, ShowsLegacy, Requested, Respected, Agreed, BegunSince, InFlight;
    hide FreshBegin;
    var a, id := r.actions[i], r.actions[i].id;
    Persists(r, id, i, n);
    if n == i + 1 {
      RunStep(r, i, id);
      if Settled(a.view, value) {
        SettledIsStored(r, value, p, q, i);
      }
    } else {
      var s, b, c := r.systems[n - 1], r.actions[n - 1], a.call;
      AgreedShrinks(r, id, value, p, n - 1, n);
      FinishedIsStored(r, value, p, q, i, n - 1);
      Persists(r, id, n - 1, n - 1);
      RunStep(r, n - 1, id);
      CallStep(r.deviceExpiration, s, b, c);
      if s.calls[c].phase.Finished? {
        StoredKeeps(r, id, value, p, n);
      } else if !b.Aside? && b.call == c && b.Look? && Found(s, s.calls[c]) {
        FoundIsStored(r, value, p, q, i, n - 1);
      } else if !b.Aside? && b.call == c && b.Remember? {
        Persists(r, id, p, i);
        SentIsStored(r, id, value, p, n - 1, c);
      }
    }
  }

  lemma StoredKeeps(r: OverlapRun, id: string, value: string, p: nat, n: nat)
    requires Respected(r) && p < n < |r.systems| && id in r.systems[0].state.world.devices
    requires Agreed(r, id, value, p, n)
    requires id in r.systems[n - 1].state.world.devices && Status(r, n - 1, id) == [KeyOk(value)]
    ensures id in r.systems[n].state.world.devices && Status(r, n, id) == [KeyOk(value)]
  {
    StoredStays(r, id, value, n - 1, n);
  }

  /**
   * Convergence with overlapping calls: let every call for a device in flight since p request one status, and every one
   * in flight at q have begun after p. Then each call that begins one expiration after q and finishes without error
   * leaves exactly one status of the connector stored, with that value, whatever failed and whatever came in between.
   */
  lemma OverlapConvergence(r: OverlapRun, value: string, p: nat, q: nat, i: nat, j: nat)
    requires LateCall(r, value, p, q, i, j)
    ensures var a := r.actions[i];
            && a.id in r.systems[j].state.world.devices && a.call in r.systems[j].calls
            && (r.systems[j].calls[a.call].phase.Finished? ==> Status(r, j, a.id) == [KeyOk(value)])
  {
    hide LateCall, Status;
    FinishedIsStored(r, value, p, q, i, j);
  }

  // ----- without such a point in time

  /** The part of a call up to its request, for a device without status in the view. */
  lemma BeginAndSend(r: OverlapRun, call: nat, value: string) returns (t: OverlapRun)
    requires r.Follows() && r.deviceExpiration > 0 && call !in Last(r).calls && "d" in Last(r).state.world.devices
    requires StatusKey("d") !in Last(r).state.world.cache && !Settled([], value) && !ShowsLegacy([])
    ensures t.Follows() && t.deviceExpiration == r.deviceExpiration && t.systems[0] == r.systems[0]
    ensures t.actions == r.actions + [Begin(call, "d", 0, [], value), Look(call, true), Send(call, Acknowledged)]
    ensures Last(t).calls == Last(r).calls[call := Call("d", [], value, Sent)]
    ensures var w, v := Last(r).state.world, Last(t).state.world;
            && Last(t).state.now == Last(r).state.now && v.cache == w.cache && v.devices.Keys == w.devices.Keys
            && StoredStatus(v, "d") == [KeyOk(value)]
  {
    hide Settled, ShowsLegacy, Requested, StoredStatus, OverlapRun.Follows;
    t := Grow(r, Begin(call, "d", 0, [], value));
    t := Grow(t, Look(call, true));
    var c := Last(t).calls[call];
    StoredRequested(Last(t).state.world, c);
    t := Grow(t, Send(call, Acknowledged));
  }

  lemma StoredRequested(w: World, c: Call)
    requires c.id in w.devices
    ensures StoredStatus(Written(w, c.id, Requested(w.devices[c.id], c)), c.id) == [KeyOk(c.value)]
  {
    RequestedShows(w.devices[c.id], c);
  }

  /** The second call runs between request and set of the first one: memory and store disagree, though nothing fails. */
  lemma OverlapCanDisagree() returns (r: OverlapRun)
    ensures Respected(r) && Consistent(r.systems[0].state)
    ensures var s := Last(r);
            && s.calls.Keys == {0, 1} && s.calls[0].phase.Finished? && s.calls[1].phase.Finished?
            && s.calls[0].value == "true" && s.calls[1].value == "false"
            && "d" in s.state.world.devices && StoredStatus(s.state.world, "d") == [KeyOk("false")]
            && Live(s.state.world.cache, StatusKey("d"), s.state.now)
            && s.state.world.cache[StatusKey("d")].value == "true"
  {
    hide Settled, ShowsLegacy, Requested, OverlapRun.Follows, StatusKey;
    NothingIsSettled();
    r := RunAt(60 * SECOND, System(START, map[]));
    r := BeginAndSend(r, 0, "true");
    r := BeginAndSend(r, 1, "false");
    r := Grow(r, Remember(1, true));
    r := Grow(r, Remember(0, true));
    NothingAside(r);
  }

  lemma NothingIsSettled()
    ensures forall value :: !Settled([], value)
    ensures !ShowsLegacy([])
  {
  }

  lemma NothingAside(r: OverlapRun)
    requires r.Follows() && r.deviceExpiration > 0 && OneStatus(r.systems[0].state.world)
    requires forall a :: a in r.actions ==> !a.Aside?
    ensures Respected(r)
  {
  }
}
