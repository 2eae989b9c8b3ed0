/**
 * Whole runs of the synchronisation: the connector updates statuses from stale device views and records receiving
 * gateways while others edit the devices. Calls of the connector follow each other; time passes between them.
 */
module WmbusRuns {
  import opened Lists
  import opened Strings
  import opened DeviceAttributes
  import opened WmbusSync
  import opened WmbusMigration

  datatype State = State(world: World, now: int)

  /** Recording takes some time up to the set, and some more up to the update request. */
  datatype Event =
    | Tick(span: nat)
    | Edit(id: string, attributes: seq<Attribute>)
    | Status(id: string, seen: nat, view: seq<Attribute>, fetched: seq<Attribute>, value: string, took: nat,
             remote: Remote)
    | Record(id: string, nimbusId: string, stamp: string, delay: nat, lag: nat, remote: Remote)

  function StatusCall(deviceExpiration: int, s: State, e: Event): (World, Outcome)
    requires e.Status?
  {
    UpdateStatus(s.world, e.remote, deviceExpiration, e.id, e.view, e.fetched, e.value, s.now, s.now + e.took)
  }

  function Step(deviceExpiration: int, s: State, e: Event): State {
    match e
    case Tick(span) => s.(now := s.now + span)
    case Edit(id, attributes) => s.(world := s.world.(devices := s.world.devices[id := attributes]))
    case Status(_, _, _, _, _, took, _) => State(StatusCall(deviceExpiration, s, e).0, s.now + took)
    case Record(id, nimbusId, stamp, delay, lag, remote) =>
      var setAt, putAt := s.now + delay, s.now + delay + lag;
      State(RecordReceiver(s.world, remote, id, nimbusId, stamp, s.now, setAt, putAt).0, putAt)
  }

  /** A sequence of events and the states between them. */
  datatype Run = Run(deviceExpiration: int, states: seq<State>, events: seq<Event>) {
    ghost predicate Follows() {
      && |states| == |events| + 1
      && forall i :: 0 <= i < |events| ==> states[i + 1] == Step(deviceExpiration, states[i], events[i])
    }
  }

  lemma {:induction false} ClockMonotone(r: Run, i: nat, j: nat)
    requires r.Follows() && i <= j < |r.states|
    ensures r.states[i].now <= r.states[j].now
  {
    if i < j {
      ClockMonotone(r, i, j - 1);
      assert r.states[j] == Step(r.deviceExpiration, r.states[j - 1], r.events[j - 1]);
    }
  }

  lemma KeysDiffer(nimbusId: string, deviceId: string, other: string)
    ensures ReceiverKey(nimbusId, deviceId) != StatusKey(other)
    ensures StatusKey(deviceId) == StatusKey(other) <==> deviceId == other
  {
    assert ReceiverKey(nimbusId, deviceId)[6] == 'l' && StatusKey(other)[6] == 'k';
    assert StatusKey(deviceId)[13..] == deviceId && StatusKey(other)[13..] == other;
  }

  // ----- the effect of one call

  /** The attributes a status call stores, if it writes. */
  function StatusList(stored: seq<Attribute>, view: seq<Attribute>, fetched: seq<Attribute>, value: string)
    : seq<Attribute>
  {
    if ShowsLegacy(view) then Migrated(stored, fetched, value) else Updated(stored, [CONNECTOR], [KeyOk(value)])
  }

  function Written(w: World, id: string, attributes: seq<Attribute>): World {
    w.(devices := w.devices[id := attributes])
  }

  function Remembering(w: World, key: string, entry: Entry): World {
    w.(cache := w.cache[key := entry])
  }

  /** A status call finds its status in the memory. */
  predicate Hits(s: State, e: Event)
    requires e.Status?
  {
    var key := StatusKey(e.id);
    e.remote.cacheReads && Live(s.world.cache, key, s.now) && s.world.cache[key].value == e.value
  }

  /** A status call stores its list: neither view nor memory stops it, and its request is applied. */
  predicate Stores(s: State, e: Event) {
    && e.Status? && !Settled(e.view, e.value) && !Hits(s, e)
    && (ShowsLegacy(e.view) ==> e.remote.managerReads)
    && !e.remote.update.NotApplied? && e.id in s.world.devices
  }

  predicate Remembers(deviceExpiration: int, s: State, e: Event) {
    Stores(s, e) && e.remote.update.Acknowledged? && deviceExpiration > 0 && e.remote.cacheWrites
  }

  /** What a status call leaves, and when it succeeds, for every combination of failing remote calls. */
  lemma StatusEffect(deviceExpiration: int, s: State, e: Event)
    requires e.Status?
    ensures var w, t := s.world, Step(deviceExpiration, s, e);
            && t.now == s.now + e.took
            && t.world == (if !Stores(s, e) then w
                           else
                             var v := Written(w, e.id, StatusList(w.devices[e.id], e.view, e.fetched, e.value));
                             if Remembers(deviceExpiration, s, e) then
                               Remembering(v, StatusKey(e.id), Entry(e.value, t.now + deviceExpiration))
                             else v)
    ensures StatusCall(deviceExpiration, s, e).1.Done?
            <==> Settled(e.view, e.value) || Hits(s, e) || (Stores(s, e) && e.remote.update.Acknowledged?)
  {
    hide Wire, Settled, LegacyOrigins, MigrationRequest;
  }

  /** Recording a receiver changes nothing, or remembers it, or remembers and stores it. */
  lemma RecordEffect(deviceExpiration: int, s: State, e: Event)
    requires e.Record?
    ensures var w, v := s.world, Step(deviceExpiration, s, e).world;
            var key, setAt := ReceiverKey(e.nimbusId, e.id), s.now + e.delay;
            var remembering := Remembering(w, key, Entry(e.nimbusId, setAt + LAST_SEEN_INTERVAL))
              .(writes := w.writes + [ReceiverWrite(e.nimbusId, e.id, setAt, setAt + e.lag)]);
            || v == w
            || (!Live(w.cache, key, s.now) && e.nimbusId != ""
                && (|| v == remembering
                    || (e.id in w.devices
                        && var list := Updated(w.devices[e.id], [e.nimbusId], [LastSeen(e.nimbusId, e.stamp)]);
                           v == Written(remembering, e.id, list))))
  {
  }

  lemma StatusWire()
    ensures Wire([CONNECTOR]) == [CONNECTOR]
  {
    hide Wire;
    assert ',' !in CONNECTOR;
    OriginsSurvive([CONNECTOR]);
  }

  // ----- frame: what others store, stays

  /** The step sends the device an update that names the origin. */
  ghost predicate Writes(e: Event, origin: string, id: string) {
    match e
    case Tick(_) => false
    case Edit(_, _) => false
    case Status(other, _, view, fetched, _, _, _) =>
      other == id && if ShowsLegacy(view) then origin in Wire(LegacyOrigins(fetched)) else origin == CONNECTOR
    case Record(other, nimbusId, _, _, _, _) => other == id && origin in Split(nimbusId, ',')
  }

  /** The kept attributes of a device are the same before and after a step. */
  ghost predicate Keeps(s: State, t: State, keep: Attribute -> bool, id: string) {
    && id in s.world.devices && id in t.world.devices
    && Filter(keep, t.world.devices[id]) == Filter(keep, s.world.devices[id])
  }

  lemma OtherDevice(deviceExpiration: int, s: State, e: Event, id: string)
    requires !e.Edit? && (e.Tick? || e.id != id) && id in s.world.devices
    ensures var t := Step(deviceExpiration, s, e);
            id in t.world.devices && t.world.devices[id] == s.world.devices[id]
  {
    hide UpdateStatus, RecordReceiver, StatusList, Updated, Stores, Remembers;
    if e.Status? {
      StatusEffect(deviceExpiration, s, e);
    } else if e.Record? {
      RecordEffect(deviceExpiration, s, e);
    }
  }

  /** From whatever view, a connector step leaves the attributes of every origin it does not name as they are. */
  lemma StepFrame(deviceExpiration: int, s: State, e: Event, origin: string, id: string)
    requires !e.Edit? && !Writes(e, origin, id) && id in s.world.devices
    ensures Keeps(s, Step(deviceExpiration, s, e), OfOrigin(origin), id)
  {
    hide Wire;
    var stored := s.world.devices[id];
    if e.Tick? || e.id != id {
      OtherDevice(deviceExpiration, s, e, id);
    } else if e.Status? {
      StatusEffect(deviceExpiration, s, e);
      if ShowsLegacy(e.view) {
        UpdateFrame(stored, LegacyOrigins(e.fetched), MigrationRequest(KeyOk(e.value), e.fetched), origin);
      } else {
        StatusWire();
        UpdateFrame(stored, [CONNECTOR], [KeyOk(e.value)], origin);
      }
    } else {
      RecordEffect(deviceExpiration, s, e);
      SingleOrigin(e.nimbusId);
      UpdateFrame(stored, [e.nimbusId], [LastSeen(e.nimbusId, e.stamp)], origin);
    }
  }

  /**
   * The step sends the device an update that names the origin and need not return what is stored with it: a migration
   * does return it, if it read the current list and the origin is one it replaces.
   */
  ghost predicate Disturbs(s: State, e: Event, origin: string, id: string)
    requires id in s.world.devices
  {
    && Writes(e, origin, id)
    && (e.Status? && ShowsLegacy(e.view) && IsCurrent(e.fetched, s.world.devices[id]) ==>
          origin !in LegacyOrigins(e.fetched))
  }

  /** A step that does not disturb an origin leaves its attributes with other keys than the status as they are. */
  lemma StepKeepsOthers(deviceExpiration: int, s: State, e: Event, origin: string, id: string)
    requires id in s.world.devices && !e.Edit? && !Disturbs(s, e, origin, id)
    ensures Keeps(s, Step(deviceExpiration, s, e), OthersOf(origin), id)
  {
    hide Wire, LegacyOrigins, Migrated, ShowsLegacy, Settled;
    var t := Step(deviceExpiration, s, e);
    if Writes(e, origin, id) {
      StatusEffect(deviceExpiration, s, e);
      MigrationKeepsOrigin(s.world.devices[id], e.fetched, e.value, origin);
    } else {
      StepFrame(deviceExpiration, s, e, origin, id);
      FilterFilter(OthersOf(origin), OfOrigin(origin), OthersOf(origin), s.world.devices[id]);
      FilterFilter(OthersOf(origin), OfOrigin(origin), OthersOf(origin), t.world.devices[id]);
    }
  }

  /** The kept attributes of a device as last edited, up to event i. */
  function LastEdited(r: Run, keep: Attribute -> bool, id: string, i: nat): seq<Attribute>
    requires r.Follows() && i <= |r.events| && id in r.states[0].world.devices
  {
    if i == 0 then Filter(keep, r.states[0].world.devices[id])
    else if r.events[i - 1].Edit? && r.events[i - 1].id == id then Filter(keep, r.events[i - 1].attributes)
    else LastEdited(r, keep, id, i - 1)
  }

  lemma DevicesStay(deviceExpiration: int, s: State, e: Event, id: string)
    requires id in s.world.devices
    ensures id in Step(deviceExpiration, s, e).world.devices
  {
    if e.Record? {
      RecordEffect(deviceExpiration, s, e);
    } else if e.Status? {
      StatusEffect(deviceExpiration, s, e);
    }
  }

  lemma {:induction false} DevicePersists(r: Run, id: string, i: nat)
    requires r.Follows() && i < |r.states| && id in r.states[0].world.devices
    ensures id in r.states[i].world.devices
  {
    hide Step;
    if i > 0 {
      DevicePersists(r, id, i - 1);
      assert r.states[i] == Step(r.deviceExpiration, r.states[i - 1], r.events[i - 1]);
      DevicesStay(r.deviceExpiration, r.states[i - 1], r.events[i - 1], id);
    }
  }

  lemma {:induction false} LastEditedStands(r: Run, keep: Attribute -> bool, id: string, i: nat)
    requires r.Follows() && i <= |r.events| && id in r.states[0].world.devices
    requires forall k :: 0 <= k < i && !r.events[k].Edit? ==> Keeps(r.states[k], r.states[k + 1], keep, id)
    ensures id in r.states[i].world.devices && Filter(keep, r.states[i].world.devices[id]) == LastEdited(r, keep, id, i)
  {
    if i > 0 {
      LastEditedStands(r, keep, id, i - 1);
      assert r.states[i] == Step(r.deviceExpiration, r.states[i - 1], r.events[i - 1]);
      assert !r.events[i - 1].Edit? ==> Keeps(r.states[i - 1], r.states[i], keep, id);
    }
  }

  /** In any interleaving, the attributes of an origin no connector step writes are those its owner stored last. */
  lemma EditsStand(r: Run, origin: string, id: string, i: nat)
    requires r.Follows() && i <= |r.events| && id in r.states[0].world.devices
    requires forall k :: 0 <= k < i ==> !Writes(r.events[k], origin, id)
    ensures id in r.states[i].world.devices
    ensures Filter(OfOrigin(origin), r.states[i].world.devices[id]) == LastEdited(r, OfOrigin(origin), id, i)
  {
    hide Step, Writes;
    forall k | 0 <= k < i && !r.events[k].Edit?
      ensures Keeps(r.states[k], r.states[k + 1], OfOrigin(origin), id)
    {
      DevicePersists(r, id, k);
      assert r.states[k + 1] == Step(r.deviceExpiration, r.states[k], r.events[k]);
      StepFrame(r.deviceExpiration, r.states[k], r.events[k], origin, id);
    }
    LastEditedStands(r, OfOrigin(origin), id, i);
  }

  /**
   * With migrations among the steps the same holds for the attributes with other keys, like the key of a device, as
   * long as each migration that names the origin read the current list and replaces the origin as a whole.
   */
  lemma OtherEditsStand(r: Run, origin: string, id: string, i: nat)
    requires r.Follows() && i <= |r.events| && id in r.states[0].world.devices
    requires forall k :: 0 <= k < i && id in r.states[k].world.devices ==>
      !Disturbs(r.states[k], r.events[k], origin, id)
    ensures id in r.states[i].world.devices
    ensures Filter(OthersOf(origin), r.states[i].world.devices[id]) == LastEdited(r, OthersOf(origin), id, i)
  {
    hide Step, Disturbs;
    forall k | 0 <= k < i && !r.events[k].Edit?
      ensures Keeps(r.states[k], r.states[k + 1], OthersOf(origin), id)
    {
      DevicePersists(r, id, k);
      assert r.states[k + 1] == Step(r.deviceExpiration, r.states[k], r.events[k]);
      StepKeepsOthers(r.deviceExpiration, r.states[k], r.events[k], origin, id);
    }
    LastEditedStands(r, OthersOf(origin), id, i);
  }

  /** A migration of the device that reads its current list, without commas in its legacy origins. */
  ghost predicate CleanMigration(s: State, e: Event, id: string) {
    && e.Status? && e.id == id && ShowsLegacy(e.view) && id in s.world.devices
    && IsCurrent(e.fetched, s.world.devices[id]) && LegacyOriginsFree(s.world.devices[id])
  }

  /** Clean migrations disturb no origin at all. */
  lemma CleanDisturbsNothing(s: State, e: Event, origin: string, id: string)
    requires CleanMigration(s, e, id)
    ensures !Disturbs(s, e, origin, id)
  {
    MigrationWire(s.world.devices[id], e.fetched);
  }

  // ----- migrations end

  /** A step brings a legacy status to a device without one only by an edit that stores one. */
  lemma LegacyStep(deviceExpiration: int, s: State, e: Event, id: string)
    requires id in s.world.devices && !ShowsLegacy(s.world.devices[id])
    ensures var t := Step(deviceExpiration, s, e);
            && id in t.world.devices
            && (ShowsLegacy(t.world.devices[id]) <==> e.Edit? && e.id == id && ShowsLegacy(e.attributes))
  {
    hide Wire, LegacyOrigins, Filter, Settled;
    if !e.Edit? && (e.Tick? || e.id != id) {
      OtherDevice(deviceExpiration, s, e, id);
    } else if e.Status? {
      StatusEffect(deviceExpiration, s, e);
    } else if e.Record? {
      RecordEffect(deviceExpiration, s, e);
      assert LastSeen(e.nimbusId, e.stamp).key[6] == 'l' && KEY_OK[6] == 'k';
    }
  }

  /** From event p on, no edit up to event i stores a legacy status on the device. */
  ghost predicate NoLegacyEdits(r: Run, id: string, p: nat, i: nat)
    requires i <= |r.events|
  {
    forall k :: p <= k < i && r.events[k].Edit? && r.events[k].id == id ==> !ShowsLegacy(r.events[k].attributes)
  }

  lemma {:induction false} LegacyStaysAway(r: Run, id: string, p: nat, i: nat)
    requires r.Follows() && p <= i <= |r.events| && NoLegacyEdits(r, id, p, i)
    requires id in r.states[p].world.devices && !ShowsLegacy(r.states[p].world.devices[id])
    ensures id in r.states[i].world.devices && !ShowsLegacy(r.states[i].world.devices[id])
  {
    hide Step, ShowsLegacy;
    if p < i {
      LegacyStaysAway(r, id, p, i - 1);
      assert r.states[i] == Step(r.deviceExpiration, r.states[i - 1], r.events[i - 1]);
      LegacyStep(r.deviceExpiration, r.states[i - 1], r.events[i - 1], id);
    }
  }

  lemma CurrentShowsLegacy(view: seq<Attribute>, stored: seq<Attribute>)
    requires IsCurrent(view, stored)
    ensures ShowsLegacy(view) <==> ShowsLegacy(stored)
  {
    if a :| a in view && IsLegacyKeyOk(a) {
      LegacyIsNotDefault(a, view, stored);
    }
    if a :| a in stored && IsLegacyKeyOk(a) {
      LegacyIsNotDefault(a, view, stored);
    }
  }

  /** A device without legacy status for the expiration time is not migrated. */
  lemma NoLateMigration(r: Run, id: string, p: nat, i: nat)
    requires r.Follows() && p <= i < |r.events| && NoLegacyEdits(r, id, p, i)
    requires id in r.states[p].world.devices && !ShowsLegacy(r.states[p].world.devices[id])
    requires r.states[p].now + r.deviceExpiration <= r.states[i].now
    requires r.events[i].Status? && r.events[i].id == id && FreshView(r, i)
    ensures !ShowsLegacy(r.events[i].view)
  {
    hide Step, ShowsLegacy;
    var e := r.events[i];
    if e.seen < p {
      ClockMonotone(r, e.seen, p);
    }
    LegacyStaysAway(r, id, p, e.seen);
    CurrentShowsLegacy(e.view, r.states[e.seen].world.devices[id]);
  }

  /** So a clean migration that is applied is the last one, but for those from views that do not show it yet. */
  lemma MigratedOnce(r: Run, id: string, k: nat, i: nat)
    requires r.Follows() && k < i < |r.events| && NoLegacyEdits(r, id, k + 1, i)
    requires CleanMigration(r.states[k], r.events[k], id)
    requires r.states[k + 1].now + r.deviceExpiration <= r.states[i].now
    requires r.events[i].Status? && r.events[i].id == id && FreshView(r, i)
    ensures Stores(r.states[k], r.events[k]) ==> !ShowsLegacy(r.events[i].view)
  {
    hide Wire, Settled;
    var s, e := r.states[k], r.events[k];
    assert r.states[k + 1] == Step(r.deviceExpiration, s, e);
    StatusEffect(r.deviceExpiration, s, e);
    if Stores(s, e) {
      MigrationRemovesLegacy(s.world.devices[id], e.fetched, e.value);
      NoLateMigration(r, id, k + 1, i);
    }
  }

  /** The view of a status call shows the device as stored in an earlier state, less than the expiration ago. */
  ghost predicate FreshView(r: Run, i: nat)
    requires r.Follows() && i < |r.events| && r.events[i].Status?
  {
    var e := r.events[i];
    && e.seen <= i
    && e.id in r.states[e.seen].world.devices
    && IsCurrent(e.view, r.states[e.seen].world.devices[e.id])
    && r.states[i].now < r.states[e.seen].now + r.deviceExpiration
  }

  // ----- the decryption status

  ghost function StoredStatus(w: World, id: string): seq<Attribute>
    requires id in w.devices
  {
    Filter(IsConnectorKeyOk, w.devices[id])
  }

  ghost predicate OneStatus(w: World) {
    forall id :: id in w.devices ==> |StoredStatus(w, id)| <= 1
  }

  /** A status that is still remembered is the stored one, and no device has two. */
  ghost predicate Consistent(s: State) {
    && OneStatus(s.world)
    && forall id :: id in s.world.devices && Live(s.world.cache, StatusKey(id), s.now) ==>
         StoredStatus(s.world, id) == [KeyOk(s.world.cache[StatusKey(id)].value)]
  }

  /** Others leave the connector's origin alone. */
  ghost predicate Respects(s: State, e: Event) {
    match e
    case Tick(_) => true
    case Status(_, _, _, _, _, _, _) => true
    case Edit(id, attributes) =>
      && id in s.world.devices
      && Filter(OfOrigin(CONNECTOR), attributes) == Filter(OfOrigin(CONNECTOR), s.world.devices[id])
    case Record(_, nimbusId, _, _, _, _) => CONNECTOR !in Split(nimbusId, ',')
  }

  lemma SameOriginSameStatus(a: seq<Attribute>, b: seq<Attribute>)
    requires Filter(OfOrigin(CONNECTOR), a) == Filter(OfOrigin(CONNECTOR), b)
    ensures Filter(IsConnectorKeyOk, a) == Filter(IsConnectorKeyOk, b)
  {
    FilterFilter(IsConnectorKeyOk, OfOrigin(CONNECTOR), IsConnectorKeyOk, a);
    FilterFilter(IsConnectorKeyOk, OfOrigin(CONNECTOR), IsConnectorKeyOk, b);
  }

  lemma StatusWritten(stored: seq<Attribute>, value: string)
    ensures Filter(IsConnectorKeyOk, Updated(stored, [CONNECTOR], [KeyOk(value)])) == [KeyOk(value)]
  {
    hide Wire;
    StatusWire();
    UpdateReplaces(stored, [CONNECTOR], [KeyOk(value)], IsConnectorKeyOk);
  }

  /** The memory of a device's status, as far as it is kept. */
  function Memory(w: World, id: string): seq<Entry> {
    if StatusKey(id) in w.cache then [w.cache[StatusKey(id)]] else []
  }

  /** The stored status and its memory are as before. */
  ghost predicate SameStatus(v: World, w: World, id: string)
    requires id in w.devices && id in v.devices
  {
    StoredStatus(v, id) == StoredStatus(w, id) && Memory(v, id) == Memory(w, id)
  }

  /** Only a status call for the device changes its stored status, to the requested value, whatever fails meanwhile. */
  lemma StatusStep(deviceExpiration: int, s: State, e: Event, id: string)
    requires Respects(s, e) && id in s.world.devices
    ensures var w, t := s.world, Step(deviceExpiration, s, e);
            && t.world.devices.Keys == w.devices.Keys
            && (if Stores(s, e) && e.id == id then
                  && StoredStatus(t.world, id) == [KeyOk(e.value)]
                  && Memory(t.world, id) ==
                       if Remembers(deviceExpiration, s, e) then [Entry(e.value, t.now + deviceExpiration)]
                       else Memory(w, id)
                else SameStatus(t.world, w, id))
  {
    hide UpdateStatus, RecordReceiver, StatusList, Updated, Settled, ShowsLegacy;
    var w, v := s.world, Step(deviceExpiration, s, e).world;
    match e
    case Tick(_) =>
    case Edit(other, attributes) =>
      SameOriginSameStatus(attributes, w.devices[other]);
      assert v.devices.Keys == w.devices.Keys;
    case Status(other, _, _, _, _, _, _) =>
      StatusEffect(deviceExpiration, s, e);
      KeysDiffer("", id, other);
      if Stores(s, e) {
        StatusListShows(w.devices[other], e);
      }
      assert v.devices.Keys == w.devices.Keys;
    case Record(_, _, _, _, _, _) =>
      RecordStep(deviceExpiration, s, e, id);
  }

  lemma StatusListShows(stored: seq<Attribute>, e: Event)
    requires e.Status?
    ensures Filter(IsConnectorKeyOk, StatusList(stored, e.view, e.fetched, e.value)) == [KeyOk(e.value)]
  {
    StatusWritten(stored, e.value);
    MigrationWritesStatus(stored, e.fetched, e.value);
  }

  lemma RecordStep(deviceExpiration: int, s: State, e: Event, id: string)
    requires Respects(s, e) && e.Record? && id in s.world.devices
    ensures var w, v := s.world, Step(deviceExpiration, s, e).world;
            v.devices.Keys == w.devices.Keys && SameStatus(v, w, id)
  {
    var w, v := s.world, Step(deviceExpiration, s, e).world;
    RecordEffect(deviceExpiration, s, e);
    assert v.devices.Keys == w.devices.Keys;
    KeysDiffer(e.nimbusId, e.id, id);
    SingleOrigin(e.nimbusId);
    var list := Updated(w.devices[id], [e.nimbusId], [LastSeen(e.nimbusId, e.stamp)]);
    UpdateFrame(w.devices[id], [e.nimbusId], [LastSeen(e.nimbusId, e.stamp)], CONNECTOR);
    SameOriginSameStatus(list, w.devices[id]);
  }

  lemma SameDevices(deviceExpiration: int, s: State, e: Event)
    requires Respects(s, e)
    ensures Step(deviceExpiration, s, e).world.devices.Keys == s.world.devices.Keys
  {
    if id :| id in s.world.devices {
      StatusStep(deviceExpiration, s, e, id);
    } else if e.Record? {
      RecordEffect(deviceExpiration, s, e);
    } else if e.Status? {
      StatusEffect(deviceExpiration, s, e);
    }
  }

  /** A status is stored without being remembered, while another value stays in the memory. */
  predicate Forgets(deviceExpiration: int, s: State, e: Event) {
    && Stores(s, e) && !Remembers(deviceExpiration, s, e)
    && Live(s.world.cache, StatusKey(e.id), s.now + e.took) && s.world.cache[StatusKey(e.id)].value != e.value
  }

  /** A step keeps memory and store consistent exactly if it does not forget. */
  lemma ConsistentStep(deviceExpiration: int, s: State, e: Event)
    requires Respects(s, e) && Consistent(s)
    ensures Consistent(Step(deviceExpiration, s, e)) <==> !Forgets(deviceExpiration, s, e)
  {
    hide Settled, ShowsLegacy, Hits, Respects, StoredStatus, Step;
    var t := Step(deviceExpiration, s, e);
    SameDevices(deviceExpiration, s, e);
    TimePasses(deviceExpiration, s, e);
    forall id | id in s.world.devices
      ensures |StoredStatus(t.world, id)| <= 1
      ensures Live(t.world.cache, StatusKey(id), t.now) ==>
        (StoredStatus(t.world, id) == [KeyOk(t.world.cache[StatusKey(id)].value)]
         <==> !(Forgets(deviceExpiration, s, e) && e.id == id))
    {
      StatusStep(deviceExpiration, s, e, id);
      MemoryMeans(t.world, id);
      MemoryMeans(s.world, id);
    }
    if Forgets(deviceExpiration, s, e) {
      StatusStep(deviceExpiration, s, e, e.id);
      MemoryMeans(t.world, e.id);
      MemoryMeans(s.world, e.id);
    }
  }

  lemma TimePasses(deviceExpiration: int, s: State, e: Event)
    ensures s.now <= Step(deviceExpiration, s, e).now
    ensures e.Status? ==> Step(deviceExpiration, s, e).now == s.now + e.took
  {
  }

  lemma MemoryMeans(w: World, id: string)
    ensures Memory(w, id) == if StatusKey(id) in w.cache then [w.cache[StatusKey(id)]] else []
  {
  }

  /** A run in which others leave the connector's origin alone; remote calls may fail as they like. */
  ghost predicate Respected(r: Run) {
    && r.Follows()
    && r.deviceExpiration > 0
    && OneStatus(r.states[0].world)
    && forall i :: 0 <= i < |r.events| ==> Respects(r.states[i], r.events[i])
  }

  lemma {:induction false} OneStatusHolds(r: Run, i: nat)
    requires Respected(r) && i < |r.states|
    ensures OneStatus(r.states[i].world) && r.states[i].world.devices.Keys == r.states[0].world.devices.Keys
  {
    hide Step, Respects, Stores, Remembers, StoredStatus;
    if i > 0 {
      OneStatusHolds(r, i - 1);
      var s, e := r.states[i - 1], r.events[i - 1];
      assert r.states[i] == Step(r.deviceExpiration, s, e);
      SameDevices(r.deviceExpiration, s, e);
      forall id | id in s.world.devices
        ensures |StoredStatus(r.states[i].world, id)| <= 1
      {
        StatusStep(r.deviceExpiration, s, e, id);
      }
    }
  }

  /** In every reachable state a remembered status equals the stored one, if no call before forgets. */
  lemma {:induction false} MemoryIsStored(r: Run, i: nat)
    requires Respected(r) && Consistent(r.states[0]) && i < |r.states|
    requires forall k :: 0 <= k < i ==> !Forgets(r.deviceExpiration, r.states[k], r.events[k])
    ensures Consistent(r.states[i])
  {
    hide Consistent, Forgets, Respects, Step;
    if i > 0 {
      MemoryIsStored(r, i - 1);
      assert r.states[i] == Step(r.deviceExpiration, r.states[i - 1], r.events[i - 1]);
      ConsistentStep(r.deviceExpiration, r.states[i - 1], r.events[i - 1]);
    }
  }

  /** From event p on, every status requested for the device up to event i is the same. */
  ghost predicate Constant(r: Run, id: string, value: string, p: nat, i: nat)
    requires i <= |r.events|
  {
    forall k :: p <= k < i && r.events[k].Status? && r.events[k].id == id ==> r.events[k].value == value
  }

  lemma {:induction false} StatusStays(r: Run, id: string, value: string, p: nat, i: nat)
    requires Respected(r) && p <= i <= |r.events| && id in r.states[0].world.devices
    requires Constant(r, id, value, p, i)
    requires id in r.states[p].world.devices && StoredStatus(r.states[p].world, id) == [KeyOk(value)]
    ensures id in r.states[i].world.devices && StoredStatus(r.states[i].world, id) == [KeyOk(value)]
  {
    hide Step, StoredStatus, Respects, Memory, Stores, Remembers;
    if p < i {
      StatusStays(r, id, value, p, i - 1);
      assert r.states[i] == Step(r.deviceExpiration, r.states[i - 1], r.events[i - 1]);
      StatusStep(r.deviceExpiration, r.states[i - 1], r.events[i - 1], id);
      if Stores(r.states[i - 1], r.events[i - 1]) {
        StoringIsStatus(r.states[i - 1], r.events[i - 1]);
      }
    }
  }

  lemma StoringIsStatus(s: State, e: Event)
    requires Stores(s, e)
    ensures e.Status? && e.id in s.world.devices
  {
  }

  /** No status is remembered for longer than the expiration. */
  ghost predicate Timely(deviceExpiration: int, s: State, id: string) {
    StatusKey(id) in s.world.cache ==> s.world.cache[StatusKey(id)].expiry <= s.now + deviceExpiration
  }

  lemma {:induction false} MemoryIsTimely(r: Run, id: string, i: nat)
    requires Respected(r) && i < |r.states| && id in r.states[0].world.devices
    requires Timely(r.deviceExpiration, r.states[0], id)
    ensures Timely(r.deviceExpiration, r.states[i], id)
  {
    hide Step, StoredStatus, Respects, Memory, Stores, Remembers;
    if i > 0 {
      MemoryIsTimely(r, id, i - 1);
      OneStatusHolds(r, i - 1);
      var s, t := r.states[i - 1], r.states[i];
      assert t == Step(r.deviceExpiration, s, r.events[i - 1]);
      StatusStep(r.deviceExpiration, s, r.events[i - 1], id);
      TimePasses(r.deviceExpiration, s, r.events[i - 1]);
      MemoryMeans(s.world, id);
      MemoryMeans(t.world, id);
    }
  }

  /** The memory is older than event p, or remembers what is requested since and stored. */
  ghost predicate OldOrTrue(r: Run, id: string, value: string, p: nat, i: nat)
    requires p < |r.states| && i < |r.states| && id in r.states[i].world.devices
  {
    var w := r.states[i].world;
    StatusKey(id) in w.cache ==>
      || w.cache[StatusKey(id)].expiry <= r.states[p].now + r.deviceExpiration
      || (w.cache[StatusKey(id)].value == value && StoredStatus(w, id) == [KeyOk(value)])
  }

  lemma {:induction false} MemoryIsOldOrTrue(r: Run, id: string, value: string, p: nat, i: nat)
    requires Respected(r) && p <= i <= |r.events| && id in r.states[0].world.devices
    requires Timely(r.deviceExpiration, r.states[0], id)
    requires Constant(r, id, value, p, i)
    ensures id in r.states[i].world.devices && OldOrTrue(r, id, value, p, i)
  {
    hide Step, StoredStatus, Respects, Memory, Stores, Remembers;
    OneStatusHolds(r, i);
    if p == i {
      MemoryIsTimely(r, id, p);
    } else {
      MemoryIsOldOrTrue(r, id, value, p, i - 1);
      var s, t, e := r.states[i - 1], r.states[i], r.events[i - 1];
      assert t == Step(r.deviceExpiration, s, e);
      StatusStep(r.deviceExpiration, s, e, id);
      MemoryMeans(s.world, id);
      MemoryMeans(t.world, id);
      if Stores(s, e) {
        StoringIsStatus(s, e);
      }
    }
  }

  lemma ViewShowsStatus(view: seq<Attribute>, stored: seq<Attribute>, value: string)
    requires IsCurrent(view, stored) && |Filter(IsConnectorKeyOk, stored)| <= 1 && Settled(view, value)
    ensures Filter(IsConnectorKeyOk, stored) == [KeyOk(value)]
  {
    FilterFilter(IsConnectorKeyOk, NotDefault, IsConnectorKeyOk, view);
    FilterFilter(IsConnectorKeyOk, NotDefault, IsConnectorKeyOk, stored);
  }

  /**
   * Convergence: once the status requested for a device has been the same for the expiration time, every further call
   * that succeeds leaves exactly one status of the connector stored, with that value, whatever failed before.
   */
  lemma Convergence(r: Run, id: string, value: string, p: nat, i: nat)
    requires Respected(r) && p <= i < |r.events| && id in r.states[0].world.devices
    requires Timely(r.deviceExpiration, r.states[0], id)
    requires Constant(r, id, value, p, i + 1)
    requires r.states[p].now + r.deviceExpiration <= r.states[i].now
    requires r.events[i].Status? && r.events[i].id == id && FreshView(r, i)
    ensures id in r.states[i + 1].world.devices
    ensures StatusCall(r.deviceExpiration, r.states[i], r.events[i]).1.Done? ==>
      StoredStatus(r.states[i + 1].world, id) == [KeyOk(value)]
  {
    hide Respects, Step, StatusCall, Settled, Memory;
    var s, e := r.states[i], r.events[i];
    var seen := e.seen;
    OneStatusHolds(r, i);
    OneStatusHolds(r, seen);
    StatusEffect(r.deviceExpiration, s, e);
    if Settled(e.view, value) {
      if seen < p {
        ClockMonotone(r, seen, p);
      }
      ViewShowsStatus(e.view, r.states[seen].world.devices[id], value);
      StatusStays(r, id, value, seen, i);
    } else if Hits(s, e) {
      MemoryIsOldOrTrue(r, id, value, p, i);
    }
    assert r.states[i + 1] == Step(r.deviceExpiration, s, e);
    StatusStep(r.deviceExpiration, s, e, id);
  }

  /**
   * A call leaves the requested status stored exactly if it stores or that status is stored already. If memory and
   * store are consistent, a successful call does exactly if its view does not stop it or that status is stored already.
   */
  lemma CallSettles(deviceExpiration: int, s: State, e: Event)
    requires e.Status? && e.id in s.world.devices
    ensures var w := Step(deviceExpiration, s, e).world;
            && e.id in w.devices
            && (StoredStatus(w, e.id) == [KeyOk(e.value)]
                <==> Stores(s, e) || StoredStatus(s.world, e.id) == [KeyOk(e.value)])
            && (Consistent(s) && StatusCall(deviceExpiration, s, e).1.Done? ==>
                  (StoredStatus(w, e.id) == [KeyOk(e.value)]
                   <==> !Settled(e.view, e.value) || StoredStatus(s.world, e.id) == [KeyOk(e.value)]))
  {
    hide StatusCall, Settled, Memory, StoredStatus, Step;
    StatusEffect(deviceExpiration, s, e);
    StatusStep(deviceExpiration, s, e, e.id);
  }

  // ----- two runs that end with another status than the one requested last

  function Request(seen: nat, view: seq<Attribute>, value: string, remote: Remote): Event {
    Status("d", seen, view, [], value, 0, remote)
  }

  const START := State(World(map["d" := []], map[], []), 0)

  /** From a view without status and legacy status a call that works stores and remembers. */
  lemma RequestEffect(deviceExpiration: int, s: State, view: seq<Attribute>, seen: nat, value: string, remote: Remote)
    requires "d" in s.world.devices && deviceExpiration > 0
    requires !ShowsLegacy(view) && !Settled(view, value) && !Hits(s, Request(seen, view, value, remote))
    requires remote.update.Acknowledged?
    ensures var t := Step(deviceExpiration, s, Request(seen, view, value, remote));
            var w := Written(s.world, "d", Updated(s.world.devices["d"], [CONNECTOR], [KeyOk(value)]));
            && t.now == s.now
            && t.world == if remote.cacheWrites then
                            Remembering(w, StatusKey("d"), Entry(value, s.now + deviceExpiration))
                          else w
  {
    hide Updated, Settled, ShowsLegacy, Step, StatusCall;
    var e := Request(seen, view, value, remote);
    StatusEffect(deviceExpiration, s, e);
  }

  /** Old views: the third call finds its status in a view that is older than the second call. */
  lemma StatusCanLag() returns (r: Run)
    ensures Respected(r) && Consistent(r.states[0]) && |r.events| == 3
    ensures forall i :: 0 <= i < 3 ==>
      r.events[i].Status? && r.events[i].id == "d" && r.events[i].remote == ALL_WORK && FreshView(r, i)
    ensures r.events[2].value == "true" && StatusCall(r.deviceExpiration, r.states[2], r.events[2]).1.Done?
    ensures "d" in r.states[3].world.devices && StoredStatus(r.states[3].world, "d") == [KeyOk("false")]
  {
    hide Wire, Updated;
    var e := 60 * SECOND;
    var first, second := Request(0, [], "true", ALL_WORK), Request(0, [], "false", ALL_WORK);
    var s1, s2 := Step(e, START, first), Step(e, Step(e, START, first), second);
    assert !Settled([], "true") && !Settled([], "false");
    RequestEffect(e, START, [], 0, "true", ALL_WORK);
    RequestEffect(e, s1, [], 0, "false", ALL_WORK);
    StatusWritten([], "true");
    var view := s1.world.devices["d"];
    StatusWritten(view, "false");
    OnlyStatus("true");
    var third := Request(1, view, "true", ALL_WORK);
    assert CurrentIndex(view) == 0 && Settled(view, "true");
    var s3 := Step(e, s2, third);
    StatusEffect(e, s2, third);
    r := Run(e, [START, s1, s2, s3], [first, second, third]);
  }

  lemma OnlyStatus(value: string)
    ensures Updated([], [CONNECTOR], [KeyOk(value)]) == [KeyOk(value)]
  {
    hide Wire;
    StatusWire();
  }

  /** The second call stores another status while the memory still holds the first one. */
  lemma SecondIsForgotten(deviceExpiration: int, s: State, remote: Remote)
    requires deviceExpiration > 0 && remote == ALL_WORK.(cacheWrites := false) && OneStatus(s.world)
    requires s.now == 0 && "d" in s.world.devices
    requires s.world.cache == map[StatusKey("d") := Entry("true", deviceExpiration)]
    ensures var e := Request(0, [], "false", remote);
            var t := Step(deviceExpiration, s, e);
            && Forgets(deviceExpiration, s, e)
            && t.now == 0 && t.world.cache == s.world.cache
            && "d" in t.world.devices && StoredStatus(t.world, "d") == [KeyOk("false")]
  {
    hide Wire, Updated;
    RequestEffect(deviceExpiration, s, [], 0, "false", remote);
    StatusWritten(s.world.devices["d"], "false");
  }

  /** The third call trusts that memory. */
  lemma ThirdIsHit(deviceExpiration: int, s: State)
    requires deviceExpiration > 0 && s.now == 0
    requires s.world.cache == map[StatusKey("d") := Entry("true", deviceExpiration)]
    ensures var e := Request(0, [], "true", ALL_WORK);
            && !Settled(e.view, "true")
            && Step(deviceExpiration, s, e) == s && StatusCall(deviceExpiration, s, e).1.Done?
  {
    hide Wire, Updated;
    StatusEffect(deviceExpiration, s, Request(0, [], "true", ALL_WORK));
  }

  /** A failing set: the third call finds its status in a memory that is older than the second call. */
  lemma StatusCanBeForgotten() returns (r: Run)
    ensures Respected(r) && Consistent(r.states[0]) && |r.events| == 3
    ensures forall i :: 0 <= i < 3 ==> r.events[i].Status? && r.events[i].id == "d" && FreshView(r, i)
    ensures r.events[1].remote == ALL_WORK.(cacheWrites := false)
    ensures Forgets(r.deviceExpiration, r.states[1], r.events[1])
    ensures r.events[0].remote == r.events[2].remote == ALL_WORK && !Settled(r.events[2].view, "true")
    ensures r.events[2].value == "true" && StatusCall(r.deviceExpiration, r.states[2], r.events[2]).1.Done?
    ensures "d" in r.states[3].world.devices && StoredStatus(r.states[3].world, "d") == [KeyOk("false")]
    ensures !Consistent(r.states[3])
  {
    hide Updated, StatusCall, Forgets, Settled, Step;
    var e, failing := 60 * SECOND, ALL_WORK.(cacheWrites := false);
    var first, second := Request(0, [], "true", ALL_WORK), Request(0, [], "false", failing);
    var third := Request(0, [], "true", ALL_WORK);
    FirstIsStored(e);
    var s1 := Step(e, START, first);
    SecondIsForgotten(e, s1, failing);
    var s2 := Step(e, s1, second);
    ThirdIsHit(e, s2);
    r := Run(e, [START, s1, s2, s2], [first, second, third]);
  }

  lemma FirstIsStored(deviceExpiration: int)
    requires deviceExpiration > 0
    ensures var t := Step(deviceExpiration, START, Request(0, [], "true", ALL_WORK));
            && t.now == 0 && t.world.devices.Keys == {"d"} && OneStatus(t.world)
            && t.world.cache == map[StatusKey("d") := Entry("true", deviceExpiration)]
            && StoredStatus(t.world, "d") == [KeyOk("true")] && t.world.devices["d"] == [KeyOk("true")]
  {
    hide Wire, Updated;
    RequestEffect(deviceExpiration, START, [], 0, "true", ALL_WORK);
    StatusWritten([], "true");
    OnlyStatus("true");
  }

  // ----- write throttling

  /** Every tried write is still remembered for the interval after its set. */
  ghost predicate Remembered(s: State) {
    forall x :: x in s.world.writes ==>
      var key := ReceiverKey(x.nimbusId, x.deviceId);
      x.at <= x.putAt <= s.now && key in s.world.cache && x.at + LAST_SEEN_INTERVAL <= s.world.cache[key].expiry
  }

  predicate SameTarget(x: ReceiverWrite, y: ReceiverWrite) {
    x.nimbusId == y.nimbusId && x.deviceId == y.deviceId
  }

  /** A write is remembered, and sent, at least the interval after the one before was remembered, once that was sent. */
  ghost predicate Spaced(writes: seq<ReceiverWrite>) {
    forall i, j :: 0 <= i < j < |writes| && SameTarget(writes[i], writes[j]) ==>
      writes[i].at + LAST_SEEN_INTERVAL <= writes[j].at <= writes[j].putAt && writes[i].putAt <= writes[j].at
  }

  ghost predicate Throttled(s: State) {
    Remembered(s) && Spaced(s.world.writes) && forall x :: x in s.world.writes ==> x.nimbusId != ""
  }

  /** Writes stay as they are, and so does what is remembered of them, while time passes. */
  lemma ThrottleFrame(s: State, t: State)
    requires Throttled(s) && s.now <= t.now && t.world.writes == s.world.writes
    requires forall x :: x in s.world.writes && ReceiverKey(x.nimbusId, x.deviceId) in s.world.cache ==>
      var key := ReceiverKey(x.nimbusId, x.deviceId);
      key in t.world.cache && t.world.cache[key] == s.world.cache[key]
    ensures Throttled(t)
  {
    hide Spaced;
  }

  /** A new write is remembered anew, when nothing remembers an earlier one any more. */
  lemma ThrottleWrite(s: State, t: State, x: ReceiverWrite)
    requires Throttled(s) && x.nimbusId != "" && s.now <= x.at <= x.putAt <= t.now
    requires !Live(s.world.cache, ReceiverKey(x.nimbusId, x.deviceId), s.now)
    requires t.world.writes == s.world.writes + [x]
    requires t.world.cache ==
             s.world.cache[ReceiverKey(x.nimbusId, x.deviceId) := Entry(x.nimbusId, x.at + LAST_SEEN_INTERVAL)]
    ensures Throttled(t)
  {
    var n := |s.world.writes|;
    forall i | 0 <= i < n && SameTarget(s.world.writes[i], x)
      ensures s.world.writes[i].at + LAST_SEEN_INTERVAL <= x.at && s.world.writes[i].putAt <= x.at
    {
      assert s.world.writes[i] in s.world.writes;
    }
    hide ReceiverKey;
  }

  lemma ThrottleStep(deviceExpiration: int, s: State, e: Event)
    requires Throttled(s)
    ensures Throttled(Step(deviceExpiration, s, e))
  {
    hide UpdateStatus, RecordReceiver, StatusList, Updated, Stores, Remembers, Throttled, ReceiverKey, Live;
    var t := Step(deviceExpiration, s, e);
    match e
    case Tick(_) =>
      ThrottleFrame(s, t);
    case Edit(_, _) =>
      ThrottleFrame(s, t);
    case Record(_, _, _, _, _, _) =>
      RecordEffect(deviceExpiration, s, e);
      if t.world == s.world {
        ThrottleFrame(s, t);
      } else {
        ThrottleWrite(s, t, ReceiverWrite(e.nimbusId, e.id, s.now + e.delay, s.now + e.delay + e.lag));
      }
    case Status(_, _, _, _, _, _, _) =>
      StatusEffect(deviceExpiration, s, e);
      forall x | x in s.world.writes
        ensures ReceiverKey(x.nimbusId, x.deviceId) != StatusKey(e.id)
      {
        KeysDiffer(x.nimbusId, x.deviceId, e.id);
      }
      ThrottleFrame(s, t);
  }

  /**
   * Two tried writes for the same gateway and device are remembered at least the interval apart, even when writes
   * fail, so they are sent at least the interval less the lag of the first one apart; a write needs a gateway id.
   */
  lemma {:induction false} WritesAreThrottled(r: Run, i: nat)
    requires r.Follows() && i < |r.states| && r.states[0].world.writes == []
    ensures Throttled(r.states[i])
  {
    if i > 0 {
      WritesAreThrottled(r, i - 1);
      hide Throttled, Step;
      assert r.states[i] == Step(r.deviceExpiration, r.states[i - 1], r.events[i - 1]);
      ThrottleStep(r.deviceExpiration, r.states[i - 1], r.events[i - 1]);
    }
  }

  /** The bound is reached: whatever the lag of a request, the next one can follow the interval less that lag later. */
  lemma RequestsCanBeCloser(lag: nat) returns (r: Run)
    ensures r.Follows() && r.states[0].world.writes == [] && |r.events| == 3
    ensures r.events[0].Record? && r.events[0].lag == lag && r.events[0].remote == ALL_WORK
    ensures var x := r.states[3].world.writes;
            && |x| == 2 && SameTarget(x[0], x[1]) && x[0].putAt - x[0].at == lag
            && x[1].putAt - x[0].putAt == if lag < LAST_SEEN_INTERVAL then LAST_SEEN_INTERVAL - lag else 0
  {
    hide Updated;
    var rest := if lag < LAST_SEEN_INTERVAL then LAST_SEEN_INTERVAL - lag else 0;
    var first, wait, second := Record("d", "g", "", 0, lag, ALL_WORK), Tick(rest), Record("d", "g", "", 0, 0, ALL_WORK);
    var s1 := Step(0, START, first);
    var s2 := Step(0, s1, wait);
    r := Run(0, [START, s1, s2, Step(0, s2, second)], [first, wait, second]);
  }

  /** Requests for one gateway and device follow one of this lag at least the interval later. */
  ghost predicate RequestsSpaced(writes: seq<ReceiverWrite>, lag: int) {
    forall i, j ::
      0 <= i < j < |writes| && SameTarget(writes[i], writes[j]) && writes[i].putAt - writes[i].at == lag ==>
      writes[i].putAt + LAST_SEEN_INTERVAL <= writes[j].putAt
  }

  /** In every run the requests after one with a lag are an interval apart from it exactly if it has none. */
  lemma RequestsAreSpaced(lag: nat)
    ensures (forall r: Run, i: nat :: r.Follows() && i < |r.states| && r.states[0].world.writes == [] ==>
               RequestsSpaced(r.states[i].world.writes, lag))
            <==> lag == 0
  {
    if lag == 0 {
      forall r: Run, i: nat | r.Follows() && i < |r.states| && r.states[0].world.writes == []
        ensures RequestsSpaced(r.states[i].world.writes, lag)
      {
        WritesAreThrottled(r, i);
      }
    } else {
      var r := RequestsCanBeCloser(lag);
      assert SameTarget(r.states[3].world.writes[0], r.states[3].world.writes[1]);
      assert !RequestsSpaced(r.states[3].world.writes, lag);
    }
  }

  /** The receiver of a telegram gets stored under its own origin exactly if its id holds no comma. */
  lemma ReceiverStored(stored: seq<Attribute>, nimbusId: string, stamp: string)
    ensures var after := Updated(stored, [nimbusId], [LastSeen(nimbusId, stamp)]);
            Filter(OfOrigin(nimbusId), after) == [LastSeen(nimbusId, stamp)]
            <==> ',' !in nimbusId || Filter(OfOrigin(nimbusId), stored) == [LastSeen(nimbusId, stamp)]
  {
    SingleOrigin(nimbusId);
    if ',' !in nimbusId {
      SplitFree(nimbusId, ',');
      UpdateReplaces(stored, [nimbusId], [LastSeen(nimbusId, stamp)], OfOrigin(nimbusId));
    } else {
      UpdateFrame(stored, [nimbusId], [LastSeen(nimbusId, stamp)], nimbusId);
    }
  }
}
