/** What the connector writes to the attributes of a wM-Bus device: the decryption status and the receiving gateways. */
module WmbusSync {
  import opened Lists
  import opened Strings
  import opened DeviceAttributes

  const KEY_OK := "wmbus/key-ok"
  const CONNECTOR := "senergy-platform-connector"
  // account defaults are merged into a device on read but not stored with it
  const DEFAULT_ORIGIN := "default"
  const LAST_SEEN_PREFIX := "wmbus/last_seen/"
  const SECOND := 1_000_000_000
  const LAST_SEEN_INTERVAL := 60 * SECOND

  // ----- attributes

  function KeyOk(value: string): Attribute {
    Attribute(KEY_OK, value, CONNECTOR)
  }

  predicate IsConnectorKeyOk(a: Attribute) {
    a.key == KEY_OK && a.origin == CONNECTOR
  }

  predicate IsLegacyKeyOk(a: Attribute) {
    a.key == KEY_OK && a.origin != CONNECTOR && a.origin != DEFAULT_ORIGIN
  }

  predicate OtherKey(a: Attribute) {
    a.key != KEY_OK
  }

  predicate NotDefault(a: Attribute) {
    a.origin != DEFAULT_ORIGIN
  }

  predicate ShowsLegacy(view: seq<Attribute>) {
    exists a :: a in view && IsLegacyKeyOk(a)
  }

  /** The first status of the connector's origin. */
  function CurrentIndex(view: seq<Attribute>): (i: int)
    ensures -1 <= i < |view|
    ensures i == -1 ==> Filter(IsConnectorKeyOk, view) == []
    ensures i != -1 ==>
      IsConnectorKeyOk(view[i]) && Filter(IsConnectorKeyOk, view) != [] && Filter(IsConnectorKeyOk, view)[0] == view[i]
  {
    if view == [] then -1
    else if IsConnectorKeyOk(view[0]) then 0
    else
      var i := CurrentIndex(view[1..]);
      if i == -1 then -1 else i + 1
  }

  /** The view already shows the requested status and nothing to migrate. */
  predicate Settled(view: seq<Attribute>, value: string) {
    var i := CurrentIndex(view);
    i != -1 && view[i].value == value && !ShowsLegacy(view)
  }

  /** The connector's origin, then that of each legacy status once, in order. */
  function LegacyOrigins(attrs: seq<Attribute>): (origins: seq<string>)
    ensures |origins| >= 1 && origins[0] == CONNECTOR && DEFAULT_ORIGIN !in origins
    ensures forall a :: a in attrs && IsLegacyKeyOk(a) ==> a.origin in origins
    ensures forall o :: o in origins ==> o == CONNECTOR || exists a :: a in attrs && IsLegacyKeyOk(a) && a.origin == o
  {
    if attrs == [] then [CONNECTOR]
    else
      var pre, a := attrs[..|attrs| - 1], attrs[|attrs| - 1];
      assert attrs == pre + [a];
      var origins := LegacyOrigins(pre);
      if IsLegacyKeyOk(a) && a.origin !in origins then origins + [a.origin] else origins
  }

  function Carried(origins: seq<string>): Attribute -> bool {
    (a: Attribute) => OtherKey(a) && a.origin in origins
  }

  /** The attributes a migration sends: the new status, and all else stored with one of the replaced origins. */
  function MigrationRequest(keyOk: Attribute, fetched: seq<Attribute>): seq<Attribute> {
    [keyOk] + Filter(Carried(LegacyOrigins(fetched)), fetched)
  }

  // ----- the cache with expiring entries

  datatype Entry = Entry(value: string, expiry: int)

  type EntryMap = map<string, Entry>

  predicate Live(cache: EntryMap, key: string, now: int) {
    key in cache && now < cache[key].expiry
  }

  function StatusKey(deviceId: string): string {
    "wmbus.key-ok." + deviceId
  }

  function ReceiverKey(nimbusId: string, deviceId: string): string {
    "wmbus.last_seen." + nimbusId + "." + deviceId
  }

  // ----- the state the connector changes

  /** A tried write of the receiving gateway, with the clock readings at which it was remembered and sent. */
  datatype ReceiverWrite = ReceiverWrite(nimbusId: string, deviceId: string, at: int, putAt: int)

  datatype World = World(devices: map<string, seq<Attribute>>, cache: EntryMap, writes: seq<ReceiverWrite>)

  /** Which of the remote calls work; a device-manager answer to a read may lag behind its updates. */
  datatype Remote = Remote(cacheReads: bool, cacheWrites: bool, managerReads: bool, update: Update)

  const ALL_WORK := Remote(true, true, true, Acknowledged)

  datatype Outcome = Done | Failed

  function Put(w: World, remote: Remote, id: string, origins: seq<string>, attributes: seq<Attribute>)
    : (World, Outcome)
  {
    if remote.update.NotApplied? || id !in w.devices then (w, Failed)
    else
      (w.(devices := w.devices[id := Updated(w.devices[id], origins, attributes)]),
       if remote.update.Acknowledged? then Done else Failed)
  }

  function LastSeen(nimbusId: string, stamp: string): Attribute {
    Attribute(LAST_SEEN_PREFIX + nimbusId, stamp, nimbusId)
  }

  function RecordReceiver(w: World, remote: Remote, deviceId: string, nimbusId: string, stamp: string,
                          readAt: int, setAt: int, putAt: int): (World, Outcome) {
    var key := ReceiverKey(nimbusId, deviceId);
    if nimbusId == "" || !remote.cacheReads then (w, Failed)
    else if Live(w.cache, key, readAt) then (w, Done)
    else if !remote.cacheWrites then (w, Failed)
    else
      var remembered := w.(cache := w.cache[key := Entry(nimbusId, setAt + LAST_SEEN_INTERVAL)],
                           writes := w.writes + [ReceiverWrite(nimbusId, deviceId, setAt, putAt)]);
      Put(remembered, remote, deviceId, [nimbusId], [LastSeen(nimbusId, stamp)])
  }

  /** deviceExpiration is the lifetime of device views and of the remembered status. */
  function UpdateStatus(w: World, remote: Remote, deviceExpiration: int, deviceId: string, view: seq<Attribute>,
                        fetched: seq<Attribute>, value: string, readAt: int, setAt: int): (World, Outcome) {
    var key := StatusKey(deviceId);
    if Settled(view, value) then (w, Done)
    else if remote.cacheReads && Live(w.cache, key, readAt) && w.cache[key].value == value then (w, Done)
    else if ShowsLegacy(view) && !remote.managerReads then (w, Failed)
    else
      var (written, outcome) :=
        if ShowsLegacy(view) then
          Put(w, remote, deviceId, LegacyOrigins(fetched), MigrationRequest(KeyOk(value), fetched))
        else Put(w, remote, deviceId, [CONNECTOR], [KeyOk(value)]);
      if outcome.Failed? then (written, Failed)
      else if deviceExpiration > 0 && remote.cacheWrites then
        (written.(cache := written.cache[key := Entry(value, setAt + deviceExpiration)]), Done)
      else (written, Done)
  }

  // ----- the connector

  class Connector {
    const manager: DeviceManager
    const deviceExpiration: int
    var cache: EntryMap
    ghost var writes: seq<ReceiverWrite>

    ghost function State(): World
      reads this, manager
    {
      World(manager.devices, cache, writes)
    }

    constructor (manager: DeviceManager, deviceExpiration: int)
      ensures this.manager == manager && this.deviceExpiration == deviceExpiration
      ensures State() == World(manager.devices, map[], [])
    {
      this.manager := manager;
      this.deviceExpiration := deviceExpiration;
      cache := map[];
      writes := [];
    }

    method SetSameOriginAttributes(remote: Remote, deviceId: string, origins: seq<string>, attributes: seq<Attribute>)
      returns (outcome: Outcome)
      modifies manager
      ensures (State(), outcome) == old(Put(State(), remote, deviceId, origins, attributes))
    {
      outcome := Failed;
      if !remote.update.NotApplied? {
        var found := manager.PublishDeviceAttributesUpdate(deviceId, attributes, Wire(origins));
        if found && remote.update.Acknowledged? {
          outcome := Done;
        }
      }
    }

    method RecordWmbusReceiver(remote: Remote, deviceId: string, nimbusId: string, stamp: string,
                               readAt: int, setAt: int, putAt: int)
      returns (outcome: Outcome)
      modifies this, manager
      ensures (State(), outcome)
              == old(RecordReceiver(State(), remote, deviceId, nimbusId, stamp, readAt, setAt, putAt))
    {
      if nimbusId == "" {
        return Failed;
      }
      var key := ReceiverKey(nimbusId, deviceId);
      if !remote.cacheReads {
        return Failed;
      }
      if Live(cache, key, readAt) {
        return Done;
      }
      if !remote.cacheWrites {
        return Failed;
      }
      cache := cache[key := Entry(nimbusId, setAt + LAST_SEEN_INTERVAL)];
      writes := writes + [ReceiverWrite(nimbusId, deviceId, setAt, putAt)];
      outcome := SetSameOriginAttributes(remote, deviceId, [nimbusId], [LastSeen(nimbusId, stamp)]);
    }

    static method CollectOrigins(first: string, fetched: seq<Attribute>) returns (origins: seq<string>)
      requires first == CONNECTOR
      ensures origins == LegacyOrigins(fetched)
    {
      origins := [first];
      for i := 0 to |fetched|
        invariant origins == LegacyOrigins(fetched[..i])
      {
        assert fetched[..i + 1][..i] == fetched[..i];
        if IsLegacyKeyOk(fetched[i]) && fetched[i].origin !in origins {
          origins := origins + [fetched[i].origin];
        }
      }
      assert fetched[..|fetched|] == fetched;
    }

    static method CollectAttributes(keyOk: Attribute, origins: seq<string>, fetched: seq<Attribute>)
      returns (attributes: seq<Attribute>)
      requires keyOk.key == KEY_OK
      ensures attributes == [keyOk] + Filter(Carried(origins), fetched)
    {
      hide Filter;
      attributes := [keyOk];
      FilterEmpty(Carried(origins));
      for i := 0 to |fetched|
        invariant attributes == [keyOk] + Filter(Carried(origins), fetched[..i])
      {
        FilterStep(Carried(origins), fetched, i);
        if fetched[i].key != keyOk.key && fetched[i].origin in origins {
          attributes := attributes + [fetched[i]];
        }
      }
      assert fetched[..|fetched|] == fetched;
    }

    method ReplaceLegacyKeyOk(remote: Remote, deviceId: string, keyOk: Attribute, fetched: seq<Attribute>)
      returns (outcome: Outcome)
      requires keyOk.key == KEY_OK && keyOk.origin == CONNECTOR
      modifies manager
      ensures !remote.managerReads ==> outcome == Failed && State() == old(State())
      ensures remote.managerReads ==>
        (State(), outcome)
        == old(Put(State(), remote, deviceId, LegacyOrigins(fetched), MigrationRequest(keyOk, fetched)))
    {
      if !remote.managerReads {
        return Failed;
      }
      var origins := CollectOrigins(keyOk.origin, fetched);
      var attributes := CollectAttributes(keyOk, origins, fetched);
      outcome := SetSameOriginAttributes(remote, deviceId, origins, attributes);
    }

    method UpdateDeviceDecryptionStatus(remote: Remote, deviceId: string, view: seq<Attribute>, fetched: seq<Attribute>,
                                        value: string, readAt: int, setAt: int)
      returns (outcome: Outcome)
      modifies this, manager
      ensures (State(), outcome)
              == old(UpdateStatus(State(), remote, deviceExpiration, deviceId, view, fetched, value, readAt, setAt))
    {
      hide Updated, LegacyOrigins, MigrationRequest;
      var current := CurrentIndex(view);
      var legacy := exists a :: a in view && IsLegacyKeyOk(a);
      if current != -1 && view[current].value == value && !legacy {
        return Done;
      }
      var key := StatusKey(deviceId);
      if remote.cacheReads && Live(cache, key, readAt) && cache[key].value == value {
        return Done;
      }
      var keyOk := KeyOk(value);
      if legacy {
        outcome := ReplaceLegacyKeyOk(remote, deviceId, keyOk, fetched);
      } else {
        outcome := SetSameOriginAttributes(remote, deviceId, [CONNECTOR], [keyOk]);
      }
      if outcome == Failed {
        return Failed;
      }
      if deviceExpiration > 0 && remote.cacheWrites {
        cache := cache[key := Entry(value, setAt + deviceExpiration)];
      }
    }
  }
}
