/** The one-time replacement of statuses written by earlier versions. */
module WmbusMigration {
  import opened Lists
  import opened Strings
  import opened DeviceAttributes
  import opened WmbusSync

  /** What is stored after a migration of a device whose attributes were read as fetched. */
  function Migrated(stored: seq<Attribute>, fetched: seq<Attribute>, value: string): seq<Attribute> {
    Updated(stored, LegacyOrigins(fetched), MigrationRequest(KeyOk(value), fetched))
  }

  /** A read shows the stored attributes in order, with account defaults merged in. */
  ghost predicate IsCurrent(fetched: seq<Attribute>, stored: seq<Attribute>) {
    Filter(NotDefault, fetched) == Filter(NotDefault, stored)
  }

  /** Whatever was read, nothing of the default origin is sent. */
  lemma NoDefaultIsSent(fetched: seq<Attribute>, value: string)
    ensures forall a :: a in MigrationRequest(KeyOk(value), fetched) ==> NotDefault(a)
  {
  }

  lemma LegacyIsNotDefault(a: Attribute, fetched: seq<Attribute>, stored: seq<Attribute>)
    requires IsCurrent(fetched, stored) && NotDefault(a)
    ensures a in fetched <==> a in stored
  {
    assert a in Filter(NotDefault, fetched) <==> a in fetched;
    assert a in Filter(NotDefault, stored) <==> a in stored;
  }

  ghost predicate LegacyOriginsFree(stored: seq<Attribute>) {
    forall a :: a in stored && IsLegacyKeyOk(a) ==> ',' !in a.origin
  }

  lemma MigrationWire(stored: seq<Attribute>, fetched: seq<Attribute>)
    requires IsCurrent(fetched, stored) && LegacyOriginsFree(stored)
    ensures Wire(LegacyOrigins(fetched)) == LegacyOrigins(fetched)
  {
    hide Wire, LegacyOrigins, Filter;
    var origins := LegacyOrigins(fetched);
    forall o | o in origins
      ensures ',' !in o
    {
      if o != CONNECTOR {
        var a :| a in fetched && IsLegacyKeyOk(a) && a.origin == o;
        LegacyIsNotDefault(a, fetched, stored);
      }
    }
    OriginsSurvive(origins);
  }

  lemma ConnectorOnWire(fetched: seq<Attribute>)
    ensures CONNECTOR in Wire(LegacyOrigins(fetched))
  {
    hide LegacyOrigins;
    var origins := LegacyOrigins(fetched);
    assert ',' !in CONNECTOR;
    SplitFree(CONNECTOR, ',');
    if |origins| > 1 {
      SplitConcat(CONNECTOR, Join(origins[1..], ','), ',');
    }
  }

  /** Whatever was read or stored, a migration leaves exactly one status of the connector, the new one. */
  lemma MigrationWritesStatus(stored: seq<Attribute>, fetched: seq<Attribute>, value: string)
    ensures Filter(IsConnectorKeyOk, Migrated(stored, fetched, value)) == [KeyOk(value)]
  {
    var origins := LegacyOrigins(fetched);
    var carried := Filter(Carried(origins), fetched);
    ConnectorOnWire(fetched);
    UpdateReplaces(stored, origins, [KeyOk(value)] + carried, IsConnectorKeyOk);
    FilterConcat(IsConnectorKeyOk, [KeyOk(value)], carried);
    FilterNone(IsConnectorKeyOk, carried);
  }

  /** No legacy status of any origin remains, exactly if none of their origins holds a comma. */
  lemma MigrationRemovesLegacy(stored: seq<Attribute>, fetched: seq<Attribute>, value: string)
    requires IsCurrent(fetched, stored)
    ensures !ShowsLegacy(Migrated(stored, fetched, value)) <==> LegacyOriginsFree(stored)
  {
    var origins, request := LegacyOrigins(fetched), MigrationRequest(KeyOk(value), fetched);
    var w, after := Wire(origins), Migrated(stored, fetched, value);
    assert forall a :: a in request ==> !IsLegacyKeyOk(a);
    if LegacyOriginsFree(stored) {
      MigrationWire(stored, fetched);
      forall a | a in after && IsLegacyKeyOk(a)
        ensures false
      {
        LegacyIsNotDefault(a, fetched, stored);
      }
    } else {
      var a :| a in stored && IsLegacyKeyOk(a) && ',' in a.origin;
      assert a.origin !in w;
      assert a in Filter(Outside(w), stored) && a in after;
    }
  }

  // ----- attributes with other keys, by what happens to them

  function Untouched(o: seq<string>): Attribute -> bool {
    (a: Attribute) => OtherKey(a) && a.origin !in Wire(o)
  }

  function Replaced(o: seq<string>): Attribute -> bool {
    (a: Attribute) => OtherKey(a) && a.origin in Wire(o)
  }

  function Returned(o: seq<string>): Attribute -> bool {
    (a: Attribute) => OtherKey(a) && a.origin in Wire(o) && a.origin in o
  }

  function Lost(o: seq<string>): Attribute -> bool {
    (a: Attribute) => OtherKey(a) && a.origin in Wire(o) && a.origin !in o
  }

  /** The other attributes a migration sends are those stored with the replaced origins. */
  lemma CarriedIsStored(stored: seq<Attribute>, fetched: seq<Attribute>, value: string)
    requires IsCurrent(fetched, stored)
    ensures MigrationRequest(KeyOk(value), fetched) == [KeyOk(value)] + Filter(Carried(LegacyOrigins(fetched)), stored)
  {
    var o := LegacyOrigins(fetched);
    FilterFilter(Carried(o), NotDefault, Carried(o), fetched);
    FilterFilter(Carried(o), NotDefault, Carried(o), stored);
  }

  lemma RequestOthers(o: seq<string>, stored: seq<Attribute>, value: string)
    ensures Filter(OtherKey, Filter(In(Wire(o)), [KeyOk(value)] + Filter(Carried(o), stored)))
            == Filter(Returned(o), stored)
  {
    hide Wire;
    var carried := Filter(Carried(o), stored);
    FilterFilter(OtherKey, In(Wire(o)), Replaced(o), [KeyOk(value)] + carried);
    FilterConcat(Replaced(o), [KeyOk(value)], carried);
    FilterNone(Replaced(o), [KeyOk(value)]);
    FilterFilter(Replaced(o), Carried(o), Returned(o), stored);
  }

  /** Other attributes after a migration: those stored outside the named origins, then those sent back. */
  lemma MigratedOthers(stored: seq<Attribute>, fetched: seq<Attribute>, value: string)
    requires IsCurrent(fetched, stored)
    ensures var o := LegacyOrigins(fetched);
            Filter(OtherKey, Migrated(stored, fetched, value))
            == Filter(Untouched(o), stored) + Filter(Returned(o), stored)
  {
    hide Wire, LegacyOrigins;
    var o := LegacyOrigins(fetched);
    CarriedIsStored(stored, fetched, value);
    RequestOthers(o, stored, value);
    var request := MigrationRequest(KeyOk(value), fetched);
    FilterConcat(OtherKey, Filter(Outside(Wire(o)), stored), Filter(In(Wire(o)), request));
    FilterFilter(OtherKey, Outside(Wire(o)), Untouched(o), stored);
  }

  /** Every stored attribute with another key is untouched, returned or lost. */
  lemma OthersPartition(o: seq<string>, stored: seq<Attribute>)
    ensures multiset(Filter(OtherKey, stored))
            == multiset(Filter(Untouched(o), stored)) + multiset(Filter(Returned(o), stored))
               + multiset(Filter(Lost(o), stored))
  {
    hide Wire;
    var others, replaced := Filter(OtherKey, stored), Filter(Replaced(o), stored);
    FilterPartition(Untouched(o), Replaced(o), others);
    FilterFilter(Untouched(o), OtherKey, Untouched(o), stored);
    FilterFilter(Replaced(o), OtherKey, Replaced(o), stored);
    FilterPartition(Returned(o), Lost(o), replaced);
    FilterFilter(Returned(o), Replaced(o), Returned(o), stored);
    FilterFilter(Lost(o), Replaced(o), Lost(o), stored);
  }

  /**
   * Every attribute with another key is kept, with its multiplicity, exactly if none is stored under an origin that is
   * only a piece of a replaced origin with commas.
   */
  lemma MigrationConserves(stored: seq<Attribute>, fetched: seq<Attribute>, value: string)
    requires IsCurrent(fetched, stored)
    ensures multiset(Filter(OtherKey, Migrated(stored, fetched, value))) == multiset(Filter(OtherKey, stored))
            <==> forall a :: a in stored ==> !Lost(LegacyOrigins(fetched))(a)
  {
    hide Wire, LegacyOrigins, Migrated, Filter;
    var o := LegacyOrigins(fetched);
    var lost := Filter(Lost(o), stored);
    MigratedOthers(stored, fetched, value);
    OthersPartition(o, stored);
    assert lost != [] ==> lost[0] in stored;
    assert |multiset(lost)| == |lost|;
  }

  /** Without commas in the replaced origins nothing is lost. */
  lemma FreeOriginsConserve(stored: seq<Attribute>, fetched: seq<Attribute>, value: string)
    requires IsCurrent(fetched, stored) && LegacyOriginsFree(stored)
    ensures multiset(Filter(OtherKey, Migrated(stored, fetched, value))) == multiset(Filter(OtherKey, stored))
  {
    MigrationWire(stored, fetched);
    MigrationConserves(stored, fetched, value);
  }

  /** The attributes of one origin with other keys than the status. */
  function OthersOf(origin: string): Attribute -> bool {
    (a: Attribute) => OtherKey(a) && a.origin == origin
  }

  /**
   * The other attributes of one origin stay as they are, in order, exactly if there are none or the origin is not just
   * a piece of a replaced one.
   */
  lemma MigrationKeepsOrigin(stored: seq<Attribute>, fetched: seq<Attribute>, value: string, origin: string)
    requires IsCurrent(fetched, stored)
    ensures var o := LegacyOrigins(fetched);
            Filter(OthersOf(origin), Migrated(stored, fetched, value)) == Filter(OthersOf(origin), stored)
            <==> Filter(OthersOf(origin), stored) == [] || origin !in Wire(o) || origin in o
  {
    hide Wire, LegacyOrigins, Migrated;
    var o := LegacyOrigins(fetched);
    var after := Migrated(stored, fetched, value);
    var untouched, returned := Filter(Untouched(o), stored), Filter(Returned(o), stored);
    var mine := OthersOf(origin);
    MigratedOthers(stored, fetched, value);
    FilterFilter(mine, OtherKey, mine, after);
    FilterConcat(mine, untouched, returned);
    if origin !in Wire(o) {
      FilterFilter(mine, Untouched(o), mine, stored);
      FilterNone(mine, returned);
    } else {
      FilterNone(mine, untouched);
      if origin in o {
        FilterFilter(mine, Returned(o), mine, stored);
      } else {
        FilterNone(mine, returned);
      }
    }
  }

  lemma FreeOriginsKeep(stored: seq<Attribute>, fetched: seq<Attribute>, value: string, origin: string)
    requires IsCurrent(fetched, stored) && LegacyOriginsFree(stored)
    ensures Filter(OthersOf(origin), Migrated(stored, fetched, value)) == Filter(OthersOf(origin), stored)
  {
    MigrationWire(stored, fetched);
    MigrationKeepsOrigin(stored, fetched, value, origin);
  }

  // ----- a device on which commas go wrong

  const LEGACY := Attribute(KEY_OK, "true", "a,b")
  const OTHER := Attribute("key", "value", "a")

  /** A piece of the second origin is read as an origin of its own. */
  lemma PieceOnWire(first: string, piece: string, rest: string)
    requires ',' !in piece
    ensures piece in Wire([first, piece + [','] + rest])
  {
    var second := piece + [','] + rest;
    assert [first, second][1..] == [second];
    assert Join([first, second], ',') == first + [','] + second;
    SplitConcat(first, second, ',');
    SplitConcat(piece, rest, ',');
    SplitFree(piece, ',');
    assert piece in Split(second, ',');
  }

  lemma WireIsFree(origins: seq<string>, origin: string)
    requires ',' in origin
    ensures origin !in Wire(origins)
  {
  }

  lemma CommaOrigins()
    ensures LegacyOrigins([LEGACY, OTHER]) == [CONNECTOR, LEGACY.origin]
    ensures ',' in LEGACY.origin && LEGACY.origin == OTHER.origin + [','] + "b"
  {
    var stored := [LEGACY, OTHER];
    assert stored[..1] == [LEGACY] && [LEGACY][..0] == [];
    assert LegacyOrigins([]) == [CONNECTOR];
    assert LegacyOrigins([LEGACY]) == [CONNECTOR, LEGACY.origin];
    assert LEGACY.origin[1] == ',';
  }

  /** A migration of these two attributes keeps the legacy status and loses the other one. */
  lemma CommaLosesAttribute(value: string)
    ensures var stored := [LEGACY, OTHER];
            var after := Migrated(stored, stored, value);
            IsCurrent(stored, stored) && LEGACY in after && ShowsLegacy(after) && OTHER !in after
  {
    hide Wire, LegacyOrigins, Migrated;
    var stored := [LEGACY, OTHER];
    var after := Migrated(stored, stored, value);
    CommaOrigins();
    PieceOnWire(CONNECTOR, OTHER.origin, "b");
    WireIsFree(LegacyOrigins(stored), LEGACY.origin);
    LegacyStays(stored, value);
    MigratedOthers(stored, stored, value);
    assert OTHER in after ==> OTHER in Filter(OtherKey, after);
    assert OTHER.origin in Wire(LegacyOrigins(stored)) && OTHER.origin !in LegacyOrigins(stored);
  }

  lemma LegacyStays(stored: seq<Attribute>, value: string)
    requires stored == [LEGACY, OTHER] && LEGACY.origin !in Wire(LegacyOrigins(stored))
    ensures LEGACY in Migrated(stored, stored, value)
  {
    hide Wire, LegacyOrigins;
    assert LEGACY in Filter(Outside(Wire(LegacyOrigins(stored))), stored);
  }
}
