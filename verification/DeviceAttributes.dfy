/** Device attributes and the device-manager's update of the attributes of some origins. */
module DeviceAttributes {
  import opened Lists
  import opened Strings

  datatype Attribute = Attribute(key: string, value: string, origin: string)

  /** What becomes of an update request: a request without answer fails, but may be applied all the same. */
  datatype Update = Acknowledged | AppliedUnanswered | NotApplied

  function In(origins: seq<string>): Attribute -> bool {
    (a: Attribute) => a.origin in origins
  }

  function Outside(origins: seq<string>): Attribute -> bool {
    (a: Attribute) => a.origin !in origins
  }

  function OfOrigin(origin: string): Attribute -> bool {
    (a: Attribute) => a.origin == origin
  }

  /**
   * With origins, the stored attributes of other origins are kept and only those of these origins are taken from the
   * request.
   */
  function Merge(stored: seq<Attribute>, attributes: seq<Attribute>, origins: seq<string>): seq<Attribute> {
    if origins == [] then attributes
    else Filter(Outside(origins), stored) + Filter(In(origins), attributes)
  }

  /** The origins the device-manager reads from a request: they travel joined by commas. */
  function Wire(origins: seq<string>): (w: seq<string>)
    ensures w != []
  {
    Split(Join(origins, ','), ',')
  }

  /** What is stored after a request for the given origins. */
  function Updated(stored: seq<Attribute>, origins: seq<string>, attributes: seq<Attribute>): seq<Attribute> {
    Merge(stored, attributes, Wire(origins))
  }

  /** The origin list arrives as it was sent exactly if it is not empty and no origin holds a comma. */
  lemma OriginsSurvive(origins: seq<string>)
    ensures Wire(origins) == origins <==> origins != [] && Free(origins, ',')
  {
    SplitJoin(origins, ',');
  }

  /** A single origin is read as its pieces between commas. */
  lemma SingleOrigin(origin: string)
    ensures Wire([origin]) == Split(origin, ',')
  {
  }

  /** An update touches the attributes of no origin but those it names. */
  lemma UpdateFrame(stored: seq<Attribute>, origins: seq<string>, attributes: seq<Attribute>, origin: string)
    requires origin !in Wire(origins)
    ensures Filter(OfOrigin(origin), Updated(stored, origins, attributes)) == Filter(OfOrigin(origin), stored)
  {
    var w := Wire(origins);
    FilterConcat(OfOrigin(origin), Filter(Outside(w), stored), Filter(In(w), attributes));
    FilterFilter(OfOrigin(origin), Outside(w), OfOrigin(origin), stored);
    FilterNone(OfOrigin(origin), Filter(In(w), attributes));
  }

  /** For the origins it names, the request replaces what was stored. */
  lemma UpdateReplaces(stored: seq<Attribute>, origins: seq<string>, attributes: seq<Attribute>,
                       keep: Attribute -> bool)
    requires forall a :: keep(a) ==> a.origin in Wire(origins)
    ensures Filter(keep, Updated(stored, origins, attributes)) == Filter(keep, attributes)
  {
    var w := Wire(origins);
    FilterConcat(keep, Filter(Outside(w), stored), Filter(In(w), attributes));
    FilterNone(keep, Filter(Outside(w), stored));
    FilterFilter(keep, In(w), keep, attributes);
  }

  class DeviceManager {
    var devices: map<string, seq<Attribute>>

    method PublishDeviceAttributesUpdate(id: string, attributes: seq<Attribute>, origins: seq<string>)
      returns (found: bool)
      modifies this
      ensures found == (id in old(devices))
      ensures devices == if found then old(devices)[id := Merge(old(devices)[id], attributes, origins)]
                         else old(devices)
    {
      hide Filter;
      if id !in devices {
        return false;
      }
      var stored, result := devices[id], attributes;
      if origins != [] {
        var merged := [];
        FilterEmpty(Outside(origins));
        FilterEmpty(In(origins));
        for i := 0 to |stored|
          invariant devices == old(devices) && merged == Filter(Outside(origins), stored[..i])
        {
          FilterStep(Outside(origins), stored, i);
          if stored[i].origin !in origins {
            merged := merged + [stored[i]];
          }
        }
        assert stored[..|stored|] == stored;
        for i := 0 to |attributes|
          invariant devices == old(devices)
          invariant merged == Filter(Outside(origins), stored) + Filter(In(origins), attributes[..i])
        {
          FilterStep(In(origins), attributes, i);
          if attributes[i].origin in origins {
            merged := merged + [attributes[i]];
          }
        }
        assert attributes[..|attributes|] == attributes;
        result := merged;
      }
      devices := devices[id := result];
      return true;
    }
  }
}
