/** MQTT topics: shared subscriptions, the command topics and their parsing. */
module Topics {
  import opened Strings

  const SHARE_PREFIX := "$share/"
  const TOPIC_ERROR :=
    "expect 3 or 4 part topic with prefix/device-uri/service-uri or prefix/owner-id/device-uri/service-uri"

  predicate HasPrefix(s: string, prefix: string) {
    |prefix| <= |s| && s[..|prefix|] == prefix
  }

  /** The topic filter a subscription is checked against. */
  function PrepareTopic(topic: string): string {
    if HasPrefix(topic, SHARE_PREFIX) then
      var parts := Split(topic, '/');
      if |parts| < 3 then topic else Join(parts[2..], '/')
    else topic
  }

  datatype ParsedTopic =
    | Parsed(prefix: string, ownerId: string, deviceUri: string, serviceUri: string)
    | Invalid(message: string)

  function ParseTopic(topic: string): ParsedTopic {
    var parts := Split(topic, '/');
    if |parts| == 3 then Parsed(parts[0], "", parts[1], parts[2])
    else if |parts| == 4 then Parsed(parts[0], parts[1], parts[2], parts[3])
    else Invalid(TOPIC_ERROR)
  }

  function OwnerCommandTopic(ownerId: string, deviceUri: string, serviceUri: string): string {
    "command/" + ownerId + "/" + deviceUri + "/" + serviceUri
  }

  function CommandTopic(deviceUri: string, serviceUri: string): string {
    "command/" + deviceUri + "/" + serviceUri
  }

  /** The topics a command is published on, in order. */
  function CommandTopics(ownerId: string, deviceUri: string, serviceUri: string, forceTopicsWithOwner: bool)
    : seq<string>
  {
    [OwnerCommandTopic(ownerId, deviceUri, serviceUri)]
    + (if forceTopicsWithOwner then [] else [CommandTopic(deviceUri, serviceUri)])
  }

  /** The calls of the command handler that a broker accepts, up to the first it does not accept. */
  method HandleCommand(ownerId: string, deviceUri: string, serviceUri: string, forceTopicsWithOwner: bool,
                       saved: bool, encoded: bool, accepts: string -> bool)
    returns (ok: bool, published: seq<string>)
    ensures var topics := CommandTopics(ownerId, deviceUri, serviceUri, forceTopicsWithOwner);
            && published <= topics
            && (forall t :: t in published ==> accepts(t))
            && (ok <==> saved && encoded && published == topics)
            && (!saved || !encoded ==> published == [])
            && (saved && encoded && !ok ==> |published| < |topics| && !accepts(topics[|published|]))
  {
    published := [];
    if !saved {
      return false, published;
    }
    if !encoded {
      return false, published;
    }
    var topic := OwnerCommandTopic(ownerId, deviceUri, serviceUri);
    if !accepts(topic) {
      return false, published;
    }
    published := published + [topic];
    if !forceTopicsWithOwner {
      topic := CommandTopic(deviceUri, serviceUri);
      if !accepts(topic) {
        return false, published;
      }
      published := published + [topic];
    }
    return true, published;
  }

  lemma ShareSplit(group: string, filter: string)
    ensures Split(SHARE_PREFIX + group + "/" + filter, '/') == ["$share"] + Split(group, '/') + Split(filter, '/')
  {
    var rest := group + ['/'] + filter;
    assert SHARE_PREFIX + group + "/" + filter == "$share" + ['/'] + rest;
    SplitConcat("$share", rest, '/');
    SplitFree("$share", '/');
    SplitConcat(group, filter, '/');
    assert ["$share"] + (Split(group, '/') + Split(filter, '/')) == ["$share"] + Split(group, '/') + Split(filter, '/');
  }

  /** A shared subscription is checked against its filter, whatever the filter, exactly if the group holds no slash. */
  lemma SharedSubscription(group: string, filter: string)
    ensures PrepareTopic(SHARE_PREFIX + group + "/" + filter) == filter <==> '/' !in group
  {
    var topic := SHARE_PREFIX + group + "/" + filter;
    assert topic[..|SHARE_PREFIX|] == SHARE_PREFIX;
    ShareSplit(group, filter);
    var g, f := Split(group, '/'), Split(filter, '/');
    assert Split(topic, '/')[2..] == g[1..] + f;
    JoinSplit(filter, '/');
    if '/' !in group {
      SplitFree(group, '/');
      assert g[1..] + f == f;
    } else {
      JoinSplit(group, '/');
      assert |g| > 1;
      JoinConcat(g[1..], f, '/');
      assert |PrepareTopic(topic)| > |filter|;
    }
  }

  /** Any other topic, and a share without filter, is checked as it is. */
  lemma UnsharedSubscription(topic: string, group: string)
    requires '/' !in group
    ensures !HasPrefix(topic, SHARE_PREFIX) ==> PrepareTopic(topic) == topic
    ensures PrepareTopic(SHARE_PREFIX + group) == SHARE_PREFIX + group
  {
    assert SHARE_PREFIX + group == "$share" + ['/'] + group;
    SplitConcat("$share", group, '/');
    SplitFree("$share", '/');
    SplitFree(group, '/');
  }

  /** Parsing a command topic with owner gives back its parts exactly if none of them holds a slash. */
  lemma OwnerCommandRoundTrip(ownerId: string, deviceUri: string, serviceUri: string)
    ensures ParseTopic(OwnerCommandTopic(ownerId, deviceUri, serviceUri))
            == Parsed("command", ownerId, deviceUri, serviceUri)
            <==> Free([ownerId, deviceUri, serviceUri], '/')
  {
    var tail := [ownerId, deviceUri, serviceUri];
    var parts := ["command"] + tail;
    assert parts[1..] == tail && tail[1..] == [deviceUri, serviceUri] && tail[1..][1..] == [serviceUri];
    assert Join(tail[1..], '/') == deviceUri + ['/'] + serviceUri;
    assert Join(tail, '/') == ownerId + ['/'] + (deviceUri + ['/'] + serviceUri);
    assert Join(parts, '/') == OwnerCommandTopic(ownerId, deviceUri, serviceUri);
    SplitJoin(parts, '/');
    assert Free(parts, '/') <==> Free(tail, '/');
    var split := Split(Join(parts, '/'), '/');
    JoinSplit(Join(parts, '/'), '/');
    if |split| == 4 && split[0] == "command" && split[1..] == tail {
      assert split == parts;
    }
  }

  /** The same without owner, which then parses as the empty owner. */
  lemma CommandRoundTrip(deviceUri: string, serviceUri: string)
    ensures ParseTopic(CommandTopic(deviceUri, serviceUri)) == Parsed("command", "", deviceUri, serviceUri)
            <==> Free([deviceUri, serviceUri], '/')
  {
    var tail := [deviceUri, serviceUri];
    var parts := ["command"] + tail;
    assert parts[1..] == tail && tail[1..] == [serviceUri];
    assert Join(tail, '/') == deviceUri + ['/'] + serviceUri;
    assert Join(parts, '/') == CommandTopic(deviceUri, serviceUri);
    SplitJoin(parts, '/');
    assert Free(parts, '/') <==> Free(tail, '/');
    var split := Split(Join(parts, '/'), '/');
    JoinSplit(Join(parts, '/'), '/');
    if |split| == 3 && split[0] == "command" && split[1..] == tail {
      assert split == parts;
    }
  }
}
