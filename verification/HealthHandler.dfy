/** The handler of health reports: access check, envelope, forwarding. */
module HealthHandler {
  import opened Handlers
  import opened Options
  import opened Json
  import opened JsonStrings
  import opened HealthMessage
  import Timestamp
  import HubAccess
  import HubCheckCache

  const REPORT_TOO_LARGE := "health report too large"
  const INVALID_REPORT := "health report is not a json object"
  const HUB_ACCESS_DENIED := "client id is not a hub accessible by the user"
  const MISSING_USER_ID := "user token without user id"

  type Instant = t: nat | t < Timestamp.END witness 0

  datatype Config = Config(topic: string, kafkaTopic: string, maxPayloadSize: int, cache: HubCheckCache.Config)

  /** What the services behind the handler answer during one call, and the clock readings. */
  datatype Remote = Remote(
    token: Option<string>,     // the error, if any
    hub: HubAccess.Answer,
    hubError: string,
    claims: Option<string>,
    userId: string,
    producer: Option<string>,
    produce: Option<string>,
    lookAt: int,
    addAt: int,
    receivedAt: Instant)

  datatype Sent = Sent(topic: string, key: string, message: string)

  /** The state after a call, its reply, and what it sent. */
  datatype Effect = Effect(cache: HubCheckCache.State, reply: Reply, sent: seq<Sent>)

  /** Length of the UTF-8 encoding. */
  function ByteLength(s: string): nat {
    if s == "" then 0
    else
      var n := s[0] as int;
      (if n < 0x80 then 1 else if n < 0x800 then 2 else if n < 0x1_0000 then 3 else 4) + ByteLength(s[1..])
  }

  function MessageOf(clientId: string, payload: string, remote: Remote): string {
    EncodedMessage(clientId, remote.userId, Timestamp.Format(remote.receivedAt), payload)
  }

  /** Reply and messages once the access check is done. */
  function Forwarded(c: Config, clientId: string, payload: string, remote: Remote, access: HubAccess.Access)
    : (Reply, seq<Sent>)
  {
    if access.Failed? then (Reply(Error, Some(remote.hubError)), [])
    else if access.Inaccessible? then (Reply(Rejected, Some(HUB_ACCESS_DENIED)), [])
    else if remote.claims.Some? then (Reply(Error, remote.claims), [])
    else if remote.userId == "" then (Reply(Error, Some(MISSING_USER_ID)), [])
    else if remote.producer.Some? then (Reply(Error, remote.producer), [])
    else if remote.produce.Some? then (Reply(Error, remote.produce), [])
    else (Reply(Accepted, None), [Sent(c.kafkaTopic, clientId, MessageOf(clientId, payload, remote))])
  }

  /** Exactly the rejections and errors carry an error text. */
  function Publishing(c: Config, s: HubCheckCache.State, clientId: string, user: string, topic: string, payload: string,
                      remote: Remote): (e: Effect)
    ensures e.reply.err.Some? <==> e.reply.result.Rejected? || e.reply.result.Error?
  {
    if topic != c.topic then Effect(s, Reply(Unhandled, None), [])
    else if ByteLength(payload) > c.maxPayloadSize then Effect(s, Reply(Rejected, Some(REPORT_TOO_LARGE)), [])
    else if !IsJsonObject(payload) then Effect(s, Reply(Rejected, Some(INVALID_REPORT)), [])
    else if remote.token.Some? then Effect(s, Reply(Error, remote.token), [])
    else
      var key := HubCheckCache.Key(user, clientId);
      var (checked, access) := HubAccess.Check(c.cache, s, key, remote.lookAt, remote.hub, remote.addAt);
      var (reply, sent) := Forwarded(c, clientId, payload, remote, access);
      Effect(checked, reply, sent)
  }

  predicate Fits(c: Config, topic: string, payload: string) {
    topic == c.topic && ByteLength(payload) <= c.maxPayloadSize && IsJsonObject(payload)
  }

  /** Every service the forwarding needs works and names the user. */
  predicate ServicesWork(remote: Remote) {
    remote.token.None? && remote.claims.None? && remote.userId != "" && remote.producer.None? && remote.produce.None?
  }

  /**
   * A report is accepted exactly if it has the topic, the size and the form, the hub is accessible and the services
   * work. Then one message is sent, keyed by the hub, with exactly the four fields: the ids and the time of reception,
   * and the report byte for byte. Otherwise nothing is sent; an oversized or malformed report does not reach the cache.
   */
  lemma AcceptedReports(c: Config, s: HubCheckCache.State, clientId: string, user: string, topic: string,
                        payload: string, remote: Remote)
    ensures var e := Publishing(c, s, clientId, user, topic, payload, remote);
            var time := Timestamp.Format(remote.receivedAt);
            var fit := Fits(c, topic, payload);
            && (e.reply.result.Accepted? <==>
                 && fit && ServicesWork(remote)
                 && HubAccess.Check(c.cache, s, HubCheckCache.Key(user, clientId), remote.lookAt, remote.hub,
                                    remote.addAt).1.Accessible?)
            && (!e.reply.result.Accepted? ==> e.sent == [])
            && (e.reply.result.Accepted? ==>
                 && |e.sent| == 1 && e.sent[0].topic == c.kafkaTopic && e.sent[0].key == clientId
                 && IsJson(e.sent[0].message)
                 && Fields(e.sent[0].message) == FourFields(clientId, remote.userId, time, payload)
                 && StringMeaning(Quote(clientId)) == Means(clientId)
                 && StringMeaning(Quote(remote.userId)) == Means(remote.userId)
                 && StringMeaning(Quote(time)) == Means(time))
            && (!fit ==> e.cache == s)
  {
    hide Fields, FourFields, EncodedMessage, StringMeaning, Quote, IsJsonObject, Timestamp.Format;
    Splice(clientId, remote.userId, Timestamp.Format(remote.receivedAt), payload);
    Meant(clientId);
    Meant(remote.userId);
    Meant(Timestamp.Format(remote.receivedAt));
    ObjectIsJson(payload);
  }

  lemma Meant(s: string)
    ensures StringMeaning(Quote(s)) == Means(s)
  {
    QuoteMeaning(s);
  }

  lemma ObjectIsJson(payload: string)
    ensures IsJsonObject(payload) ==> IsJson(payload)
  {
  }

  // ----- runs of publish calls

  datatype Request = Request(clientId: string, user: string, topic: string, payload: string, remote: Remote)

  function KeyOf(r: Request): HubCheckCache.Key {
    HubCheckCache.Key(r.user, r.clientId)
  }

  function Served(c: Config, s: HubCheckCache.State, r: Request): Effect {
    Publishing(c, s, r.clientId, r.user, r.topic, r.payload, r.remote)
  }

  function After(c: Config, requests: seq<Request>): HubCheckCache.State {
    if requests == [] then HubCheckCache.EMPTY
    else Served(c, After(c, requests[..|requests| - 1]), requests[|requests| - 1]).cache
  }

  /** The call asks the service whether the user has the hub. */
  predicate Asks(c: Config, s: HubCheckCache.State, r: Request) {
    && Fits(c, r.topic, r.payload) && r.remote.token.None? && HubAccess.NamesHub(r.clientId)
    && !HubCheckCache.Has(c.cache, s, KeyOf(r), r.remote.lookAt)
  }

  /** Call j asks for this user and hub, and the service confirms it. */
  predicate Confirms(c: Config, requests: seq<Request>, j: nat, key: HubCheckCache.Key)
    requires j < |requests|
  {
    KeyOf(requests[j]) == key && Asks(c, After(c, requests[..j]), requests[j]) && requests[j].remote.hub.Yes?
  }

  /** A call adds to the cache at most the key it asked for and got confirmed. */
  lemma ServedCache(c: Config, s: HubCheckCache.State, r: Request, key: HubCheckCache.Key)
    ensures var after := Served(c, s, r).cache.expiry;
            key in after ==>
              || (key in s.expiry && after[key] == s.expiry[key])
              || (KeyOf(r) == key && Asks(c, s, r) && r.remote.hub.Yes?
                  && after[key] == r.remote.addAt + c.cache.duration)
  {
    hide IsJsonObject, ByteLength, MessageOf;
  }

  /** Every cached grant goes back to a call that the service confirmed. */
  lemma {:induction false} GrantIsConfirmed(c: Config, requests: seq<Request>, key: HubCheckCache.Key) returns (j: nat)
    requires key in After(c, requests).expiry
    ensures j < |requests| && Confirms(c, requests, j, key)
    ensures After(c, requests).expiry[key] == requests[j].remote.addAt + c.cache.duration
  {
    hide Served, Asks;
    var n := |requests| - 1;
    var pre := requests[..n];
    var s := After(c, pre);
    ServedCache(c, s, requests[n], key);
    if key in s.expiry && s.expiry[key] == After(c, requests).expiry[key] {
      j := GrantIsConfirmed(c, pre, key);
      assert requests[..j] == pre[..j];
    } else {
      j := n;
    }
  }

  lemma AcceptedHasAccess(c: Config, s: HubCheckCache.State, r: Request)
    ensures Served(c, s, r).reply.result.Accepted? ==>
      HubCheckCache.Has(c.cache, s, KeyOf(r), r.remote.lookAt) || (Asks(c, s, r) && r.remote.hub.Yes?)
  {
    hide IsJsonObject, ByteLength, MessageOf;
  }

  /**
   * In every run of calls an accepted report is confirmed by the service in its own call, or an earlier one for that
   * user and hub was, and its add plus the duration exceeds the reading at the cache hit.
   */
  lemma AcceptedIsConfirmed(c: Config, requests: seq<Request>, i: nat)
    requires i < |requests|
    ensures Served(c, After(c, requests[..i]), requests[i]).reply.result.Accepted? ==>
      || Confirms(c, requests, i, KeyOf(requests[i]))
      || exists j :: 0 <= j < i && Confirms(c, requests, j, KeyOf(requests[i]))
                     && requests[i].remote.lookAt < requests[j].remote.addAt + c.cache.duration
  {
    hide Served, Asks, After;
    var pre, r := requests[..i], requests[i];
    AcceptedHasAccess(c, After(c, pre), r);
    if Served(c, After(c, pre), r).reply.result.Accepted? && !Confirms(c, requests, i, KeyOf(r)) {
      var j := GrantIsConfirmed(c, pre, KeyOf(r));
      assert requests[..j] == pre[..j];
    }
  }

  /**
   * In any interleaving of calls, a report that is forwarded with the outcome of its access check and accepted rests on
   * a positive answer to that check itself, or on a justified hit of the cache.
   */
  lemma AcceptedIsJustified(c: Config, events: seq<HubAccess.Event>, call: nat, r: Request)
    requires HubAccess.Possible(c.cache, HubAccess.NOTHING, events)
    ensures var s := HubAccess.Exec(c.cache, HubAccess.NOTHING, events);
            call in s.calls && s.calls[call].key == KeyOf(r) ==>
              var access := HubAccess.Reported(s.calls[call].phase);
              Forwarded(c, r.clientId, r.payload, r.remote, access).0.result.Accepted? ==>
                HubAccess.Justified(c.cache, s.log, call, KeyOf(r))
  {
    hide MessageOf, HubAccess.Justified;
    HubAccess.AccessSafety(c.cache, events);
  }

  // ----- the deepest report

  /** Arrays within arrays. */
  function Nested(n: nat): Value {
    if n == 0 then EmptyArray("") else Array(OneElement(Element("", Nested(n - 1), "")))
  }

  function DeepReport(n: nat): Element {
    Element("", Object(OneMember(PlainMember("a", Element("", Nested(n), "")))), "")
  }

  lemma {:induction false} ByteLengthConcat(s: string, t: string)
    ensures ByteLength(s + t) == ByteLength(s) + ByteLength(t)
  {
    if s == "" {
      assert s + t == t;
    } else {
      assert (s + t)[1..] == s[1..] + t;
      ByteLengthConcat(s[1..], t);
    }
  }

  lemma {:induction false} NestedShape(n: nat)
    ensures ValidValue(Nested(n)) && ElementDepth(Element("", Nested(n), "")) == n + 1
    ensures ByteLength(ValueText(Nested(n))) == 2 * n + 2
  {
    if n == 0 {
      assert ValueText(Nested(0)) == "[" + "]";
      ByteLengthConcat("[", "]");
    } else {
      var inner := ValueText(Nested(n - 1));
      NestedShape(n - 1);
      assert ElementText(Element("", Nested(n - 1), "")) == inner;
      assert ValueText(Nested(n)) == "[" + inner + "]";
      ByteLengthConcat("[" + inner, "]");
      ByteLengthConcat("[", inner);
    }
  }

  lemma PlainElementText(v: Value)
    ensures ElementText(Element("", v, "")) == ValueText(v)
  {
    hide ValueText;
  }

  lemma OneMemberText(m: Member)
    ensures MembersText(OneMember(m)) == MemberText(m)
  {
    hide MemberText;
  }

  lemma DeepReportText(n: nat)
    ensures ElementText(DeepReport(n)) == "{" + Pair("a", ValueText(Nested(n))) + "}"
  {
    var value := Element("", Nested(n), "");
    var m := PlainMember("a", value);
    assert DeepReport(n) == Element("", Object(OneMember(m)), "");
    hide Nested, ElementText, ValueText, MembersText, MemberText, Pair, PlainMember;
    PlainElementText(Nested(n));
    PlainText("a", value);
    OneMemberText(m);
    ObjectText(DeepReport(n));
  }

  lemma PairLength(text: string)
    ensures ByteLength(Pair("a", text)) == 4 + ByteLength(text)
  {
    hide ByteLength;
    assert Pair("a", text) == "\"a\":" + text;
    ByteLengthConcat("\"a\":", text);
    ShortLength();
  }

  /** An object around n + 1 arrays, in a few bytes more than twice that number. */
  lemma DeepReportShape(n: nat)
    ensures var e := DeepReport(n);
            && ValidElement(e) && IsObject(e.value) && ElementDepth(e) == n + 2
            && ByteLength(ElementText(e)) == 2 * n + 8
  {
    hide Nested, ByteLength, ElementText, Pair;
    NestedShape(n);
    assert IsName("a");
    PlainField("a", Element("", Nested(n), ""));
    ObjectText(DeepReport(n));
    DeepReportText(n);
    var pair := Pair("a", ValueText(Nested(n)));
    ByteLengthConcat("{" + pair, "}");
    ByteLengthConcat("{", pair);
    PairLength(ValueText(Nested(n)));
    ShortLength();
  }

  lemma ShortLength()
    ensures ByteLength("{") == ByteLength("}") == 1 && ByteLength("\"a\":") == 4
  {
    var s := "\"a\":";
    assert s[1..] == "a\":" && s[1..][1..] == "\":" && s[1..][1..][1..] == ":" && s[1..][1..][1..][1..] == "";
  }

  // the size limit of the default configuration
  const DEFAULT_SIZE_LIMIT := 65_536

  /** A report within the default size limit that is accepted, while the decoder refuses its message. */
  lemma AcceptedTooDeep(c: Config, hubId: string, userId: string, time: string) returns (report: string)
    requires c.maxPayloadSize == DEFAULT_SIZE_LIMIT
    ensures var message := EncodedMessage(hubId, userId, time, report);
            Fits(c, c.topic, report) && IsJson(message) && !IsAccepted(message)
  {
    hide DeepReport, IsJson, EncodedMessage, ByteLength, ValidElement, ElementDepth;
    var n := MAX_DEPTH - 2;
    var e := DeepReport(n);
    report := ElementText(e);
    DeepReportShape(n);
    TextAndTree(report, e);
    JsonObjects(report);
    MessageDepth(hubId, userId, time, report);
  }

  class Handler {
    const config: Config
    const cache: HubCheckCache.Cache
    // everything sent so far
    var sent: seq<Sent>

    ghost predicate Valid()
      reads this, cache
    {
      cache.Valid() && cache.config == config.cache
    }

    ghost function CacheState(): HubCheckCache.State
      reads this, cache
    {
      HubCheckCache.State(cache.expiry, cache.nextPrune)
    }

    constructor (config: Config)
      ensures Valid() && fresh(cache) && this.config == config && sent == [] && CacheState() == HubCheckCache.EMPTY
    {
      this.config := config;
      cache := new HubCheckCache.Cache(config.cache);
      sent := [];
    }

    method IsAccessibleHub(user: string, hubId: string, remote: Remote) returns (access: HubAccess.Access)
      requires Valid()
      modifies cache
      ensures Valid()
      ensures (CacheState(), access)
              == old(HubAccess.Check(config.cache, CacheState(), HubCheckCache.Key(user, hubId), remote.lookAt,
                                     remote.hub, remote.addAt))
    {
      if hubId == "" || hubId == "." || hubId == ".." {
        return HubAccess.Inaccessible;
      }
      var key := HubCheckCache.Key(user, hubId);
      var found := cache.Contains(key, remote.lookAt);
      if found {
        return HubAccess.Accessible;
      }
      if remote.hub.Error? {
        return HubAccess.Failed;
      }
      if remote.hub.No? {
        return HubAccess.Inaccessible;
      }
      cache.Insert(key, remote.addAt);
      return HubAccess.Accessible;
    }

    method Publish(clientId: string, user: string, topic: string, payload: string, remote: Remote)
      returns (reply: Reply)
      requires Valid()
      modifies this, cache
      ensures Valid()
      ensures var e := old(Publishing(config, CacheState(), clientId, user, topic, payload, remote));
              CacheState() == e.cache && reply == e.reply && sent == old(sent) + e.sent
    {
      if topic != config.topic {
        return Reply(Unhandled, None);
      }
      if ByteLength(payload) > config.maxPayloadSize {
        return Reply(Rejected, Some(REPORT_TOO_LARGE));
      }
      if !IsJsonObject(payload) {
        return Reply(Rejected, Some(INVALID_REPORT));
      }
      if remote.token.Some? {
        return Reply(Error, remote.token);
      }
      var access := IsAccessibleHub(user, clientId, remote);
      if access.Failed? {
        return Reply(Error, Some(remote.hubError));
      }
      if access.Inaccessible? {
        return Reply(Rejected, Some(HUB_ACCESS_DENIED));
      }
      if remote.claims.Some? {
        return Reply(Error, remote.claims);
      }
      if remote.userId == "" {
        return Reply(Error, Some(MISSING_USER_ID));
      }
      var message := EncodeMessage(clientId, remote.userId, Timestamp.Format(remote.receivedAt), payload);
      if remote.producer.Some? {
        return Reply(Error, remote.producer);
      }
      if remote.produce.Some? {
        return Reply(Error, remote.produce);
      }
      sent := sent + [Sent(config.kafkaTopic, clientId, message)];
      return Reply(Accepted, None);
    }
  }
}
