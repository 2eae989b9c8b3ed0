/** How a publish or subscribe request finds its handler, and the answers to the broker. */
module Dispatch {
  import opened Handlers
  import opened Options
  import opened Lists
  import opened Topics

  const NO_HANDLER := "no matching topic handler found"
  const NIL_ERROR := "runtime error: invalid memory address or nil pointer dereference"
  const REFUSED_QOS := 128

  // ----- the first decisive reply

  /** What the first kept element decides. */
  function First<T, R>(keep: T -> bool, verdict: T -> R, none: R, s: seq<T>): R {
    var kept := Filter(keep, s);
    if kept == [] then none else verdict(kept[0])
  }

  /** Asking the handlers in turn until one is decisive is the same. */
  lemma FirstStep<T, R>(keep: T -> bool, verdict: T -> R, none: R, s: seq<T>, i: nat)
    requires i <= |s| && Filter(keep, s[..i]) == []
    ensures i == |s| ==> First(keep, verdict, none, s) == none
    ensures i < |s| && keep(s[i]) ==> First(keep, verdict, none, s) == verdict(s[i])
    ensures i < |s| && !keep(s[i]) ==> Filter(keep, s[..i + 1]) == []
  {
    if i == |s| {
      assert s[..i] == s;
    } else {
      FilterStep(keep, s, i);
      if keep(s[i]) {
        FilterFirst(keep, s, i);
      }
    }
  }

  lemma SameElements<T>(s: seq<T>, t: seq<T>, x: T)
    requires multiset(s) == multiset(t)
    ensures x in s <==> x in t
  {
    assert x in s <==> x in multiset(s);
    assert x in t <==> x in multiset(t);
  }

  /** The elements that can decide agree. */
  ghost predicate Agree<T, R>(keep: T -> bool, verdict: T -> R, s: seq<T>) {
    forall x, y :: x in s && keep(x) && y in s && keep(y) ==> verdict(x) == verdict(y)
  }

  /** The outcome does not depend on the order of the handlers exactly if all decisive replies agree. */
  lemma OrderFree<T(!new), R>(keep: T -> bool, verdict: T -> R, none: R, s: seq<T>)
    ensures Agree(keep, verdict, s)
            <==> forall t :: multiset(t) == multiset(s) ==>
                   First(keep, verdict, none, t) == First(keep, verdict, none, s)
  {
    if Agree(keep, verdict, s) {
      forall t | multiset(t) == multiset(s)
        ensures First(keep, verdict, none, t) == First(keep, verdict, none, s)
      {
        forall x
          ensures x in s <==> x in t
        {
          SameElements(s, t, x);
        }
        SameOutcome(keep, verdict, none, s, t);
      }
    } else {
      var x, y :| x in s && keep(x) && y in s && keep(y) && verdict(x) != verdict(y);
      var tx, ty := ToFront(s, x), ToFront(s, y);
      assert First(keep, verdict, none, tx) == verdict(x);
      assert First(keep, verdict, none, ty) == verdict(y);
    }
  }

  ghost function ToFront<T>(s: seq<T>, x: T): (t: seq<T>)
    requires x in s
    ensures t != [] && t[0] == x && multiset(t) == multiset(s)
  {
    var i :| 0 <= i < |s| && s[i] == x;
    assert s == s[..i] + [s[i]] + s[i + 1..];
    [x] + s[..i] + s[i + 1..]
  }

  lemma SameOutcome<T, R>(keep: T -> bool, verdict: T -> R, none: R, s: seq<T>, t: seq<T>)
    requires Agree(keep, verdict, s) && forall x :: x in s <==> x in t
    ensures First(keep, verdict, none, t) == First(keep, verdict, none, s)
  {
    var a, b := Filter(keep, s), Filter(keep, t);
    if a != [] {
      assert a[0] in s && keep(a[0]);
      assert a[0] in b;
    }
    if b != [] {
      assert b[0] in t && keep(b[0]);
      assert b[0] in a;
    }
  }

  // ----- topic guards

  /** A handler looks at topics with a prefix, or at one topic only. */
  datatype Guard = Prefix(text: string) | Exact(text: string)

  predicate Passes(g: Guard, topic: string) {
    match g
    case Prefix(text) => HasPrefix(topic, text)
    case Exact(text) => topic == text
  }

  /** Some topic passes both guards, put without looking for one. */
  predicate Meet(g: Guard, h: Guard) {
    match (g, h)
    case (Prefix(p), Prefix(q)) => HasPrefix(p, q) || HasPrefix(q, p)
    case (Prefix(p), Exact(t)) => HasPrefix(t, p)
    case (Exact(t), Prefix(p)) => HasPrefix(t, p)
    case (Exact(t), Exact(u)) => t == u
  }

  lemma CommonTopic(g: Guard, h: Guard)
    ensures (exists topic :: Passes(g, topic) && Passes(h, topic)) <==> Meet(g, h)
  {
    assert HasPrefix(g.text, g.text) && HasPrefix(h.text, h.text);
    if Meet(g, h) {
      assert (Passes(g, g.text) && Passes(h, g.text)) || (Passes(g, h.text) && Passes(h, h.text));
    }
    if topic :| Passes(g, topic) && Passes(h, topic) {
      var p, q := g.text, h.text;
      assert |q| <= |p| ==> p[..|q|] == topic[..|q|];
      assert |p| <= |q| ==> q[..|p|] == topic[..|p|];
    }
  }

  ghost predicate Apart(guards: seq<Guard>) {
    forall i, j :: 0 <= i < j < |guards| ==> !Meet(guards[i], guards[j])
  }

  /** The guards of the handlers that are always there. */
  const FIXED_GUARDS: seq<Guard> :=
    [Prefix("event"), Prefix("response"), Prefix("command"), Prefix("processes/"), Prefix("export"),
     Prefix("notifications"),
     Prefix("error")]

  /** An empty name or a dash disables the fog handler and the health handler. */
  predicate IsEnabled(name: string) {
    name != "" && name != "-"
  }

  /** The guards of all handlers, in their order. */
  function Guards(fogPrefix: string, healthTopic: string): seq<Guard> {
    FIXED_GUARDS
    + (if IsEnabled(fogPrefix) then [Prefix(fogPrefix)] else [])
    + (if IsEnabled(healthTopic) then [Exact(healthTopic)] else [])
  }

  lemma DifferentPrefixes(p: string, q: string, k: nat)
    requires k < |p| && k < |q| && p[k] != q[k]
    ensures !Meet(Prefix(p), Prefix(q))
  {
    if |q| <= |p| {
      assert p[..|q|][k] == p[k];
    }
    if |p| <= |q| {
      assert q[..|p|][k] == q[k];
    }
  }

  lemma FixedGuardsApart()
    ensures Apart(FIXED_GUARDS)
  {
    forall i, j | 0 <= i < j < |FIXED_GUARDS|
      ensures !Meet(FIXED_GUARDS[i], FIXED_GUARDS[j])
    {
      var p, q := FIXED_GUARDS[i].text, FIXED_GUARDS[j].text;
      DifferentPrefixes(p, q, if p[0] != q[0] then 0 else 1);
    }
  }

  ghost predicate MeetsNone(g: Guard, guards: seq<Guard>) {
    forall i :: 0 <= i < |guards| ==> !Meet(guards[i], g)
  }

  lemma ApartStep(guards: seq<Guard>, g: Guard)
    ensures Apart(guards + [g]) <==> Apart(guards) && MeetsNone(g, guards)
  {
    var all := guards + [g];
    assert forall i :: 0 <= i < |guards| ==> all[i] == guards[i];
    assert all[|guards|] == g;
    if Apart(all) {
      forall i | 0 <= i < |guards|
        ensures !Meet(guards[i], g)
      {
        assert !Meet(all[i], all[|guards|]);
      }
      forall i, j | 0 <= i < j < |guards|
        ensures !Meet(guards[i], guards[j])
      {
        assert !Meet(all[i], all[j]);
      }
    }
  }

  /** The configured guards meet no fixed one and not each other. */
  ghost predicate Compatible(fogPrefix: string, healthTopic: string) {
    && (IsEnabled(fogPrefix) ==> MeetsNone(Prefix(fogPrefix), FIXED_GUARDS))
    && (IsEnabled(healthTopic) ==> MeetsNone(Exact(healthTopic), FIXED_GUARDS))
    && (IsEnabled(fogPrefix) && IsEnabled(healthTopic) ==> !HasPrefix(healthTopic, fogPrefix))
  }

  /** The guards of all handlers exclude each other exactly if the configured ones are compatible. */
  lemma ConfiguredGuards(fogPrefix: string, healthTopic: string)
    ensures Apart(Guards(fogPrefix, healthTopic)) <==> Compatible(fogPrefix, healthTopic)
  {
    hide Apart, FIXED_GUARDS, MeetsNone;
    FixedGuardsApart();
    var fog, health := Prefix(fogPrefix), Exact(healthTopic);
    ApartStep(FIXED_GUARDS, fog);
    ApartStep(FIXED_GUARDS, health);
    ApartStep(FIXED_GUARDS + [fog], health);
    MeetsNoneStep(health, FIXED_GUARDS, fog);
    assert FIXED_GUARDS + [] + [] == FIXED_GUARDS && FIXED_GUARDS + [] + [health] == FIXED_GUARDS + [health];
    assert FIXED_GUARDS + [fog] + [] == FIXED_GUARDS + [fog];
    assert Meet(fog, health) <==> HasPrefix(healthTopic, fogPrefix);
  }

  lemma MeetsNoneStep(g: Guard, guards: seq<Guard>, last: Guard)
    ensures MeetsNone(g, guards + [last]) <==> MeetsNone(g, guards) && !Meet(last, g)
  {
    var all := guards + [last];
    assert all[|guards|] == last && forall i :: 0 <= i < |guards| ==> all[i] == guards[i];
    if MeetsNone(g, all) {
      forall i | 0 <= i < |guards|
        ensures !Meet(guards[i], g)
      {
        assert !Meet(all[i], g);
      }
    }
  }

  // ----- subscribe

  type Handler = string -> Reply

  function Replies(handlers: seq<Handler>, topic: string): (r: seq<Reply>)
    ensures |r| == |handlers| && forall i :: 0 <= i < |r| ==> r[i] == handlers[i](topic)
  {
    seq(|handlers|, i requires 0 <= i < |handlers| => handlers[i](topic))
  }

  predicate Decides(r: Reply) {
    r.result.Accepted? || r.result.Rejected? || r.result.Error?
  }

  /** An error decides a subscription, whatever result comes with it. */
  predicate DecidesSubscription(r: Reply) {
    r.err.Some? || Decides(r)
  }

  function SubscriptionVerdict(r: Reply): Reply {
    if r.err.Some? then Reply(Error, r.err) else r
  }

  function Subscribing(handlers: seq<Handler>, topic: string): Reply {
    First(DecidesSubscription, SubscriptionVerdict, Reply(Rejected, Some(NO_HANDLER)), Replies(handlers, topic))
  }

  method HandleTopicSubscribe(topic: string, handlers: seq<Handler>) returns (reply: Reply)
    ensures reply == Subscribing(handlers, topic)
    ensures Decides(reply)
  {
    ghost var replies := Replies(handlers, topic);
    ghost var none := Reply(Rejected, Some(NO_HANDLER));
    for i := 0 to |handlers|
      invariant Filter(DecidesSubscription, replies[..i]) == []
    {
      var r := handlers[i](topic);
      FirstStep(DecidesSubscription, SubscriptionVerdict, none, replies, i);
      if r.err.Some? {
        return Reply(Error, r.err);
      }
      match r.result {
        case Accepted => return r;
        case Rejected => return r;
        case Error => return r;
        case Unhandled =>
        case Unknown(_) =>
      }
    }
    FirstStep(DecidesSubscription, SubscriptionVerdict, none, replies, |handlers|);
    return Reply(Rejected, Some(NO_HANDLER));
  }

  datatype Topic = Topic(name: string, qos: int)

  datatype SubscribeAnswer = Answered(topics: seq<Topic>) | Failure(text: string)

  function ErrorText(err: Option<string>): string {
    if err.Some? then err.value else NIL_ERROR
  }

  function TopicReply(handlers: seq<Handler>): Topic -> Reply {
    (t: Topic) => Subscribing(handlers, PrepareTopic(t.name))
  }

  function Fails(handlers: seq<Handler>): Topic -> bool {
    (t: Topic) => TopicReply(handlers)(t).result.Error?
  }

  function Granted(handlers: seq<Handler>): Topic -> bool {
    (t: Topic) => TopicReply(handlers)(t).result.Accepted?
  }

  function NotGranted(handlers: seq<Handler>): Topic -> bool {
    (t: Topic) => !TopicReply(handlers)(t).result.Accepted?
  }

  function Refuse(topics: seq<Topic>): (r: seq<Topic>)
    ensures |r| == |topics| && forall i :: 0 <= i < |r| ==> r[i] == Topic(topics[i].name, REFUSED_QOS)
  {
    seq(|topics|, i requires 0 <= i < |topics| => Topic(topics[i].name, REFUSED_QOS))
  }

  /** The granted topics as requested, then the others with the failure code, each in the order of the request. */
  function Subscribed(handlers: seq<Handler>, topics: seq<Topic>): SubscribeAnswer {
    var failing := Filter(Fails(handlers), topics);
    if failing != [] then Failure(ErrorText(TopicReply(handlers)(failing[0]).err))
    else Answered(Filter(Granted(handlers), topics) + Refuse(Filter(NotGranted(handlers), topics)))
  }

  method SendSubscriptionResult(ok: seq<Topic>, rejected: seq<Topic>) returns (topics: seq<Topic>)
    ensures topics == ok + Refuse(rejected)
  {
    topics := [];
    for i := 0 to |ok|
      invariant topics == ok[..i]
    {
      topics := topics + [ok[i]];
    }
    for i := 0 to |rejected|
      invariant topics == ok + Refuse(rejected)[..i]
    {
      topics := topics + [Topic(rejected[i].name, REFUSED_QOS)];
    }
  }

  lemma NothingSelected(handlers: seq<Handler>)
    ensures Filter(Fails(handlers), []) == Filter(Granted(handlers), []) == Filter(NotGranted(handlers), []) == []
  {
  }

  lemma FailsMeans(handlers: seq<Handler>, t: Topic)
    ensures Fails(handlers)(t) <==> TopicReply(handlers)(t).result.Error?
  {
  }

  lemma ClassifyStep(handlers: seq<Handler>, topics: seq<Topic>, i: nat)
    requires i < |topics|
    ensures var t, result := topics[i], TopicReply(handlers)(topics[i]).result;
            && Filter(Fails(handlers), topics[..i + 1])
               == Filter(Fails(handlers), topics[..i]) + (if result.Error? then [t] else [])
            && Filter(Granted(handlers), topics[..i + 1])
               == Filter(Granted(handlers), topics[..i]) + (if result.Accepted? then [t] else [])
            && Filter(NotGranted(handlers), topics[..i + 1])
               == Filter(NotGranted(handlers), topics[..i]) + (if result.Accepted? then [] else [t])
  {
    hide Subscribing, PrepareTopic, Filter;
    FilterStep(Fails(handlers), topics, i);
    FilterStep(Granted(handlers), topics, i);
    FilterStep(NotGranted(handlers), topics, i);
  }

  lemma FirstFailure(handlers: seq<Handler>, topics: seq<Topic>, i: nat)
    requires i < |topics| && Filter(Fails(handlers), topics[..i]) == [] && Fails(handlers)(topics[i])
    ensures Subscribed(handlers, topics) == Failure(ErrorText(TopicReply(handlers)(topics[i]).err))
  {
    hide Subscribing, PrepareTopic, Filter;
    FilterFirst(Fails(handlers), topics, i);
  }

  method Subscribe(topics: seq<Topic>, handlers: seq<Handler>) returns (answer: SubscribeAnswer)
    ensures answer == Subscribed(handlers, topics)
  {
    hide Subscribing, PrepareTopic, Filter, Fails, Granted, NotGranted;
    var ok, rejected := [], [];
    NothingSelected(handlers);
    for i := 0 to |topics|
      invariant Filter(Fails(handlers), topics[..i]) == []
      invariant ok == Filter(Granted(handlers), topics[..i])
      invariant rejected == Filter(NotGranted(handlers), topics[..i])
    {
      ClassifyStep(handlers, topics, i);
      var reply := HandleTopicSubscribe(PrepareTopic(topics[i].name), handlers);
      assert reply == TopicReply(handlers)(topics[i]);
      if reply.result.Accepted? {
        ok := ok + [topics[i]];
      } else if reply.result.Error? {
        FailsMeans(handlers, topics[i]);
        FirstFailure(handlers, topics, i);
        return Failure(ErrorText(reply.err));
      } else {
        rejected := rejected + [topics[i]];
      }
    }
    assert topics[..|topics|] == topics;
    var result := SendSubscriptionResult(ok, rejected);
    return Answered(result);
  }

  function Names(topics: seq<Topic>): (names: seq<string>)
    ensures |names| == |topics| && forall i :: 0 <= i < |names| ==> names[i] == topics[i].name
  {
    seq(|topics|, i requires 0 <= i < |topics| => topics[i].name)
  }

  lemma {:induction false} NamesMultiset(a: seq<Topic>, b: seq<Topic>)
    ensures Names(a + b) == Names(a) + Names(b)
    ensures Names(Refuse(b)) == Names(b)
  {
  }

  lemma {:induction false} NamesOfPartition(p: Topic -> bool, q: Topic -> bool, s: seq<Topic>)
    requires forall x :: x in s ==> (p(x) <==> !q(x))
    ensures multiset(Names(Filter(p, s))) + multiset(Names(Filter(q, s))) == multiset(Names(s))
  {
    if s != [] {
      NamesOfPartition(p, q, s[1..]);
      NamesMultiset([s[0]], s[1..]);
      NamesMultiset([s[0]], Filter(p, s[1..]));
      NamesMultiset([s[0]], Filter(q, s[1..]));
      assert s == [s[0]] + s[1..];
    }
  }

  /**
   * The request fails exactly if some topic fails; otherwise the answer names the requested topics, each as often as
   * requested: first those granted, with their quality of service, then those not granted, with the failure code.
   */
  lemma SubscriptionAnswer(handlers: seq<Handler>, topics: seq<Topic>)
    ensures var answer := Subscribed(handlers, topics);
            && (answer.Failure? <==> exists t :: t in topics && Fails(handlers)(t))
            && (answer.Answered? ==>
                 && |answer.topics| == |topics|
                 && multiset(Names(answer.topics)) == multiset(Names(topics))
                 && exists n: nat :: n <= |answer.topics| && answer.topics[..n] == Filter(Granted(handlers), topics)
                                     && Names(answer.topics[n..]) == Names(Filter(NotGranted(handlers), topics))
                                     && forall i :: n <= i < |answer.topics| ==> answer.topics[i].qos == REFUSED_QOS)
  {
    var failing := Filter(Fails(handlers), topics);
    assert failing != [] ==> failing[0] in failing;
    var ok, rejected := Filter(Granted(handlers), topics), Filter(NotGranted(handlers), topics);
    FilterPartition(Granted(handlers), NotGranted(handlers), topics);
    assert |ok| + |rejected| == |multiset(ok) + multiset(rejected)|;
    NamesOfPartition(Granted(handlers), NotGranted(handlers), topics);
    NamesMultiset(ok, Refuse(rejected));
    NamesMultiset(ok, rejected);
    assert (ok + Refuse(rejected))[..|ok|] == ok && (ok + Refuse(rejected))[|ok|..] == Refuse(rejected);
  }

  // ----- publish

  datatype PublishAnswer = Ok | Redirect(text: string) | Failed(text: string)

  function PublishVerdict(r: Reply): PublishAnswer {
    if r.result.Accepted? then Ok
    else if r.result.Rejected? && r.err.Some? then Redirect(r.err.value)
    else Failed(ErrorText(r.err))
  }

  function Publishing(handlers: seq<Handler>, topic: string): PublishAnswer {
    First(Decides, PublishVerdict, Redirect(NO_HANDLER), Replies(handlers, topic))
  }

  method Publish(topic: string, handlers: seq<Handler>) returns (answer: PublishAnswer)
    ensures answer == Publishing(handlers, topic)
  {
    ghost var replies := Replies(handlers, topic);
    for i := 0 to |handlers|
      invariant Filter(Decides, replies[..i]) == []
    {
      var r := handlers[i](topic);
      FirstStep(Decides, PublishVerdict, Redirect(NO_HANDLER), replies, i);
      match r.result {
        case Accepted => return Ok;
        case Rejected =>
          if r.err.None? {
            return Failed(NIL_ERROR);
          }
          return Redirect(r.err.value);
        case Error => return Failed(ErrorText(r.err));
        case Unhandled =>
        case Unknown(_) =>
      }
    }
    FirstStep(Decides, PublishVerdict, Redirect(NO_HANDLER), replies, |handlers|);
    return Redirect(NO_HANDLER);
  }

  // ----- dispatch with guards

  const NOT_MINE := Reply(Unhandled, None)

  /** Each handler leaves the topics that do not pass its guard to others. */
  ghost predicate Guarded(handlers: seq<Handler>, guards: seq<Guard>) {
    && |handlers| == |guards|
    && forall i, topic :: 0 <= i < |handlers| && !Passes(guards[i], topic) ==> handlers[i](topic) == NOT_MINE
  }

  /** At most one handler does not leave the topic to others. */
  ghost predicate Exclusive(handlers: seq<Handler>, topic: string) {
    forall i, j :: 0 <= i < j < |handlers| ==> handlers[i](topic) == NOT_MINE || handlers[j](topic) == NOT_MINE
  }

  lemma GuardsExclude(handlers: seq<Handler>, guards: seq<Guard>, topic: string)
    requires Guarded(handlers, guards) && Apart(guards)
    ensures Exclusive(handlers, topic)
  {
    forall i, j | 0 <= i < j < |handlers|
      ensures handlers[i](topic) == NOT_MINE || handlers[j](topic) == NOT_MINE
    {
      CommonTopic(guards[i], guards[j]);
    }
  }

  /** The order of the handlers matters neither to publishing nor to subscribing. */
  ghost predicate OrderIsFree(handlers: seq<Handler>) {
    forall other, topic :: multiset(other) == multiset(handlers) ==>
      && Publishing(other, topic) == Publishing(handlers, topic)
      && Subscribing(other, topic) == Subscribing(handlers, topic)
  }

  lemma ExclusiveHandlers(handlers: seq<Handler>, other: seq<Handler>, topic: string)
    requires Exclusive(handlers, topic) && multiset(other) == multiset(handlers)
    ensures Publishing(other, topic) == Publishing(handlers, topic)
    ensures Subscribing(other, topic) == Subscribing(handlers, topic)
  {
    var r := Replies(handlers, topic);
    forall x, y | x in r && y in r && x != NOT_MINE && y != NOT_MINE
      ensures x == y
    {
      var i :| 0 <= i < |r| && r[i] == x;
      var j :| 0 <= j < |r| && r[j] == y;
      assert i == j;
    }
    forall x
      ensures x in r <==> x in Replies(other, topic)
    {
      RepliesOfPermutation(handlers, other, topic, x);
      RepliesOfPermutation(other, handlers, topic, x);
    }
    hide First;
    assert Agree(Decides, PublishVerdict, r);
    SameOutcome(Decides, PublishVerdict, Redirect(NO_HANDLER), r, Replies(other, topic));
    assert Agree(DecidesSubscription, SubscriptionVerdict, r);
    SameOutcome(DecidesSubscription, SubscriptionVerdict, Reply(Rejected, Some(NO_HANDLER)), r, Replies(other, topic));
  }

  lemma RepliesOfPermutation(handlers: seq<Handler>, other: seq<Handler>, topic: string, x: Reply)
    requires multiset(other) == multiset(handlers)
    ensures x in Replies(handlers, topic) ==> x in Replies(other, topic)
  {
    var r, q := Replies(handlers, topic), Replies(other, topic);
    if x in r {
      var i :| 0 <= i < |r| && r[i] == x;
      SameElements(other, handlers, handlers[i]);
      var j :| 0 <= j < |other| && other[j] == handlers[i];
      assert q[j] == x;
    }
  }

  /** Guards make the order of any handlers behind them free exactly if no two of them meet. */
  lemma GuardsDecide(guards: seq<Guard>)
    ensures Apart(guards) <==> forall handlers :: Guarded(handlers, guards) ==> OrderIsFree(handlers)
  {
    if Apart(guards) {
      forall handlers, other, topic | Guarded(handlers, guards) && multiset(other) == multiset(handlers)
        ensures Publishing(other, topic) == Publishing(handlers, topic)
        ensures Subscribing(other, topic) == Subscribing(handlers, topic)
      {
        GuardsExclude(handlers, guards, topic);
        ExclusiveHandlers(handlers, other, topic);
      }
    } else {
      var i, j :| 0 <= i < j < |guards| && Meet(guards[i], guards[j]);
      CommonTopic(guards[i], guards[j]);
      var topic :| Passes(guards[i], topic) && Passes(guards[j], topic);
      var handlers := Rivals(guards, i, j, topic);
      RivalsDisagree(guards, i, j, topic);
    }
  }

  function Only(topic: string, reply: Reply): Handler {
    (t: string) => if t == topic then reply else NOT_MINE
  }

  /** Handlers of which one accepts the topic and another one rejects it. */
  function Rivals(guards: seq<Guard>, i: nat, j: nat, topic: string): seq<Handler> {
    seq(|guards|, k requires 0 <= k => Rival(i, j, topic, k))
  }

  function Rival(i: nat, j: nat, topic: string, k: nat): Handler {
    Only(topic, if k == i then Reply(Accepted, None) else if k == j then Reply(Rejected, None) else NOT_MINE)
  }

  lemma RivalsDisagree(guards: seq<Guard>, i: nat, j: nat, topic: string)
    requires i < j < |guards| && Passes(guards[i], topic) && Passes(guards[j], topic)
    ensures Guarded(Rivals(guards, i, j, topic), guards) && !OrderIsFree(Rivals(guards, i, j, topic))
  {
    var handlers := Rivals(guards, i, j, topic);
    var first, second := ToFront(handlers, handlers[i]), ToFront(handlers, handlers[j]);
    FirstAnswers(first, topic);
    FirstAnswers(second, topic);
  }

  lemma FirstAnswers(handlers: seq<Handler>, topic: string)
    requires handlers != [] && Decides(handlers[0](topic))
    ensures Publishing(handlers, topic) == PublishVerdict(handlers[0](topic))
  {
    FilterFirst(Decides, Replies(handlers, topic), 0);
  }

  /** The order of the connector's handlers is free, whatever they do, exactly if their guards are compatible. */
  lemma ConnectorOrder(fogPrefix: string, healthTopic: string)
    ensures (forall handlers :: Guarded(handlers, Guards(fogPrefix, healthTopic)) ==> OrderIsFree(handlers))
            <==> Compatible(fogPrefix, healthTopic)
  {
    hide OrderIsFree, Guarded, Compatible, FIXED_GUARDS;
    ConfiguredGuards(fogPrefix, healthTopic);
    GuardsDecide(Guards(fogPrefix, healthTopic));
  }

  /** The fog prefix "event" is not compatible: two handlers pass every event topic, and some such handlers disagree. */
  lemma EventPrefixOverlaps(healthTopic: string, topic: string) returns (handlers: seq<Handler>)
    requires HasPrefix(topic, "event")
    ensures var guards := Guards("event", healthTopic);
            && !Compatible("event", healthTopic)
            && Passes(guards[0], topic) && Passes(guards[7], topic)
            && Guarded(handlers, guards) && !OrderIsFree(handlers)
  {
    var fog := Prefix("event");
    assert FIXED_GUARDS[0] == fog && Meet(fog, fog);
    var guards := Guards("event", healthTopic);
    assert guards[0] == fog && guards[7] == fog;
    RivalsDisagree(guards, 0, 7, topic);
    handlers := Rivals(guards, 0, 7, topic);
  }
}
