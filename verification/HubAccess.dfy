/**
 * Access checks of health reports in front of the cache, as concurrent calls take them step by step: look into the
 * cache, ask for the hub, remember a positive answer. The log keeps what happened, in order.
 */
module HubAccess {
  import opened HubCheckCache

  /** The answer to "does the hub exist for this user"; an error counts as such whatever comes with it. */
  datatype Answer = Yes | No | Error

  datatype Phase = Begun | Missed | Confirmed | Granted | Denied | Errored

  datatype Call = Call(key: Key, phase: Phase)

  datatype Entry =
    | Hit(call: nat, key: Key, at: int)
    | Answered(call: nat, key: Key, answer: Answer)
    | Added(call: nat, key: Key, at: int)

  datatype System = System(cache: State, calls: map<nat, Call>, log: seq<Entry>)

  datatype Event =
    | Begin(call: nat, key: Key)
    | Look(call: nat, at: int)
    | Ask(call: nat, answer: Answer)
    | Remember(call: nat, at: int)

  const NOTHING := System(EMPTY, map[], [])

  /** An empty or dot-segment id names no single hub. */
  predicate NamesHub(hubId: string) {
    hubId != "" && hubId != "." && hubId != ".."
  }

  predicate In(s: System, call: nat, phase: Phase) {
    call in s.calls && s.calls[call].phase == phase
  }

  predicate Enabled(s: System, e: Event) {
    match e
    case Begin(call, _) => call !in s.calls
    case Look(call, _) => In(s, call, Begun)
    case Ask(call, _) => In(s, call, Missed)
    case Remember(call, _) => In(s, call, Confirmed)
  }

  function Move(s: System, call: nat, phase: Phase): map<nat, Call>
    requires call in s.calls
  {
    s.calls[call := s.calls[call].(phase := phase)]
  }

  function Step(c: Config, s: System, e: Event): System
    requires Enabled(s, e)
  {
    match e
    case Begin(call, key) =>
      s.(calls := s.calls[call := Call(key, if NamesHub(key.hubId) then Begun else Denied)])
    case Look(call, at) =>
      var key := s.calls[call].key;
      if Has(c, s.cache, key, at) then s.(calls := Move(s, call, Granted), log := s.log + [Hit(call, key, at)])
      else s.(calls := Move(s, call, Missed))
    case Ask(call, answer) =>
      var phase := match answer case Yes => Confirmed case No => Denied case Error => Errored;
      s.(calls := Move(s, call, phase), log := s.log + [Answered(call, s.calls[call].key, answer)])
    case Remember(call, at) =>
      var key := s.calls[call].key;
      System(Add(c, s.cache, key, at), Move(s, call, Granted), s.log + [Added(call, key, at)])
  }

  predicate Possible(c: Config, s: System, events: seq<Event>)
    decreases |events|
  {
    events == [] || (Enabled(s, events[0]) && Possible(c, Step(c, s, events[0]), events[1..]))
  }

  function Exec(c: Config, s: System, events: seq<Event>): System
    requires Possible(c, s, events)
    decreases |events|
  {
    if events == [] then s else Exec(c, Step(c, s, events[0]), events[1..])
  }

  // ----- safety

  ghost predicate PositiveBefore(log: seq<Entry>, n: nat, call: nat, key: Key)
    requires n <= |log|
  {
    exists i :: 0 <= i < n && log[i] == Answered(call, key, Yes)
  }

  /** Entry j adds the key after a positive answer to the same call. */
  ghost predicate JustifiedAdd(log: seq<Entry>, j: nat, key: Key)
    requires j < |log|
    ensures JustifiedAdd(log, j, key) ==> log[j].Added?
  {
    log[j].Added? && log[j].key == key && PositiveBefore(log, j, log[j].call, key)
  }

  /** Entry k finds the key in the cache while an earlier justified add is still less than the duration old. */
  ghost predicate JustifiedHit(c: Config, log: seq<Entry>, k: nat, call: nat, key: Key)
    requires k < |log|
  {
    && log[k].Hit? && log[k].call == call && log[k].key == key
    && exists j :: 0 <= j < k && JustifiedAdd(log, j, key) && log[k].at < log[j].at + c.duration
  }

  /** A grant rests on a positive answer to the call itself, or on a justified hit. */
  ghost predicate Justified(c: Config, log: seq<Entry>, call: nat, key: Key) {
    || PositiveBefore(log, |log|, call, key)
    || exists k :: 0 <= k < |log| && JustifiedHit(c, log, k, call, key)
  }

  /** A cached expiry rests on a justified add. */
  ghost predicate Backed(c: Config, log: seq<Entry>, key: Key, expiry: int) {
    exists j :: 0 <= j < |log| && JustifiedAdd(log, j, key) && expiry == log[j].at + c.duration
  }

  ghost predicate Safe(c: Config, s: System) {
    && (forall key :: key in s.cache.expiry ==> Backed(c, s.log, key, s.cache.expiry[key]))
    && (forall call :: In(s, call, Confirmed) ==> PositiveBefore(s.log, |s.log|, call, s.calls[call].key))
    && (forall call :: In(s, call, Granted) ==> Justified(c, s.log, call, s.calls[call].key))
    && (forall j :: 0 <= j < |s.log| && s.log[j].Added? ==> JustifiedAdd(s.log, j, s.log[j].key))
  }

  lemma PositiveStays(log: seq<Entry>, entry: Entry, n: nat, call: nat, key: Key)
    requires n <= |log|
    ensures PositiveBefore(log + [entry], n, call, key) <==> PositiveBefore(log, n, call, key)
    ensures PositiveBefore(log, |log|, call, key) ==> PositiveBefore(log + [entry], |log| + 1, call, key)
  {
    var grown := log + [entry];
    assert forall i :: 0 <= i < |log| ==> grown[i] == log[i];
  }

  lemma AddStays(log: seq<Entry>, entry: Entry, j: nat, key: Key)
    requires j < |log|
    ensures JustifiedAdd(log + [entry], j, key) <==> JustifiedAdd(log, j, key)
  {
    assert (log + [entry])[j] == log[j];
    if log[j].Added? {
      PositiveStays(log, entry, j, log[j].call, key);
    }
  }

  lemma HitStays(c: Config, log: seq<Entry>, entry: Entry, k: nat, call: nat, key: Key)
    requires k < |log| && JustifiedHit(c, log, k, call, key)
    ensures JustifiedHit(c, log + [entry], k, call, key)
  {
    hide JustifiedAdd;
    var grown := log + [entry];
    var j :| 0 <= j < k && JustifiedAdd(log, j, key) && log[k].at < log[j].at + c.duration;
    AddStays(log, entry, j, key);
    assert grown[k] == log[k] && grown[j] == log[j];
  }

  /** What rests on the log still does when it grows. */
  lemma LogGrows(c: Config, log: seq<Entry>, entry: Entry, key: Key)
    ensures forall expiry :: Backed(c, log, key, expiry) ==> Backed(c, log + [entry], key, expiry)
    ensures forall call :: PositiveBefore(log, |log|, call, key) ==> PositiveBefore(log + [entry], |log| + 1, call, key)
    ensures forall call :: Justified(c, log, call, key) ==> Justified(c, log + [entry], call, key)
    ensures forall j :: 0 <= j < |log| && JustifiedAdd(log, j, key) ==> JustifiedAdd(log + [entry], j, key)
  {
    hide JustifiedAdd, PositiveBefore, JustifiedHit;
    var grown := log + [entry];
    forall j | 0 <= j < |log|
      ensures JustifiedAdd(grown, j, key) <==> JustifiedAdd(log, j, key)
    {
      AddStays(log, entry, j, key);
    }
    forall expiry | Backed(c, log, key, expiry)
      ensures Backed(c, grown, key, expiry)
    {
      var j :| 0 <= j < |log| && JustifiedAdd(log, j, key) && expiry == log[j].at + c.duration;
      assert grown[j] == log[j];
    }
    forall call
      ensures PositiveBefore(log, |log|, call, key) ==> PositiveBefore(grown, |log| + 1, call, key)
    {
      PositiveStays(log, entry, |log|, call, key);
    }
    forall call | Justified(c, log, call, key)
      ensures Justified(c, grown, call, key)
    {
      if k :| 0 <= k < |log| && JustifiedHit(c, log, k, call, key) {
        HitStays(c, log, entry, k, call, key);
      }
    }
  }

  /** A step that only logs keeps everything that held; the changed call and entry have to be shown. */
  lemma Extends(c: Config, s: System, t: System, entry: Entry, call: nat)
    requires Safe(c, s) && t.log == s.log + [entry] && call in s.calls && call in t.calls
    requires t.calls == s.calls[call := s.calls[call].(phase := t.calls[call].phase)]
    requires forall key :: key in t.cache.expiry ==>
      || (key in s.cache.expiry && t.cache.expiry[key] == s.cache.expiry[key])
      || Backed(c, t.log, key, t.cache.expiry[key])
    requires In(t, call, Confirmed) ==> PositiveBefore(t.log, |t.log|, call, t.calls[call].key)
    requires In(t, call, Granted) ==> Justified(c, t.log, call, t.calls[call].key)
    requires entry.Added? ==> JustifiedAdd(t.log, |s.log|, entry.key)
    ensures Safe(c, t)
  {
    hide JustifiedAdd, PositiveBefore, Justified, Backed;
    forall key | key in t.cache.expiry
      ensures Backed(c, t.log, key, t.cache.expiry[key])
    {
      LogGrows(c, s.log, entry, key);
    }
    forall other | other in t.calls && other != call
      ensures In(t, other, Confirmed) ==> PositiveBefore(t.log, |t.log|, other, t.calls[other].key)
      ensures In(t, other, Granted) ==> Justified(c, t.log, other, t.calls[other].key)
    {
      LogGrows(c, s.log, entry, s.calls[other].key);
      assert In(t, other, Confirmed) ==> In(s, other, Confirmed);
      assert In(t, other, Granted) ==> In(s, other, Granted);
    }
    forall j | 0 <= j < |t.log| && t.log[j].Added?
      ensures JustifiedAdd(t.log, j, t.log[j].key)
    {
      if j < |s.log| {
        assert t.log[j] == s.log[j];
        LogGrows(c, s.log, entry, s.log[j].key);
      }
    }
  }

  lemma LookSafe(c: Config, s: System, e: Event)
    requires e.Look? && Enabled(s, e) && Safe(c, s)
    ensures Safe(c, Step(c, s, e))
  {
    var t, key := Step(c, s, e), s.calls[e.call].key;
    if Has(c, s.cache, key, e.at) {
      var entry := Hit(e.call, key, e.at);
      var j :| 0 <= j < |s.log| && JustifiedAdd(s.log, j, key) && s.cache.expiry[key] == s.log[j].at + c.duration;
      AddStays(s.log, entry, j, key);
      var k := |s.log|;
      assert t.log[j] == s.log[j];
      assert JustifiedHit(c, t.log, k, e.call, key);
      Extends(c, s, t, entry, e.call);
    } else {
      assert forall call, phase :: In(t, call, phase) && phase != Missed ==>
        In(s, call, phase) && t.calls[call].key == s.calls[call].key;
    }
  }

  lemma AskSafe(c: Config, s: System, e: Event)
    requires e.Ask? && Enabled(s, e) && Safe(c, s)
    ensures Safe(c, Step(c, s, e))
  {
    var t := Step(c, s, e);
    assert t.log[|s.log|] == Answered(e.call, s.calls[e.call].key, e.answer);
    Extends(c, s, t, t.log[|s.log|], e.call);
  }

  lemma RememberSafe(c: Config, s: System, e: Event)
    requires e.Remember? && Enabled(s, e) && Safe(c, s)
    ensures Safe(c, Step(c, s, e))
  {
    var t, key := Step(c, s, e), s.calls[e.call].key;
    var entry, n := Added(e.call, key, e.at), |s.log|;
    assert In(s, e.call, Confirmed);
    PositiveStays(s.log, entry, n, e.call, key);
    assert t.log[n] == entry;
    assert JustifiedAdd(t.log, n, key);
    Extends(c, s, t, entry, e.call);
  }

  lemma BeginSafe(c: Config, s: System, e: Event)
    requires e.Begin? && Enabled(s, e) && Safe(c, s)
    ensures Safe(c, Step(c, s, e))
  {
    hide JustifiedAdd, PositiveBefore, Justified, Backed;
    var t := Step(c, s, e);
    assert forall call, phase :: In(t, call, phase) && phase != Begun && phase != Denied ==>
      In(s, call, phase) && t.calls[call].key == s.calls[call].key;
  }

  lemma StepSafe(c: Config, s: System, e: Event)
    requires Enabled(s, e) && Safe(c, s)
    ensures Safe(c, Step(c, s, e))
  {
    match e
    case Begin(_, _) => BeginSafe(c, s, e);
    case Look(_, _) => LookSafe(c, s, e);
    case Ask(_, _) => AskSafe(c, s, e);
    case Remember(_, _) => RememberSafe(c, s, e);
  }

  lemma {:induction false} SafeHolds(c: Config, s: System, events: seq<Event>)
    requires Safe(c, s) && Possible(c, s, events)
    ensures Safe(c, Exec(c, s, events))
    decreases |events|
  {
    if events != [] {
      StepSafe(c, s, events[0]);
      SafeHolds(c, Step(c, s, events[0]), events[1..]);
    }
  }

  /**
   * In every interleaving of calls each grant is justified, and nothing but a positive answer is remembered: errors
   * and negative answers create no cached grant.
   */
  lemma AccessSafety(c: Config, events: seq<Event>)
    requires Possible(c, NOTHING, events)
    ensures var s := Exec(c, NOTHING, events);
            && (forall call :: In(s, call, Granted) ==> Justified(c, s.log, call, s.calls[call].key))
            && (forall j :: 0 <= j < |s.log| && s.log[j].Added? ==>
                  PositiveBefore(s.log, j, s.log[j].call, s.log[j].key))
  {
    SafeHolds(c, NOTHING, events);
    var s := Exec(c, NOTHING, events);
    assert forall j :: 0 <= j < |s.log| && s.log[j].Added? ==> JustifiedAdd(s.log, j, s.log[j].key);
  }

  // ----- a call that is not interrupted

  datatype Access = Accessible | Inaccessible | Failed

  /** The result of an undisturbed check and the cache after it. */
  function Check(c: Config, s: State, key: Key, lookAt: int, answer: Answer, addAt: int): (State, Access) {
    if !NamesHub(key.hubId) then (s, Inaccessible)
    else if Has(c, s, key, lookAt) then (s, Accessible)
    else match answer
      case Error => (s, Failed)
      case No => (s, Inaccessible)
      case Yes => (Add(c, s, key, addAt), Accessible)
  }

  function Steps(c: Config, s: State, call: nat, key: Key, lookAt: int, answer: Answer, addAt: int): seq<Event> {
    [Begin(call, key)]
    + (if !NamesHub(key.hubId) then []
       else if Has(c, s, key, lookAt) then [Look(call, lookAt)]
       else if answer != Yes then [Look(call, lookAt), Ask(call, answer)]
       else [Look(call, lookAt), Ask(call, answer), Remember(call, addAt)])
  }

  function Reported(phase: Phase): Access {
    match phase
    case Granted => Accessible
    case Errored => Failed
    case _ => Inaccessible
  }

  lemma ExecCons(c: Config, s: System, e: Event, events: seq<Event>)
    requires Enabled(s, e)
    ensures Possible(c, s, [e] + events) <==> Possible(c, Step(c, s, e), events)
    ensures Possible(c, s, [e] + events) ==> Exec(c, s, [e] + events) == Exec(c, Step(c, s, e), events)
  {
    assert ([e] + events)[1..] == events;
  }

  /** An undisturbed check is one of the interleavings, with the same result and the same cache. */
  lemma CheckIsRun(c: Config, s: System, call: nat, key: Key, lookAt: int, answer: Answer, addAt: int)
    requires call !in s.calls
    ensures var events := Steps(c, s.cache, call, key, lookAt, answer, addAt);
            && Possible(c, s, events)
            && var t := Exec(c, s, events);
               && call in t.calls
               && (t.cache, Reported(t.calls[call].phase)) == Check(c, s.cache, key, lookAt, answer, addAt)
  {
    var s1 := Step(c, s, Begin(call, key));
    if !NamesHub(key.hubId) {
      ExecCons(c, s, Begin(call, key), []);
    } else {
      var s2 := Step(c, s1, Look(call, lookAt));
      if Has(c, s.cache, key, lookAt) {
        ExecCons(c, s1, Look(call, lookAt), []);
        ExecCons(c, s, Begin(call, key), [Look(call, lookAt)]);
      } else {
        var s3 := Step(c, s2, Ask(call, answer));
        if answer != Yes {
          ExecCons(c, s2, Ask(call, answer), []);
          ExecCons(c, s1, Look(call, lookAt), [Ask(call, answer)]);
          ExecCons(c, s, Begin(call, key), [Look(call, lookAt), Ask(call, answer)]);
        } else {
          ExecCons(c, s3, Remember(call, addAt), []);
          ExecCons(c, s2, Ask(call, answer), [Remember(call, addAt)]);
          ExecCons(c, s1, Look(call, lookAt), [Ask(call, answer), Remember(call, addAt)]);
          ExecCons(c, s, Begin(call, key), [Look(call, lookAt), Ask(call, answer), Remember(call, addAt)]);
        }
      }
    }
  }
}
