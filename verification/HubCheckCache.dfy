/**
 * The cache of positive hub access checks: expiring entries, pruned lazily, cleared on overflow. Times are nanoseconds.
 */
module HubCheckCache {
  import opened Sets

  datatype Key = Key(user: string, hubId: string)

  /** A duration of at most 0 disables the cache. */
  datatype Config = Config(duration: int, maxEntries: int)

  datatype State = State(expiry: map<Key, int>, nextPrune: int)

  // the zero time, before any clock reading
  const ZERO_TIME := 0
  const EMPTY := State(map[], ZERO_TIME)

  datatype Addition = Addition(key: Key, now: int)

  // ----- one operation

  predicate Has(c: Config, s: State, key: Key, now: int) {
    c.duration > 0 && key in s.expiry && now < s.expiry[key]
  }

  function Live(expiry: map<Key, int>, now: int): map<Key, int> {
    map k | k in expiry && now < expiry[k] :: expiry[k]
  }

  function Pruned(c: Config, s: State, now: int): State {
    if now < s.nextPrune then s else State(Live(s.expiry, now), now + c.duration)
  }

  /** The addition finds the cache full and clears it. */
  predicate Overflows(c: Config, s: State, key: Key, now: int) {
    var p := Pruned(c, s, now);
    c.duration > 0 && key !in p.expiry && |p.expiry| >= c.maxEntries
  }

  function Add(c: Config, s: State, key: Key, now: int): State {
    if c.duration <= 0 then s
    else
      var p := Pruned(c, s, now);
      var kept := if Overflows(c, s, key, now) then map[] else p.expiry;
      State(kept[key := now + c.duration], p.nextPrune)
  }

  /** Iterations of the pruning loop in one addition. */
  function PruneWork(c: Config, s: State, now: int): nat {
    if c.duration <= 0 || now < s.nextPrune then 0 else |s.expiry|
  }

  // ----- whole runs

  function Exec(c: Config, ops: seq<Addition>): State {
    if ops == [] then EMPTY
    else
      var last := ops[|ops| - 1];
      Add(c, Exec(c, ops[..|ops| - 1]), last.key, last.now)
  }

  function Work(c: Config, ops: seq<Addition>): nat {
    if ops == [] then 0
    else
      var pre := ops[..|ops| - 1];
      Work(c, pre) + PruneWork(c, Exec(c, pre), ops[|ops| - 1].now)
  }

  /** Position of the last addition that cleared the cache, 0 if none did. */
  function LastClear(c: Config, ops: seq<Addition>): (i: nat)
    ensures i <= |ops|
  {
    if ops == [] then 0
    else
      var pre, last := ops[..|ops| - 1], ops[|ops| - 1];
      if Overflows(c, Exec(c, pre), last.key, last.now) then |ops| - 1 else LastClear(c, pre)
  }

  /** A plain map that never prunes: the time of the last addition of each key since the last clear. */
  function LastAdditions(c: Config, ops: seq<Addition>): map<Key, int> {
    if ops == [] then map[]
    else
      var pre, last := ops[..|ops| - 1], ops[|ops| - 1];
      if Overflows(c, Exec(c, pre), last.key, last.now) then map[last.key := last.now]
      else LastAdditions(c, pre)[last.key := last.now]
  }

  /** Clock readings start after the zero time and never decrease. */
  ghost predicate Ordered(ops: seq<Addition>) {
    && (forall i :: 0 <= i < |ops| ==> ZERO_TIME <= ops[i].now)
    && (forall i, j :: 0 <= i < j < |ops| ==> ops[i].now <= ops[j].now)
  }

  ghost predicate NotBefore(now: int, ops: seq<Addition>) {
    ZERO_TIME <= now && forall i :: 0 <= i < |ops| ==> ops[i].now <= now
  }

  // ----- the cache refines a plain map

  /** The entries are additions of the plain map; those missing have expired by the last reading. */
  ghost predicate Refines(c: Config, s: State, plain: map<Key, int>, clock: int) {
    && (forall k :: k in s.expiry ==> k in plain && s.expiry[k] == plain[k] + c.duration)
    && (forall k :: k in plain && k !in s.expiry ==> plain[k] + c.duration <= clock)
  }

  lemma {:induction false} RefinesPlainMap(c: Config, ops: seq<Addition>, now: int)
    requires c.duration > 0 && Ordered(ops) && NotBefore(now, ops)
    ensures Refines(c, Exec(c, ops), LastAdditions(c, ops), now)
  {
    if ops != [] {
      var pre := ops[..|ops| - 1];
      RefinesPlainMap(c, pre, ops[|ops| - 1].now);
    }
  }

  ghost predicate IsAddition(ops: seq<Addition>, from: nat, key: Key, now: int) {
    exists i :: from <= i < |ops| && ops[i] == Addition(key, now)
  }

  lemma {:induction false} LastAdditionsAreAdditions(c: Config, ops: seq<Addition>, key: Key)
    requires key in LastAdditions(c, ops)
    ensures IsAddition(ops, LastClear(c, ops), key, LastAdditions(c, ops)[key])
  {
    var n := |ops| - 1;
    var pre := ops[..n];
    if key == ops[n].key {
      assert ops[n] == Addition(key, LastAdditions(c, ops)[key]);
    } else {
      LastAdditionsAreAdditions(c, pre, key);
      var i :| LastClear(c, pre) <= i < |pre| && pre[i] == Addition(key, LastAdditions(c, pre)[key]);
      assert ops[i] == pre[i];
    }
  }

  lemma {:induction false} LastAdditionsAreLast(c: Config, ops: seq<Addition>, i: nat)
    requires Ordered(ops) && LastClear(c, ops) <= i < |ops|
    ensures ops[i].key in LastAdditions(c, ops) && ops[i].now <= LastAdditions(c, ops)[ops[i].key]
  {
    var n := |ops| - 1;
    if i < n {
      LastAdditionsAreLast(c, ops[..n], i);
    }
  }

  /** Pruning is unobservable: a key is found exactly if its last addition since the last clear is recent enough. */
  lemma HasMeansRecentAddition(c: Config, ops: seq<Addition>, key: Key, now: int)
    requires Ordered(ops) && NotBefore(now, ops)
    ensures Has(c, Exec(c, ops), key, now)
            <==> exists i :: LastClear(c, ops) <= i < |ops| && ops[i].key == key && now < ops[i].now + c.duration
  {
    if c.duration > 0 {
      RefinesPlainMap(c, ops, now);
      if key in LastAdditions(c, ops) {
        LastAdditionsAreAdditions(c, ops, key);
      }
      forall i | LastClear(c, ops) <= i < |ops|
        ensures ops[i].key in LastAdditions(c, ops) && ops[i].now <= LastAdditions(c, ops)[ops[i].key]
      {
        LastAdditionsAreLast(c, ops, i);
      }
    }
  }

  // ----- bounds

  lemma {:induction false} SizeAtMost(c: Config, ops: seq<Addition>)
    ensures |Exec(c, ops).expiry| <= (if c.maxEntries < 1 then 1 else c.maxEntries)
  {
    if ops != [] {
      var pre, last := ops[..|ops| - 1], ops[|ops| - 1];
      SizeAtMost(c, pre);
      var s := Exec(c, pre);
      var p := Pruned(c, s, last.now);
      SubmapSize(p.expiry, s.expiry);
      InsertSize(p.expiry, last.key, last.now + c.duration);
    }
  }

  lemma InsertSize(m: map<Key, int>, key: Key, value: int)
    ensures |m[key := value]| == if key in m then |m| else |m| + 1
  {
    assert m[key := value].Keys == m.Keys + {key};
  }

  lemma SubmapSize(a: map<Key, int>, b: map<Key, int>)
    requires a.Keys <= b.Keys
    ensures |a| <= |b|
  {
    SubsetSize(a.Keys, b.Keys);
    assert |a| == |a.Keys| && |b| == |b.Keys|;
  }

  /** After any addition the promised bound holds exactly if it allows an entry at all. */
  lemma SizeBound(c: Config, ops: seq<Addition>)
    requires c.duration > 0 && ops != []
    ensures |Exec(c, ops).expiry| <= c.maxEntries <==> c.maxEntries >= 1
  {
    SizeAtMost(c, ops);
    var last := ops[|ops| - 1];
    assert last.key in Exec(c, ops).expiry;
  }

  /** Every entry expires after the previous prune and at most one duration after the last reading. */
  ghost predicate Window(c: Config, s: State, clock: int) {
    && s.nextPrune <= clock + c.duration
    && forall k :: k in s.expiry ==> s.nextPrune - c.duration < s.expiry[k] <= clock + c.duration
  }

  lemma {:induction false} InWindow(c: Config, ops: seq<Addition>, now: int)
    requires c.duration > 0 && Ordered(ops) && NotBefore(now, ops)
    ensures Window(c, Exec(c, ops), now)
  {
    if ops != [] {
      InWindow(c, ops[..|ops| - 1], ops[|ops| - 1].now);
    }
  }

  ghost function RecentOthers(c: Config, ops: seq<Addition>, key: Key, now: int): set<Key> {
    set i | 0 <= i < |ops| && ops[i].key != key && now - 2 * c.duration < ops[i].now :: ops[i].key
  }

  /** The cache is cleared only if maxEntries other keys were added within the last two durations. */
  lemma ClearNeedsRecentKeys(c: Config, ops: seq<Addition>, key: Key, now: int)
    requires Ordered(ops) && NotBefore(now, ops)
    requires Overflows(c, Exec(c, ops), key, now)
    ensures |RecentOthers(c, ops, key, now)| >= c.maxEntries
  {
    var s := Exec(c, ops);
    var p := Pruned(c, s, now);
    InWindow(c, ops, now);
    RefinesPlainMap(c, ops, now);
    forall k | k in p.expiry
      ensures k in RecentOthers(c, ops, key, now)
    {
      assert now - c.duration < p.expiry[k];
      LastAdditionsAreAdditions(c, ops, k);
      var i :| 0 <= i < |ops| && ops[i] == Addition(k, LastAdditions(c, ops)[k]);
      assert ops[i].key == k && now - 2 * c.duration < ops[i].now;
    }
    SubsetSize(p.expiry.Keys, RecentOthers(c, ops, key, now));
    assert |p.expiry| == |p.expiry.Keys|;
  }

  // ----- amortised pruning

  ghost function Late(s: State): set<Key> {
    set k | k in s.expiry && s.nextPrune < s.expiry[k]
  }

  /** An entry is worth 2 if the next prune will keep it, else 1. */
  ghost function Potential(s: State): nat {
    |s.expiry.Keys| + |Late(s)|
  }

  lemma PrunePays(c: Config, s: State, now: int)
    requires c.duration > 0 && Window(c, s, now)
    ensures PruneWork(c, s, now) + Potential(Pruned(c, s, now)) <= Potential(s)
  {
    if s.nextPrune <= now {
      var p := Pruned(c, s, now);
      assert Late(p) == {};
      SubsetSize(p.expiry.Keys, Late(s));
      assert |s.expiry| == |s.expiry.Keys|;
    }
  }

  lemma AddPays(c: Config, s: State, key: Key, now: int)
    requires c.duration > 0 && Window(c, s, now)
    ensures PruneWork(c, s, now) + Potential(Add(c, s, key, now)) <= Potential(s) + 2
  {
    PrunePays(c, s, now);
    var p, a := Pruned(c, s, now), Add(c, s, key, now);
    if Overflows(c, s, key, now) {
      SubsetSize(a.expiry.Keys, {key});
      SubsetSize(Late(a), {key});
    } else {
      assert a.expiry.Keys == p.expiry.Keys + {key};
      assert Late(a) <= Late(p) + {key};
      SubsetSize(Late(a), Late(p) + {key});
    }
  }

  /** Over a whole run the pruning loop iterates at most twice per addition. */
  lemma {:induction false} AmortisedPruning(c: Config, ops: seq<Addition>)
    requires Ordered(ops)
    ensures Work(c, ops) <= 2 * |ops|
  {
    if c.duration > 0 {
      WorkPaid(c, ops);
    } else {
      NoWorkWhenDisabled(c, ops);
    }
  }

  lemma {:induction false} WorkPaid(c: Config, ops: seq<Addition>)
    requires c.duration > 0 && Ordered(ops)
    ensures Work(c, ops) + Potential(Exec(c, ops)) <= 2 * |ops|
  {
    if ops != [] {
      var pre, last := ops[..|ops| - 1], ops[|ops| - 1];
      WorkPaid(c, pre);
      InWindow(c, pre, last.now);
      AddPays(c, Exec(c, pre), last.key, last.now);
    }
  }

  lemma {:induction false} NoWorkWhenDisabled(c: Config, ops: seq<Addition>)
    requires c.duration <= 0
    ensures Work(c, ops) == 0
  {
    if ops != [] {
      NoWorkWhenDisabled(c, ops[..|ops| - 1]);
    }
  }

  lemma ExecStep(c: Config, ops: seq<Addition>, op: Addition)
    ensures Exec(c, ops + [op]) == Add(c, Exec(c, ops), op.key, op.now)
    ensures Work(c, ops + [op]) == Work(c, ops) + PruneWork(c, Exec(c, ops), op.now)
  {
    assert (ops + [op])[..|ops|] == ops;
  }

  // ----- the cache itself

  class Cache {
    const config: Config
    var expiry: map<Key, int>
    var nextPrune: int

    // every addition so far, and the iterations of the pruning loop they took
    ghost var additions: seq<Addition>
    ghost var work: nat

    ghost predicate Valid()
      reads this
    {
      State(expiry, nextPrune) == Exec(config, additions) && work == Work(config, additions)
    }

    constructor (config: Config)
      ensures Valid() && this.config == config && additions == []
    {
      this.config := config;
      expiry := map[];
      nextPrune := ZERO_TIME;
      additions := [];
      work := 0;
    }

    method Contains(key: Key, now: int) returns (found: bool)
      requires Valid()
      ensures found == Has(config, Exec(config, additions), key, now)
      ensures Ordered(additions) && NotBefore(now, additions) ==>
        (found <==> exists i :: LastClear(config, additions) <= i < |additions|
                                && additions[i].key == key && now < additions[i].now + config.duration)
    {
      if config.duration <= 0 {
        found := false;
      } else {
        found := key in expiry && now < expiry[key];
      }
      if Ordered(additions) && NotBefore(now, additions) {
        HasMeansRecentAddition(config, additions, key, now);
      }
    }

    method Prune(now: int) returns (ghost steps: nat)
      modifies `expiry
      ensures expiry == Live(old(expiry), now) && steps == |old(expiry)|
    {
      var rest := expiry.Keys;
      steps := 0;
      while rest != {}
        invariant rest <= old(expiry).Keys
        invariant expiry == map k | k in old(expiry) && (k in rest || now < old(expiry)[k]) :: old(expiry)[k]
        invariant steps + |rest| == |old(expiry).Keys|
        decreases |rest|
      {
        var k :| k in rest;
        rest := rest - {k};
        if expiry[k] <= now {
          expiry := expiry - {k};
        }
        steps := steps + 1;
      }
    }

    method Insert(key: Key, now: int)
      requires Valid()
      modifies this
      ensures Valid()
      ensures additions == if config.duration <= 0 then old(additions) else old(additions) + [Addition(key, now)]
      ensures State(expiry, nextPrune) == Add(config, old(State(expiry, nextPrune)), key, now)
    {
      hide Exec, Work;
      if config.duration > 0 {
        ghost var before := State(expiry, nextPrune);
        ghost var steps := 0;
        if nextPrune <= now {
          steps := Prune(now);
          nextPrune := now + config.duration;
        }
        assert State(expiry, nextPrune) == Pruned(config, before, now);
        if key !in expiry && |expiry| >= config.maxEntries {
          expiry := map[];
        }
        expiry := expiry[key := now + config.duration];
        assert State(expiry, nextPrune) == Add(config, before, key, now);
        ExecStep(config, additions, Addition(key, now));
        additions := additions + [Addition(key, now)];
        work := work + steps;
      }
    }

    /** Pruning stays amortised constant over everything this cache did. */
    lemma WorkIsAmortised()
      requires Valid() && Ordered(additions)
      ensures work <= 2 * |additions|
    {
      AmortisedPruning(config, additions);
    }
  }
}
