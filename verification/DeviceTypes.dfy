/** Device types generated from telegrams: when the stored one is updated, and what an update keeps. */
module DeviceTypes {
  import opened Lists
  import opened Strings
  import opened DeviceAttributes

  const DRIVER_ATTRIBUTE := "wmbus/driver"

  datatype Variable = Variable(name: string, kind: string, details: string)

  /** The part of a variable that updates look at. */
  datatype Signature = Signature(name: string, kind: string)

  // the variables of an output are sorted in place
  datatype Output = Output(variables: array<Variable>)

  datatype Service = Service(outputs: seq<Output>)

  datatype DeviceType = DeviceType(services: seq<Service>, attributes: seq<Attribute>)

  /** The counts and variables an update decision depends on; the variables are those of the first output. */
  datatype Shape = Shape(services: nat, outputs: nat, variables: seq<Variable>)

  predicate HasVariables(t: DeviceType) {
    t.services != [] && t.services[0].outputs != []
  }

  function FirstVariables(t: DeviceType): array<Variable>
    requires HasVariables(t)
  {
    t.services[0].outputs[0].variables
  }

  ghost function Arrays(t: DeviceType): set<object> {
    if HasVariables(t) then {FirstVariables(t)} else {}
  }

  ghost function ShapeOf(t: DeviceType): Shape
    reads Arrays(t)
  {
    Shape(|t.services|, if t.services == [] then 0 else |t.services[0].outputs|,
          if HasVariables(t) then FirstVariables(t)[..] else [])
  }

  function SignatureOf(v: Variable): Signature {
    Signature(v.name, v.kind)
  }

  function Signatures(s: seq<Variable>): multiset<Signature> {
    if s == [] then multiset{} else multiset{SignatureOf(s[0])} + Signatures(s[1..])
  }

  lemma {:induction false} SignaturesConcat(s: seq<Variable>, t: seq<Variable>)
    ensures Signatures(s + t) == Signatures(s) + Signatures(t)
  {
    if s == [] {
      assert s + t == t;
    } else {
      assert (s + t)[1..] == s[1..] + t;
      SignaturesConcat(s[1..], t);
    }
  }

  lemma {:induction false} SignaturesHave(s: seq<Variable>)
    ensures |Signatures(s)| == |s|
    ensures forall x :: x in Signatures(s) <==> exists i :: 0 <= i < |s| && SignatureOf(s[i]) == x
  {
    if s != [] {
      SignaturesHave(s[1..]);
      assert s == [s[0]] + s[1..];
      forall x
        ensures x in Signatures(s) <==> exists i :: 0 <= i < |s| && SignatureOf(s[i]) == x
      {
        if x in Signatures(s[1..]) {
          var i :| 0 <= i < |s[1..]| && SignatureOf(s[1..][i]) == x;
          assert SignatureOf(s[i + 1]) == x;
        }
        if i :| 0 <= i < |s| && SignatureOf(s[i]) == x {
          assert i > 0 ==> SignatureOf(s[1..][i - 1]) == x;
        }
      }
    }
  }

  /** Variables of one name have one kind, as with unique names. */
  predicate OneKindEach(s: seq<Variable>) {
    forall v, w :: v in s && w in s && v.name == w.name ==> v.kind == w.kind
  }

  // ----- the decision

  predicate MoreOrOther(existing: seq<Variable>, current: seq<Variable>) {
    if |existing| != |current| then |existing| < |current| else Signatures(existing) != Signatures(current)
  }

  /** An update is needed for other services, more outputs, more variables, or as many with other names or kinds. */
  predicate ShapeNeedsUpdate(existing: Shape, current: Shape) {
    if existing.services != current.services then true
    else if existing.services == 0 then false
    else if existing.outputs != current.outputs then existing.outputs < current.outputs
    else existing.outputs > 0 && MoreOrOther(existing.variables, current.variables)
  }

  /** The same variables to compare, but some of one name differ in type: the decision depends on the sort. */
  predicate Ambiguous(existing: Shape, current: Shape) {
    && existing.services == current.services > 0 && existing.outputs == current.outputs > 0
    && Signatures(existing.variables) == Signatures(current.variables) && !OneKindEach(existing.variables)
  }

  predicate MayUpdate(existing: Shape, current: Shape) {
    ShapeNeedsUpdate(existing, current) || Ambiguous(existing, current)
  }

  predicate SortedByName(s: seq<Variable>) {
    forall i :: 0 < i < |s| ==> !LexLess(s[i].name, s[i - 1].name)
  }

  function Swapped(s: seq<Variable>, j: nat): seq<Variable>
    requires 0 < j < |s|
  {
    s[j := s[j - 1]][j - 1 := s[j]]
  }

  /** Up to i neighbours are ordered, but for the pair ending at j. */
  ghost predicate OrderedExcept(s: seq<Variable>, i: nat, j: nat) {
    && j <= i < |s|
    && (forall k :: 0 < k <= i && k != j ==> !LexLess(s[k].name, s[k - 1].name))
    && (0 < j < i ==> !LexLess(s[j + 1].name, s[j - 1].name))
  }

  lemma SwapMovesDown(s: seq<Variable>, i: nat, j: nat)
    requires OrderedExcept(s, i, j) && 0 < j && LexLess(s[j].name, s[j - 1].name)
    ensures OrderedExcept(Swapped(s, j), i, j - 1) && multiset(Swapped(s, j)) == multiset(s)
  {
    if LexLess(s[j - 1].name, s[j].name) {
      LexTransitive(s[j].name, s[j - 1].name, s[j].name);
    }
    LexIrreflexive(s[j].name);
  }

  method SortByName(a: array<Variable>)
    modifies a
    ensures SortedByName(a[..]) && multiset(a[..]) == multiset(old(a[..]))
  {
    hide LexLess;
    for i := 0 to a.Length
      invariant SortedByName(a[..i])
      invariant multiset(a[..]) == multiset(old(a[..]))
    {
      var j := i;
      while j > 0 && LexLess(a[j].name, a[j - 1].name)
        invariant OrderedExcept(a[..], i, j)
        invariant multiset(a[..]) == multiset(old(a[..]))
      {
        SwapMovesDown(a[..], i, j);
        ghost var before := a[..];
        a[j], a[j - 1] := a[j - 1], a[j];
        assert a[..] == Swapped(before, j);
        j := j - 1;
      }
    }
    assert a[..a.Length] == a[..];
  }

  lemma {:induction false} HeadIsLeast(s: seq<Variable>, i: nat)
    requires SortedByName(s) && i < |s|
    ensures !LexLess(s[i].name, s[0].name)
  {
    if i == 0 {
      LexIrreflexive(s[0].name);
    } else {
      HeadIsLeast(s, i - 1);
      var a, b, c := s[0].name, s[i - 1].name, s[i].name;
      if LexLess(c, a) {
        LexTotal(a, b);
        LexTotal(b, c);
        if LexLess(a, b) {
          LexTransitive(c, a, b);
        }
      }
    }
  }

  lemma HeadsMatch(s: seq<Variable>, t: seq<Variable>)
    requires SortedByName(s) && SortedByName(t) && OneKindEach(s) && OneKindEach(t) && s != [] && t != []
    requires Signatures(s) == Signatures(t)
    ensures SignatureOf(s[0]) == SignatureOf(t[0])
  {
    SignaturesHave(s);
    SignaturesHave(t);
    var x, y := SignatureOf(s[0]), SignatureOf(t[0]);
    assert x in Signatures(s) && y in Signatures(t);
    var i :| 0 <= i < |t| && SignatureOf(t[i]) == x;
    var j :| 0 <= j < |s| && SignatureOf(s[j]) == y;
    HeadIsLeast(t, i);
    HeadIsLeast(s, j);
    LexTotal(s[0].name, t[0].name);
  }

  ghost predicate SameSignatures(s: seq<Variable>, t: seq<Variable>) {
    |s| == |t| && forall i :: 0 <= i < |s| ==> SignatureOf(s[i]) == SignatureOf(t[i])
  }

  lemma TailSignatures(s: seq<Variable>)
    requires s != []
    ensures Signatures(s[1..]) == Signatures(s) - multiset{SignatureOf(s[0])}
  {
  }

  lemma TailsSorted(s: seq<Variable>)
    requires SortedByName(s) && OneKindEach(s) && s != []
    ensures SortedByName(s[1..]) && OneKindEach(s[1..])
  {
  }

  /** Sorted lists with one kind for each name and the same signatures have them position by position. */
  lemma {:induction false} SortedSignatures(s: seq<Variable>, t: seq<Variable>)
    requires SortedByName(s) && SortedByName(t) && OneKindEach(s) && OneKindEach(t)
    requires Signatures(s) == Signatures(t)
    ensures SameSignatures(s, t)
  {
    hide LexLess;
    SignaturesHave(s);
    SignaturesHave(t);
    if s != [] {
      HeadsMatch(s, t);
      TailSignatures(s);
      TailSignatures(t);
      TailsSorted(s);
      TailsSorted(t);
      SortedSignatures(s[1..], t[1..]);
      hide Signatures;
      forall i | 0 <= i < |s|
        ensures SignatureOf(s[i]) == SignatureOf(t[i])
      {
        if i > 0 {
          assert s[1..][i - 1] == s[i] && t[1..][i - 1] == t[i];
        }
      }
    }
  }

  lemma {:induction false} SameSignaturesSameBag(s: seq<Variable>, t: seq<Variable>)
    requires SameSignatures(s, t)
    ensures Signatures(s) == Signatures(t)
  {
    if s != [] {
      assert forall i :: 0 <= i < |s| - 1 ==> s[1..][i] == s[i + 1] && t[1..][i] == t[i + 1];
      SameSignaturesSameBag(s[1..], t[1..]);
    }
  }

  lemma {:induction false} SignaturesOfPermutation(s: seq<Variable>, t: seq<Variable>)
    requires multiset(s) == multiset(t)
    ensures Signatures(s) == Signatures(t)
    decreases |s|
  {
    if s == [] {
      assert |t| == |multiset(t)| == 0;
    } else {
      assert s[0] in multiset(t);
      var i :| 0 <= i < |t| && t[i] == s[0];
      MoveToFront(t, i);
      HeadAndTail(s);
      var rest := t[..i] + t[i + 1..];
      Cancel(multiset(s[1..]), multiset(rest), s[0]);
      SignaturesOfPermutation(s[1..], rest);
    }
  }

  lemma HeadAndTail(s: seq<Variable>)
    requires s != []
    ensures multiset(s) == multiset{s[0]} + multiset(s[1..])
  {
    assert s == [s[0]] + s[1..];
  }

  lemma Cancel(a: multiset<Variable>, b: multiset<Variable>, v: Variable)
    requires multiset{v} + a == multiset{v} + b
    ensures a == b
  {
    assert a == multiset{v} + a - multiset{v} && b == multiset{v} + b - multiset{v};
  }

  lemma MoveToFront(t: seq<Variable>, i: nat)
    requires i < |t|
    ensures var rest := t[..i] + t[i + 1..];
            && multiset(t) == multiset{t[i]} + multiset(rest)
            && Signatures(t) == multiset{SignatureOf(t[i])} + Signatures(rest)
  {
    assert t == t[..i] + ([t[i]] + t[i + 1..]);
    SignaturesConcat(t[..i], [t[i]] + t[i + 1..]);
    SignaturesConcat([t[i]], t[i + 1..]);
    SignaturesConcat(t[..i], t[i + 1..]);
    assert Signatures([t[i]]) == multiset{SignatureOf(t[i])};
  }

  lemma OneKindOfPermutation(s: seq<Variable>, t: seq<Variable>)
    requires multiset(s) == multiset(t)
    ensures OneKindEach(s) <==> OneKindEach(t)
  {
    assert forall v :: v in s <==> v in multiset(s);
    assert forall v :: v in t <==> v in multiset(t);
  }

  function Exchanged(s: seq<Variable>, i: nat, j: nat): seq<Variable>
    requires i < |s| && j < |s|
  {
    s[i := s[j]][j := s[i]]
  }

  /**
   * Sorting by name is not stable. The comparison does not depend on how equal names end up exactly if variables of one
   * name have one kind.
   */
  lemma ComparisonIsFixed(s: seq<Variable>)
    requires SortedByName(s)
    ensures OneKindEach(s)
            <==> forall t :: SortedByName(t) && multiset(t) == multiset(s) ==> SameSignatures(s, t)
  {
    hide LexLess;
    if OneKindEach(s) {
      forall t | SortedByName(t) && multiset(t) == multiset(s)
        ensures SameSignatures(s, t)
      {
        SignaturesOfPermutation(s, t);
        OneKindOfPermutation(s, t);
        SortedSignatures(s, t);
      }
    } else {
      var t := Unstable(s);
    }
  }

  lemma ExchangeShows(s: seq<Variable>, i: nat, j: nat)
    requires SortedByName(s) && i < |s| && j < |s| && s[i].name == s[j].name && s[i].kind != s[j].kind
    ensures var t := Exchanged(s, i, j);
            SortedByName(t) && multiset(t) == multiset(s) && !SameSignatures(s, t)
  {
    hide LexLess;
    var t := Exchanged(s, i, j);
    assert forall k :: 0 <= k < |s| ==> t[k].name == s[k].name;
    assert SignatureOf(s[i]) != SignatureOf(t[i]);
  }

  lemma OneKindOfSignatures(s: seq<Variable>, t: seq<Variable>)
    requires Signatures(s) == Signatures(t) && OneKindEach(s)
    ensures OneKindEach(t)
  {
    SignaturesHave(s);
    SignaturesHave(t);
    forall v, w | v in t && w in t && v.name == w.name
      ensures v.kind == w.kind
    {
      assert SignatureOf(v) in Signatures(t) && SignatureOf(w) in Signatures(t);
      var i :| 0 <= i < |s| && SignatureOf(s[i]) == SignatureOf(v);
      var j :| 0 <= j < |s| && SignatureOf(s[j]) == SignatureOf(w);
    }
  }

  // ----- the decision for every sort

  ghost predicate Sorting(s: seq<Variable>, e: seq<Variable>) {
    SortedByName(s) && multiset(s) == multiset(e)
  }

  /** The comparison gives the same for all sorted versions of both lists. */
  ghost predicate Fixed(e: seq<Variable>, c: seq<Variable>) {
    forall s, t, s', t' :: Sorting(s, e) && Sorting(t, c) && Sorting(s', e) && Sorting(t', c) ==>
      (SameSignatures(s, t) <==> SameSignatures(s', t'))
  }

  function Inserted(v: Variable, s: seq<Variable>): seq<Variable> {
    if s != [] && LexLess(s[0].name, v.name) then [s[0]] + Inserted(v, s[1..]) else [v] + s
  }

  lemma {:induction false} InsertedSorted(v: Variable, s: seq<Variable>)
    requires SortedByName(s)
    ensures SortedByName(Inserted(v, s)) && multiset(Inserted(v, s)) == multiset(s) + multiset{v}
  {
    hide LexLess;
    if s != [] && LexLess(s[0].name, v.name) {
      InsertedSorted(v, s[1..]);
      assert s == [s[0]] + s[1..];
      if LexLess(v.name, s[0].name) {
        LexTransitive(v.name, s[0].name, v.name);
        LexIrreflexive(v.name);
      }
    }
  }

  lemma {:induction false} SortedExists(e: seq<Variable>) returns (s: seq<Variable>)
    ensures Sorting(s, e)
  {
    if e == [] {
      s := [];
    } else {
      var rest := SortedExists(e[1..]);
      InsertedSorted(e[0], rest);
      s := Inserted(e[0], rest);
      HeadAndTail(e);
    }
  }

  /** An element with the first signature, and what is left without it. */
  lemma Matching(s: seq<Variable>, c: seq<Variable>) returns (i: nat)
    requires s != [] && Signatures(s) == Signatures(c)
    ensures i < |c| && SignatureOf(c[i]) == SignatureOf(s[0])
    ensures var rest := c[..i] + c[i + 1..];
            multiset(c) == multiset{c[i]} + multiset(rest) && Signatures(s[1..]) == Signatures(rest)
  {
    SignaturesHave(s);
    SignaturesHave(c);
    assert SignatureOf(s[0]) in Signatures(c);
    i :| 0 <= i < |c| && SignatureOf(c[i]) == SignatureOf(s[0]);
    MoveToFront(c, i);
    TailSignatures(s);
  }

  /** A list with the same signatures can be brought into their order. */
  lemma {:induction false} Aligned(s: seq<Variable>, c: seq<Variable>) returns (t: seq<Variable>)
    requires Signatures(s) == Signatures(c)
    ensures multiset(t) == multiset(c) && SameSignatures(s, t)
    decreases |s|
  {
    hide Signatures;
    if s == [] {
      SignaturesHave(s);
      SignaturesHave(c);
      t := c;
    } else {
      var i := Matching(s, c);
      var tail := Aligned(s[1..], c[..i] + c[i + 1..]);
      t := [c[i]] + tail;
      assert forall k :: 0 < k < |s| ==> s[k] == s[1..][k - 1] && t[k] == tail[k - 1];
    }
  }

  /** The decision is the same for every sort exactly if the signatures differ or each name has one kind. */
  lemma DecisionIsFixed(e: seq<Variable>, c: seq<Variable>)
    ensures Fixed(e, c) <==> Signatures(e) != Signatures(c) || OneKindEach(e)
  {
    hide LexLess, SortedByName, Signatures, OneKindEach;
    if Signatures(e) != Signatures(c) || OneKindEach(e) {
      forall s, t | Sorting(s, e) && Sorting(t, c)
        ensures SameSignatures(s, t) <==> Signatures(e) == Signatures(c)
      {
        SortedDecision(e, c, s, t);
      }
    } else {
      var s := SortedExists(e);
      SignaturesOfPermutation(e, s);
      OneKindOfPermutation(e, s);
      var t := Aligned(s, c);
      AlignedSorted(s, t);
      var s' := Unstable(s);
      assert !SameSignatures(s', t) by {
        assert SameSignatures(s', t) && SameSignatures(s, t) ==> SameSignatures(s, s');
      }
    }
  }

  lemma AlignedSorted(s: seq<Variable>, t: seq<Variable>)
    requires SortedByName(s) && SameSignatures(s, t)
    ensures SortedByName(t)
  {
    hide LexLess;
    assert forall i :: 0 <= i < |s| ==> SignatureOf(s[i]).name == t[i].name;
  }

  lemma Unstable(s: seq<Variable>) returns (s': seq<Variable>)
    requires SortedByName(s) && !OneKindEach(s)
    ensures SortedByName(s') && multiset(s') == multiset(s) && !SameSignatures(s, s')
  {
    var i, j :| 0 <= i < |s| && 0 <= j < |s| && s[i].name == s[j].name && s[i].kind != s[j].kind;
    ExchangeShows(s, i, j);
    s' := Exchanged(s, i, j);
  }

  ghost predicate SameShape(a: Shape, b: Shape) {
    a.services == b.services && a.outputs == b.outputs && multiset(a.variables) == multiset(b.variables)
  }

  method NeedsUpdate(existing: DeviceType, current: DeviceType) returns (needed: bool)
    modifies Arrays(existing), Arrays(current)
    ensures old(ShapeNeedsUpdate(ShapeOf(existing), ShapeOf(current))) ==> needed
    ensures needed ==> old(MayUpdate(ShapeOf(existing), ShapeOf(current)))
    ensures SameShape(ShapeOf(existing), old(ShapeOf(existing)))
    ensures SameShape(ShapeOf(current), old(ShapeOf(current)))
    ensures forall x: array<Variable> :: old(allocated(x)) ==> multiset(x[..]) == old(multiset(x[..]))
  {
    if |existing.services| != |current.services| {
      return true;
    }
    if |existing.services| == 0 {
      return false;
    }
    if |existing.services[0].outputs| < |current.services[0].outputs| {
      return true;
    }
    if |existing.services[0].outputs| > |current.services[0].outputs| {
      return false;
    }
    if |existing.services[0].outputs| == 0 {
      return false;
    }
    needed := VariablesDiffer(FirstVariables(existing), FirstVariables(current));
  }

  method VariablesDiffer(existing: array<Variable>, current: array<Variable>) returns (needed: bool)
    modifies existing, current
    ensures old(MoreOrOther(existing[..], current[..])) ==> needed
    ensures needed ==> old(MoreOrOther(existing[..], current[..])
                           || (Signatures(existing[..]) == Signatures(current[..]) && !OneKindEach(existing[..])))
    ensures multiset(existing[..]) == old(multiset(existing[..]))
    ensures multiset(current[..]) == old(multiset(current[..]))
  {
    if existing.Length > current.Length {
      return false;
    }
    if existing.Length < current.Length {
      return true;
    }
    SortByName(existing);
    SortByName(current);
    ghost var s, t := existing[..], current[..];
    if existing == current {
      assert s == t;
    }
    ghost var e, c := old(existing[..]), old(current[..]);
    SortedDecision(e, c, s, t);
    for i := 0 to existing.Length
      invariant existing[..] == s && current[..] == t
      invariant forall k :: 0 <= k < i ==> SignatureOf(s[k]) == SignatureOf(t[k])
    {
      assert existing[i] == s[i] && current[i] == t[i];
      if existing[i].name != current[i].name {
        return true;
      }
      if existing[i].kind != current[i].kind {
        return true;
      }
    }
    return false;
  }

  /** Comparing sorted copies position by position decides whether the signatures differ. */
  lemma SortedDecision(e: seq<Variable>, c: seq<Variable>, s: seq<Variable>, t: seq<Variable>)
    requires multiset(e) == multiset(s) && multiset(c) == multiset(t) && SortedByName(s) && SortedByName(t)
    ensures OneKindEach(e) ==> (Signatures(e) == Signatures(c) <==> SameSignatures(s, t))
    ensures SameSignatures(s, t) ==> Signatures(e) == Signatures(c)
  {
    SignaturesOfPermutation(e, s);
    SignaturesOfPermutation(c, t);
    if SameSignatures(s, t) {
      SameSignaturesSameBag(s, t);
    }
    if OneKindEach(e) && Signatures(e) == Signatures(c) {
      OneKindOfSignatures(e, c);
      OneKindOfPermutation(e, s);
      OneKindOfPermutation(c, t);
      SortedSignatures(s, t);
    }
  }

  /** The order of the variables matters neither to the updates that must happen nor to those that may. */
  lemma DecisionIgnoresOrder(existing: Shape, current: Shape, existing': Shape, current': Shape)
    requires SameShape(existing, existing') && SameShape(current, current')
    ensures ShapeNeedsUpdate(existing', current') <==> ShapeNeedsUpdate(existing, current)
    ensures Ambiguous(existing', current') <==> Ambiguous(existing, current)
  {
    SignaturesOfPermutation(existing'.variables, existing.variables);
    SignaturesOfPermutation(current'.variables, current.variables);
    OneKindOfPermutation(existing'.variables, existing.variables);
    assert |existing'.variables| == |multiset(existing'.variables)| == |existing.variables|;
    assert |current'.variables| == |multiset(current'.variables)| == |current.variables|;
  }

  /** Two variables of one name and different types, compared to themselves: the decision depends on the sort. */
  lemma AmbiguousExample(name: string, kind: string, other: string)
    requires kind != other
    ensures var list := [Variable(name, kind, ""), Variable(name, other, "")];
            var shape := Shape(1, 1, list);
            && Ambiguous(shape, shape) && !Fixed(list, list)
            && Sorting(list, list) && Sorting([list[1], list[0]], list) && !SameSignatures(list, [list[1], list[0]])
  {
    hide LexLess, Signatures;
    var v, w := Variable(name, kind, ""), Variable(name, other, "");
    var list := [v, w];
    assert v in list && w in list;
    LexIrreflexive(name);
    assert multiset([w, v]) == multiset{w, v} == multiset(list);
    assert SignatureOf(list[0]) != SignatureOf([w, v][0]);
    DecisionIsFixed(list, list);
  }

  // ----- attributes the generator does not manage

  function WithKey(key: string): Attribute -> bool {
    (a: Attribute) => a.key == key
  }

  predicate HasKey(attributes: seq<Attribute>, key: string) {
    exists a :: a in attributes && a.key == key
  }

  function Unmanaged(generated: seq<Attribute>): Attribute -> bool {
    (a: Attribute) => !HasKey(generated, a.key)
  }

  function Kept(existing: seq<Attribute>, generated: seq<Attribute>): seq<Attribute> {
    generated + Filter(Unmanaged(generated), existing)
  }

  method Contains(generated: seq<Attribute>, key: string) returns (found: bool)
    ensures found == HasKey(generated, key)
  {
    for i := 0 to |generated|
      invariant forall k :: 0 <= k < i ==> generated[k].key != key
    {
      if generated[i].key == key {
        return true;
      }
    }
    return false;
  }

  method KeepUnmanagedAttributes(existing: seq<Attribute>, generated: seq<Attribute>) returns (result: seq<Attribute>)
    ensures result == Kept(existing, generated)
  {
    hide HasKey, Filter;
    result := generated;
    FilterEmpty(Unmanaged(generated));
    for i := 0 to |existing|
      invariant result == generated + Filter(Unmanaged(generated), existing[..i])
    {
      FilterStep(Unmanaged(generated), existing, i);
      var managed := Contains(generated, existing[i].key);
      if !managed {
        result := result + [existing[i]];
      }
    }
    assert existing[..|existing|] == existing;
  }

  lemma OwnKeys(generated: seq<Attribute>)
    ensures forall a :: a in generated ==> HasKey(generated, a.key)
  {
  }

  /** The generated list stays in front, and merging again changes nothing. */
  lemma KeptIsStable(existing: seq<Attribute>, generated: seq<Attribute>)
    ensures generated <= Kept(existing, generated)
    ensures Kept(Kept(existing, generated), generated) == Kept(existing, generated)
  {
    var keep := Unmanaged(generated);
    var kept := Filter(keep, existing);
    OwnKeys(generated);
    hide HasKey, Filter;
    FilterConcat(keep, generated, kept);
    FilterNone(keep, generated);
    FilterAll(keep, kept);
  }

  /** Attributes with a key that is not generated survive in order. */
  lemma UnmanagedSurvive(existing: seq<Attribute>, generated: seq<Attribute>, key: string)
    requires !HasKey(generated, key)
    ensures Filter(WithKey(key), Kept(existing, generated)) == Filter(WithKey(key), existing)
  {
    FilterConcat(WithKey(key), generated, Filter(Unmanaged(generated), existing));
    FilterNone(WithKey(key), generated);
    FilterFilter(WithKey(key), Unmanaged(generated), WithKey(key), existing);
  }

  predicate ForcesDriver(a: Attribute) {
    a.key == DRIVER_ATTRIBUTE && a.value != ""
  }

  /** The first driver forced on the device, else the first one forced on its type, else none. */
  function Driver(device: seq<Attribute>, deviceType: seq<Attribute>): string {
    var d, t := Filter(ForcesDriver, device), Filter(ForcesDriver, deviceType);
    if d != [] then d[0].value else if t != [] then t[0].value else ""
  }

  method WmbusDriver(device: seq<Attribute>, deviceType: seq<Attribute>) returns (driver: string)
    ensures driver == Driver(device, deviceType)
  {
    hide Filter;
    FilterEmpty(ForcesDriver);
    for i := 0 to |device|
      invariant Filter(ForcesDriver, device[..i]) == []
    {
      FilterStep(ForcesDriver, device, i);
      if device[i].key == DRIVER_ATTRIBUTE && |device[i].value| > 0 {
        FilterFirst(ForcesDriver, device, i);
        return device[i].value;
      }
    }
    assert device[..|device|] == device;
    for i := 0 to |deviceType|
      invariant Filter(ForcesDriver, deviceType[..i]) == []
    {
      FilterStep(ForcesDriver, deviceType, i);
      if deviceType[i].key == DRIVER_ATTRIBUTE && |deviceType[i].value| > 0 {
        FilterFirst(ForcesDriver, deviceType, i);
        return deviceType[i].value;
      }
    }
    assert deviceType[..|deviceType|] == deviceType;
    return "";
  }

  // ----- runs of telegrams

  /** A stored or generated device type by value. */
  datatype TypeValue = TypeValue(shape: Shape, attributes: seq<Attribute>)

  ghost function ValueOf(t: DeviceType): TypeValue
    reads Arrays(t)
  {
    TypeValue(ShapeOf(t), t.attributes)
  }

  /** The same but for the order of the variables. */
  ghost predicate SameButOrder(a: TypeValue, b: TypeValue) {
    a.attributes == b.attributes && SameShape(a.shape, b.shape)
  }

  function Merged(existing: TypeValue, generated: TypeValue): TypeValue {
    generated.(attributes := Kept(existing.attributes, generated.attributes))
  }

  /** One call: what is generated, whether the services it needs work, and whether the stored type is updated. */
  datatype Turn = Turn(generated: TypeValue, works: bool, updated: bool)

  /** The stored type before and after a call; sorting may have reordered it. */
  ghost predicate Steps(a: TypeValue, turn: Turn, b: TypeValue) {
    && (turn.works && ShapeNeedsUpdate(a.shape, turn.generated.shape) ==> turn.updated)
    && (turn.updated ==> MayUpdate(a.shape, turn.generated.shape))
    && SameButOrder(b, if turn.updated then Merged(a, turn.generated) else a)
  }

  /** A step is one whatever the order of the variables before, after and generated. */
  lemma StepsIgnoreOrder(a: TypeValue, turn: Turn, b: TypeValue, a': TypeValue, turn': Turn, b': TypeValue)
    requires SameButOrder(a, a') && SameButOrder(b, b') && SameButOrder(turn.generated, turn'.generated)
    requires turn.works == turn'.works && turn.updated == turn'.updated
    ensures Steps(a, turn, b) <==> Steps(a', turn', b')
  {
    DecisionIgnoresOrder(a.shape, turn.generated.shape, a'.shape, turn'.generated.shape);
  }

  /** A run of calls for one device type, with the stored type between them. */
  datatype TypeRun = TypeRun(states: seq<TypeValue>, turns: seq<Turn>) {
    ghost predicate Follows() {
      && |states| == |turns| + 1
      && forall i :: 0 <= i < |turns| ==> Steps(states[i], turns[i], states[i + 1])
    }

    ghost predicate EndsIn(stored: TypeValue) {
      Follows() && SameButOrder(states[|turns|], stored)
    }
  }

  function Extended(r: TypeRun, turn: Turn, stored: TypeValue): TypeRun {
    TypeRun(r.states + [stored], r.turns + [turn])
  }

  lemma SameShapeSelf()
    ensures forall s: Shape :: SameShape(s, s)
  {
  }

  /** When a call fails: exactly if a service does that it needs, as far as the sort does not decide. */
  predicate Answers(a: Shape, g: Shape, remote: Remote, failed: bool) {
    && (failed ==> !remote.Works())
    && (!remote.token || !remote.readable ==> failed)
    && (!remote.update.Acknowledged? && ShapeNeedsUpdate(a, g) ==> failed)
    && (remote.token && remote.readable && !MayUpdate(a, g) ==> !failed)
  }

  /** A call that follows the decision, unless the services fail, is a step. */
  lemma StepsByDecision(a: TypeValue, g: TypeValue, remote: Remote, needed: bool, updated: bool, failed: bool,
                        b: TypeValue)
    requires ShapeNeedsUpdate(a.shape, g.shape) ==> needed || !remote.token || !remote.readable
    requires needed ==> MayUpdate(a.shape, g.shape) && remote.token && remote.readable
    requires updated == (needed && !remote.update.NotApplied?)
    requires failed == (!remote.token || !remote.readable || (needed && !remote.update.Acknowledged?))
    requires b.attributes == if updated then Kept(a.attributes, g.attributes) else a.attributes
    requires SameShape(b.shape, if updated then g.shape else a.shape)
    ensures Steps(a, Turn(g, remote.Works(), updated), b) && Answers(a.shape, g.shape, remote, failed)
  {
  }

  lemma RunStarts(stored: TypeValue)
    ensures TypeRun([stored], []).EndsIn(stored)
  {
  }

  lemma EndsInSame(r: TypeRun, a: TypeValue, b: TypeValue)
    requires r.EndsIn(a) && SameButOrder(a, b)
    ensures r.EndsIn(b)
  {
  }

  lemma ExtendedFollows(r: TypeRun, before: TypeValue, turn: Turn, stored: TypeValue)
    requires r.EndsIn(before) && Steps(before, turn, stored)
    ensures Extended(r, turn, stored).EndsIn(stored)
  {
    hide Steps;
    StepsIgnoreOrder(before, turn, stored, r.states[|r.turns|], turn, stored);
  }

  datatype Remote = Remote(token: bool, readable: bool, update: Update) {
    predicate Works() {
      token && readable && update.Acknowledged?
    }
  }

  datatype Ensuring = Stored(deviceType: DeviceType) | Failed

  const NO_TYPE := DeviceType([], [])

  /** The generated type with the unmanaged attributes of the existing one, and whether it has to replace that. */
  method MergeAndDecide(existing: DeviceType, generated: DeviceType) returns (deviceType: DeviceType, needed: bool)
    modifies Arrays(existing), Arrays(generated)
    ensures deviceType == generated.(attributes := Kept(existing.attributes, generated.attributes))
    ensures old(ShapeNeedsUpdate(ShapeOf(existing), ShapeOf(generated))) ==> needed
    ensures needed ==> old(MayUpdate(ShapeOf(existing), ShapeOf(generated)))
    ensures SameShape(ShapeOf(existing), old(ShapeOf(existing)))
    ensures SameShape(ShapeOf(deviceType), old(ShapeOf(generated)))
    ensures forall x: array<Variable> :: old(allocated(x)) ==> multiset(x[..]) == old(multiset(x[..]))
  {
    hide ShapeNeedsUpdate, MayUpdate, SameShape, Kept;
    var attributes := KeepUnmanagedAttributes(existing.attributes, generated.attributes);
    deviceType := generated.(attributes := attributes);
    needed := NeedsUpdate(existing, deviceType);
  }

  /** The stored device types. */
  class Registry {
    var types: map<string, DeviceType>
    // for each device type asked for the calls so far, and what was stored between them
    ghost var runs: map<string, TypeRun>

    function Existing(id: string): DeviceType
      reads this
    {
      if id in types then types[id] else NO_TYPE
    }

    ghost function AllArrays(): set<object>
      reads this
    {
      set id | id in types && HasVariables(types[id]) :: FirstVariables(types[id])
    }

    ghost predicate Valid()
      reads this, AllArrays()
    {
      forall id :: id in runs ==> runs[id].EndsIn(ValueOf(Existing(id)))
    }

    ghost function RunOf(id: string, stored: TypeValue): TypeRun
      reads this
    {
      if id in runs then runs[id] else TypeRun([stored], [])
    }

    /** The run of every other type ends in what is stored for it. */
    ghost predicate OthersValid(id: string)
      reads this, AllArrays()
    {
      forall other :: other in runs && other != id ==> runs[other].EndsIn(ValueOf(Existing(other)))
    }

    ghost method Log(id: string, before: TypeValue, turn: Turn)
      requires OthersValid(id) && RunOf(id, before).EndsIn(before) && Steps(before, turn, ValueOf(Existing(id)))
      modifies `runs
      ensures Valid()
      ensures runs == old(runs)[id := Extended(old(RunOf(id, before)), turn, ValueOf(Existing(id)))]
    {
      hide Steps, TypeRun.EndsIn;
      ExtendedFollows(RunOf(id, before), before, turn, ValueOf(Existing(id)));
      runs := runs[id := Extended(RunOf(id, before), turn, ValueOf(Existing(id)))];
    }

    twostate lemma OthersStay(id: string)
      requires old(Valid()) && runs == old(runs)
      requires forall other :: other != id ==> Existing(other) == old(Existing(other))
      requires forall x: array<Variable> :: old(allocated(x)) ==> multiset(x[..]) == old(multiset(x[..]))
      ensures OthersValid(id)
    {
      hide TypeRun.EndsIn;
      forall other | other in runs && other != id
        ensures runs[other].EndsIn(ValueOf(Existing(other)))
      {
        EndsInSame(runs[other], old(ValueOf(Existing(other))), ValueOf(Existing(other)));
      }
    }

    constructor (types: map<string, DeviceType>)
      ensures Valid() && this.types == types && runs == map[]
    {
      this.types := types;
      runs := map[];
    }

    /** The type is updated if it must and only if it may; the result is what is stored then, or a service failed. */
    twostate predicate Ensured(id: string, generated: DeviceType, remote: Remote, new r: Ensuring, updated: bool)
      reads this, Arrays(Existing(id)), Arrays(generated)
    {
      var before, given := old(ValueOf(Existing(id))), old(ValueOf(generated));
      && Steps(before, Turn(given, remote.Works(), updated), ValueOf(Existing(id)))
      && Answers(before.shape, given.shape, remote, r.Failed?)
      && types == (if updated then old(types)[id := Existing(id)] else old(types))
      && (updated ==> Existing(id) == generated.(attributes := Kept(before.attributes, generated.attributes)))
      && (r.Stored? ==> r.deviceType == Existing(id))
    }

    method UpdateIfNeeded(id: string, generated: DeviceType, remote: Remote) returns (r: Ensuring, ghost updated: bool)
      modifies `types, Arrays(Existing(id)), Arrays(generated)
      ensures forall x: array<Variable> :: old(allocated(x)) ==> multiset(x[..]) == old(multiset(x[..]))
      ensures Ensured(id, generated, remote, r, updated)
    {
      hide Ambiguous, ShapeNeedsUpdate, MayUpdate, Kept, Steps, SameShape, Merged, SameButOrder, Answers;
      ghost var a, g, needed := ValueOf(Existing(id)), ValueOf(generated), false;
      r, updated := Failed, false;
      if remote.token && remote.readable {
        var existing := Existing(id);
        var deviceType, update := MergeAndDecide(existing, generated);
        needed := update;
        if !update {
          r := Stored(existing);
        } else if !remote.update.NotApplied? {
          types, updated := types[id := deviceType], true;
          r := if remote.update.Acknowledged? then Stored(deviceType) else Failed;
        }
      }
      SameShapeSelf();
      StepsByDecision(a, g, remote, needed, updated, r.Failed?, ValueOf(Existing(id)));
    }

    /** The same, with the call added to the run of the type. */
    method EnsureWmbusDeviceType(id: string, generated: DeviceType, remote: Remote)
      returns (r: Ensuring, ghost updated: bool)
      requires Valid()
      modifies this, Arrays(Existing(id)), Arrays(generated)
      ensures Valid()
      ensures var turn := Turn(old(ValueOf(generated)), remote.Works(), updated);
              runs == old(runs)[id := Extended(old(RunOf(id, ValueOf(Existing(id)))), turn, ValueOf(Existing(id)))]
      ensures Ensured(id, generated, remote, r, updated)
    {
      hide Ambiguous, ShapeNeedsUpdate, MayUpdate, Kept, Steps, SameShape, TypeRun.EndsIn, OthersValid;
      RunStarts(ValueOf(Existing(id)));
      r, updated := UpdateIfNeeded(id, generated, remote);
      OthersStay(id);
      Log(id, old(ValueOf(Existing(id))), Turn(old(ValueOf(generated)), remote.Works(), updated));
    }

    /** Over everything this registry did for a type, the driver it forces stays the same. */
    lemma DriverStays(id: string, device: seq<Attribute>)
      requires Valid() && id in runs
      requires forall turn :: turn in runs[id].turns ==> !HasKey(turn.generated.attributes, DRIVER_ATTRIBUTE)
      ensures Driver(device, Existing(id).attributes) == Driver(device, runs[id].states[0].attributes)
    {
      DriverSurvivesRuns(device, runs[id], |runs[id].turns|);
    }
  }

  /** Whatever is generated and whatever fails, attributes with a never generated key stay as they are. */
  lemma {:induction false} UnmanagedSurviveRuns(r: TypeRun, key: string, i: nat)
    requires r.Follows() && i < |r.states|
    requires forall k :: 0 <= k < i ==> !HasKey(r.turns[k].generated.attributes, key)
    ensures Filter(WithKey(key), r.states[i].attributes) == Filter(WithKey(key), r.states[0].attributes)
  {
    if i > 0 {
      UnmanagedSurviveRuns(r, key, i - 1);
      UnmanagedSurvive(r.states[i - 1].attributes, r.turns[i - 1].generated.attributes, key);
      assert Steps(r.states[i - 1], r.turns[i - 1], r.states[i]);
    }
  }

  /** So a forced driver stays forced, and none appears. */
  lemma DriverSurvivesRuns(device: seq<Attribute>, r: TypeRun, i: nat)
    requires r.Follows() && i < |r.states|
    requires forall k :: 0 <= k < i ==> !HasKey(r.turns[k].generated.attributes, DRIVER_ATTRIBUTE)
    ensures Driver(device, r.states[i].attributes) == Driver(device, r.states[0].attributes)
  {
    var before, after := r.states[0].attributes, r.states[i].attributes;
    UnmanagedSurviveRuns(r, DRIVER_ATTRIBUTE, i);
    FilterFilter(ForcesDriver, WithKey(DRIVER_ATTRIBUTE), ForcesDriver, before);
    FilterFilter(ForcesDriver, WithKey(DRIVER_ATTRIBUTE), ForcesDriver, after);
  }

  // ----- how often a type is updated

  function Updates(turns: seq<Turn>): nat {
    if turns == [] then 0
    else Updates(turns[..|turns| - 1]) + (if turns[|turns| - 1].updated then 1 else 0)
  }

  lemma UpdatesStep(turns: seq<Turn>, n: nat)
    requires n < |turns|
    ensures Updates(turns[..n + 1]) == Updates(turns[..n]) + (if turns[n].updated then 1 else 0)
  {
    assert turns[..n + 1][..n] == turns[..n];
  }

  /** A run of telegrams that generate a or b, but for the order of variables. */
  ghost predicate Alternates(r: TypeRun, a: TypeValue, b: TypeValue) {
    && r.Follows()
    && forall k :: 0 <= k < |r.turns| ==> SameButOrder(r.turns[k].generated, a) || SameButOrder(r.turns[k].generated, b)
  }

  ghost predicate Repeats(r: TypeRun, g: TypeValue) {
    Alternates(r, g, g)
  }

  /** How many updates are left, if b does not give way to a. */
  ghost function Distance(stored: Shape, a: Shape, b: Shape): nat {
    if SameShape(stored, b) then 0 else if SameShape(stored, a) then 1 else 2
  }

  lemma DistanceStep(x: TypeValue, turn: Turn, y: TypeValue, a: TypeValue, b: TypeValue)
    requires Steps(x, turn, y) && (SameButOrder(turn.generated, a) || SameButOrder(turn.generated, b))
    requires !MayUpdate(b.shape, a.shape) && !Ambiguous(a.shape, a.shape) && !Ambiguous(b.shape, b.shape)
    ensures Distance(y.shape, a.shape, b.shape) + (if turn.updated then 1 else 0) <= Distance(x.shape, a.shape, b.shape)
  {
    hide ShapeNeedsUpdate, Ambiguous;
    NoUpdateBySame(a.shape);
    NoUpdateBySame(b.shape);
    var g := if SameButOrder(turn.generated, b) then b else a;
    if SameShape(x.shape, b.shape) {
      DecisionIgnoresOrder(b.shape, g.shape, x.shape, turn.generated.shape);
    } else if SameShape(x.shape, a.shape) {
      DecisionIgnoresOrder(a.shape, g.shape, x.shape, turn.generated.shape);
    }
  }

  lemma NoUpdateBySame(g: Shape)
    ensures !ShapeNeedsUpdate(g, g)
  {
  }

  lemma {:induction false} AtMostDistance(r: TypeRun, a: TypeValue, b: TypeValue, n: nat)
    requires Alternates(r, a, b) && n <= |r.turns|
    requires !MayUpdate(b.shape, a.shape) && !Ambiguous(a.shape, a.shape) && !Ambiguous(b.shape, b.shape)
    ensures Updates(r.turns[..n]) + Distance(r.states[n].shape, a.shape, b.shape)
            <= Distance(r.states[0].shape, a.shape, b.shape)
  {
    hide Distance, MayUpdate, Ambiguous, Steps, SameButOrder;
    if n > 0 {
      AtMostDistance(r, a, b, n - 1);
      UpdatesStep(r.turns, n - 1);
      DistanceStep(r.states[n - 1], r.turns[n - 1], r.states[n], a, b);
    }
  }

  lemma TwoUpdates(g: TypeValue) returns (r: TypeRun)
    requires Ambiguous(g.shape, g.shape)
    ensures Repeats(r, g) && Updates(r.turns) == 2
  {
    var turn := Turn(g, true, true);
    var s1 := Merged(g, g);
    var s2 := Merged(s1, g);
    r := TypeRun([g, s1, s2], [turn, turn]);
    assert [turn, turn][..1] == [turn] && [turn][..0] == [];
    assert Updates([turn]) == 1;
  }

  /** A repeated telegram causes at most one update in every run exactly if its type is not ambiguous to itself. */
  lemma RepeatedTelegram(g: TypeValue)
    ensures (forall r :: Repeats(r, g) ==> Updates(r.turns) <= 1) <==> !Ambiguous(g.shape, g.shape)
  {
    hide Ambiguous, Steps;
    if Ambiguous(g.shape, g.shape) {
      var r := TwoUpdates(g);
    } else {
      NoUpdateBySame(g.shape);
      forall r | Repeats(r, g)
        ensures Updates(r.turns) <= 1
      {
        OnceThenNever(r, g, |r.turns|);
        assert r.turns[..|r.turns|] == r.turns;
      }
    }
  }

  lemma {:induction false} OnceThenNever(r: TypeRun, g: TypeValue, n: nat)
    requires Repeats(r, g) && !Ambiguous(g.shape, g.shape) && n <= |r.turns|
    ensures Updates(r.turns[..n]) <= 1
    ensures Updates(r.turns[..n]) == 1 ==> SameShape(r.states[n].shape, g.shape)
  {
    hide ShapeNeedsUpdate, Ambiguous;
    if n > 0 {
      OnceThenNever(r, g, n - 1);
      UpdatesStep(r.turns, n - 1);
      var x, turn := r.states[n - 1], r.turns[n - 1];
      assert Steps(x, turn, r.states[n]);
      NoUpdateBySame(g.shape);
      if SameShape(x.shape, g.shape) {
        DecisionIgnoresOrder(g.shape, g.shape, x.shape, turn.generated.shape);
      }
    }
  }

  lemma ThreeUpdates(a: TypeValue, b: TypeValue) returns (r: TypeRun)
    requires MayUpdate(a.shape, b.shape) && MayUpdate(b.shape, a.shape)
    ensures Alternates(r, a, b) && Updates(r.turns) == 3
  {
    hide MayUpdate, Kept;
    var toA, toB := Turn(a, true, true), Turn(b, true, true);
    var s1 := Merged(a, b);
    var s2 := Merged(s1, a);
    var s3 := Merged(s2, b);
    var turns := [toB, toA, toB];
    r := TypeRun([a, s1, s2, s3], turns);
    assert turns[..2] == [toB, toA] && [toB, toA][..1] == [toB] && [toB][..0] == [];
    assert Updates([toB]) == 1;
    assert Updates([toB, toA]) == 2;
  }

  /**
   * Telegrams that generate two types in any order, as before and after decryption, cause at most two updates in every
   * run exactly if neither type is ambiguous and not each of them updates the other.
   */
  lemma AlternatingTelegrams(a: TypeValue, b: TypeValue)
    ensures (forall r :: Alternates(r, a, b) ==> Updates(r.turns) <= 2)
            <==> && !Ambiguous(a.shape, a.shape) && !Ambiguous(b.shape, b.shape)
                 && !(MayUpdate(a.shape, b.shape) && MayUpdate(b.shape, a.shape))
  {
    hide Ambiguous, ShapeNeedsUpdate, Steps, SameButOrder, Distance;
    if Ambiguous(a.shape, a.shape) {
      var r := ThreeUpdates(a, a);
      assert Alternates(r, a, b);
    } else if Ambiguous(b.shape, b.shape) {
      var r := ThreeUpdates(b, b);
      assert Alternates(r, a, b);
    } else if MayUpdate(a.shape, b.shape) && MayUpdate(b.shape, a.shape) {
      var r := ThreeUpdates(a, b);
    } else {
      forall r | Alternates(r, a, b)
        ensures Updates(r.turns) <= 2
      {
        AtMostTwo(r, a, b);
      }
    }
  }

  lemma AtMostTwo(r: TypeRun, a: TypeValue, b: TypeValue)
    requires Alternates(r, a, b) && !Ambiguous(a.shape, a.shape) && !Ambiguous(b.shape, b.shape)
    requires !(MayUpdate(a.shape, b.shape) && MayUpdate(b.shape, a.shape))
    ensures Updates(r.turns) <= 2
  {
    hide Ambiguous, MayUpdate, Steps, SameButOrder, SameShape;
    assert r.turns[..|r.turns|] == r.turns;
    if MayUpdate(b.shape, a.shape) {
      assert Alternates(r, b, a);
      AtMostDistance(r, b, a, |r.turns|);
    } else {
      AtMostDistance(r, a, b, |r.turns|);
    }
  }

  /** A telegram that generates fewer outputs before decryption than after it causes at most two updates. */
  lemma RepeatedEncryptedTelegram(r: TypeRun, small: TypeValue, full: TypeValue)
    requires small.shape.services == full.shape.services > 0 && small.shape.outputs < full.shape.outputs
    requires !Ambiguous(small.shape, small.shape) && !Ambiguous(full.shape, full.shape)
    requires Alternates(r, small, full)
    ensures Updates(r.turns) <= 2
  {
    AlternatingTelegrams(small, full);
  }

  /** Outputs, then variables of the first output. */
  predicate NotSmaller(a: Shape, b: Shape) {
    a.outputs > b.outputs || (a.outputs == b.outputs && |a.variables| >= |b.variables|)
  }

  /** A type without outputs has no variables. */
  predicate WellFormed(s: Shape) {
    s.outputs == 0 ==> s.variables == []
  }

  lemma StepNeverShrinks(a: TypeValue, turn: Turn, b: TypeValue)
    requires Steps(a, turn, b) && turn.generated.shape.services == a.shape.services
    requires WellFormed(a.shape) && WellFormed(turn.generated.shape)
    ensures NotSmaller(b.shape, a.shape) && WellFormed(b.shape) && b.shape.services == a.shape.services
  {
    var s := (if turn.updated then turn.generated else a).shape;
    assert |b.shape.variables| == |multiset(b.shape.variables)| == |s.variables|;
    SignaturesHave(a.shape.variables);
    SignaturesHave(turn.generated.shape.variables);
  }

  /** With a constant number of services the stored type never shrinks, whatever the sort decides and whatever fails. */
  lemma {:induction false} TypeNeverShrinks(r: TypeRun, i: nat, j: nat)
    requires r.Follows() && i <= j < |r.states|
    requires forall k :: 0 <= k < |r.turns| ==> r.turns[k].generated.shape.services == r.states[0].shape.services
    requires WellFormed(r.states[0].shape) && forall k :: 0 <= k < |r.turns| ==> WellFormed(r.turns[k].generated.shape)
    ensures NotSmaller(r.states[j].shape, r.states[i].shape)
    ensures WellFormed(r.states[j].shape) && r.states[j].shape.services == r.states[0].shape.services
    decreases j
  {
    hide Steps;
    if j > 0 {
      TypeNeverShrinks(r, if i < j then i else 0, j - 1);
      StepNeverShrinks(r.states[j - 1], r.turns[j - 1], r.states[j]);
    }
  }
}
