/** The local id of a wM-Bus device, from hexadecimal codes in the descriptions of a telegram. */
module DeviceIdentity {
  import opened Characters
  import opened Options
  import opened Strings

  /** A 0x with at least one digit starts here. */
  predicate CodeStarts(s: string, i: nat) {
    i + 2 < |s| && s[i] == '0' && s[i + 1] == 'x' && IsHex(s[i + 2])
  }

  /** The digits after the first 0x that has any. */
  function FindHex(s: string): Option<string> {
    if |s| < 3 then None
    else if CodeStarts(s, 0) then Some(s[2..2 + Run(IsHex, s[2..])])
    else FindHex(s[1..])
  }

  /** h is the longest run of digits behind the leftmost 0x that has any. */
  ghost predicate LeftmostLongest(s: string, i: nat, h: string) {
    && CodeStarts(s, i)
    && (forall j :: 0 <= j < i ==> !CodeStarts(s, j))
    && i + 2 + |h| <= |s| && s[i + 2..i + 2 + |h|] == h && All(IsHex, h)
    && (i + 2 + |h| < |s| ==> !IsHex(s[i + 2 + |h|]))
  }

  lemma CodeShift(s: string, i: nat)
    requires s != ""
    ensures CodeStarts(s[1..], i) <==> CodeStarts(s, i + 1)
  {
  }

  lemma SliceShift(s: string, i: nat, j: nat)
    requires i <= j < |s|
    ensures s[1..][i..j] == s[i + 1..j + 1]
  {
  }

  lemma LeftmostShift(s: string, i: nat, h: string)
    requires s != "" && !CodeStarts(s, 0)
    ensures LeftmostLongest(s[1..], i, h) <==> LeftmostLongest(s, i + 1, h)
  {
    hide CodeStarts;
    forall j: nat
      ensures CodeStarts(s[1..], j) <==> CodeStarts(s, j + 1)
    {
      CodeShift(s, j);
    }
    if LeftmostLongest(s[1..], i, h) {
      forall j | 0 <= j < i + 1
        ensures !CodeStarts(s, j)
      {
        assert j > 0 ==> !CodeStarts(s[1..], j - 1);
      }
    }
    if i + 3 + |h| <= |s| {
      SliceShift(s, i + 2, i + 2 + |h|);
    }
  }

  lemma RunLength(t: string, h: string)
    requires |h| <= |t| && t[..|h|] == h && All(IsHex, h) && (|h| < |t| ==> !IsHex(t[|h|]))
    ensures |h| == Run(IsHex, t)
  {
    assert t == h + t[|h|..];
    RunIs(IsHex, h, t[|h|..]);
  }

  lemma LeftmostUnique(s: string, i: nat, h: string, j: nat, g: string)
    requires LeftmostLongest(s, i, h) && LeftmostLongest(s, j, g)
    ensures i == j && h == g
  {
    var t := s[i + 2..];
    assert t[..|h|] == h && (|h| < |t| ==> t[|h|] == s[i + 2 + |h|]);
    assert t[..|g|] == g && (|g| < |t| ==> t[|g|] == s[i + 2 + |g|]);
    RunLength(t, h);
    RunLength(t, g);
  }

  lemma {:induction false} FindHexFinds(s: string)
    ensures FindHex(s).Some? ==> exists i :: LeftmostLongest(s, i, FindHex(s).value)
    ensures FindHex(s).None? ==> forall i: nat :: !CodeStarts(s, i)
  {
    if |s| >= 3 {
      if CodeStarts(s, 0) {
        var tail, n := s[2..], Run(IsHex, s[2..]);
        assert tail[..n] == s[2..2 + n] && (n < |tail| ==> tail[n] == s[2 + n]);
        assert LeftmostLongest(s, 0, FindHex(s).value);
      } else {
        FindHexFinds(s[1..]);
        if FindHex(s).Some? {
          var i :| LeftmostLongest(s[1..], i, FindHex(s).value);
          LeftmostShift(s, i, FindHex(s).value);
        } else {
          forall i: nat
            ensures !CodeStarts(s, i)
          {
            if i > 0 {
              CodeShift(s, i - 1);
            }
          }
        }
      }
    }
  }

  /** The scanner finds h exactly if h is the leftmost longest code. */
  lemma ScannerMeetsExpression(s: string, h: string)
    ensures FindHex(s) == Some(h) <==> exists i :: LeftmostLongest(s, i, h)
  {
    FindHexFinds(s);
    if i :| LeftmostLongest(s, i, h) {
      var j :| LeftmostLongest(s, j, FindHex(s).value);
      LeftmostUnique(s, i, h, j, FindHex(s).value);
    }
  }

  // ----- the id

  datatype Message = Message(manufacturer: string, version: string, kind: string, meterId: string)

  datatype DeviceId = Id(text: string) | Invalid(message: string)

  function Pad(hex: string): string {
    if |hex| % 2 != 0 then "0" + hex else hex
  }

  function Joined(manufacturer: string, version: string, kind: string, meterId: string): string {
    "wmbus" + "_" + manufacturer + "_" + version + "_" + kind + "_" + meterId
  }

  function LocalDeviceId(m: Message): DeviceId {
    var manufacturer := FindHex(m.manufacturer);
    if manufacturer.None? then Invalid("invalid manufacturer data")
    else
      var version := FindHex(m.version);
      if version.None? then Invalid("invalid version data")
      else
        var kind := FindHex(m.kind);
        if kind.None? then Invalid("invalid type data")
        else Id(Joined(Pad(manufacturer.value), version.value, kind.value, m.meterId))
  }

  lemma HexHasNoUnderscore(s: string)
    requires All(IsHex, s)
    ensures '_' !in s
  {
  }

  lemma FoundIsHex(s: string)
    requires FindHex(s).Some?
    ensures All(IsHex, FindHex(s).value) && All(IsHex, Pad(FindHex(s).value))
  {
    FindHexFinds(s);
  }

  lemma JoinedNested(a: string, b: string, c: string, d: string)
    ensures Joined(a, b, c, d) == "wmbus" + ['_'] + (a + ['_'] + (b + ['_'] + (c + ['_'] + d)))
  {
  }

  /** Whatever follows, the pieces before each underscore can be told apart. */
  lemma JoinedSplit(a: string, b: string, c: string, d: string)
    requires All(IsHex, a) && All(IsHex, b) && All(IsHex, c)
    ensures Split(Joined(a, b, c, d), '_') == ["wmbus", a, b, c] + Split(d, '_')
  {
    hide Split, Joined;
    var cd := c + ['_'] + d;
    var bcd := b + ['_'] + cd;
    var abcd := a + ['_'] + bcd;
    JoinedNested(a, b, c, d);
    HexHasNoUnderscore(a);
    HexHasNoUnderscore(b);
    HexHasNoUnderscore(c);
    SplitFree("wmbus", '_');
    SplitFree(a, '_');
    SplitFree(b, '_');
    SplitFree(c, '_');
    SplitConcat("wmbus", abcd, '_');
    SplitConcat(a, bcd, '_');
    SplitConcat(b, cd, '_');
    SplitConcat(c, d, '_');
    assert ["wmbus"] + ([a] + ([b] + ([c] + Split(d, '_')))) == ["wmbus", a, b, c] + Split(d, '_');
  }

  lemma JoinedInjective(a: string, b: string, c: string, d: string, a': string, b': string, c': string, d': string)
    requires All(IsHex, a) && All(IsHex, b) && All(IsHex, c) && All(IsHex, a') && All(IsHex, b') && All(IsHex, c')
    ensures Joined(a, b, c, d) == Joined(a', b', c', d') <==> a == a' && b == b' && c == c' && d == d'
  {
    hide Split, Joined, All;
    if Joined(a, b, c, d) == Joined(a', b', c', d') {
      JoinedSplit(a, b, c, d);
      JoinedSplit(a', b', c', d');
      var s := Split(Joined(a, b, c, d), '_');
      assert s[1] == a == a' && s[2] == b == b' && s[3] == c == c';
      assert s[4..] == Split(d, '_') && s[4..] == Split(d', '_');
      JoinSplit(d, '_');
      JoinSplit(d', '_');
    }
  }

  /** An id exists exactly if each description holds a code. */
  lemma IdExists(m: Message)
    ensures LocalDeviceId(m).Id?
            <==> && (exists i: nat :: CodeStarts(m.manufacturer, i))
                 && (exists i: nat :: CodeStarts(m.version, i))
                 && (exists i: nat :: CodeStarts(m.kind, i))
  {
    FindHexFinds(m.manufacturer);
    FindHexFinds(m.version);
    FindHexFinds(m.kind);
  }

  /** Two messages get the same id exactly if their codes, the manufacturer's padded, and their meter ids agree. */
  lemma SameDevice(m: Message, n: Message)
    requires LocalDeviceId(m).Id? && LocalDeviceId(n).Id?
    ensures LocalDeviceId(m) == LocalDeviceId(n)
            <==> && Pad(FindHex(m.manufacturer).value) == Pad(FindHex(n.manufacturer).value)
                 && FindHex(m.version) == FindHex(n.version)
                 && FindHex(m.kind) == FindHex(n.kind)
                 && m.meterId == n.meterId
  {
    FoundIsHex(m.manufacturer);
    FoundIsHex(m.version);
    FoundIsHex(m.kind);
    FoundIsHex(n.manufacturer);
    FoundIsHex(n.version);
    FoundIsHex(n.kind);
    JoinedInjective(Pad(FindHex(m.manufacturer).value), FindHex(m.version).value, FindHex(m.kind).value, m.meterId,
                    Pad(FindHex(n.manufacturer).value), FindHex(n.version).value, FindHex(n.kind).value, n.meterId);
  }
}
