/** Classes of characters, and the longest run of a class at the start of a text. */
module Characters {

  predicate IsDigit(c: char) {
    '0' <= c <= '9'
  }

  predicate IsHex(c: char) {
    IsDigit(c) || 'a' <= c <= 'f' || 'A' <= c <= 'F'
  }

  predicate All(kind: char -> bool, s: string) {
    forall i :: 0 <= i < |s| ==> kind(s[i])
  }

  /** Length of the longest prefix within a class. */
  function Run(kind: char -> bool, s: string): (n: nat)
    ensures n <= |s| && All(kind, s[..n])
    ensures n < |s| ==> !kind(s[n])
  {
    if s != "" && kind(s[0]) then
      assert s[..1 + Run(kind, s[1..])] == [s[0]] + s[1..][..Run(kind, s[1..])];
      1 + Run(kind, s[1..])
    else 0
  }

  /** A prefix within the class that cannot be extended is the run. */
  lemma {:induction false} RunIs(kind: char -> bool, w: string, rest: string)
    requires All(kind, w) && (rest == "" || !kind(rest[0]))
    ensures Run(kind, w + rest) == |w| && (w + rest)[..|w|] == w && (w + rest)[|w|..] == rest
  {
    if w == "" {
      assert w + rest == rest;
    } else {
      assert (w + rest)[1..] == w[1..] + rest;
      RunIs(kind, w[1..], rest);
    }
  }
}
