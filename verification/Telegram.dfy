/** Decoding of telegrams: the JSON block of the decoder's output, and the keys tried for an encrypted telegram. */
module Telegram {
  import opened Options
  import opened DeviceAttributes

  // ----- brace lines

  predicate LineStart(t: string, i: nat) {
    i <= |t| && (i == 0 || t[i - 1] == '\n')
  }

  predicate LineEnd(t: string, i: nat) {
    i <= |t| && (i == |t| || t[i] == '\n')
  }

  /** The line at i is a single opening brace. */
  predicate Opens(t: string, i: nat) {
    i < |t| && t[i] == '{' && LineStart(t, i) && LineEnd(t, i + 1)
  }

  predicate Closes(t: string, i: nat) {
    i < |t| && t[i] == '}' && LineStart(t, i) && LineEnd(t, i + 1)
  }

  /** The first closing line from i on, or the end of the text. */
  function NextClose(t: string, i: nat): (j: nat)
    requires i <= |t|
    ensures i <= j <= |t| && (j < |t| ==> Closes(t, j))
    ensures forall k :: i <= k < j ==> !Closes(t, k)
    decreases |t| - i
  {
    if i == |t| || Closes(t, i) then i else NextClose(t, i + 1)
  }

  // ----- blocks

  /** First and last position of a block. */
  datatype Block = Block(from: nat, to: nat)

  /** The shortest match of the block expression that starts with an opening line. */
  ghost predicate Matches(t: string, b: Block) {
    && Opens(t, b.from) && Closes(t, b.to) && b.from < b.to
    && forall k :: b.from < k < b.to ==> !Closes(t, k)
  }

  /** All matches from i on, each found leftmost after the end of the one before. */
  function BlocksFrom(t: string, i: nat): (blocks: seq<Block>)
    requires i <= |t|
    ensures forall k :: 0 <= k < |blocks| ==> Matches(t, blocks[k]) && i <= blocks[k].from
    ensures forall k, l :: 0 <= k < l < |blocks| ==> blocks[k].to < blocks[l].from
    decreases |t| - i
  {
    if i == |t| then []
    else if Opens(t, i) && NextClose(t, i + 1) < |t| then
      var j := NextClose(t, i + 1);
      [Block(i, j)] + BlocksFrom(t, j + 1)
    else BlocksFrom(t, i + 1)
  }

  function Blocks(t: string): (blocks: seq<Block>)
    ensures forall k :: 0 <= k < |blocks| ==> Matches(t, blocks[k])
    ensures forall k, l :: 0 <= k < l < |blocks| ==> blocks[k].to < blocks[l].from
  {
    BlocksFrom(t, 0)
  }

  /** The block decoded as JSON: the last one. */
  function DecodedBlock(t: string): Option<Block> {
    var blocks := Blocks(t);
    if blocks == [] then None else Some(blocks[|blocks| - 1])
  }

  ghost predicate Covered(blocks: seq<Block>, i: nat) {
    exists k :: 0 <= k < |blocks| && blocks[k].from <= i < blocks[k].to
  }

  lemma OpenIsNotClose(t: string, i: nat)
    ensures !(Opens(t, i) && Closes(t, i))
  {
  }

  lemma CoveredBehind(b: Block, rest: seq<Block>, p: nat)
    ensures b.from <= p < b.to || Covered(rest, p) ==> Covered([b] + rest, p)
  {
    var all := [b] + rest;
    assert all[0] == b;
    if k :| 0 <= k < |rest| && rest[k].from <= p < rest[k].to {
      assert all[k + 1] == rest[k];
    }
  }

  /** No opening line with a closing line behind it is outside the blocks. */
  lemma {:induction false} OpeningsAreCovered(t: string, i: nat, p: nat, q: nat)
    requires i <= p < q && Opens(t, p) && Closes(t, q)
    ensures Covered(BlocksFrom(t, i), p)
    decreases |t| - i
  {
    var j := if i < |t| then NextClose(t, i + 1) else i;
    assert q < |t|;
    hide Opens, Closes, NextClose, Covered;
    OpenIsNotClose(t, p);
    if Opens(t, i) && j < |t| {
      CoveredBehind(Block(i, j), BlocksFrom(t, j + 1), p);
      if j <= p {
        OpeningsAreCovered(t, j + 1, p, q);
      }
    } else {
      OpeningsAreCovered(t, i + 1, p, q);
    }
  }

  ghost predicate CloseBetween(t: string, p: nat, q: nat) {
    exists c: nat :: p < c < q && Closes(t, c)
  }

  ghost predicate NoneOpenBefore(t: string, b: Block) {
    forall p: nat :: p < b.from && Opens(t, p) ==> CloseBetween(t, p, b.from)
  }

  /** An opening line without an earlier one still open starts a block, to its first closing line. */
  lemma OpeningStartsBlock(t: string, b: Block)
    requires Matches(t, b)
    requires NoneOpenBefore(t, b)
    ensures b in Blocks(t)
  {
    OpeningsAreCovered(t, 0, b.from, b.to);
    var blocks := Blocks(t);
    var k :| 0 <= k < |blocks| && blocks[k].from <= b.from < blocks[k].to;
    assert Matches(t, blocks[k]);
    assert blocks[k].from == b.from;
    assert blocks[k].to == b.to;
  }

  /** If each opening line is closed before the next one, the blocks are exactly the pairs of brace lines. */
  lemma AlternatingBraces(t: string, b: Block)
    requires forall p: nat, q: nat :: p < q && Opens(t, p) && Opens(t, q) ==> CloseBetween(t, p, q)
    ensures b in Blocks(t) <==> Matches(t, b)
  {
    if Matches(t, b) {
      OpeningStartsBlock(t, b);
    }
  }

  ghost predicate NoPairBehind(t: string, b: Block) {
    forall p, q :: b.to < p < q && Opens(t, p) ==> !Closes(t, q)
  }

  /**
   * A pair of brace lines is the block decoded exactly if no earlier opening line is still open before it and no
   * opening line behind it is closed again, whatever else the text holds.
   */
  lemma LastPairIsDecoded(t: string, b: Block)
    requires Matches(t, b)
    ensures DecodedBlock(t) == Some(b) <==> NoneOpenBefore(t, b) && NoPairBehind(t, b)
  {
    var blocks := Blocks(t);
    if blocks != [] && blocks[|blocks| - 1] == b {
      NothingBehindLast(t, b);
      NothingOpenBeforeLast(t, b);
    } else if NoneOpenBefore(t, b) {
      PairBehind(t, b);
    }
  }

  /** Nothing is decoded exactly if no opening line is followed by a closing one. */
  lemma NothingDecoded(t: string)
    ensures DecodedBlock(t).None? <==> forall p, q :: 0 <= p < q && Opens(t, p) ==> !Closes(t, q)
  {
    if DecodedBlock(t).None? {
      forall p, q | 0 <= p < q && Opens(t, p)
        ensures !Closes(t, q)
      {
        if Closes(t, q) {
          OpeningsAreCovered(t, 0, p, q);
        }
      }
    } else {
      var b := DecodedBlock(t).value;
      assert Opens(t, b.from) && Closes(t, b.to);
    }
  }

  lemma NothingOpenBeforeLast(t: string, b: Block)
    requires Blocks(t) != [] && Blocks(t)[|Blocks(t)| - 1] == b
    ensures NoneOpenBefore(t, b)
  {
    hide Opens, Closes, BlocksFrom;
    var blocks := Blocks(t);
    forall p: nat | p < b.from && Opens(t, p)
      ensures CloseBetween(t, p, b.from)
    {
      OpeningsAreCovered(t, 0, p, b.to);
      var k :| 0 <= k < |blocks| && blocks[k].from <= p < blocks[k].to;
      assert k < |blocks| - 1;
      assert p < blocks[k].to < b.from && Closes(t, blocks[k].to);
    }
  }

  lemma PairBehind(t: string, b: Block)
    requires Matches(t, b) && NoneOpenBefore(t, b)
    ensures Blocks(t) != []
    ensures Blocks(t)[|Blocks(t)| - 1] == b || !NoPairBehind(t, b)
  {
    hide Opens, Closes, BlocksFrom;
    OpeningStartsBlock(t, b);
    var blocks := Blocks(t);
    var k :| 0 <= k < |blocks| && blocks[k] == b;
    if k < |blocks| - 1 {
      var last := blocks[|blocks| - 1];
      assert b.to < last.from < last.to && Opens(t, last.from) && Closes(t, last.to);
    }
  }

  lemma NothingBehindLast(t: string, b: Block)
    requires Blocks(t) != [] && Blocks(t)[|Blocks(t)| - 1] == b
    ensures NoPairBehind(t, b)
  {
    var blocks := Blocks(t);
    forall p, q | b.to < p < q && Opens(t, p)
      ensures !Closes(t, q)
    {
      if Closes(t, q) {
        OpeningsAreCovered(t, 0, p, q);
      }
    }
  }

  // ----- keys

  const KEY_ATTRIBUTE := "wmbus/key"
  // the encoding of a decode result that was never set
  const NULL_PAYLOAD := "null"

  datatype Attempt = Decoded(fields: string) | WrongKey | Fault(message: string)

  /** The status to store and the payload to publish, or an error that ends the handling. */
  datatype Tried = Tried(keyOk: bool, decoded: Option<string>) | Aborted(message: string)

  function StoredKeys(attributes: seq<Attribute>): seq<string> {
    if attributes == [] then []
    else
      var last := attributes[|attributes| - 1];
      StoredKeys(attributes[..|attributes| - 1])
      + (if last.key == KEY_ATTRIBUTE && last.value != "" then [last.value] else [])
  }

  predicate AnyFault(attempts: seq<Attempt>) {
    exists a :: a in attempts && a.Fault?
  }

  function Next(tried: Tried, a: Attempt): Tried {
    match tried
    case Aborted(_) => tried
    case Tried(keyOk, _) =>
      match a
      case Decoded(fields) => Tried(true, Some(fields))
      case WrongKey => Tried(keyOk, None)
      case Fault(message) => Aborted(message)
  }

  /** Every key is tried; each attempt replaces the result of the one before. */
  function Trying(attempts: seq<Attempt>): Tried {
    if attempts == [] then Tried(false, None)
    else
      Next(Trying(attempts[..|attempts| - 1]), attempts[|attempts| - 1])
  }

  function Attempts(attributes: seq<Attribute>, attempt: string -> Attempt): (r: seq<Attempt>) {
    var keys := StoredKeys(attributes);
    seq(|keys|, i requires 0 <= i < |keys| => attempt(keys[i]))
  }

  lemma {:induction false} AbortStays(attempts: seq<Attempt>, i: nat)
    requires i <= |attempts| && Trying(attempts[..i]).Aborted?
    ensures Trying(attempts) == Trying(attempts[..i])
    decreases |attempts|
  {
    if i < |attempts| {
      var pre := attempts[..|attempts| - 1];
      assert pre[..i] == attempts[..i];
      AbortStays(pre, i);
    } else {
      assert attempts[..i] == attempts;
    }
  }

  lemma TryingStep(attempts: seq<Attempt>, i: nat)
    requires i < |attempts|
    ensures Trying(attempts[..i + 1]) == Next(Trying(attempts[..i]), attempts[i])
  {
    assert attempts[..i + 1][..i] == attempts[..i];
  }

  method CollectKeys(attributes: seq<Attribute>) returns (keys: seq<string>)
    ensures keys == StoredKeys(attributes)
  {
    keys := [];
    for i := 0 to |attributes|
      invariant keys == StoredKeys(attributes[..i])
    {
      assert attributes[..i + 1][..i] == attributes[..i];
      if attributes[i].key == KEY_ATTRIBUTE && attributes[i].value != "" {
        keys := keys + [attributes[i].value];
      }
    }
    assert attributes[..|attributes|] == attributes;
  }

  method TryKeys(attributes: seq<Attribute>, attempt: string -> Attempt) returns (tried: Tried)
    ensures tried == Trying(Attempts(attributes, attempt))
  {
    var keys := CollectKeys(attributes);
    ghost var attempts := Attempts(attributes, attempt);
    var keyOk, decoded := false, None;
    for i := 0 to |keys|
      invariant Trying(attempts[..i]) == Tried(keyOk, decoded)
    {
      TryingStep(attempts, i);
      match attempt(keys[i]) {
        case WrongKey => decoded := None;
        case Fault(message) =>
          AbortStays(attempts, i + 1);
          return Aborted(message);
        case Decoded(fields) =>
          decoded := Some(fields);
          keyOk := true;
      }
    }
    assert attempts[..|keys|] == attempts;
    return Tried(keyOk, decoded);
  }

  /** The handling goes on exactly if no attempt faults; and the status is good exactly if some key decodes. */
  lemma {:induction false} StatusMeansSomeKey(attempts: seq<Attempt>)
    ensures Trying(attempts).Tried? <==> !AnyFault(attempts)
    ensures Trying(attempts).Tried? ==> (Trying(attempts).keyOk <==> exists a :: a in attempts && a.Decoded?)
  {
    if attempts != [] {
      var pre, last := attempts[..|attempts| - 1], attempts[|attempts| - 1];
      StatusMeansSomeKey(pre);
      assert forall a :: a in attempts <==> a in pre || a == last;
    }
  }

  function PublishedPayload(tried: Tried): string
    requires tried.Tried?
  {
    if tried.decoded.Some? then tried.decoded.value else NULL_PAYLOAD
  }

  /**
   * With a good status the payload is the decode of the last key exactly if that key is right. A right key followed by
   * a wrong one publishes an empty result although the status is good.
   */
  lemma PayloadIsLastKey(attempts: seq<Attempt>)
    requires Trying(attempts).Tried? && Trying(attempts).keyOk
    ensures attempts != []
    ensures Trying(attempts).decoded.Some? <==> attempts[|attempts| - 1].Decoded?
    ensures var last := attempts[|attempts| - 1];
            PublishedPayload(Trying(attempts)) == if last.Decoded? then last.fields else NULL_PAYLOAD
  {
  }

  /** Such a device: two stored keys, the second one wrong. */
  lemma WrongKeyLast(fields: string)
    ensures Trying([Decoded(fields), WrongKey]) == Tried(true, None)
    ensures PublishedPayload(Tried(true, None)) == NULL_PAYLOAD
  {
    var attempts := [Decoded(fields), WrongKey];
    assert attempts[..1] == [Decoded(fields)] && attempts[..1][..0] == [];
    assert Trying(attempts[..1]) == Tried(true, Some(fields));
  }
}
