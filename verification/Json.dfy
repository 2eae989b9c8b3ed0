/**
 * JSON texts (RFC 8259, sections 2 to 7): a concrete syntax tree that keeps every character, and the deterministic
 * parser. Whitespace before and after a value is part of its element, so a text and its tree determine each other.
 */
module Json {
  import opened Characters

  datatype Value =
    | Literal(word: string)
    | Number(digits: string)
    | String(raw: string)
    | EmptyArray(blank: string)
    | Array(items: Elements)
    | EmptyObject(blank: string)
    | Object(members: Members)

  datatype Element = Element(pre: string, value: Value, post: string)

  datatype Elements = OneElement(e: Element) | MoreElements(e: Element, others: Elements)

  /** A quoted member name with the blanks around it. */
  datatype Name = Name(pre: string, raw: string, mid: string)

  datatype Member = Member(name: Name, element: Element)

  datatype Members = OneMember(m: Member) | MoreMembers(m: Member, others: Members)

  datatype Parse<T> = Fail | Got(item: T, rest: string)

  // ----- characters

  predicate IsBlank(c: char) {
    c == ' ' || c == '\t' || c == '\n' || c == '\r'
  }

  predicate InNumber(c: char) {
    IsDigit(c) || c == '.' || c == 'e' || c == 'E' || c == '+' || c == '-'
  }

  function BlankRun(s: string): (n: nat)
    ensures n <= |s|
  {
    Run(IsBlank, s)
  }

  predicate AllBlank(s: string) {
    All(IsBlank, s)
  }

  lemma BlankRunIs(ws: string, rest: string)
    requires AllBlank(ws) && (rest == "" || !IsBlank(rest[0]))
    ensures BlankRun(ws + rest) == |ws| && (ws + rest)[..|ws|] == ws && (ws + rest)[|ws|..] == rest
  {
    RunIs(IsBlank, ws, rest);
  }

  // ----- strings: a sequence of units, each one character, a two character or a \u escape

  /** Length of the string unit at the start of s, 0 if there is none. */
  function UnitLength(s: string): (n: nat)
    ensures n <= |s|
  {
    if s == "" || s[0] == '"' || s[0] < ' ' then 0
    else if s[0] != '\\' then 1
    else if |s| >= 2 && s[1] in {'"', '\\', '/', 'b', 'f', 'n', 'r', 't'} then 2
    else if |s| >= 6 && s[1] == 'u' && IsHex(s[2]) && IsHex(s[3]) && IsHex(s[4]) && IsHex(s[5]) then 6
    else 0
  }

  predicate IsRaw(raw: string) {
    raw == "" || (UnitLength(raw) > 0 && IsRaw(raw[UnitLength(raw)..]))
  }

  /** The characters up to the closing quote, and the text after that quote. */
  function ParseRaw(s: string): (r: Parse<string>)
    ensures r.Got? ==> |r.rest| < |s|
  {
    if s != "" && s[0] == '"' then Got("", s[1..])
    else
      var n := UnitLength(s);
      if n == 0 then Fail
      else
        match ParseRaw(s[n..])
        case Fail => Fail
        case Got(raw, rest) => Got(s[..n] + raw, rest)
  }

  lemma {:induction false} ParseRawComplete(raw: string, rest: string)
    requires IsRaw(raw)
    ensures ParseRaw(raw + "\"" + rest) == Got(raw, rest)
  {
    var s := raw + "\"" + rest;
    if raw == "" {
      assert s[1..] == rest;
    } else {
      var n := UnitLength(raw);
      assert UnitLength(s) == n;
      assert s[n..] == raw[n..] + "\"" + rest;
      assert s[..n] + raw[n..] == raw;
      ParseRawComplete(raw[n..], rest);
    }
  }

  lemma UnitLocal(unit: string, a: string, b: string)
    requires UnitLength(unit + a) == |unit| > 0
    ensures UnitLength(unit + b) == |unit|
  {
    assert forall i :: 0 <= i < |unit| ==> (unit + a)[i] == (unit + b)[i] == unit[i];
  }

  lemma EmptyIsRaw()
    ensures IsRaw("")
  {
  }

  lemma RawUnit(unit: string, raw: string)
    requires UnitLength(unit + raw) == |unit| > 0 && IsRaw(raw)
    ensures IsRaw(unit + raw)
  {
    assert (unit + raw)[|unit|..] == raw;
  }

  lemma {:induction false} ParseRawSound(s: string)
    requires ParseRaw(s).Got?
    ensures IsRaw(ParseRaw(s).item) && s == ParseRaw(s).item + "\"" + ParseRaw(s).rest
  {
    hide UnitLength, IsRaw;
    if s[0] == '"' {
      EmptyIsRaw();
    } else {
      var n := UnitLength(s);
      var unit, tail := s[..n], s[n..];
      ParseRawSound(tail);
      var raw, rest := ParseRaw(tail).item, ParseRaw(tail).rest;
      assert s == unit + tail && tail == raw + "\"" + rest;
      assert s == unit + raw + "\"" + rest;
      UnitLocal(unit, tail, raw);
      RawUnit(unit, raw);
    }
  }

  // ----- numbers

  /** Length of the integer part at the start of s: a zero or a digit run without leading zero. */
  function IntLength(s: string): (n: nat)
    ensures n <= |s|
  {
    if s != "" && s[0] == '0' then 1 else Run(IsDigit, s)
  }

  /** Length of an optional fraction; a dot without digits counts none. */
  function FractionLength(s: string): (n: nat)
    ensures n <= |s|
  {
    if s != "" && s[0] == '.' && Run(IsDigit, s[1..]) > 0 then 1 + Run(IsDigit, s[1..]) else 0
  }

  function SignLength(s: string): (n: nat)
    ensures n <= |s|
  {
    if s != "" && (s[0] == '+' || s[0] == '-') then 1 else 0
  }

  function ExponentLength(s: string): (n: nat)
    ensures n <= |s|
  {
    if s == "" || (s[0] != 'e' && s[0] != 'E') then 0
    else
      var sign := SignLength(s[1..]);
      var digits := Run(IsDigit, s[1 + sign..]);
      if digits > 0 then 1 + sign + digits else 0
  }

  /** Length of the number at the start of s, 0 if there is none. */
  function NumberLength(s: string): (n: nat)
    ensures n <= |s|
  {
    var minus := if s != "" && s[0] == '-' then 1 else 0;
    var whole := IntLength(s[minus..]);
    if whole == 0 then 0
    else
      var fraction := FractionLength(s[minus + whole..]);
      minus + whole + fraction + ExponentLength(s[minus + whole + fraction..])
  }

  /** An optional minus, an integer part, an optional fraction and an optional exponent. */
  predicate IsNumber(s: string) {
    s != "" && All(InNumber, s) && NumberLength(s) == |s|
  }

  predicate StopsNumber(rest: string) {
    rest == "" || !InNumber(rest[0])
  }

  // ----- texts of trees

  function ValueText(v: Value): string {
    match v
    case Literal(word) => word
    case Number(digits) => digits
    case String(raw) => "\"" + raw + "\""
    case EmptyArray(blank) => "[" + blank + "]"
    case Array(items) => "[" + ElementsText(items) + "]"
    case EmptyObject(blank) => "{" + blank + "}"
    case Object(members) => "{" + MembersText(members) + "}"
  }

  function ElementText(e: Element): string {
    e.pre + ValueText(e.value) + e.post
  }

  function ElementsText(items: Elements): string {
    match items
    case OneElement(e) => ElementText(e)
    case MoreElements(e, others) => ElementText(e) + "," + ElementsText(others)
  }

  function NameText(n: Name): string {
    n.pre + "\"" + n.raw + "\"" + n.mid + ":"
  }

  function MemberText(m: Member): string {
    NameText(m.name) + ElementText(m.element)
  }

  function MembersText(members: Members): string {
    match members
    case OneMember(m) => MemberText(m)
    case MoreMembers(m, others) => MemberText(m) + "," + MembersText(others)
  }

  predicate ValidValue(v: Value) {
    match v
    case Literal(word) => word == "true" || word == "false" || word == "null"
    case Number(digits) => IsNumber(digits)
    case String(raw) => IsRaw(raw)
    case EmptyArray(blank) => AllBlank(blank)
    case Array(items) => ValidElements(items)
    case EmptyObject(blank) => AllBlank(blank)
    case Object(members) => ValidMembers(members)
  }

  predicate ValidElement(e: Element) {
    AllBlank(e.pre) && ValidValue(e.value) && AllBlank(e.post)
  }

  predicate ValidElements(items: Elements) {
    match items
    case OneElement(e) => ValidElement(e)
    case MoreElements(e, others) => ValidElement(e) && ValidElements(others)
  }

  predicate ValidName(n: Name) {
    AllBlank(n.pre) && IsRaw(n.raw) && AllBlank(n.mid)
  }

  predicate ValidMember(m: Member) {
    ValidName(m.name) && ValidElement(m.element)
  }

  predicate ValidMembers(members: Members) {
    match members
    case OneMember(m) => ValidMember(m)
    case MoreMembers(m, others) => ValidMember(m) && ValidMembers(others)
  }

  // ----- the parser

  predicate StartsWith(s: string, c: char) {
    s != "" && s[0] == c
  }

  function ParseWord(s: string, word: string): (r: Parse<Value>)
    requires word != ""
    ensures r.Got? ==> |r.rest| < |s|
  {
    if |word| <= |s| && s[..|word|] == word then Got(Literal(word), s[|word|..]) else Fail
  }

  function ParseValue(s: string): (r: Parse<Value>)
    ensures r.Got? ==> |r.rest| < |s|
    decreases |s|, 1
  {
    if s == "" then Fail
    else if s[0] == '{' then
      var n := BlankRun(s[1..]);
      if StartsWith(s[1 + n..], '}') then Got(EmptyObject(s[1..1 + n]), s[2 + n..])
      else
        match ParseMembers(s[1..])
        case Fail => Fail
        case Got(members, rest) => if StartsWith(rest, '}') then Got(Object(members), rest[1..]) else Fail
    else if s[0] == '[' then
      var n := BlankRun(s[1..]);
      if StartsWith(s[1 + n..], ']') then Got(EmptyArray(s[1..1 + n]), s[2 + n..])
      else
        match ParseElements(s[1..])
        case Fail => Fail
        case Got(items, rest) => if StartsWith(rest, ']') then Got(Array(items), rest[1..]) else Fail
    else if s[0] == '"' then
      match ParseRaw(s[1..])
      case Fail => Fail
      case Got(raw, rest) => Got(String(raw), rest)
    else if s[0] == 't' then ParseWord(s, "true")
    else if s[0] == 'f' then ParseWord(s, "false")
    else if s[0] == 'n' then ParseWord(s, "null")
    else
      var n := Run(InNumber, s);
      if IsNumber(s[..n]) then Got(Number(s[..n]), s[n..]) else Fail
  }

  function ParseElement(s: string): (r: Parse<Element>)
    ensures r.Got? ==> |r.rest| < |s|
    decreases |s|, 2
  {
    var n := BlankRun(s);
    match ParseValue(s[n..])
    case Fail => Fail
    case Got(v, rest) =>
      var k := BlankRun(rest);
      Got(Element(s[..n], v, rest[..k]), rest[k..])
  }

  function ParseElements(s: string): (r: Parse<Elements>)
    ensures r.Got? ==> |r.rest| < |s|
    decreases |s|, 3
  {
    match ParseElement(s)
    case Fail => Fail
    case Got(e, rest) =>
      if !StartsWith(rest, ',') then Got(OneElement(e), rest)
      else
        match ParseElements(rest[1..])
        case Fail => Fail
        case Got(others, tail) => Got(MoreElements(e, others), tail)
  }

  function ParseName(s: string): (r: Parse<Name>)
    ensures r.Got? ==> |r.rest| < |s|
  {
    var n := BlankRun(s);
    if !StartsWith(s[n..], '"') then Fail
    else
      match ParseRaw(s[n + 1..])
      case Fail => Fail
      case Got(raw, rest) =>
        var k := BlankRun(rest);
        if !StartsWith(rest[k..], ':') then Fail
        else Got(Name(s[..n], raw, rest[..k]), rest[k + 1..])
  }

  function ParseMember(s: string): (r: Parse<Member>)
    ensures r.Got? ==> |r.rest| < |s|
    decreases |s|, 3
  {
    match ParseName(s)
    case Fail => Fail
    case Got(name, rest) =>
      match ParseElement(rest)
      case Fail => Fail
      case Got(e, tail) => Got(Member(name, e), tail)
  }

  function ParseMembers(s: string): (r: Parse<Members>)
    ensures r.Got? ==> |r.rest| < |s|
    decreases |s|, 4
  {
    match ParseMember(s)
    case Fail => Fail
    case Got(m, rest) =>
      if !StartsWith(rest, ',') then Got(OneMember(m), rest)
      else
        match ParseMembers(rest[1..])
        case Fail => Fail
        case Got(others, tail) => Got(MoreMembers(m, others), tail)
  }

  // ----- the parser accepts only texts of valid trees, and returns that tree

  lemma {:induction false} ValueSound(s: string)
    requires ParseValue(s).Got?
    ensures ValidValue(ParseValue(s).item) && s == ValueText(ParseValue(s).item) + ParseValue(s).rest
    decreases |s|, 1
  {
    hide IsNumber, IsRaw, Run, ParseRaw, ParseMembers, ParseElements;
    if s[0] == '{' {
      ObjectSound(s);
    } else if s[0] == '[' {
      ArraySound(s);
    } else if s[0] == '"' {
      ParseRawSound(s[1..]);
    }
  }

  lemma {:induction false} ObjectSound(s: string)
    requires ParseValue(s).Got? && s[0] == '{'
    ensures ValidValue(ParseValue(s).item) && s == ValueText(ParseValue(s).item) + ParseValue(s).rest
    decreases |s|, 0
  {
    hide ParseElements, MembersText, ValidMembers, ParseMembers, ParseRaw, Run;
    var n := BlankRun(s[1..]);
    if StartsWith(s[1 + n..], '}') {
      assert s[1..][..n] == s[1..1 + n];
    } else {
      MembersSound(s[1..]);
      var p := ParseMembers(s[1..]);
      assert ParseValue(s) == Got(Object(p.item), p.rest[1..]);
      assert p.rest == "}" + p.rest[1..];
    }
  }

  lemma {:induction false} ArraySound(s: string)
    requires ParseValue(s).Got? && s[0] == '['
    ensures ValidValue(ParseValue(s).item) && s == ValueText(ParseValue(s).item) + ParseValue(s).rest
    decreases |s|, 0
  {
    hide ParseElements, ElementsText, ValidElements, ParseMembers, ParseRaw, Run;
    var n := BlankRun(s[1..]);
    if StartsWith(s[1 + n..], ']') {
      assert s[1..][..n] == s[1..1 + n];
    } else {
      ElementsSound(s[1..]);
      var p := ParseElements(s[1..]);
      assert ParseValue(s) == Got(Array(p.item), p.rest[1..]);
      assert p.rest == "]" + p.rest[1..];
    }
  }

  lemma {:induction false} ElementSound(s: string)
    requires ParseElement(s).Got?
    ensures ValidElement(ParseElement(s).item) && s == ElementText(ParseElement(s).item) + ParseElement(s).rest
    decreases |s|, 2
  {
    hide ParseValue, ValueText, ValidValue, Run;
    var n := BlankRun(s);
    var v := ParseValue(s[n..]);
    ValueSound(s[n..]);
    var k := BlankRun(v.rest);
    assert v.rest == v.rest[..k] + v.rest[k..];
    assert s == s[..n] + s[n..];
  }

  lemma {:induction false} ElementsSound(s: string)
    requires ParseElements(s).Got?
    ensures var p := ParseElements(s); ValidElements(p.item) && s == ElementsText(p.item) + p.rest
    decreases |s|, 3
  {
    hide ParseElement, ElementText, ValidElement;
    ElementSound(s);
    var e := ParseElement(s);
    if StartsWith(e.rest, ',') {
      var tail := e.rest[1..];
      assert e.rest == "," + tail;
      ElementsSound(tail);
      MoreElementsText(e.item, ParseElements(tail).item, ParseElements(tail).rest);
    }
  }

  lemma NameShape(n: Name, rest: string)
    ensures NameText(n) + rest == n.pre + ("\"" + (n.raw + "\"" + (n.mid + (":" + rest))))
  {
    var colon := n.mid + (":" + rest);
    assert n.mid + ":" + rest == colon;
    assert "\"" + n.raw + "\"" + colon == "\"" + (n.raw + "\"" + colon);
    assert NameText(n) + rest == n.pre + ("\"" + n.raw + "\"" + colon);
  }

  lemma NameSound(s: string)
    requires ParseName(s).Got?
    ensures ValidName(ParseName(s).item) && s == NameText(ParseName(s).item) + ParseName(s).rest
  {
    hide ParseRaw, IsRaw, UnitLength, Run, NameText;
    var n := BlankRun(s);
    var raw := ParseRaw(s[n + 1..]);
    var k := BlankRun(raw.rest);
    ParseRawSound(s[n + 1..]);
    NameJoin(s, s[..n], raw.item, raw.rest[..k], s[n + 1..], raw.rest, raw.rest[k + 1..]);
  }

  lemma NameJoin(s: string, pre: string, raw: string, mid: string, t: string, r: string, rest: string)
    requires s == pre + "\"" + t && t == raw + "\"" + r && r == mid + ":" + rest
    ensures s == NameText(Name(pre, raw, mid)) + rest
  {
    NameShape(Name(pre, raw, mid), rest);
    assert mid + ":" + rest == mid + (":" + rest);
    assert pre + "\"" + t == pre + ("\"" + t);
  }

  lemma MoreElementsText(e: Element, others: Elements, rest: string)
    ensures ElementsText(MoreElements(e, others)) + rest == ElementText(e) + ("," + (ElementsText(others) + rest))
  {
  }

  lemma {:induction false} MemberSound(s: string)
    requires ParseMember(s).Got?
    ensures ValidMember(ParseMember(s).item) && s == MemberText(ParseMember(s).item) + ParseMember(s).rest
    decreases |s|, 3
  {
    NameSound(s);
    ElementSound(ParseName(s).rest);
  }

  lemma {:induction false} MembersSound(s: string)
    requires ParseMembers(s).Got?
    ensures ValidMembers(ParseMembers(s).item) && s == MembersText(ParseMembers(s).item) + ParseMembers(s).rest
    decreases |s|, 4
  {
    hide ParseMember, MemberText, ValidMember;
    MemberSound(s);
    var m := ParseMember(s);
    if StartsWith(m.rest, ',') {
      var tail := m.rest[1..];
      assert m.rest == "," + tail;
      MembersSound(tail);
      MoreMembersText(m.item, ParseMembers(tail).item, ParseMembers(tail).rest);
    }
  }

  lemma MoreMembersText(m: Member, others: Members, rest: string)
    ensures MembersText(MoreMembers(m, others)) + rest == MemberText(m) + ("," + (MembersText(others) + rest))
  {
  }

  // ----- the parser finds the tree of every valid text

  /** What may follow an element. */
  predicate Ends(rest: string) {
    rest == "" || rest[0] in {',', ']', '}'}
  }

  lemma ValueStart(v: Value)
    requires ValidValue(v)
    ensures var t := ValueText(v); t != "" && !IsBlank(t[0]) && t[0] !in {',', ']', '}', ':'}
  {
  }

  lemma {:induction false} ValueComplete(v: Value, rest: string)
    requires ValidValue(v) && StopsNumber(rest)
    ensures ParseValue(ValueText(v) + rest) == Got(v, rest)
    decreases v, 1
  {
    match v
    case Literal(word) =>
      WordComplete(word, rest);
    case Number(digits) =>
      NumberComplete(digits, rest);
    case String(raw) =>
      StringComplete(raw, rest);
    case EmptyArray(blank) =>
      EmptyComplete(v, blank, '[', ']', rest);
    case EmptyObject(blank) =>
      EmptyComplete(v, blank, '{', '}', rest);
    case Array(items) =>
      ArrayComplete(items, rest);
    case Object(members) =>
      ObjectComplete(members, rest);
  }

  lemma WordComplete(word: string, rest: string)
    requires word == "true" || word == "false" || word == "null"
    ensures ParseValue(word + rest) == Got(Literal(word), rest)
  {
    var s := word + rest;
    assert s[..|word|] == word && s[|word|..] == rest && s[0] == word[0];
  }

  lemma StringComplete(raw: string, rest: string)
    requires IsRaw(raw)
    ensures ParseValue("\"" + raw + "\"" + rest) == Got(String(raw), rest)
  {
    hide IsRaw, ParseRaw, ParseMembers, ParseElements, Run;
    ParseRawComplete(raw, rest);
    assert ("\"" + raw + "\"" + rest)[1..] == raw + "\"" + rest;
  }

  lemma NumberComplete(digits: string, rest: string)
    requires IsNumber(digits) && StopsNumber(rest)
    ensures ParseValue(digits + rest) == Got(Number(digits), rest)
  {
    RunIs(InNumber, digits, rest);
    assert (digits + rest)[0] == digits[0];
    assert digits[0] == '-' || IsDigit(digits[0]);
  }

  lemma EmptyComplete(v: Value, blank: string, open: char, close: char, rest: string)
    requires AllBlank(blank)
    requires || (v == EmptyArray(blank) && open == '[' && close == ']')
             || (v == EmptyObject(blank) && open == '{' && close == '}')
    ensures ParseValue(ValueText(v) + rest) == Got(v, rest)
  {
    var s := ValueText(v) + rest;
    var tail := [close] + rest;
    assert s[1..] == blank + tail;
    BlankRunIs(blank, tail);
    assert s[1 + |blank|..] == tail && s[1..1 + |blank|] == blank && s[2 + |blank|..] == rest;
  }

  lemma {:induction false} ArrayComplete(items: Elements, rest: string)
    requires ValidElements(items)
    ensures ParseValue("[" + ElementsText(items) + "]" + rest) == Got(Array(items), rest)
    decreases items, 4
  {
    var s := "[" + ElementsText(items) + "]" + rest;
    var tail := "]" + rest;
    assert s[1..] == ElementsText(items) + tail && tail[1..] == rest;
    ElementsComplete(items, tail);
    ElementsStart(items, tail);
    assert s[1 + BlankRun(s[1..])..] == s[1..][BlankRun(s[1..])..];
  }

  lemma {:induction false} ObjectComplete(members: Members, rest: string)
    requires ValidMembers(members)
    ensures ParseValue("{" + MembersText(members) + "}" + rest) == Got(Object(members), rest)
    decreases members, 5
  {
    hide Run, ParseMembers, MembersText, ValidMembers;
    var s := "{" + MembersText(members) + "}" + rest;
    var tail := "}" + rest;
    assert s[1..] == MembersText(members) + tail && tail[1..] == rest;
    MembersComplete(members, tail);
    MembersStart(members, tail);
    assert s[1 + BlankRun(s[1..])..] == s[1..][BlankRun(s[1..])..];
  }

  /** After its blanks a list of elements never starts with a closing bracket. */
  lemma ElementsStart(items: Elements, rest: string)
    requires ValidElements(items)
    ensures var s := ElementsText(items) + rest; !StartsWith(s[BlankRun(s)..], ']')
  {
    var e := items.e;
    ValueStart(e.value);
    var others := if items.OneElement? then "" else "," + ElementsText(items.others);
    var tail := ValueText(e.value) + e.post + others + rest;
    assert ElementsText(items) + rest == e.pre + tail;
    BlankRunIs(e.pre, tail);
  }

  lemma MembersStart(members: Members, rest: string)
    requires ValidMembers(members)
    ensures var s := MembersText(members) + rest; !StartsWith(s[BlankRun(s)..], '}')
  {
    hide NameText, ElementText, Run;
    var n := members.m.name;
    var others := if members.OneMember? then "" else "," + MembersText(members.others);
    var after := ElementText(members.m.element) + others + rest;
    assert MembersText(members) + rest == NameText(n) + after;
    NameShape(n, after);
    BlankRunIs(n.pre, "\"" + (n.raw + "\"" + (n.mid + (":" + after))));
  }

  lemma {:induction false} ElementComplete(e: Element, rest: string)
    requires ValidElement(e) && Ends(rest)
    ensures ParseElement(ElementText(e) + rest) == Got(e, rest)
    decreases e, 2
  {
    ValueStart(e.value);
    var tail := e.post + rest;
    assert ElementText(e) + rest == e.pre + (ValueText(e.value) + tail);
    BlankRunIs(e.pre, ValueText(e.value) + tail);
    assert tail != "" ==> tail[0] == (if e.post == "" then rest[0] else e.post[0]);
    ValueComplete(e.value, tail);
    BlankRunIs(e.post, rest);
  }

  lemma {:induction false} ElementsComplete(items: Elements, rest: string)
    requires ValidElements(items) && StartsWith(rest, ']')
    ensures ParseElements(ElementsText(items) + rest) == Got(items, rest)
    decreases items, 3
  {
    match items
    case OneElement(e) =>
      ElementComplete(e, rest);
    case MoreElements(e, others) =>
      var tail := "," + (ElementsText(others) + rest);
      assert ElementsText(items) + rest == ElementText(e) + tail;
      ElementComplete(e, tail);
      assert tail[1..] == ElementsText(others) + rest;
      ElementsComplete(others, rest);
  }

  lemma NameComplete(n: Name, rest: string)
    requires ValidName(n)
    ensures ParseName(NameText(n) + rest) == Got(n, rest)
  {
    hide IsRaw, ParseRaw, UnitLength, Run;
    var s := NameText(n) + rest;
    var colon := n.mid + (":" + rest);
    var quoted := "\"" + (n.raw + "\"" + colon);
    NameShape(n, rest);
    BlankRunIs(n.pre, quoted);
    assert s[|n.pre| + 1..] == quoted[1..] == n.raw + "\"" + colon;
    ParseRawComplete(n.raw, colon);
    BlankRunIs(n.mid, ":" + rest);
    assert colon[|n.mid| + 1..] == rest;
  }

  lemma {:induction false} MemberComplete(m: Member, rest: string)
    requires ValidMember(m) && Ends(rest)
    ensures ParseMember(MemberText(m) + rest) == Got(m, rest)
    decreases m, 3
  {
    assert MemberText(m) + rest == NameText(m.name) + (ElementText(m.element) + rest);
    NameComplete(m.name, ElementText(m.element) + rest);
    ElementComplete(m.element, rest);
  }

  lemma {:induction false} MembersComplete(members: Members, rest: string)
    requires ValidMembers(members) && StartsWith(rest, '}')
    ensures ParseMembers(MembersText(members) + rest) == Got(members, rest)
    decreases members, 4
  {
    match members
    case OneMember(m) =>
      MemberComplete(m, rest);
    case MoreMembers(m, others) =>
      var tail := "," + (MembersText(others) + rest);
      assert MembersText(members) + rest == MemberText(m) + tail;
      MemberComplete(m, tail);
      assert tail[1..] == MembersText(others) + rest;
      MembersComplete(others, rest);
  }

  // ----- whole texts

  /** A JSON text is one element and nothing else. */
  predicate IsJson(s: string) {
    var p := ParseElement(s);
    p.Got? && p.rest == ""
  }

  function Tree(s: string): Element
    requires IsJson(s)
  {
    ParseElement(s).item
  }

  /** The parser accepts exactly the texts of valid trees, and each text has one tree only. */
  lemma TextAndTree(s: string, e: Element)
    ensures IsJson(s) && Tree(s) == e <==> ValidElement(e) && ElementText(e) == s
  {
    if IsJson(s) {
      ElementSound(s);
    }
    if ValidElement(e) {
      ElementComplete(e, "");
      assert ElementText(e) + "" == ElementText(e);
    }
  }

  // ----- nesting

  // the decoder refuses texts nested deeper
  const MAX_DEPTH := 10_000

  function Max(a: nat, b: nat): nat {
    if a < b then b else a
  }

  /** How many arrays and objects are open at once at most. */
  function ElementDepth(e: Element): nat {
    match e.value
    case Literal(_) => 0
    case Number(_) => 0
    case String(_) => 0
    case EmptyArray(_) => 1
    case EmptyObject(_) => 1
    case Array(items) => 1 + ElementsDepth(items)
    case Object(members) => 1 + MembersDepth(members)
  }

  function ElementsDepth(items: Elements): nat {
    Max(ElementDepth(items.e), if items.OneElement? then 0 else ElementsDepth(items.others))
  }

  function MembersDepth(members: Members): nat {
    Max(ElementDepth(members.m.element), if members.OneMember? then 0 else MembersDepth(members.others))
  }

  /** The texts the decoder takes as valid. */
  predicate IsAccepted(s: string) {
    IsJson(s) && ElementDepth(Tree(s)) <= MAX_DEPTH
  }
}
