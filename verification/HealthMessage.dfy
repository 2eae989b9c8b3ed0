/** The message a health report is forwarded in. */
module HealthMessage {
  import opened Json
  import opened JsonStrings

  const REPORT_FIELD := ",\"report\":"

  function Pair(name: string, text: string): string {
    "\"" + name + "\":" + text
  }

  /** The encoded envelope without report. */
  function Header(hubId: string, userId: string, time: string): string {
    "{" + Pair("hub_id", Quote(hubId)) + "," + Pair("user_id", Quote(userId)) + "," + Pair("time", Quote(time)) + "}"
  }

  function EncodedMessage(hubId: string, userId: string, time: string, report: string): string {
    var header := Header(hubId, userId, time);
    header[..|header| - 1] + REPORT_FIELD + report + "}"
  }

  method EncodeMessage(hubId: string, userId: string, time: string, report: string) returns (message: string)
    ensures message == EncodedMessage(hubId, userId, time, report)
    ensures IsJson(report) ==>
      IsJson(message) && Fields(message) == FourFields(hubId, userId, time, report)
  {
    var header := Header(hubId, userId, time);
    message := header[..|header| - 1];
    message := message + REPORT_FIELD;
    message := message + report;
    message := message + "}";
    if IsJson(report) {
      Splice(hubId, userId, time, report);
    }
  }

  predicate IsJsonObject(payload: string) {
    IsAccepted(payload) && StartsWith(payload[BlankRun(payload)..], '{')
  }

  predicate IsObject(v: Value) {
    v.Object? || v.EmptyObject?
  }

  /** Exactly the texts of one object that is not nested too deep, with blanks around it, pass the test. */
  lemma JsonObjects(payload: string)
    ensures IsJsonObject(payload)
            <==> exists e ::
                   && ValidElement(e) && ElementText(e) == payload
                   && IsObject(e.value) && ElementDepth(e) <= MAX_DEPTH
  {
    if IsJson(payload) {
      var e := Tree(payload);
      TextAndTree(payload, e);
      ValueStart(e.value);
      BlankRunIs(e.pre, ValueText(e.value) + e.post);
      assert payload == e.pre + (ValueText(e.value) + e.post);
      forall other | ValidElement(other) && ElementText(other) == payload
        ensures other == e
      {
        TextAndTree(payload, other);
      }
      assert StartsWith(ValueText(e.value), '{') <==> IsObject(e.value);
    } else {
      forall e | ValidElement(e) && ElementText(e) == payload
        ensures false
      {
        TextAndTree(payload, e);
      }
    }
  }

  // ----- the members of an object text

  /** A member: its name, and the text of its element byte for byte. */
  datatype Field = Field(name: string, text: string)

  function FieldOf(m: Member): Field
    requires ValidMember(m)
  {
    assert ValidName(m.name);
    Field(Decode(m.name.raw), ElementText(m.element))
  }

  function FieldsOf(members: Members): seq<Field>
    requires ValidMembers(members)
  {
    [FieldOf(members.m)] + (if members.OneMember? then [] else FieldsOf(members.others))
  }

  /** The members of a JSON text that is an object with members, in order. */
  function Fields(text: string): seq<Field> {
    if IsJson(text) && Tree(text).value.Object? then
      TextAndTree(text, Tree(text));
      FieldsOf(Tree(text).value.members)
    else []
  }

  function PlainMember(name: string, e: Element): Member {
    Member(Name("", name, ""), e)
  }

  function StringElement(s: string): Element {
    Element("", String(Escape(s)), "")
  }

  function Envelope(hubId: string, userId: string, time: string, report: Element): Members {
    Chain(PlainMember("hub_id", StringElement(hubId)), PlainMember("user_id", StringElement(userId)),
          PlainMember("time", StringElement(time)), PlainMember("report", report))
  }

  /** Letters and underscores need no escape. */
  predicate IsName(name: string) {
    forall i :: 0 <= i < |name| ==> 'a' <= name[i] <= 'z' || name[i] == '_'
  }

  lemma EnvelopeNames()
    ensures IsName("hub_id") && IsName("user_id") && IsName("time") && IsName("report")
  {
  }

  lemma {:induction false} PlainNames(name: string)
    requires IsName(name)
    ensures IsRaw(name) && Decode(name) == name
  {
    if name != "" {
      var rest := name[1..];
      assert forall i :: 0 <= i < |rest| ==> rest[i] == name[i + 1];
      PlainNames(rest);
      assert UnitLength(name) == 1;
      assert [name[0]] + rest == name;
    }
  }

  lemma PlainText(name: string, e: Element)
    ensures MemberText(PlainMember(name, e)) == Pair(name, ElementText(e))
  {
  }

  lemma StringText(s: string)
    ensures ElementText(StringElement(s)) == Quote(s)
  {
  }

  function Chain(m1: Member, m2: Member, m3: Member, m4: Member): Members {
    MoreMembers(m1, MoreMembers(m2, MoreMembers(m3, OneMember(m4))))
  }

  lemma ChainText(m1: Member, m2: Member, m3: Member, m4: Member)
    ensures MembersText(Chain(m1, m2, m3, m4))
            == MemberText(m1) + "," + (MemberText(m2) + "," + (MemberText(m3) + "," + MemberText(m4)))
  {
    var tail := MoreMembers(m3, OneMember(m4));
    assert MembersText(tail) == MemberText(m3) + "," + MemberText(m4);
  }

  lemma ChainFields(m1: Member, m2: Member, m3: Member, m4: Member)
    requires ValidMember(m1) && ValidMember(m2) && ValidMember(m3) && ValidMember(m4)
    ensures var members := Chain(m1, m2, m3, m4);
            ValidMembers(members) && FieldsOf(members) == [FieldOf(m1), FieldOf(m2), FieldOf(m3), FieldOf(m4)]
  {
    var tail := MoreMembers(m3, OneMember(m4));
    assert FieldsOf(OneMember(m4)) == [FieldOf(m4)];
    assert ValidMembers(tail) && FieldsOf(tail) == [FieldOf(m3), FieldOf(m4)];
  }

  /** Moving the closing brace behind a fourth pair. */
  lemma Regroup(p1: string, p2: string, p3: string, p4: string)
    ensures var header := "{" + p1 + "," + p2 + "," + p3 + "}";
            "{" + (p1 + "," + (p2 + "," + (p3 + "," + p4))) + "}" == header[..|header| - 1] + "," + p4 + "}"
  {
    var cut := "{" + p1 + "," + p2 + "," + p3;
    assert (cut + "}")[..|cut|] == cut;
  }

  lemma EnvelopeText(hubId: string, userId: string, time: string, report: Element)
    ensures "{" + MembersText(Envelope(hubId, userId, time, report)) + "}"
            == EncodedMessage(hubId, userId, time, ElementText(report))
  {
    StringText(hubId);
    StringText(userId);
    StringText(time);
    PlainText("hub_id", StringElement(hubId));
    PlainText("user_id", StringElement(userId));
    PlainText("time", StringElement(time));
    PlainText("report", report);
    ChainText(PlainMember("hub_id", StringElement(hubId)), PlainMember("user_id", StringElement(userId)),
              PlainMember("time", StringElement(time)), PlainMember("report", report));
    Regroup(Pair("hub_id", Quote(hubId)), Pair("user_id", Quote(userId)), Pair("time", Quote(time)),
            Pair("report", ElementText(report)));
    var header := Header(hubId, userId, time);
    ReportField(header[..|header| - 1], ElementText(report));
  }

  lemma ReportField(cut: string, report: string)
    ensures cut + "," + Pair("report", report) + "}" == cut + REPORT_FIELD + report + "}"
  {
    assert "," + Pair("report", report) == REPORT_FIELD + report;
    assert cut + "," + Pair("report", report) == cut + ("," + Pair("report", report));
    assert cut + (REPORT_FIELD + report) == cut + REPORT_FIELD + report;
  }

  lemma PlainField(name: string, e: Element)
    requires IsName(name) && ValidElement(e)
    ensures ValidMember(PlainMember(name, e)) && FieldOf(PlainMember(name, e)) == Field(name, ElementText(e))
  {
    PlainNames(name);
  }

  lemma StringField(name: string, s: string)
    requires IsName(name)
    ensures var m := PlainMember(name, StringElement(s)); ValidMember(m) && FieldOf(m) == Field(name, Quote(s))
  {
    DecodeEscape(s);
    StringText(s);
    PlainField(name, StringElement(s));
  }

  lemma EnvelopeFields(hubId: string, userId: string, time: string, report: Element)
    requires ValidElement(report)
    ensures var members := Envelope(hubId, userId, time, report);
            ValidMembers(members) && FieldsOf(members) == FourFields(hubId, userId, time, ElementText(report))
  {
    EnvelopeNames();
    StringField("hub_id", hubId);
    StringField("user_id", userId);
    StringField("time", time);
    PlainField("report", report);
    ChainFields(PlainMember("hub_id", StringElement(hubId)), PlainMember("user_id", StringElement(userId)),
                PlainMember("time", StringElement(time)), PlainMember("report", report));
  }

  function FourFields(hubId: string, userId: string, time: string, report: string): seq<Field> {
    [Field("hub_id", Quote(hubId)), Field("user_id", Quote(userId)), Field("time", Quote(time)),
     Field("report", report)]
  }

  /**
   * The spliced bytes are a JSON text with exactly the four fields in order, the report byte for byte, if and only if
   * the report is a JSON text.
   */
  lemma Splice(hubId: string, userId: string, time: string, report: string)
    ensures var message := EncodedMessage(hubId, userId, time, report);
            IsJson(message) && Fields(message) == FourFields(hubId, userId, time, report) <==> IsJson(report)
  {
    if IsJson(report) {
      var r := Tree(report);
      TextAndTree(report, r);
      SpliceTree(hubId, userId, time, r);
    } else if |Fields(EncodedMessage(hubId, userId, time, report))| == 4 {
      FieldTextsAreJson(EncodedMessage(hubId, userId, time, report), 3);
    }
  }

  lemma SpliceTree(hubId: string, userId: string, time: string, r: Element)
    requires ValidElement(r)
    ensures var message := EncodedMessage(hubId, userId, time, ElementText(r));
            && IsJson(message) && Fields(message) == FourFields(hubId, userId, time, ElementText(r))
            && Tree(message) == Element("", Object(Envelope(hubId, userId, time, r)), "")
  {
    EnvelopeText(hubId, userId, time, r);
    EnvelopeFields(hubId, userId, time, r);
    var e := Element("", Object(Envelope(hubId, userId, time, r)), "");
    ObjectText(e);
    TextAndTree(EncodedMessage(hubId, userId, time, ElementText(r)), e);
  }

  /** The envelope is one level deeper than its report, so the decoder takes it exactly if that leaves room. */
  lemma MessageDepth(hubId: string, userId: string, time: string, report: string)
    requires IsJson(report)
    ensures var message := EncodedMessage(hubId, userId, time, report);
            && IsJson(message) && ElementDepth(Tree(message)) == 1 + ElementDepth(Tree(report))
            && (IsAccepted(message) <==> ElementDepth(Tree(report)) < MAX_DEPTH)
  {
    hide EncodedMessage, Fields, FourFields, Escape, IsJson, Tree;
    var r := Tree(report);
    TextAndTree(report, r);
    SpliceTree(hubId, userId, time, r);
    EnvelopeDepth(hubId, userId, time, r);
  }

  lemma EnvelopeDepth(hubId: string, userId: string, time: string, r: Element)
    ensures MembersDepth(Envelope(hubId, userId, time, r)) == ElementDepth(r)
  {
    hide Escape;
    ChainDepth(PlainMember("hub_id", StringElement(hubId)), PlainMember("user_id", StringElement(userId)),
               PlainMember("time", StringElement(time)), PlainMember("report", r));
  }

  lemma ChainDepth(m1: Member, m2: Member, m3: Member, m4: Member)
    requires ElementDepth(m1.element) == ElementDepth(m2.element) == ElementDepth(m3.element) == 0
    ensures MembersDepth(Chain(m1, m2, m3, m4)) == ElementDepth(m4.element)
  {
    var tail := MoreMembers(m3, OneMember(m4));
    assert MembersDepth(OneMember(m4)) == ElementDepth(m4.element);
    assert MembersDepth(tail) == ElementDepth(m4.element);
    assert MembersDepth(MoreMembers(m2, tail)) == ElementDepth(m4.element);
  }

  lemma ObjectText(e: Element)
    requires e.value.Object? && e.pre == e.post == ""
    ensures ElementText(e) == "{" + MembersText(e.value.members) + "}"
    ensures ValidElement(e) <==> ValidMembers(e.value.members)
  {
  }

  lemma FieldTextsAreJson(text: string, i: nat)
    requires i < |Fields(text)|
    ensures IsJson(Fields(text)[i].text)
  {
    TextAndTree(text, Tree(text));
    FieldsAreJson(Tree(text).value.members);
  }

  /** The quoted ids and the quoted time mean the ids and the time. */
  lemma FieldMeanings(hubId: string, userId: string, time: string, report: string)
    ensures var f := FourFields(hubId, userId, time, report);
            && StringMeaning(f[0].text) == Means(hubId)
            && StringMeaning(f[1].text) == Means(userId)
            && StringMeaning(f[2].text) == Means(time)
  {
    QuoteMeaning(hubId);
    QuoteMeaning(userId);
    QuoteMeaning(time);
  }

  lemma {:induction false} FieldsAreJson(members: Members)
    requires ValidMembers(members)
    ensures forall i :: 0 <= i < |FieldsOf(members)| ==> IsJson(FieldsOf(members)[i].text)
  {
    TextAndTree(ElementText(members.m.element), members.m.element);
    if members.MoreMembers? {
      FieldsAreJson(members.others);
    }
  }
}
