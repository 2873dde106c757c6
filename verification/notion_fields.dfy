/**
 What goes out and what comes in, field by field: the fields each entity offers, those a pull may
 change and how, and the entries that decide a payload and a pulled field. Everything is named
 here once more, apart from the tables the operations go by.
 */
module NotionFields {
  import opened Wrappers
  import opened NotionValues
  import opened NotionMapping
  import opened NotionEcho

  // ---------------------------------------------------------------- what a pull does to a field

  /** The incoming text if there is one, else what was there. */
  function TextOr(fields: map<Field, Value>, was: map<Field, Value>, f: Field): Option<Value> {
    if f in fields && fields[f].Text? then Some(fields[f]) else At(was, f)
  }

  /** ... and never the empty one. */
  function SomeTextOr(fields: map<Field, Value>, was: map<Field, Value>, f: Field): Option<Value> {
    if f in fields && fields[f].Text? && fields[f].s != "" then Some(fields[f]) else At(was, f)
  }

  /** The incoming number if there is one, else what was there. */
  function NumberOr(fields: map<Field, Value>, was: map<Field, Value>, f: Field): Option<Value> {
    if f in fields && fields[f].Num? then Some(fields[f]) else At(was, f)
  }

  /** ... and without its fraction. */
  function WholeOr(fields: map<Field, Value>, was: map<Field, Value>, f: Field): Option<Value> {
    if f in fields && fields[f].Num? then Some(Num(Float(fields[f].n.whole, 0.0))) else At(was, f)
  }

  lemma {:induction false} OneIntake(
      was: map<Field, Value>, fields: map<Field, Value>, all: Chain<Intake>, f: Field)
    requires all.Then?
    ensures var before := TakeAll(was, fields, all.prev);
            At(TakeAll(was, fields, all), f) ==
            if f != all.last.field then At(before, f)
            else
              match all.last.slot
              case Required => SomeTextOr(fields, before, f)
              case Optional => TextOr(fields, before, f)
              case Amount => NumberOr(fields, before, f)
              case Percent => WholeOr(fields, before, f)
  {
  }

  lemma {:induction false} FirstCompanyFields(was: map<Field, Value>, fields: map<Field, Value>, f: Field)
    ensures At(TakeAll(was, fields, CompanyIntakes().prev.prev.prev.prev.prev), f) ==
            match f
            case Name => SomeTextOr(fields, was, f)
            case RecordStatus => SomeTextOr(fields, was, f)
            case Domain => TextOr(fields, was, f)
            case Website => TextOr(fields, was, f)
            case Description => TextOr(fields, was, f)
            case _ => At(was, f)
  {
    var c := CompanyIntakes().prev.prev.prev.prev.prev;
    assert TakeAll(was, fields, Start) == was;
    hide TakeAll, Accepted;
    OneIntake(was, fields, c, f);
    OneIntake(was, fields, c.prev, f);
    OneIntake(was, fields, c.prev.prev, f);
    OneIntake(was, fields, c.prev.prev.prev, f);
    OneIntake(was, fields, c.prev.prev.prev.prev, f);
  }

  /** A pull takes every text column of a company that there is text for; name and status only from
      text that is not empty; and nothing else changes. */
  lemma {:induction false} CompanyAfterPull(was: map<Field, Value>, fields: map<Field, Value>, f: Field)
    ensures At(Applied(Company, was, fields), f) ==
            match f
            case Name => SomeTextOr(fields, was, f)
            case RecordStatus => SomeTextOr(fields, was, f)
            case Domain => TextOr(fields, was, f)
            case Website => TextOr(fields, was, f)
            case Description => TextOr(fields, was, f)
            case EmployeeCount => TextOr(fields, was, f)
            case AnnualRevenue => TextOr(fields, was, f)
            case Headquarters => TextOr(fields, was, f)
            case LinkedinUrl => TextOr(fields, was, f)
            case Phone => TextOr(fields, was, f)
            case _ => At(was, f)
  {
    var c := CompanyIntakes();
    FirstCompanyFields(was, fields, f);
    hide TakeAll, Accepted;
    OneIntake(was, fields, c, f);
    OneIntake(was, fields, c.prev, f);
    OneIntake(was, fields, c.prev.prev, f);
    OneIntake(was, fields, c.prev.prev.prev, f);
    OneIntake(was, fields, c.prev.prev.prev.prev, f);
  }

  lemma {:induction false} FirstContactFields(was: map<Field, Value>, fields: map<Field, Value>, f: Field)
    ensures At(TakeAll(was, fields, ContactIntakes().prev.prev.prev.prev.prev), f) ==
            match f
            case FirstName => SomeTextOr(fields, was, f)
            case LastName => SomeTextOr(fields, was, f)
            case RecordStatus => SomeTextOr(fields, was, f)
            case EmailAddress => TextOr(fields, was, f)
            case _ => At(was, f)
  {
    var c := ContactIntakes().prev.prev.prev.prev.prev;
    assert TakeAll(was, fields, Start) == was;
    hide TakeAll, Accepted;
    OneIntake(was, fields, c, f);
    OneIntake(was, fields, c.prev, f);
    OneIntake(was, fields, c.prev.prev, f);
    OneIntake(was, fields, c.prev.prev.prev, f);
  }

  /** The same for a contact. */
  lemma {:induction false} ContactAfterPull(was: map<Field, Value>, fields: map<Field, Value>, f: Field)
    ensures At(Applied(Contact, was, fields), f) ==
            match f
            case FirstName => SomeTextOr(fields, was, f)
            case LastName => SomeTextOr(fields, was, f)
            case RecordStatus => SomeTextOr(fields, was, f)
            case EmailAddress => TextOr(fields, was, f)
            case Phone => TextOr(fields, was, f)
            case JobTitle => TextOr(fields, was, f)
            case Department => TextOr(fields, was, f)
            case LinkedinUrl => TextOr(fields, was, f)
            case Notes => TextOr(fields, was, f)
            case _ => At(was, f)
  {
    var c := ContactIntakes();
    FirstContactFields(was, fields, f);
    hide TakeAll, Accepted;
    OneIntake(was, fields, c, f);
    OneIntake(was, fields, c.prev, f);
    OneIntake(was, fields, c.prev.prev, f);
    OneIntake(was, fields, c.prev.prev.prev, f);
    OneIntake(was, fields, c.prev.prev.prev.prev, f);
  }

  lemma {:induction false} FirstSponsorFields(was: map<Field, Value>, fields: map<Field, Value>, f: Field)
    ensures At(TakeAll(was, fields, SponsorIntakes().prev.prev.prev.prev), f) ==
            match f
            case Stage => SomeTextOr(fields, was, f)
            case Tier => TextOr(fields, was, f)
            case LostReason => TextOr(fields, was, f)
            case Notes => TextOr(fields, was, f)
            case _ => At(was, f)
  {
    var c := SponsorIntakes().prev.prev.prev.prev;
    assert TakeAll(was, fields, Start) == was;
    hide TakeAll, Accepted;
    OneIntake(was, fields, c, f);
    OneIntake(was, fields, c.prev, f);
    OneIntake(was, fields, c.prev.prev, f);
    OneIntake(was, fields, c.prev.prev.prev, f);
  }

  /** The same for a sponsor, with its amount and its whole percentage. */
  lemma {:induction false} SponsorAfterPull(was: map<Field, Value>, fields: map<Field, Value>, f: Field)
    ensures At(Applied(Sponsor, was, fields), f) ==
            match f
            case Stage => SomeTextOr(fields, was, f)
            case Tier => TextOr(fields, was, f)
            case LostReason => TextOr(fields, was, f)
            case Notes => TextOr(fields, was, f)
            case ExpectedClose => TextOr(fields, was, f)
            case ActualClose => TextOr(fields, was, f)
            case DealValue => NumberOr(fields, was, f)
            case Probability => WholeOr(fields, was, f)
            case _ => At(was, f)
  {
    var c := SponsorIntakes();
    FirstSponsorFields(was, fields, f);
    hide TakeAll, Accepted;
    OneIntake(was, fields, c, f);
    OneIntake(was, fields, c.prev, f);
    OneIntake(was, fields, c.prev.prev, f);
    OneIntake(was, fields, c.prev.prev.prev, f);
  }

  // ---------------------------------------------------------------- what a record offers

  lemma {:induction false} OneListed(fs: Chain<Field>, f: Field)
    requires fs.Then?
    ensures Lists(fs, f) <==> f == fs.last || Lists(fs.prev, f)
    ensures !Lists(Start, f)
  {
  }

  lemma {:induction false} CompanyLists(f: Field)
    ensures Lists(CompanyFields(), f) <==> f in {Name, RecordStatus, Tags, Domain, Website, Description,
                                           EmployeeCount, AnnualRevenue, Headquarters, LinkedinUrl, Phone, Score}
  {
    var c := CompanyFields();
    hide Lists;
    OneListed(c, f);
    OneListed(c.prev, f);
    OneListed(c.prev.prev, f);
    OneListed(c.prev.prev.prev, f);
    OneListed(c.prev.prev.prev.prev, f);
    OneListed(c.prev.prev.prev.prev.prev, f);
    OneListed(c.prev.prev.prev.prev.prev.prev, f);
    OneListed(c.prev.prev.prev.prev.prev.prev.prev, f);
    OneListed(c.prev.prev.prev.prev.prev.prev.prev.prev, f);
    OneListed(c.prev.prev.prev.prev.prev.prev.prev.prev.prev, f);
    OneListed(c.prev.prev.prev.prev.prev.prev.prev.prev.prev.prev, f);
    OneListed(c.prev.prev.prev.prev.prev.prev.prev.prev.prev.prev.prev, f);
  }

  /** A company's record holds exactly these fields of it, where they are present. */
  lemma {:induction false} CompanyOffers(vals: map<Field, Value>, f: Field)
    ensures At(Extracted(Company, vals), f) ==
            match f
            case Name => At(vals, f)
            case RecordStatus => At(vals, f)
            case Tags => At(vals, f)
            case Domain => At(vals, f)
            case Website => At(vals, f)
            case Description => At(vals, f)
            case EmployeeCount => At(vals, f)
            case AnnualRevenue => At(vals, f)
            case Headquarters => At(vals, f)
            case LinkedinUrl => At(vals, f)
            case Phone => At(vals, f)
            case Score => At(vals, f)
            case _ => None
  {
    GatherAt(vals, CompanyFields(), f);
    CompanyLists(f);
    hide GatherAll, Lists, CompanyFields;
  }

  lemma {:induction false} ContactLists(f: Field)
    ensures Lists(ContactFields(), f) <==> f in {FirstName, LastName, RecordStatus, Tags, EmailAddress, Phone,
                                           JobTitle, Department, LinkedinUrl, Notes, LastContactedAt}
  {
    var c := ContactFields();
    hide Lists;
    OneListed(c, f);
    OneListed(c.prev, f);
    OneListed(c.prev.prev, f);
    OneListed(c.prev.prev.prev, f);
    OneListed(c.prev.prev.prev.prev, f);
    OneListed(c.prev.prev.prev.prev.prev, f);
    OneListed(c.prev.prev.prev.prev.prev.prev, f);
    OneListed(c.prev.prev.prev.prev.prev.prev.prev, f);
    OneListed(c.prev.prev.prev.prev.prev.prev.prev.prev, f);
    OneListed(c.prev.prev.prev.prev.prev.prev.prev.prev.prev, f);
    OneListed(c.prev.prev.prev.prev.prev.prev.prev.prev.prev.prev, f);
  }

  /** The same for a contact. */
  lemma {:induction false} ContactOffers(vals: map<Field, Value>, f: Field)
    ensures At(Extracted(Contact, vals), f) ==
            match f
            case FirstName => At(vals, f)
            case LastName => At(vals, f)
            case RecordStatus => At(vals, f)
            case Tags => At(vals, f)
            case EmailAddress => At(vals, f)
            case Phone => At(vals, f)
            case JobTitle => At(vals, f)
            case Department => At(vals, f)
            case LinkedinUrl => At(vals, f)
            case Notes => At(vals, f)
            case LastContactedAt => At(vals, f)
            case _ => None
  {
    GatherAt(vals, ContactFields(), f);
    ContactLists(f);
    hide GatherAll, Lists, ContactFields;
  }

  lemma {:induction false} SponsorLists(f: Field)
    ensures Lists(SponsorFields(), f) <==> f in {Stage, StageEnteredAt, DealValue, Probability, Tier, ExpectedClose,
                                           ActualClose, LostReason, Notes, CompanyName}
  {
    var c := SponsorFields();
    hide Lists;
    OneListed(c, f);
    OneListed(c.prev, f);
    OneListed(c.prev.prev, f);
    OneListed(c.prev.prev.prev, f);
    OneListed(c.prev.prev.prev.prev, f);
    OneListed(c.prev.prev.prev.prev.prev, f);
    OneListed(c.prev.prev.prev.prev.prev.prev, f);
    OneListed(c.prev.prev.prev.prev.prev.prev.prev, f);
    OneListed(c.prev.prev.prev.prev.prev.prev.prev.prev, f);
    OneListed(c.prev.prev.prev.prev.prev.prev.prev.prev.prev, f);
  }

  /** The same for a sponsor, its company's name only if that is not blank. */
  lemma {:induction false} SponsorOffers(vals: map<Field, Value>, f: Field)
    ensures At(Extracted(Sponsor, vals), f) ==
            match f
            case Stage => At(vals, f)
            case StageEnteredAt => At(vals, f)
            case DealValue => At(vals, f)
            case Probability => At(vals, f)
            case Tier => At(vals, f)
            case ExpectedClose => At(vals, f)
            case ActualClose => At(vals, f)
            case LostReason => At(vals, f)
            case Notes => At(vals, f)
            case CompanyName => if At(vals, f) == Some(Text("")) then None else At(vals, f)
            case _ => None
  {
    GatherAt(vals, SponsorFields(), f);
    SponsorLists(f);
    hide GatherAll, Lists, SponsorFields;
  }

  // ---------------------------------------------------------------- which entries decide

  /** The directions that send, and those that receive: an entry of no direction does both. */
  predicate SendsOut(e: MapEntry) {
    e.direction in {Unset, Both, OnlyOut}
  }

  predicate TakesIn(e: MapEntry) {
    e.direction in {Unset, Both, OnlyIn}
  }

  /** The entries of a direction are those that go that way, in their order. */
  lemma {:induction false} DirectionsAreKept(entries: seq<MapEntry>, e: MapEntry)
    ensures EntriesFor([], OnlyOut) == EntriesFor([], OnlyIn) == []
    ensures EntriesFor(entries + [e], OnlyOut) == EntriesFor(entries, OnlyOut) + if SendsOut(e) then [e] else []
    ensures EntriesFor(entries + [e], OnlyIn) == EntriesFor(entries, OnlyIn) + if TakesIn(e) then [e] else []
  {
    assert (entries + [e])[..|entries|] == entries;
  }

  /** The entry sends this property from a field the record has. */
  predicate Writes(fields: map<Field, Value>, external: string, e: MapEntry) {
    SendsOut(e) && e.external == external && e.internal in fields
  }

  /** The entry sends a present field in a way Notion has no type for. */
  predicate Fails(fields: map<Field, Value>, e: MapEntry) {
    SendsOut(e) && e.internal in fields && e.kind.Unsupported?
  }

  lemma {:induction false} SupportedIsWritten(rt: Runtime, t: PropType, v: Value)
    ensures Serialize(rt, t, v).None? <==> t.Unsupported?
  {
  }

  function Payload(rt: Runtime, entries: seq<MapEntry>, fields: map<Field, Value>): Option<map<string, Json>> {
    Outbound(rt, EntriesFor(entries, OnlyOut), fields)
  }

  /** One entry more: it is skipped, spoils the payload, or writes its property over it. */
  lemma {:induction false} PayloadGrows(rt: Runtime, front: seq<MapEntry>, e: MapEntry, fields: map<Field, Value>)
    ensures Payload(rt, [], fields) == Some(map[])
    ensures Payload(rt, front, fields).None? || Fails(fields, e) ==> Payload(rt, front + [e], fields).None?
    ensures Payload(rt, front, fields).Some? && !Fails(fields, e) ==>
              && Payload(rt, front + [e], fields).Some?
              && (if Writes(fields, e.external, e)
                  then Serialize(rt, e.kind, fields[e.internal]).Some?
                       && Payload(rt, front + [e], fields).value
                          == Payload(rt, front, fields).value[e.external := Serialize(rt, e.kind, fields[e.internal]).value]
                  else Payload(rt, front + [e], fields) == Payload(rt, front, fields))
  {
    DirectionsAreKept(front, e);
    if e.internal in fields {
      SupportedIsWritten(rt, e.kind, fields[e.internal]);
    }
    hide Serialize, EntriesFor;
    var out := EntriesFor(front, OnlyOut);
    assert (out + [e])[..|out|] == out && out + [] == out;
  }

  lemma {:induction false} LastFirst<T>(s: seq<T>)
    requires s != []
    ensures s == s[..|s| - 1] + [s[|s| - 1]]
  {
  }

  /** A payload is refused exactly when some entry sends a present field of an unsupported type. */
  lemma {:induction false} PayloadFailsExactly(rt: Runtime, entries: seq<MapEntry>, fields: map<Field, Value>)
    ensures Payload(rt, entries, fields).None? <==> exists e :: e in entries && Fails(fields, e)
  {
    hide Payload, Fails, Writes;
    PayloadGrows(rt, [], MapEntry(Name, "", Title, Both), fields);
    if entries != [] {
      var front, e := entries[..|entries| - 1], entries[|entries| - 1];
      LastFirst(entries);
      PayloadFailsExactly(rt, front, fields);
      PayloadGrows(rt, front, e, fields);
    }
  }

  /** A payload has a property exactly when some entry sends it from a field the record has. */
  lemma {:induction false} PayloadHoldsExactly(
      rt: Runtime, entries: seq<MapEntry>, fields: map<Field, Value>, external: string)
    requires Payload(rt, entries, fields).Some?
    ensures external in Payload(rt, entries, fields).value <==> exists e :: e in entries && Writes(fields, external, e)
  {
    hide Payload, Fails;
    PayloadGrows(rt, [], MapEntry(Name, "", Title, Both), fields);
    if entries != [] {
      var front, e := entries[..|entries| - 1], entries[|entries| - 1];
      LastFirst(entries);
      PayloadGrows(rt, front, e, fields);
      PayloadHoldsExactly(rt, front, fields, external);
    }
  }

  /** ... and the property is as the last of these entries writes it. */
  lemma {:induction false} LastEntryWrites(rt: Runtime, entries: seq<MapEntry>, fields: map<Field, Value>, i: nat)
    requires Payload(rt, entries, fields).Some? && i < |entries| && Writes(fields, entries[i].external, entries[i])
    requires forall k :: i < k < |entries| ==> !Writes(fields, entries[i].external, entries[k])
    ensures entries[i].external in Payload(rt, entries, fields).value
    ensures Some(Payload(rt, entries, fields).value[entries[i].external])
            == Serialize(rt, entries[i].kind, fields[entries[i].internal])
  {
    hide Payload, Fails, Serialize;
    var front, e := entries[..|entries| - 1], entries[|entries| - 1];
    LastFirst(entries);
    PayloadGrows(rt, front, e, fields);
    if i < |front| {
      LastEntryWrites(rt, front, fields, i);
    }
  }

  function Fields(entries: seq<MapEntry>, raw: map<string, Json>): map<Field, Value> {
    Inbound(EntriesFor(entries, OnlyIn), raw)
  }

  /** The entry receives, and its property of the page yields a value. */
  predicate Fills(raw: map<string, Json>, e: MapEntry) {
    TakesIn(e) && e.external in raw && raw[e.external].JObj? && Deserialize(e.kind, raw[e.external].fields).Some?
  }

  lemma {:induction false} InboundGrows(front: seq<MapEntry>, e: MapEntry, raw: map<string, Json>)
    ensures Inbound([], raw) == map[]
    ensures Inbound(front + [e], raw) ==
            if e.external in raw && raw[e.external].JObj? && Deserialize(e.kind, raw[e.external].fields).Some?
            then Inbound(front, raw)[e.internal := Deserialize(e.kind, raw[e.external].fields).value]
            else Inbound(front, raw)
  {
    hide Deserialize;
    assert (front + [e])[..|front|] == front;
  }

  lemma {:induction false} FieldsGrow(front: seq<MapEntry>, e: MapEntry, raw: map<string, Json>)
    ensures Fields([], raw) == map[]
    ensures Fills(raw, e) ==>
              Fields(front + [e], raw) == Fields(front, raw)[e.internal := Deserialize(e.kind, raw[e.external].fields).value]
    ensures !Fills(raw, e) ==> Fields(front + [e], raw) == Fields(front, raw)
  {
    DirectionsAreKept(front, e);
    hide Deserialize, EntriesFor, Inbound;
    var taken := EntriesFor(front, OnlyIn);
    assert taken + [] == taken;
    InboundGrows(taken, e, raw);
  }

  /** A field comes in exactly when some entry fills it. */
  lemma {:induction false} FieldComesInExactly(entries: seq<MapEntry>, raw: map<string, Json>, f: Field)
    ensures f in Fields(entries, raw) <==> exists e :: e in entries && e.internal == f && Fills(raw, e)
  {
    hide Fields, Fills;
    FieldsGrow([], MapEntry(Name, "", Title, Both), raw);
    if entries != [] {
      var front, e := entries[..|entries| - 1], entries[|entries| - 1];
      LastFirst(entries);
      FieldsGrow(front, e, raw);
      FieldComesInExactly(front, raw, f);
    }
  }

  /** ... and it is what the last of these entries reads. */
  lemma {:induction false} LastEntryFills(entries: seq<MapEntry>, raw: map<string, Json>, i: nat)
    requires i < |entries| && Fills(raw, entries[i])
    requires forall k :: i < k < |entries| && entries[k].internal == entries[i].internal ==> !Fills(raw, entries[k])
    ensures At(Fields(entries, raw), entries[i].internal)
            == Deserialize(entries[i].kind, raw[entries[i].external].fields)
  {
    hide Fields, Deserialize;
    var front, e := entries[..|entries| - 1], entries[|entries| - 1];
    LastFirst(entries);
    FieldsGrow(front, e, raw);
    if i < |front| {
      LastEntryFills(front, raw, i);
    }
  }

  // ---------------------------------------------------------------- the wire format

  /** The property object of each type, as the Notion API has it, for every value: first the types
      that are written as text. */
  lemma {:induction false} WrittenTexts(rt: Runtime, v: Value)
    ensures var s := if v.Text? then v.s else rt.sprint(v);
            var text := if s == "" then [] else [JObj(map["type" := JStr("text"), "text" := JObj(map["content" := JStr(s)])])];
            var option := if s == "" then JNull else JObj(map["name" := JStr(s)]);
            var plain := if s == "" then JNull else JStr(s);
            && Serialize(rt, Title, v) == Some(JObj(map["title" := JArr(text)]))
            && Serialize(rt, RichText, v) == Some(JObj(map["rich_text" := JArr(text)]))
            && Serialize(rt, Select, v) == Some(JObj(map["select" := option]))
            && Serialize(rt, Status, v) == Some(JObj(map["status" := option]))
            && Serialize(rt, Url, v) == Some(JObj(map["url" := plain]))
            && Serialize(rt, Email, v) == Some(JObj(map["email" := plain]))
            && Serialize(rt, PhoneNumber, v) == Some(JObj(map["phone_number" := plain]))
  {
  }

  /** Numbers, check marks and days. */
  lemma {:induction false} WrittenScalars(rt: Runtime, v: Value)
    ensures Serialize(rt, Number, v) == Some(JObj(map["number" := if v.Num? then JNum(v.n) else JNull]))
    ensures Serialize(rt, Checkbox, v) == Some(JObj(map["checkbox" := JBool(v == Flag(true))]))
    ensures var day := if v.Instant? then Some(v.day) else if v.Text? && v.s != "" then rt.calendarDay(v.s) else None;
            Serialize(rt, Date, v) ==
            Some(JObj(map["date" := if day.None? then JNull else JObj(map["start" := JStr(day.value)])]))
  {
  }

  /** Lists, one object an item and in order. */
  lemma {:induction false} WrittenLists(rt: Runtime, v: Value)
    ensures var names := if v.Texts? then v.names else [];
            var named := seq(|names|, i requires 0 <= i < |names| => JObj(map["name" := JStr(names[i])]));
            var ids := seq(|names|, i requires 0 <= i < |names| => JObj(map["id" := JStr(names[i])]));
            && Serialize(rt, MultiSelect, v) == Some(JObj(map["multi_select" := JArr(named)]))
            && Serialize(rt, Relation, v) == Some(JObj(map["relation" := JArr(ids)]))
            && Serialize(rt, People, v) == Some(JObj(map["people" := JArr(ids)]))
  {
    var names := if v.Texts? then v.names else [];
    assert OptionList("name", names) == seq(|names|, i requires 0 <= i < |names| => JObj(map["name" := JStr(names[i])]));
    assert OptionList("id", names) == seq(|names|, i requires 0 <= i < |names| => JObj(map["id" := JStr(names[i])]));
  }

  /** What is read from each type, whoever wrote it: first what is not a list. */
  lemma {:induction false} ReadScalars(content: Json)
    ensures var name := if content.JObj? && "name" in content.fields && content.fields["name"].JStr?
                        then Some(Text(content.fields["name"].s)) else None;
            Deserialize(Select, map["select" := content]) == Deserialize(Status, map["status" := content]) == name
    ensures var day := if content.JObj? && "start" in content.fields && content.fields["start"].JStr?
                          && content.fields["start"].s != ""
                       then Some(Text(content.fields["start"].s)) else None;
            Deserialize(Date, map["date" := content]) == day
    ensures Deserialize(Number, map["number" := content]) == if content.JNum? then Some(Num(content.n)) else None
    ensures Deserialize(Checkbox, map["checkbox" := content]) == if content.JBool? then Some(Flag(content.b)) else None
    ensures var text := if content.JStr? && content.s != "" then Some(Text(content.s)) else None;
            Deserialize(Url, map["url" := content]) == Deserialize(Email, map["email" := content])
            == Deserialize(PhoneNumber, map["phone_number" := content]) == text
  {
  }

  /** The text of a rich-text property with these items. */
  function TextRead(items: seq<Json>): string {
    match Deserialize(Title, map["title" := JArr(items)])
    case Some(Text(s)) => s
    case _ => ""
  }

  lemma {:induction false} TextReadIs(items: seq<Json>)
    ensures TextRead(items) == Concatenated(items)
    ensures Deserialize(Title, map["title" := JArr(items)]) == Deserialize(RichText, map["rich_text" := JArr(items)])
            == if TextRead(items) == "" then None else Some(Text(TextRead(items)))
  {
  }

  /** The items of a rich text are joined; of each its plain text is read, or without one its
      text.content. */
  lemma {:induction false} RichTextIsJoined(items: seq<Json>, it: Json)
    ensures TextRead([]) == ""
    ensures TextRead(items + [it]) ==
            TextRead(items)
            + if !it.JObj? then ""
              else if "plain_text" in it.fields && it.fields["plain_text"].JStr? then it.fields["plain_text"].s
              else if "text" in it.fields && it.fields["text"].JObj? && "content" in it.fields["text"].fields
                      && it.fields["text"].fields["content"].JStr?
              then it.fields["text"].fields["content"].s
              else ""
  {
    TextReadIs(items);
    TextReadIs([]);
    TextReadIs(items + [it]);
    assert (items + [it])[..|items|] == items;
  }

  lemma {:induction false} NamesGrow(key: string, items: seq<Json>, it: Json)
    ensures NamesUnder(key, []) == []
    ensures NamesUnder(key, items + [it]) ==
            NamesUnder(key, items) + if it.JObj? && key in it.fields && it.fields[key].JStr? then [it.fields[key].s] else []
  {
    assert (items + [it])[..|items|] == items;
  }

  /** The names, or ids, in a property of this type. */
  function ListRead(t: PropType, items: seq<Json>): Option<Value> {
    Deserialize(t, map[Key(t) := JArr(items)])
  }

  /** Options and ids are read in order, items without one skipped. */
  lemma {:induction false} ListIsRead(items: seq<Json>, it: Json, t: PropType)
    requires t.MultiSelect? || t.Relation? || t.People?
    ensures Key(t) == (if t.MultiSelect? then "multi_select" else if t.Relation? then "relation" else "people")
    ensures ListRead(t, []) == Some(Texts([])) && ListRead(t, items).Some? && ListRead(t, items).value.Texts?
    ensures var key := if t.MultiSelect? then "name" else "id";
            ListRead(t, items + [it]) ==
            Some(Texts(ListRead(t, items).value.names
                       + if it.JObj? && key in it.fields && it.fields[key].JStr? then [it.fields[key].s] else []))
  {
    NamesGrow("name", items, it);
    NamesGrow("id", items, it);
    hide NamesUnder;
  }
}
