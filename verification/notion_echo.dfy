/**
 Pushing a record and pulling it straight back changes it exactly in two cases: a text mapped to
 a date property is rewritten to another text of the same day, or a field the record lacks is
 still on the page, where an earlier push or an edit left it, and comes back.
 */
module NotionEcho {
  import opened Wrappers
  import opened NotionValues
  import opened NotionMapping

  predicate TwoWay(entries: seq<MapEntry>) {
    forall e :: e in entries ==> e.direction.Unset? || e.direction.Both?
  }

  predicate DistinctExternals(entries: seq<MapEntry>) {
    forall i, j :: 0 <= i < j < |entries| ==> entries[i].external != entries[j].external
  }

  predicate DistinctInternals(entries: seq<MapEntry>) {
    forall i, j :: 0 <= i < j < |entries| ==> entries[i].internal != entries[j].internal
  }

  /** The page read back holds every property that was pushed, as Notion returns it. */
  ghost predicate Carries(entries: seq<MapEntry>, payload: map<string, Json>, raw: map<string, Json>) {
    forall i :: 0 <= i < |entries| && entries[i].external in payload ==>
      entries[i].external in raw && Returns(entries[i].kind, payload[entries[i].external], raw[entries[i].external])
  }

  lemma {:induction false} EveryEntryApplies(entries: seq<MapEntry>, direction: Direction)
    requires TwoWay(entries)
    ensures EntriesFor(entries, direction) == entries
  {
    if entries != [] {
      EveryEntryApplies(entries[..|entries| - 1], direction);
    }
  }

  /** Each entry whose field is present is in the payload, written by its own serializer. */
  lemma {:induction false} PayloadHolds(rt: Runtime, entries: seq<MapEntry>, fields: map<Field, Value>, i: nat)
    requires DistinctExternals(entries) && Outbound(rt, entries, fields).Some?
    requires i < |entries| && entries[i].internal in fields
    ensures var payload := Outbound(rt, entries, fields).value;
            entries[i].external in payload
            && Serialize(rt, entries[i].kind, fields[entries[i].internal]) == Some(payload[entries[i].external])
  {
    var n := |entries| - 1;
    if i < n {
      PayloadHolds(rt, entries[..n], fields, i);
    }
  }

  /** Entry i, read back, yields the echo of the field it sent. */
  ghost predicate Echoes(rt: Runtime, e: MapEntry, fields: map<Field, Value>, raw: map<string, Json>) {
    e.internal in fields ==>
      && e.external in raw && raw[e.external].JObj?
      && Deserialize(e.kind, raw[e.external].fields) == Echo(rt, e.kind, fields[e.internal])
  }

  lemma {:induction false} EveryEntryEchoes(
      rt: Runtime, entries: seq<MapEntry>, fields: map<Field, Value>, raw: map<string, Json>)
    requires CalendarLaw(rt) && forall f :: f in fields ==> ProperInstant(rt, fields[f])
    requires DistinctExternals(entries) && Outbound(rt, entries, fields).Some?
    requires Carries(entries, Outbound(rt, entries, fields).value, raw)
    ensures forall i :: 0 <= i < |entries| ==> Echoes(rt, entries[i], fields, raw)
  {
    forall i | 0 <= i < |entries| ensures Echoes(rt, entries[i], fields, raw) {
      var e := entries[i];
      if e.internal in fields {
        PayloadHolds(rt, entries, fields, i);
        SerializeThenDeserialize(rt, e.kind, fields[e.internal], raw[e.external]);
      }
    }
  }

  /** Whatever comes back for a present field is the echo of one of its entries. */
  lemma {:induction false} InboundIsAnEcho(
      rt: Runtime, entries: seq<MapEntry>, fields: map<Field, Value>, raw: map<string, Json>, f: Field)
      returns (i: nat)
    requires forall k :: 0 <= k < |entries| ==> Echoes(rt, entries[k], fields, raw)
    requires f in fields && f in Inbound(entries, raw)
    ensures i < |entries| && entries[i].internal == f
            && Echo(rt, entries[i].kind, fields[f]) == Some(Inbound(entries, raw)[f])
  {
    var n := |entries| - 1;
    var e := entries[n];
    if e.internal == f && e.external in raw && raw[e.external].JObj? && Deserialize(e.kind, raw[e.external].fields).Some? {
      assert Echoes(rt, entries[n], fields, raw);
      i := n;
    } else {
      forall k | 0 <= k < n ensures Echoes(rt, entries[..n][k], fields, raw) {
        assert Echoes(rt, entries[k], fields, raw);
      }
      i := InboundIsAnEcho(rt, entries[..n], fields, raw, f);
    }
  }

  lemma {:induction false} NothingElseComesBack(entries: seq<MapEntry>, raw: map<string, Json>, f: Field)
    requires forall k :: 0 <= k < |entries| ==> entries[k].internal != f
    ensures f !in Inbound(entries, raw)
  {
    if entries != [] {
      NothingElseComesBack(entries[..|entries| - 1], raw, f);
    }
  }

  /** With one entry a field, what comes back is exactly that entry's echo. */
  lemma {:induction false} InboundIsTheEcho(
      rt: Runtime, entries: seq<MapEntry>, fields: map<Field, Value>, raw: map<string, Json>, i: nat)
    requires forall k :: 0 <= k < |entries| ==> Echoes(rt, entries[k], fields, raw)
    requires DistinctInternals(entries) && i < |entries| && entries[i].internal in fields
    ensures At(Inbound(entries, raw), entries[i].internal) == Echo(rt, entries[i].kind, fields[entries[i].internal])
  {
    var n := |entries| - 1;
    var rest := entries[..n];
    forall k | 0 <= k < n ensures Echoes(rt, rest[k], fields, raw) {
      assert Echoes(rt, entries[k], fields, raw);
    }
    assert Echoes(rt, entries[n], fields, raw);
    if i < n {
      InboundIsTheEcho(rt, rest, fields, raw, i);
    } else {
      NothingElseComesBack(rest, raw, entries[n].internal);
    }
  }

  // ---------------------------------------------------------------- applying what came back

  function SlotIn(intakes: Chain<Intake>, f: Field): Option<Slot> {
    match intakes
    case Start => None
    case Then(prev, p) => if p.field == f then Some(p.slot) else SlotIn(prev, f)
  }

  predicate Lists(fs: Chain<Field>, f: Field) {
    fs.Then? && (fs.last == f || Lists(fs.prev, f))
  }

  predicate OwnFields(intakes: Chain<Intake>) {
    intakes.Start? || (SlotIn(intakes.prev, intakes.last.field).None? && OwnFields(intakes.prev))
  }

  predicate OfferedBy(intakes: Chain<Intake>, fs: Chain<Field>) {
    intakes.Start?
    || (Lists(fs, intakes.last.field) && !intakes.last.field.CompanyName? && OfferedBy(intakes.prev, fs))
  }

  /** Each intake has a field of its own, one that the record offers unconditionally. */
  predicate ProperIntakes(intakes: Chain<Intake>, fs: Chain<Field>) {
    OwnFields(intakes) && OfferedBy(intakes, fs)
  }

  lemma {:induction false} CompanyFieldsAreListed()
    ensures Lists(FieldsOf(Company), Name)
    ensures Lists(FieldsOf(Company), RecordStatus)
    ensures Lists(FieldsOf(Company), Domain)
    ensures Lists(FieldsOf(Company), Website)
    ensures Lists(FieldsOf(Company), Description)
  {
  }

  lemma {:induction false} LaterCompanyFieldsAreListed()
    ensures Lists(FieldsOf(Company), EmployeeCount)
    ensures Lists(FieldsOf(Company), AnnualRevenue)
    ensures Lists(FieldsOf(Company), Headquarters)
    ensures Lists(FieldsOf(Company), LinkedinUrl)
    ensures Lists(FieldsOf(Company), Phone)
  {
  }

  lemma {:induction false} CompanyFieldsAreOwn()
    ensures OwnFields(IntakesOf(Company))
  {
    hide FieldsOf, Lists, OfferedBy;
  }

  lemma {:induction false} CompanyTableIsProper()
    ensures ProperIntakes(IntakesOf(Company), FieldsOf(Company))
  {
    CompanyFieldsAreListed();
    LaterCompanyFieldsAreListed();
    CompanyFieldsAreOwn();
    hide FieldsOf, SlotIn, Lists, OwnFields;
  }

  lemma {:induction false} ContactFieldsAreListed()
    ensures Lists(FieldsOf(Contact), FirstName)
    ensures Lists(FieldsOf(Contact), LastName)
    ensures Lists(FieldsOf(Contact), RecordStatus)
    ensures Lists(FieldsOf(Contact), EmailAddress)
  {
  }

  lemma {:induction false} LaterContactFieldsAreListed()
    ensures Lists(FieldsOf(Contact), Phone)
    ensures Lists(FieldsOf(Contact), JobTitle)
    ensures Lists(FieldsOf(Contact), Department)
    ensures Lists(FieldsOf(Contact), LinkedinUrl)
    ensures Lists(FieldsOf(Contact), Notes)
  {
  }

  lemma {:induction false} ContactFieldsAreOwn()
    ensures OwnFields(IntakesOf(Contact))
  {
    hide FieldsOf, Lists, OfferedBy;
  }

  lemma {:induction false} ContactTableIsProper()
    ensures ProperIntakes(IntakesOf(Contact), FieldsOf(Contact))
  {
    ContactFieldsAreListed();
    LaterContactFieldsAreListed();
    ContactFieldsAreOwn();
    hide FieldsOf, SlotIn, Lists, OwnFields;
  }

  lemma {:induction false} SponsorFieldsAreListed()
    ensures Lists(FieldsOf(Sponsor), Stage)
    ensures Lists(FieldsOf(Sponsor), Tier)
    ensures Lists(FieldsOf(Sponsor), LostReason)
    ensures Lists(FieldsOf(Sponsor), Notes)
  {
  }

  lemma {:induction false} LaterSponsorFieldsAreListed()
    ensures Lists(FieldsOf(Sponsor), ExpectedClose)
    ensures Lists(FieldsOf(Sponsor), ActualClose)
    ensures Lists(FieldsOf(Sponsor), DealValue)
    ensures Lists(FieldsOf(Sponsor), Probability)
  {
  }

  lemma {:induction false} SponsorFieldsAreOwn()
    ensures OwnFields(IntakesOf(Sponsor))
  {
    hide FieldsOf, Lists, OfferedBy;
  }

  lemma {:induction false} SponsorTableIsProper()
    ensures ProperIntakes(IntakesOf(Sponsor), FieldsOf(Sponsor))
  {
    SponsorFieldsAreListed();
    LaterSponsorFieldsAreListed();
    SponsorFieldsAreOwn();
    hide FieldsOf, SlotIn, Lists, OwnFields;
  }

  lemma {:induction false} TablesAreProper(kind: Kind)
    ensures ProperIntakes(IntakesOf(kind), FieldsOf(kind))
  {
    match kind
    case Company => CompanyTableIsProper();
    case Contact => ContactTableIsProper();
    case Sponsor => SponsorTableIsProper();
  }

  lemma {:induction false} IntakeIsOffered(intakes: Chain<Intake>, fs: Chain<Field>, f: Field)
    requires ProperIntakes(intakes, fs) && SlotIn(intakes, f).Some?
    ensures Lists(fs, f) && !f.CompanyName?
  {
    if intakes.last.field != f {
      IntakeIsOffered(intakes.prev, fs, f);
    }
  }

  lemma {:induction false} GatherAt(vals: map<Field, Value>, fs: Chain<Field>, f: Field)
    ensures At(GatherAll(vals, fs), f) == if Lists(fs, f) then Offered(vals, f) else None
  {
    if fs.Then? {
      GatherAt(vals, fs.prev, f);
    }
  }

  lemma {:induction false} TakeAt(
      was: map<Field, Value>, fields: map<Field, Value>, intakes: Chain<Intake>, fs: Chain<Field>, f: Field)
    requires ProperIntakes(intakes, fs)
    ensures At(TakeAll(was, fields, intakes), f) ==
            match SlotIn(intakes, f)
            case None => At(was, f)
            case Some(slot) =>
              if Accepted(slot, At(fields, f)).Some? then Accepted(slot, At(fields, f)) else At(was, f)
  {
    if intakes.Then? {
      TakeAt(was, fields, intakes.prev, fs, f);
    }
  }

  /** A column holds a value of its own type. */
  predicate ProperColumn(slot: Slot, v: Value) {
    match slot
    case Required => v.Text?
    case Optional => v.Text?
    case Amount => v.Num?
    case Percent => v.Num? && v.n.fraction == 0.0
  }

  predicate WellTyped(kind: Kind, vals: map<Field, Value>) {
    forall f :: f in vals && SlotIn(IntakesOf(kind), f).Some? ==> ProperColumn(SlotIn(IntakesOf(kind), f).value, vals[f])
  }

  /** A text mapped to a date property that is neither empty nor unreadable as a date, and is not
      already its day's text. */
  predicate Rewritten(rt: Runtime, t: PropType, slot: Slot, v: Value) {
    t.Date? && (slot.Required? || slot.Optional?) && v.Text? && ToDay(rt, v).Some? && ToDay(rt, v).value != v.s
  }

  lemma {:induction false} AcceptedEcho(rt: Runtime, t: PropType, slot: Slot, v: Value)
    requires ProperColumn(slot, v) && CalendarLaw(rt)
    ensures Rewritten(rt, t, slot, v) <==>
            Accepted(slot, Echo(rt, t, v)).Some? && Accepted(slot, Echo(rt, t, v)) != Some(v)
  {
  }

  /** The entity after its own push was pulled back. */
  function AfterEcho(
      kind: Kind, entries: seq<MapEntry>, vals: map<Field, Value>, raw: map<string, Json>): map<Field, Value> {
    Applied(kind, vals, Inbound(EntriesFor(entries, OnlyIn), raw))
  }

  ghost predicate Pushed(
      rt: Runtime, kind: Kind, entries: seq<MapEntry>, vals: map<Field, Value>, raw: map<string, Json>) {
    && CalendarLaw(rt) && (forall f :: f in vals ==> ProperInstant(rt, vals[f]))
    && WellTyped(kind, vals) && TwoWay(entries) && DistinctExternals(entries)
    && Outbound(rt, EntriesFor(entries, OnlyOut), Extracted(kind, vals)).Some?
    && Carries(entries, Outbound(rt, EntriesFor(entries, OnlyOut), Extracted(kind, vals)).value, raw)
  }

  /** Entry e would rewrite the field it maps. */
  predicate Rewrites(rt: Runtime, kind: Kind, e: MapEntry, vals: map<Field, Value>) {
    && e.internal in vals && SlotIn(IntakesOf(kind), e.internal).Some?
    && Rewritten(rt, e.kind, SlotIn(IntakesOf(kind), e.internal).value, vals[e.internal])
  }

  /** What an entry reads from the page. */
  function ReadBack(e: MapEntry, raw: map<string, Json>): Option<Value> {
    if e.external in raw && raw[e.external].JObj? then Deserialize(e.kind, raw[e.external].fields) else None
  }

  /** Entry e would fill a field the record lacks with what the page holds: a clear is not pushed,
      so whatever was there before it comes back. */
  predicate Revives(kind: Kind, e: MapEntry, vals: map<Field, Value>, raw: map<string, Json>) {
    && e.internal !in vals && SlotIn(IntakesOf(kind), e.internal).Some?
    && Accepted(SlotIn(IntakesOf(kind), e.internal).value, ReadBack(e, raw)).Some?
  }

  /** Every field the record has is as it was. */
  ghost predicate Unchanged(vals: map<Field, Value>, after: map<Field, Value>) {
    forall f :: f in vals ==> At(after, f) == Some(vals[f])
  }

  lemma {:induction false} ExtractedValues(kind: Kind, vals: map<Field, Value>)
    ensures forall f :: f in Extracted(kind, vals) ==> f in vals && Extracted(kind, vals)[f] == vals[f]
    ensures forall f :: f in vals && SlotIn(IntakesOf(kind), f).Some? ==> f in Extracted(kind, vals)
  {
    TablesAreProper(kind);
    forall f ensures f in Extracted(kind, vals) ==> f in vals && Extracted(kind, vals)[f] == vals[f] {
      GatherAt(vals, FieldsOf(kind), f);
      assert At(Extracted(kind, vals), f).Some? <==> f in Extracted(kind, vals);
    }
    forall f | f in vals && SlotIn(IntakesOf(kind), f).Some? ensures f in Extracted(kind, vals) {
      GatherAt(vals, FieldsOf(kind), f);
      IntakeIsOffered(IntakesOf(kind), FieldsOf(kind), f);
      assert At(Extracted(kind, vals), f) == Some(vals[f]);
    }
  }

  lemma {:induction false} FieldSurvives(
      rt: Runtime, intakes: Chain<Intake>, fs: Chain<Field>, entries: seq<MapEntry>,
      vals: map<Field, Value>, fields: map<Field, Value>, raw: map<string, Json>, f: Field)
    requires CalendarLaw(rt) && ProperIntakes(intakes, fs) && f in vals
    requires forall i :: 0 <= i < |entries| ==> Echoes(rt, entries[i], fields, raw)
    requires SlotIn(intakes, f).Some? ==>
               && ProperColumn(SlotIn(intakes, f).value, vals[f])
               && f in fields && fields[f] == vals[f]
               && forall i :: 0 <= i < |entries| && entries[i].internal == f ==>
                    !Rewritten(rt, entries[i].kind, SlotIn(intakes, f).value, vals[f])
    ensures At(TakeAll(vals, Inbound(entries, raw), intakes), f) == Some(vals[f])
  {
    var inbound, slot := Inbound(entries, raw), SlotIn(intakes, f);
    TakeAt(vals, inbound, intakes, fs, f);
    if slot.Some? && f in inbound {
      var i := InboundIsAnEcho(rt, entries, fields, raw, f);
      AcceptedEcho(rt, entries[i].kind, slot.value, vals[f]);
    }
  }

  /** If no entry rewrites a date text, every field the record has comes back unchanged. */
  lemma {:induction false} EchoKeepsRecord(
      rt: Runtime, kind: Kind, entries: seq<MapEntry>, vals: map<Field, Value>, raw: map<string, Json>)
    requires Pushed(rt, kind, entries, vals, raw)
    requires forall i :: 0 <= i < |entries| ==> !Rewrites(rt, kind, entries[i], vals)
    ensures Unchanged(vals, AfterEcho(kind, entries, vals, raw))
  {
    EveryEntryApplies(entries, OnlyIn);
    EveryEntryApplies(entries, OnlyOut);
    ExtractedValues(kind, vals);
    var fields := Extracted(kind, vals);
    EveryEntryEchoes(rt, entries, fields, raw);
    TablesAreProper(kind);
    forall f | f in vals ensures At(AfterEcho(kind, entries, vals, raw), f) == Some(vals[f]) {
      assert SlotIn(IntakesOf(kind), f).Some? ==> f in fields && fields[f] == vals[f];
      assert forall i :: 0 <= i < |entries| ==> !Rewrites(rt, kind, entries[i], vals);
      FieldSurvives(rt, IntakesOf(kind), FieldsOf(kind), entries, vals, fields, raw, f);
    }
  }

  /** With one entry a field, every field the record has comes back unchanged only then. */
  lemma {:induction false} EchoKeepsFieldsExactly(
      rt: Runtime, kind: Kind, entries: seq<MapEntry>, vals: map<Field, Value>, raw: map<string, Json>)
    requires Pushed(rt, kind, entries, vals, raw) && DistinctInternals(entries)
    ensures Unchanged(vals, AfterEcho(kind, entries, vals, raw)) <==>
            forall i :: 0 <= i < |entries| ==> !Rewrites(rt, kind, entries[i], vals)
  {
    if forall i :: 0 <= i < |entries| ==> !Rewrites(rt, kind, entries[i], vals) {
      EchoKeepsRecord(rt, kind, entries, vals, raw);
    } else {
      var i :| 0 <= i < |entries| && Rewrites(rt, kind, entries[i], vals);
      EveryEntryApplies(entries, OnlyIn);
      EveryEntryApplies(entries, OnlyOut);
      ExtractedValues(kind, vals);
      var fields, f := Extracted(kind, vals), entries[i].internal;
      EveryEntryEchoes(rt, entries, fields, raw);
      InboundIsTheEcho(rt, entries, fields, raw, i);
      TablesAreProper(kind);
      TakeAt(vals, Inbound(entries, raw), IntakesOf(kind), FieldsOf(kind), f);
      AcceptedEcho(rt, entries[i].kind, SlotIn(IntakesOf(kind), f).value, vals[f]);
      assert At(AfterEcho(kind, entries, vals, raw), f) != Some(vals[f]);
    }
  }

  // ---------------------------------------------------------------- fields the record lacks

  /** Whatever comes back was read by some entry of its field. */
  lemma {:induction false} InboundIsReadBack(entries: seq<MapEntry>, raw: map<string, Json>, f: Field) returns (i: nat)
    requires f in Inbound(entries, raw)
    ensures i < |entries| && entries[i].internal == f && ReadBack(entries[i], raw) == Some(Inbound(entries, raw)[f])
  {
    var n := |entries| - 1;
    if entries[n].internal == f && ReadBack(entries[n], raw).Some? {
      i := n;
    } else {
      i := InboundIsReadBack(entries[..n], raw, f);
    }
  }

  /** With one entry a field, what comes back is what that entry reads. */
  lemma {:induction false} InboundAt(entries: seq<MapEntry>, raw: map<string, Json>, i: nat)
    requires DistinctInternals(entries) && i < |entries|
    ensures At(Inbound(entries, raw), entries[i].internal) == ReadBack(entries[i], raw)
  {
    var n := |entries| - 1;
    if i < n {
      InboundAt(entries[..n], raw, i);
    } else {
      NothingElseComesBack(entries[..n], raw, entries[n].internal);
    }
  }

  /** What comes back decides a field with a slot if the slot accepts it; nothing else changes. */
  lemma {:induction false} AfterEchoAt(
      kind: Kind, entries: seq<MapEntry>, vals: map<Field, Value>, raw: map<string, Json>, f: Field)
    requires TwoWay(entries)
    ensures At(AfterEcho(kind, entries, vals, raw), f) ==
            match SlotIn(IntakesOf(kind), f)
            case None => At(vals, f)
            case Some(slot) =>
              var taken := Accepted(slot, At(Inbound(entries, raw), f));
              if taken.Some? then taken else At(vals, f)
  {
    hide Accepted, IntakesOf, FieldsOf, Inbound, ProperIntakes, SlotIn, TakeAll, EntriesFor, TwoWay;
    EveryEntryApplies(entries, OnlyIn);
    TablesAreProper(kind);
    TakeAt(vals, Inbound(entries, raw), IntakesOf(kind), FieldsOf(kind), f);
  }

  /** A field the record lacks stays so, unless some entry revives it. */
  lemma {:induction false} AbsentStaysAbsent(
      kind: Kind, entries: seq<MapEntry>, vals: map<Field, Value>, raw: map<string, Json>, f: Field)
    requires TwoWay(entries) && f !in vals
    requires forall i :: 0 <= i < |entries| ==> !Revives(kind, entries[i], vals, raw)
    ensures f !in AfterEcho(kind, entries, vals, raw)
  {
    hide Accepted, IntakesOf, Inbound, ReadBack, SlotIn, AfterEcho, TwoWay;
    AfterEchoAt(kind, entries, vals, raw, f);
    var slot := SlotIn(IntakesOf(kind), f);
    if slot.Some? {
      if f in Inbound(entries, raw) {
        var i := InboundIsReadBack(entries, raw, f);
        assert !Revives(kind, entries[i], vals, raw);
      } else {
        NothingIsAccepted(slot.value);
      }
    }
  }

  lemma {:induction false} NothingIsAccepted(slot: Slot)
    ensures Accepted(slot, None) == None
  {
  }

  /** A revived field is back: the record's clear is undone by its own echo. */
  lemma {:induction false} RevivedComesBack(
      kind: Kind, entries: seq<MapEntry>, vals: map<Field, Value>, raw: map<string, Json>, i: nat)
    requires TwoWay(entries) && DistinctInternals(entries) && i < |entries| && Revives(kind, entries[i], vals, raw)
    ensures var f := entries[i].internal;
            && f !in vals && SlotIn(IntakesOf(kind), f).Some?
            && At(AfterEcho(kind, entries, vals, raw), f)
               == Accepted(SlotIn(IntakesOf(kind), f).value, ReadBack(entries[i], raw))
            && f in AfterEcho(kind, entries, vals, raw)
  {
    hide Accepted, IntakesOf, Inbound, ReadBack, SlotIn, AfterEcho, TwoWay;
    AfterEchoAt(kind, entries, vals, raw, entries[i].internal);
    InboundAt(entries, raw, i);
  }

  lemma {:induction false} SameEverywhere(vals: map<Field, Value>, after: map<Field, Value>)
    ensures after == vals <==> Unchanged(vals, after) && forall f :: f !in vals ==> f !in after
  {
    if Unchanged(vals, after) && forall f :: f !in vals ==> f !in after {
      assert forall f :: f in vals ==> At(after, f) == Some(vals[f]);
      assert after.Keys == vals.Keys;
    }
  }

  /** If no entry rewrites a text and none revives a field, the record is what it was. */
  lemma {:induction false} EchoRestoresRecord(
      rt: Runtime, kind: Kind, entries: seq<MapEntry>, vals: map<Field, Value>, raw: map<string, Json>)
    requires Pushed(rt, kind, entries, vals, raw)
    requires forall i :: 0 <= i < |entries| ==>
                           !Rewrites(rt, kind, entries[i], vals) && !Revives(kind, entries[i], vals, raw)
    ensures AfterEcho(kind, entries, vals, raw) == vals
  {
    hide AfterEcho, Rewrites, Revives;
    EchoKeepsRecord(rt, kind, entries, vals, raw);
    forall f | f !in vals ensures f !in AfterEcho(kind, entries, vals, raw) {
      AbsentStaysAbsent(kind, entries, vals, raw, f);
    }
    SameEverywhere(vals, AfterEcho(kind, entries, vals, raw));
  }

  /** With one entry a field, the whole record comes back as it was if and only if no entry rewrites
      a text of it and none revives a field it lacks. */
  lemma {:induction false} EchoKeepsRecordExactly(
      rt: Runtime, kind: Kind, entries: seq<MapEntry>, vals: map<Field, Value>, raw: map<string, Json>)
    requires Pushed(rt, kind, entries, vals, raw) && DistinctInternals(entries)
    ensures AfterEcho(kind, entries, vals, raw) == vals <==>
            forall i :: 0 <= i < |entries| ==>
                          !Rewrites(rt, kind, entries[i], vals) && !Revives(kind, entries[i], vals, raw)
  {
    hide AfterEcho, Rewrites, Revives;
    EchoKeepsFieldsExactly(rt, kind, entries, vals, raw);
    SameEverywhere(vals, AfterEcho(kind, entries, vals, raw));
    if forall i :: 0 <= i < |entries| ==>
                     !Rewrites(rt, kind, entries[i], vals) && !Revives(kind, entries[i], vals, raw) {
      EchoRestoresRecord(rt, kind, entries, vals, raw);
    } else if forall i :: 0 <= i < |entries| ==> !Rewrites(rt, kind, entries[i], vals) {
      var i :| 0 <= i < |entries| && Revives(kind, entries[i], vals, raw);
      RevivedComesBack(kind, entries, vals, raw, i);
    }
  }

  /** A payload has an entry's property exactly when the record has the entry's field: a clear is
      never in it. */
  lemma {:induction false} PayloadHasExactly(
      rt: Runtime, entries: seq<MapEntry>, fields: map<Field, Value>, i: nat)
    requires DistinctExternals(entries) && Outbound(rt, entries, fields).Some? && i < |entries|
    ensures entries[i].external in Outbound(rt, entries, fields).value <==> entries[i].internal in fields
  {
    if entries[i].internal in fields {
      PayloadHolds(rt, entries, fields, i);
    } else {
      NobodyElseWrites(rt, entries, fields, i);
    }
  }

  lemma {:induction false} NobodyElseWrites(
      rt: Runtime, entries: seq<MapEntry>, fields: map<Field, Value>, i: nat)
    requires DistinctExternals(entries) && Outbound(rt, entries, fields).Some?
    requires i < |entries| && entries[i].internal !in fields
    ensures entries[i].external !in Outbound(rt, entries, fields).value
  {
    var n := |entries| - 1;
    if i < n {
      NobodyElseWrites(rt, entries[..n], fields, i);
    } else {
      NobodyWrites(rt, entries[..n], fields, entries[n].external);
    }
  }

  lemma {:induction false} NobodyWrites(
      rt: Runtime, entries: seq<MapEntry>, fields: map<Field, Value>, ext: string)
    requires Outbound(rt, entries, fields).Some? && forall k :: 0 <= k < |entries| ==> entries[k].external != ext
    ensures ext !in Outbound(rt, entries, fields).value
  {
    if entries != [] {
      NobodyWrites(rt, entries[..|entries| - 1], fields, ext);
    }
  }
}
