/**
 The ledger running on the Notion mapping: what a record's own push, pulled back, does to it. The
 fields it has stay as they are; a field it lacks comes back if the page still holds one.
 */
module SyncEcho {
  import opened Wrappers
  import opened SyncWorld
  import opened SyncSafety
  import opened SyncTheorems
  import SyncGuard
  import opened NotionValues
  import NotionMapping
  import NotionEcho

  type Columns = map<NotionMapping.Field, Value>
  type Properties = map<string, Json>

  /** mapping.SyncableRecord: a record knows its entity type. */
  datatype Record = Record(kind: NotionMapping.Kind, vals: Columns)

  /** The active field mapping of each entity type, over a provider that hands back what deliver
      says. */
  datatype Link = Link(
    rt: Runtime,
    entries: NotionMapping.Kind -> seq<NotionMapping.MapEntry>,
    deliver: (string, Json) -> Json)

  function Delivered(link: Link, m: Properties): Properties {
    map ext | ext in m :: link.deliver(ext, m[ext])
  }

  function Outgoing(link: Link, r: Record): Option<Properties> {
    NotionMapping.Outbound(link.rt, NotionMapping.EntriesFor(link.entries(r.kind), NotionMapping.OnlyOut),
                           NotionMapping.Extracted(r.kind, r.vals))
  }

  function Incoming(link: Link, r: Record, p: Properties): Columns {
    NotionMapping.Inbound(NotionMapping.EntriesFor(link.entries(r.kind), NotionMapping.OnlyIn), p)
  }

  function NotionCodec(link: Link): Codec<Record, Properties, Properties, Columns> {
    Codec(
      (r: Record) => Outgoing(link, r),
      (p: Properties, m: Properties) => p + Delivered(link, m),
      map[],
      (r: Record, p: Properties) => Some(Incoming(link, r, p)),
      (fields: Columns) => fields == map[],
      (r: Record, fields: Columns) => r.(vals := NotionMapping.Applied(r.kind, r.vals, fields)))
  }

  /** A usable two-way mapping: one external property an entry, and a provider that returns each
      property with the content it was sent. */
  ghost predicate ProperMapping(link: Link, entries: seq<NotionMapping.MapEntry>) {
    && NotionEcho.TwoWay(entries)
    && NotionEcho.DistinctExternals(entries)
    && forall i, v :: 0 <= i < |entries| && Serialize(link.rt, entries[i].kind, v).Some? ==>
         Returns(entries[i].kind, Serialize(link.rt, entries[i].kind, v).value,
                 link.deliver(entries[i].external, Serialize(link.rt, entries[i].kind, v).value))
  }

  ghost predicate ProperLink(link: Link) {
    CalendarLaw(link.rt) && forall kind :: ProperMapping(link, link.entries(kind))
  }

  /** The record's columns are of their types. */
  ghost predicate Typed(link: Link, r: Record) {
    NotionEcho.WellTyped(r.kind, r.vals) && forall f :: f in r.vals ==> ProperInstant(link.rt, r.vals[f])
  }

  /** ... and no date entry maps text that is not a date. */
  ghost predicate Echoable(link: Link, r: Record) {
    && Typed(link, r)
    && (forall e :: e in link.entries(r.kind) ==> !NotionEcho.Rewrites(link.rt, r.kind, e, r.vals))
  }

  /** Nothing is in the payload but what some entry wrote. */
  lemma {:induction false} PayloadIsWritten(
      rt: Runtime, entries: seq<NotionMapping.MapEntry>, fields: Columns, ext: string) returns (i: nat)
    requires NotionMapping.Outbound(rt, entries, fields).Some?
    requires ext in NotionMapping.Outbound(rt, entries, fields).value
    ensures i < |entries| && entries[i].external == ext && entries[i].internal in fields
            && Serialize(rt, entries[i].kind, fields[entries[i].internal])
               == Some(NotionMapping.Outbound(rt, entries, fields).value[ext])
  {
    var n := |entries| - 1;
    if entries[n].external == ext && entries[n].internal in fields {
      i := n;
    } else {
      i := PayloadIsWritten(rt, entries[..n], fields, ext);
    }
  }

  lemma {:induction false} OneEntryAnExternal(entries: seq<NotionMapping.MapEntry>, i: nat, k: nat)
    requires NotionEcho.DistinctExternals(entries) && i < |entries| && k < |entries|
    requires entries[i].external == entries[k].external
    ensures i == k
  {
  }

  lemma {:induction false} DeliveredPayloadCarries(
      link: Link, entries: seq<NotionMapping.MapEntry>, fields: Columns, p: Properties)
    requires ProperMapping(link, entries) && NotionMapping.Outbound(link.rt, entries, fields).Some?
    ensures var m := NotionMapping.Outbound(link.rt, entries, fields).value;
            NotionEcho.Carries(entries, m, p + Delivered(link, m))
  {
    var m := NotionMapping.Outbound(link.rt, entries, fields).value;
    var raw := p + Delivered(link, m);
    forall i | 0 <= i < |entries| && entries[i].external in m
      ensures entries[i].external in raw && Returns(entries[i].kind, m[entries[i].external], raw[entries[i].external])
    {
      var k := PayloadIsWritten(link.rt, entries, fields, entries[i].external);
      OneEntryAnExternal(entries, i, k);
    }
  }

  /** A page written with a payload carries it. */
  lemma {:induction false} WrittenPageCarries(link: Link, r: Record, p: Properties)
    requires ProperMapping(link, link.entries(r.kind)) && Outgoing(link, r).Some?
    ensures NotionEcho.Carries(link.entries(r.kind), Outgoing(link, r).value, p + Delivered(link, Outgoing(link, r).value))
  {
    NotionEcho.EveryEntryApplies(link.entries(r.kind), NotionMapping.OnlyOut);
    DeliveredPayloadCarries(link, link.entries(r.kind), NotionMapping.Extracted(r.kind, r.vals), p);
  }

  /** Applying what comes back from a page the record was written to leaves the fields it has alone. */
  lemma {:induction false} WrittenPageEchoes(link: Link, r: Record, p: Properties)
    requires ProperLink(link) && Echoable(link, r) && Outgoing(link, r).Some?
    ensures var raw := NotionCodec(link).write(p, Outgoing(link, r).value);
            NotionEcho.Unchanged(r.vals, NotionCodec(link).apply(r, Incoming(link, r, raw)).vals)
  {
    var entries := link.entries(r.kind);
    assert ProperMapping(link, entries);
    WrittenPageCarries(link, r, p);
    hide ProperMapping;
    NotionEcho.EchoKeepsRecord(link.rt, r.kind, entries, r.vals, p + Delivered(link, Outgoing(link, r).value));
  }

  lemma {:induction false} AbsentIsNotSent(link: Link, r: Record, i: nat)
    requires ProperMapping(link, link.entries(r.kind)) && Outgoing(link, r).Some?
    requires i < |link.entries(r.kind)| && link.entries(r.kind)[i].internal !in r.vals
    ensures link.entries(r.kind)[i].external !in Outgoing(link, r).value
  {
    var entries := link.entries(r.kind);
    NotionEcho.EveryEntryApplies(entries, NotionMapping.OnlyOut);
    NotionEcho.ExtractedValues(r.kind, r.vals);
    hide Serialize, NotionMapping.Outbound, NotionMapping.Extracted, NotionMapping.EntriesFor;
    NotionEcho.PayloadHasExactly(link.rt, entries, NotionMapping.Extracted(r.kind, r.vals), i);
  }

  /** A field the record lacks is not in its payload, so an entry of it reads what the page held. */
  lemma {:induction false} ClearIsNotSent(link: Link, r: Record, p: Properties, i: nat)
    requires ProperMapping(link, link.entries(r.kind)) && Outgoing(link, r).Some?
    requires i < |link.entries(r.kind)| && link.entries(r.kind)[i].internal !in r.vals
    ensures var e := link.entries(r.kind)[i];
            && e.external !in Outgoing(link, r).value
            && NotionEcho.ReadBack(e, p + Delivered(link, Outgoing(link, r).value)) == NotionEcho.ReadBack(e, p)
  {
    AbsentIsNotSent(link, r, i);
    hide Outgoing, ProperMapping, Deserialize;
  }

  /** Some entry rewrites a field of the record, or revives one it lacks from the page it is pushed
      to. */
  ghost predicate Disturbed(link: Link, r: Record, p: Properties) {
    exists i :: 0 <= i < |link.entries(r.kind)| && Disturbs(link, r, p, link.entries(r.kind)[i])
  }

  predicate Disturbs(link: Link, r: Record, p: Properties, e: NotionMapping.MapEntry) {
    NotionEcho.Rewrites(link.rt, r.kind, e, r.vals) || NotionEcho.Revives(r.kind, e, r.vals, p)
  }

  lemma {:induction false} RevivesFromBefore(link: Link, r: Record, p: Properties, i: nat)
    requires ProperMapping(link, link.entries(r.kind)) && Outgoing(link, r).Some? && i < |link.entries(r.kind)|
    ensures var e := link.entries(r.kind)[i];
            NotionEcho.Revives(r.kind, e, r.vals, p + Delivered(link, Outgoing(link, r).value))
            <==> NotionEcho.Revives(r.kind, e, r.vals, p)
  {
    hide NotionEcho.ReadBack, NotionMapping.Accepted, NotionMapping.IntakesOf, Delivered, Outgoing;
    if link.entries(r.kind)[i].internal !in r.vals {
      ClearIsNotSent(link, r, p, i);
    }
  }

  /** With one entry a field, the echo of a push gives back exactly the record that was pushed if
      and only if no entry rewrites a field of it, or revives one it lacks from what the page held
      before. */
  lemma {:induction false} WrittenPageRestoresExactly(link: Link, r: Record, p: Properties)
    requires ProperLink(link) && Typed(link, r) && Outgoing(link, r).Some?
    requires NotionEcho.DistinctInternals(link.entries(r.kind))
    ensures var raw := NotionCodec(link).write(p, Outgoing(link, r).value);
            NotionCodec(link).apply(r, Incoming(link, r, raw)) == r <==> !Disturbed(link, r, p)
  {
    var entries := link.entries(r.kind);
    var raw := p + Delivered(link, Outgoing(link, r).value);
    assert ProperMapping(link, entries);
    WrittenPageCarries(link, r, p);
    EchoedExactly(link, r, raw);
    hide NotionEcho.AfterEcho, NotionEcho.Rewrites, NotionEcho.Revives, ProperMapping;
    forall i | 0 <= i < |entries|
      ensures NotionEcho.Revives(r.kind, entries[i], r.vals, raw) <==> NotionEcho.Revives(r.kind, entries[i], r.vals, p)
    {
      RevivesFromBefore(link, r, p, i);
    }
  }

  lemma {:induction false} EchoedExactly(link: Link, r: Record, raw: Properties)
    requires ProperLink(link) && Typed(link, r) && Outgoing(link, r).Some?
    requires NotionEcho.DistinctInternals(link.entries(r.kind))
    requires NotionEcho.Carries(link.entries(r.kind), Outgoing(link, r).value, raw)
    ensures NotionCodec(link).apply(r, Incoming(link, r, raw)) == r <==>
            forall i :: 0 <= i < |link.entries(r.kind)| ==>
                          !NotionEcho.Rewrites(link.rt, r.kind, link.entries(r.kind)[i], r.vals)
                          && !NotionEcho.Revives(r.kind, link.entries(r.kind)[i], r.vals, raw)
  {
    assert ProperMapping(link, link.entries(r.kind));
    hide NotionEcho.Rewrites, NotionEcho.Revives;
    NotionEcho.EchoKeepsRecordExactly(link.rt, r.kind, link.entries(r.kind), r.vals, raw);
  }

  /** Applying nothing changes nothing. */
  lemma {:induction false} TakeNothing(was: Columns, intakes: NotionMapping.Chain<NotionMapping.Intake>)
    ensures NotionMapping.TakeAll(was, map[], intakes) == was
  {
    if intakes.Then? {
      TakeNothing(was, intakes.prev);
    }
  }

  lemma {:induction false} UnchangedAtRest(vals: Columns)
    ensures NotionEcho.Unchanged(vals, vals)
  {
  }

  /** In every run, when a record of any type is pushed and the echo of that push is pulled: either
      nothing comes back and nothing changes, or the pull is applied, every field the record had is
      unchanged, the row is synced and the next push passes the version guard. */
  lemma {:induction false} EchoIsANoOp(
      link: Link, evs: seq<Event<Record, Properties>>, c: PushCall, p: PullCall, i: nat)
    requires ProperLink(link) && Legal(NotionCodec(link), Empty(), evs)
    requires Enabled(Run(NotionCodec(link), Empty(), evs), PushEvent(c))
    requires var w := Run(NotionCodec(link), Empty(), evs);
             var (w1, pushed) := Push(NotionCodec(link), w, c);
             && (pushed == Overwrote || pushed == Created)
             && FindByInternal(w1.rows, c.entity) == Some(i)
             && Compares(w1, p, i) && p.stamped && p.applyOk
    requires var w := Run(NotionCodec(link), Empty(), evs);
             c.entity in w.records ==> Echoable(link, w.records[c.entity].record)
    ensures var w := Run(NotionCodec(link), Empty(), evs);
            var w1 := Push(NotionCodec(link), w, c).0;
            var (w2, pulled) := Pull(NotionCodec(link), w1, p);
            && c.entity in w.records && c.entity in w2.records
            && NotionEcho.Unchanged(w.records[c.entity].record.vals, w2.records[c.entity].record.vals)
            && (pulled == Applied ==>
                  i < |w2.rows| && w2.rows[i].syncState.Synced? && !Stale(w2.pages, w2.rows[i], true))
            && (pulled != Applied ==> w2 == w1.(clock := p.at))
            && (NotionEcho.DistinctInternals(link.entries(w.records[c.entity].record.kind)) ==>
                  (w2.records[c.entity].record == w.records[c.entity].record <==>
                   !Disturbed(link, w.records[c.entity].record, PageBefore(NotionCodec(link), w, c))))
  {
    hide Push, Pull, ProperLink, Inv, Enabled, Disturbed, PageBefore, Run, Legal, Compares, Typed;
    Reachable(NotionCodec(link), evs);
    var w := Run(NotionCodec(link), Empty(), evs);
    EchoAfterPush(link, w, c, p, i);
    if NotionEcho.DistinctInternals(link.entries(w.records[c.entity].record.kind)) {
      RestoredAfterPush(link, w, c, p, i);
    }
  }

  lemma {:induction false} EchoAfterPush(
      link: Link, w: World<Record, Properties, Properties>, c: PushCall, p: PullCall, i: nat)
    requires ProperLink(link) && Inv(NotionCodec(link).toExternal, w) && Enabled(w, PushEvent(c))
    requires var (w1, pushed) := Push(NotionCodec(link), w, c);
             && (pushed == Overwrote || pushed == Created)
             && FindByInternal(w1.rows, c.entity) == Some(i)
             && Compares(w1, p, i) && p.stamped && p.applyOk
    requires c.entity in w.records ==> Echoable(link, w.records[c.entity].record)
    ensures var w1 := Push(NotionCodec(link), w, c).0;
            var (w2, pulled) := Pull(NotionCodec(link), w1, p);
            && c.entity in w.records && c.entity in w2.records
            && NotionEcho.Unchanged(w.records[c.entity].record.vals, w2.records[c.entity].record.vals)
            && (pulled == Applied ==>
                  i < |w2.rows| && w2.rows[i].syncState.Synced? && !Stale(w2.pages, w2.rows[i], true))
            && (pulled != Applied ==> w2 == w1.(clock := p.at))
  {
    hide Push, Pull, ProperLink, Echoable, NotionEcho.Unchanged, Inv, Enabled, Outgoing, Incoming, Delivered;
    var codec := NotionCodec(link);
    var w1 := Push(codec, w, c).0;
    PushLinks(codec, w, c, i);
    PushThenPullConverges(codec, w, c, p, i);
    var r := w.records[c.entity].record;
    PushWritesPage(codec, w, c, i);
    WrittenPageEchoes(link, r, PageBefore(codec, w, c));
    UnchangedAtRest(r.vals);
  }

  /** A successful push leaves its payload on the page the ledger links, over what that held. */
  lemma {:induction false} PushWritesPage<R(!new), P, M, F>(
      codec: Codec<R, P, M, F>, w: World<R, P, M>, c: PushCall, i: nat)
    requires Inv(codec.toExternal, w) && Enabled(w, PushEvent(c))
    requires Push(codec, w, c).1 == Overwrote || Push(codec, w, c).1 == Created
    requires FindByInternal(Push(codec, w, c).0.rows, c.entity) == Some(i) && i < |Push(codec, w, c).0.rows|
    ensures var w1 := Push(codec, w, c).0;
            && c.entity in w.records && codec.toExternal(w.records[c.entity].record).Some?
            && w1.rows[i].externalId in w1.pages
            && w1.pages[w1.rows[i].externalId].props
               == codec.write(PageBefore(codec, w, c), codec.toExternal(w.records[c.entity].record).value)
  {
    hide Push;
    SuccessIsSettled(codec, w, c);
    var w1 := Push(codec, w, c).0;
    var found := FindByInternal(w.rows, c.entity);
    if found.Some? {
      FindSame(w.rows, w1.rows, c.entity);
    } else {
      FindAppended(w.rows, w1.rows[|w.rows|], c.entity);
    }
  }

  // ---------------------------------------------------------------- the echo, exactly

  /** The echo restores the record exactly, with one entry a field: in every run, when a record of
      any type is pushed and that push is pulled back, the record is what it was if and only if no
      entry rewrites a field of it or revives one it lacks from what the page held before. */
  lemma {:induction false} EchoRestoresExactly(
      link: Link, evs: seq<Event<Record, Properties>>, c: PushCall, p: PullCall, i: nat)
    requires ProperLink(link) && Legal(NotionCodec(link), Empty(), evs)
    requires Enabled(Run(NotionCodec(link), Empty(), evs), PushEvent(c))
    requires var w := Run(NotionCodec(link), Empty(), evs);
             var (w1, pushed) := Push(NotionCodec(link), w, c);
             && (pushed == Overwrote || pushed == Created)
             && FindByInternal(w1.rows, c.entity) == Some(i)
             && Compares(w1, p, i) && p.stamped && p.applyOk
    requires var w := Run(NotionCodec(link), Empty(), evs);
             c.entity in w.records ==>
               var r := w.records[c.entity].record;
               Typed(link, r) && NotionEcho.DistinctInternals(link.entries(r.kind))
    ensures var w := Run(NotionCodec(link), Empty(), evs);
            var w2 := Pull(NotionCodec(link), Push(NotionCodec(link), w, c).0, p).0;
            && c.entity in w.records && c.entity in w2.records
            && (w2.records[c.entity].record == w.records[c.entity].record <==>
                !Disturbed(link, w.records[c.entity].record, PageBefore(NotionCodec(link), w, c)))
  {
    Reachable(NotionCodec(link), evs);
    RestoredAfterPush(link, Run(NotionCodec(link), Empty(), evs), c, p, i);
  }

  lemma {:induction false} RestoredAfterPush(
      link: Link, w: World<Record, Properties, Properties>, c: PushCall, p: PullCall, i: nat)
    requires ProperLink(link) && Inv(NotionCodec(link).toExternal, w) && Enabled(w, PushEvent(c))
    requires var (w1, pushed) := Push(NotionCodec(link), w, c);
             && (pushed == Overwrote || pushed == Created)
             && FindByInternal(w1.rows, c.entity) == Some(i)
             && Compares(w1, p, i) && p.stamped && p.applyOk
    requires c.entity in w.records ==>
               var r := w.records[c.entity].record;
               Typed(link, r) && NotionEcho.DistinctInternals(link.entries(r.kind))
    ensures var w2 := Pull(NotionCodec(link), Push(NotionCodec(link), w, c).0, p).0;
            && c.entity in w.records && c.entity in w2.records
            && (w2.records[c.entity].record == w.records[c.entity].record <==>
                !Disturbed(link, w.records[c.entity].record, PageBefore(NotionCodec(link), w, c)))
  {
    hide Push, Pull, ProperLink, Typed, Inv, Enabled, Outgoing, Incoming, Delivered, Disturbed, PageBefore;
    hide NotionEcho.DistinctInternals;
    var codec := NotionCodec(link);
    PushLinks(codec, w, c, i);
    PushThenPullConverges(codec, w, c, p, i);
    var r := w.records[c.entity].record;
    PushWritesPage(codec, w, c, i);
    WrittenPageRestoresExactly(link, r, PageBefore(codec, w, c));
    TakeNothing(r.vals, NotionMapping.IntakesOf(r.kind));
  }

  // ---------------------------------------------------------------- a clear that comes back

  /** The user saves a record with a field, and after the push saves it without: the second push
      carries no trace of the clear, and its echo fills the field again. */
  lemma {:induction false} ClearComesBack(link: Link, e: EntityRef, r: Record, r': Record, i: nat)
    requires ProperLink(link) && Typed(link, r) && r.kind == r'.kind
    requires NotionEcho.DistinctInternals(link.entries(r.kind)) && i < |link.entries(r.kind)|
    requires Outgoing(link, r).Some? && Outgoing(link, r').Some?
    requires var entry := link.entries(r.kind)[i];
             var slot := NotionEcho.SlotIn(NotionMapping.IntakesOf(r.kind), entry.internal);
             && entry.internal in r.vals && entry.internal !in r'.vals && slot.Some?
             && NotionMapping.Accepted(slot.value, Echo(link.rt, entry.kind, r.vals[entry.internal])).Some?
    ensures var entry := link.entries(r.kind)[i];
            var slot := NotionEcho.SlotIn(NotionMapping.IntakesOf(r.kind), entry.internal);
            var evs := [UserEdit(e, r, 1), PushEvent(SyncGuard.PushAt(e, 2, 10, "p"))]
                       + [UserEdit(e, r', 3), PushEvent(SyncGuard.PushAt(e, 4, 20, "q")),
                          PullEvent(SyncGuard.PullAt("p", 5, 6))];
            var w := Run(NotionCodec(link), Empty(), evs);
            && Legal(NotionCodec(link), Empty(), evs)
            && entry.external !in Outgoing(link, r').value
            && (exists k :: SyncGuard.LastEditIs(w.journal, e, r', k))
            && e in w.records
            && NotionMapping.At(w.records[e].record.vals, entry.internal)
               == NotionMapping.Accepted(slot.value, Echo(link.rt, entry.kind, r.vals[entry.internal]))
  {
    var codec, entries := NotionCodec(link), link.entries(r.kind);
    var held := codec.write(codec.blank, Outgoing(link, r).value);
    var raw := codec.write(held, Outgoing(link, r').value);
    var fields := Incoming(link, r', raw);
    assert ProperMapping(link, entries);
    PageAnswers(link, r, i);
    ClearIsNotSent(link, r', held, i);
    RevivedFields(link, r', raw, i);
    hide NotionMapping.IntakesOf, NotionMapping.Accepted, NotionEcho.ReadBack, Echo, Run, Legal, ProperLink, ProperMapping;
    SyncGuard.SavedTwiceAndPulled(codec, e, r, r', fields);
  }

  /** A mapping of a company's domain alone, over a provider that returns what it is sent. */
  function DomainLink(): Link {
    Link(Runtime(_ => "", _ => None),
         kind => if kind == NotionMapping.Company
           then [NotionMapping.MapEntry(NotionMapping.Domain, "Domain", Url, NotionMapping.Both)] else [],
         (ext, json) => json)
  }

  function Acme(domain: Option<string>): Record {
    Record(NotionMapping.Company,
           if domain.None? then map[NotionMapping.Name := Text("Acme")]
           else map[NotionMapping.Name := Text("Acme"), NotionMapping.Domain := Text(domain.value)])
  }

  lemma {:induction false} DomainLinkIsProper()
    ensures ProperLink(DomainLink())
    ensures forall kind :: NotionEcho.DistinctInternals(DomainLink().entries(kind))
  {
    var link := DomainLink();
    forall kind ensures ProperMapping(link, link.entries(kind)) {
    }
  }

  /** A mapping of supported property types always has a payload. */
  lemma {:induction false} SupportedIsSent(rt: Runtime, entries: seq<NotionMapping.MapEntry>, fields: Columns)
    requires forall i :: 0 <= i < |entries| ==> !entries[i].kind.Unsupported?
    ensures NotionMapping.Outbound(rt, entries, fields).Some?
  {
    if entries != [] {
      SupportedIsSent(rt, entries[..|entries| - 1], fields);
    }
  }

  lemma {:induction false} CompanySlots()
    ensures var intakes := NotionMapping.IntakesOf(NotionMapping.Company);
            && NotionEcho.SlotIn(intakes, NotionMapping.Name) == Some(NotionMapping.Required)
            && NotionEcho.SlotIn(intakes, NotionMapping.Domain) == Some(NotionMapping.Optional)
  {
  }

  lemma {:induction false} AcmeIsSent(domain: Option<string>)
    ensures Typed(DomainLink(), Acme(domain)) && Outgoing(DomainLink(), Acme(domain)).Some?
  {
    CompanySlots();
    hide NotionMapping.IntakesOf, NotionEcho.SlotIn, NotionMapping.Extracted;
    var entries := DomainLink().entries(NotionMapping.Company);
    NotionEcho.EveryEntryApplies(entries, NotionMapping.OnlyOut);
    SupportedIsSent(DomainLink().rt, entries, NotionMapping.Extracted(NotionMapping.Company, Acme(domain).vals));
  }

  /** A company's domain, saved, pushed and cleared: the second push and its echo bring it back. */
  lemma {:induction false} ClearedDomainComesBack(e: EntityRef, domain: string)
    requires domain != ""
    ensures var evs := [UserEdit(e, Acme(Some(domain)), 1), PushEvent(SyncGuard.PushAt(e, 2, 10, "p"))]
                       + [UserEdit(e, Acme(None), 3), PushEvent(SyncGuard.PushAt(e, 4, 20, "q")),
                          PullEvent(SyncGuard.PullAt("p", 5, 6))];
            var w := Run(NotionCodec(DomainLink()), Empty(), evs);
            && Legal(NotionCodec(DomainLink()), Empty(), evs)
            && e in w.records && NotionMapping.Domain !in Acme(None).vals
            && NotionMapping.At(w.records[e].record.vals, NotionMapping.Domain) == Some(Text(domain))
  {
    DomainLinkIsProper();
    AcmeIsSent(Some(domain));
    AcmeIsSent(None);
    CompanySlots();
    hide ProperLink, Typed, Outgoing, Run, Legal, NotionEcho.SlotIn, NotionMapping.IntakesOf;
    ClearComesBack(DomainLink(), e, Acme(Some(domain)), Acme(None), 0);
  }

  /** An entry of a page that was just written reads the echo of its field. */
  lemma {:induction false} PageAnswers(link: Link, r: Record, i: nat)
    requires ProperLink(link) && Typed(link, r) && Outgoing(link, r).Some?
    requires i < |link.entries(r.kind)| && link.entries(r.kind)[i].internal in r.vals
    requires NotionEcho.SlotIn(NotionMapping.IntakesOf(r.kind), link.entries(r.kind)[i].internal).Some?
    ensures var entry := link.entries(r.kind)[i];
            NotionEcho.ReadBack(entry, map[] + Delivered(link, Outgoing(link, r).value))
            == Echo(link.rt, entry.kind, r.vals[entry.internal])
  {
    var entries, raw := link.entries(r.kind), map[] + Delivered(link, Outgoing(link, r).value);
    assert ProperMapping(link, entries);
    WrittenPageCarries(link, r, map[]);
    NotionEcho.EveryEntryApplies(entries, NotionMapping.OnlyOut);
    NotionEcho.ExtractedValues(r.kind, r.vals);
    var sent := NotionMapping.Extracted(r.kind, r.vals);
    NotionEcho.EveryEntryEchoes(link.rt, entries, sent, raw);
    assert NotionEcho.Echoes(link.rt, entries[i], sent, raw);
  }

  /** A revived field is among what comes in, and is applied. */
  lemma {:induction false} RevivedFields(link: Link, r: Record, raw: Properties, i: nat)
    requires ProperMapping(link, link.entries(r.kind)) && NotionEcho.DistinctInternals(link.entries(r.kind))
    requires i < |link.entries(r.kind)| && NotionEcho.Revives(r.kind, link.entries(r.kind)[i], r.vals, raw)
    ensures var f := link.entries(r.kind)[i].internal;
            && Incoming(link, r, raw) != map[]
            && NotionMapping.At(NotionCodec(link).apply(r, Incoming(link, r, raw)).vals, f)
               == NotionMapping.Accepted(NotionEcho.SlotIn(NotionMapping.IntakesOf(r.kind), f).value,
                                         NotionEcho.ReadBack(link.entries(r.kind)[i], raw))
  {
    NotionEcho.RevivedComesBack(r.kind, link.entries(r.kind), r.vals, raw, i);
    hide NotionMapping.IntakesOf, NotionMapping.Accepted, NotionEcho.ReadBack;
    TakeNothing(r.vals, NotionMapping.IntakesOf(r.kind));
  }
}
