/**
 The two-way sync ledger, as a state machine.

 One World holds the organization's records, the external pages, the ledger rows that link
 them and a journal. The journal is the append-only sync history, with the users' own edits
 interleaved, and with the writes the database lost. Push and Pull are the two handlers of the
 sync engine, each taken as one atomic step; everything that can go wrong outside the handler
 (a failed read, a lost response, a lost ledger write) is an argument of the step.
 */
module SyncWorld {
  import opened Wrappers

  type Time = nat

  /** One internal record: its entity type ("company", "contact", "sponsor") and its id. */
  datatype EntityRef = EntityRef(kind: string, id: string)

  /** What the ledger needs from the mapping engine and the provider's adapter. */
  datatype Codec<!R, !P, !M, !F> = Codec(
    toExternal: R -> Option<M>,
    write: (P, M) -> P,
    blank: P,
    fromExternal: (R, P) -> Option<F>,     // by the mapping of the record's type
    isEmpty: F -> bool,
    apply: (R, F) -> R)

  datatype Local<R> = Local(record: R, updatedAt: Time)

  datatype Page<P> = Page(props: P, editedAt: Time, archived: bool)

  datatype SyncState = Synced | Conflict | Errored

  datatype ConflictState = Settled | BothChanged

  datatype Side = Timeless | External

  datatype Row = Row(
    entity: EntityRef,
    externalId: string,
    syncState: SyncState,
    conflictState: ConflictState,
    version: nat,
    source: Side,
    lastModifiedLocal: Option<Time>,
    lastModifiedRemote: Option<Time>,
    lastSyncedAt: Option<Time>,
    hasError: bool)

  /** saved: the ledger row was written with it; recorded: the history row was written. */
  datatype Entry<R, M> =
    | Edited(entity: EntityRef, record: R)
    | Pushed(entity: EntityRef, payload: Option<M>, saved: bool, recorded: bool)
    | Pulled(entity: EntityRef, version: Option<Time>, saved: bool, recorded: bool)
    | Conflicted(entity: EntityRef, version: Option<Time>, byPull: bool, recorded: bool)
    | Failed(entity: EntityRef, recorded: bool)

  datatype World<R, P, M> = World(
    clock: Time,
    records: map<EntityRef, Local<R>>,
    deleted: set<EntityRef>,
    pages: map<string, Page<P>>,
    rows: seq<Row>,
    journal: seq<Entry<R, M>>)

  /** The provider's answer to a write. A lost answer is an error to the caller, whether or not
      the provider carried the write out. */
  datatype Answer = Delivered | Lost(applied: bool)

  /** What the handler finds before it starts: no active integration with a known adapter, an
      error (the integration cannot be loaded, its credentials not be read), or all it needs. */
  datatype Setup = Inactive | Broken | Ready

  datatype PushCall = PushCall(
    entity: EntityRef,
    isDelete: bool,
    setup: Setup,
    lookupOk: bool,    // the ledger can be searched
    loadOk: bool,      // the record can be loaded
    at: Time,
    remoteAt: Time,    // the provider's timestamp for a write it carries out
    answer: Answer,
    newId: string,     // the id the provider returns for a created page, "" if it returns none
    stamped: bool,     // the page read back before an update carries last_edited_time
    ledgerOk: bool,
    historyOk: bool)

  datatype PullCall = PullCall(
    page: string,
    lookupOk: bool,
    setup: Setup,
    fetchOk: bool,
    stamped: bool,     // the fetched page carries a parsable last_edited_time
    loadOk: bool,
    applyOk: bool,
    savedAt: Time,     // UpdatedAt written when the pulled fields are saved
    at: Time,
    ledgerOk: bool,
    historyOk: bool)

  datatype Outcome = Ignored | Created | Overwrote | Archived | Applied | ConflictRaised | Error

  // ---------------------------------------------------------------- ledger lookups

  /** First row of the table linking the record, as FindByInternal reads it. */
  function FindByInternal(rows: seq<Row>, e: EntityRef): (r: Option<nat>)
    ensures r.Some? ==> r.value < |rows| && rows[r.value].entity == e
    ensures r.None? ==> forall i :: 0 <= i < |rows| ==> rows[i].entity != e
  {
    if rows == [] then None
    else if rows[0].entity == e then Some(0)
    else
      match FindByInternal(rows[1..], e)
      case None => None
      case Some(i) => Some(i + 1)
  }

  /** First row of the table holding the external id, as FindByExternal reads it. */
  function FindByExternal(rows: seq<Row>, id: string): (r: Option<nat>)
    ensures r.Some? ==> r.value < |rows| && rows[r.value].externalId == id
    ensures r.None? ==> forall i :: 0 <= i < |rows| ==> rows[i].externalId != id
  {
    if rows == [] then None
    else if rows[0].externalId == id then Some(0)
    else
      match FindByExternal(rows[1..], id)
      case None => None
      case Some(i) => Some(i + 1)
  }

  // ---------------------------------------------------------------- the outbound step

  function Reached(answer: Answer): bool {
    answer.Delivered? || answer.applied
  }

  /** SyncState "error" and LastError, written unless the ledger write is lost, and logged. */
  function SaveFailure<R, P, M>(w: World<R, P, M>, i: nat, ledgerOk: bool, historyOk: bool): World<R, P, M>
    requires i < |w.rows|
  {
    w.(rows := if ledgerOk then w.rows[i := w.rows[i].(syncState := Errored, hasError := true)] else w.rows,
       journal := w.journal + [Failed(w.rows[i].entity, historyOk)])
  }

  function Archive<R, P, M>(w: World<R, P, M>, c: PushCall): (World<R, P, M>, Outcome) {
    match FindByInternal(w.rows, c.entity)
    case None => (w, Ignored)
    case Some(i) =>
      var row := w.rows[i];
      if row.externalId == "" then (w, Ignored)
      else
        var pages :=
          if Reached(c.answer) && row.externalId in w.pages
          then w.pages[row.externalId := w.pages[row.externalId].(archived := true, editedAt := c.remoteAt)]
          else w.pages;
        if c.answer.Lost? then
          (SaveFailure(w.(pages := pages), i, c.ledgerOk, c.historyOk), Error)
        else
          var row' := row.(syncState := Synced, version := row.version + 1, source := Timeless,
                           lastModifiedLocal := Some(c.at), lastSyncedAt := Some(c.at), hasError := false);
          (w.(pages := pages,
              rows := if c.ledgerOk then w.rows[i := row'] else w.rows,
              journal := w.journal + [Pushed(c.entity, None, c.ledgerOk, c.historyOk)]),
           Archived)
  }

  /** The version guard: the page changed after the version this row last observed. */
  predicate Stale<P>(pages: map<string, Page<P>>, row: Row, stamped: bool) {
    && stamped
    && row.lastModifiedRemote.Some?
    && row.externalId in pages
    && pages[row.externalId].editedAt > row.lastModifiedRemote.value
  }

  /** What the adapter answers a push with: an id, a conflict, or another error. */
  datatype Sent<P> = Sent(pages: map<string, Page<P>>, id: string, conflict: bool, err: bool)

  /** NotionAdapter.Push: without an external id a page is created; otherwise the page is
      overwritten, unless it changed after the expected version. */
  function AdapterPush<R, P, M, F>(
      codec: Codec<R, P, M, F>, pages: map<string, Page<P>>, existing: string, m: M, expected: Option<Time>, c: PushCall)
    : Sent<P>
  {
    if existing == "" then
      var pages' := if Reached(c.answer) && c.newId != ""
                    then pages[c.newId := Page(codec.write(codec.blank, m), c.remoteAt, false)]
                    else pages;
      var err := c.answer.Lost? || c.newId == "";
      Sent(pages', if err then "" else c.newId, false, err)
    else if expected.Some? && c.stamped && existing in pages && pages[existing].editedAt > expected.value then
      Sent(pages, "", true, false)
    else
      var pages' := if Reached(c.answer) && existing in pages
                    then pages[existing := pages[existing].(props := codec.write(pages[existing].props, m),
                                                            editedAt := c.remoteAt)]
                    else pages;
      Sent(pages', if c.answer.Lost? then "" else existing, false, c.answer.Lost?)
  }

  /** The push is refused: the row goes to the conflict queue; a record without a row gets one,
      which links no page. */
  function MarkConflict<R, P, M>(w: World<R, P, M>, found: Option<nat>, c: PushCall): (World<R, P, M>, Outcome)
    requires found.Some? ==> found.value < |w.rows|
  {
    if !c.ledgerOk then (w, Error)
    else
      match found
      case None =>
        (w.(rows := w.rows + [Row(c.entity, "", Conflict, BothChanged, 0, Timeless, Some(c.at), None, None, false)]),
         ConflictRaised)
      case Some(i) =>
        var row' := w.rows[i].(syncState := Conflict, conflictState := BothChanged, lastModifiedLocal := Some(c.at));
        (w.(rows := w.rows[i := row'],
            journal := w.journal + [Conflicted(c.entity, None, false, c.historyOk)]),
         ConflictRaised)
  }

  /** The ledger after the adapter carried the push out. */
  function Settle<R, P, M>(w: World<R, P, M>, found: Option<nat>, id: string, m: M, c: PushCall): (World<R, P, M>, Outcome)
    requires found.Some? ==> found.value < |w.rows|
  {
    if !c.ledgerOk then (w, Error)
    else
      var rows' :=
        match found
        case None => w.rows + [Row(c.entity, id, Synced, Settled, 1, Timeless, Some(c.at), None, Some(c.at), false)]
        case Some(i) =>
          w.rows[i := w.rows[i].(externalId := id, syncState := Synced, conflictState := Settled,
                                 version := w.rows[i].version + 1, source := Timeless,
                                 lastModifiedLocal := Some(c.at), lastSyncedAt := Some(c.at), hasError := false)];
      (w.(rows := rows', journal := w.journal + [Pushed(c.entity, Some(m), true, c.historyOk)]),
       if found.None? || w.rows[found.value].externalId == "" then Created else Overwrote)
  }

  /** The push of a translated record. */
  function Deliver<R, P, M, F>(
      codec: Codec<R, P, M, F>, w: World<R, P, M>, found: Option<nat>, m: M, c: PushCall): (World<R, P, M>, Outcome)
    requires found.Some? ==> found.value < |w.rows|
  {
    var existing := if found.Some? then w.rows[found.value].externalId else "";
    var expected := if found.Some? then w.rows[found.value].lastModifiedRemote else None;
    var sent := AdapterPush(codec, w.pages, existing, m, expected, c);
    var w1 := w.(pages := sent.pages);
    if sent.conflict then MarkConflict(w1, found, c)
    else if sent.err then (if found.Some? then SaveFailure(w1, found.value, c.ledgerOk, c.historyOk) else w1, Error)
    else Settle(w1, found, sent.id, m, c)
  }

  function Push<R, P, M, F>(codec: Codec<R, P, M, F>, w0: World<R, P, M>, c: PushCall): (World<R, P, M>, Outcome) {
    var w := w0.(clock := c.at);
    if c.setup.Inactive? then (w, Ignored)
    else if c.setup.Broken? || !c.lookupOk then (w, Error)
    else if c.isDelete then Archive(w, c)
    else if !c.loadOk then (w, Error)
    else if c.entity !in w.records then Archive(w, c)
    else
      match codec.toExternal(w.records[c.entity].record)
      case None => (w, Error)
      case Some(m) => Deliver(codec, w, FindByInternal(w.rows, c.entity), m, c)
  }

  // ---------------------------------------------------------------- the inbound step

  function RemoteVersion<P>(pages: map<string, Page<P>>, id: string, stamped: bool): Option<Time> {
    if stamped && id in pages then Some(pages[id].editedAt) else None
  }

  /** The local side changed after the two sides last agreed. */
  predicate LocallyChanged<R>(local: Local<R>, row: Row) {
    row.lastSyncedAt.Some? && local.updatedAt > row.lastSyncedAt.value
  }

  /** Both sides changed: the row goes to the conflict queue with the version just fetched. */
  function FlagConflict<R, P, M>(w: World<R, P, M>, c: PullCall, i: nat): (World<R, P, M>, Outcome)
    requires i < |w.rows|
  {
    if !c.ledgerOk then (w, Error)
    else
      var version := RemoteVersion(w.pages, c.page, c.stamped);
      var row' := w.rows[i].(syncState := Conflict, conflictState := BothChanged, lastModifiedRemote := version);
      (w.(rows := w.rows[i := row'],
          journal := w.journal + [Conflicted(w.rows[i].entity, version, true, c.historyOk)]),
       ConflictRaised)
  }

  /** The pulled fields are saved onto the record, then the ledger row is saved. */
  function TakeRemote<R, P, M, F>(
      codec: Codec<R, P, M, F>, w: World<R, P, M>, c: PullCall, i: nat, fields: F): (World<R, P, M>, Outcome)
    requires i < |w.rows| && w.rows[i].entity in w.records
  {
    var e := w.rows[i].entity;
    var version := RemoteVersion(w.pages, c.page, c.stamped);
    var records := w.records[e := Local(codec.apply(w.records[e].record, fields), c.savedAt)];
    if !c.ledgerOk then
      (w.(records := records, journal := w.journal + [Pulled(e, version, false, false)]), Error)
    else
      var row' := w.rows[i].(syncState := Synced, conflictState := Settled, version := w.rows[i].version + 1,
                             source := External, lastModifiedRemote := version, lastSyncedAt := Some(c.at),
                             hasError := false);
      (w.(records := records, rows := w.rows[i := row'],
          journal := w.journal + [Pulled(e, version, true, c.historyOk)]),
       Applied)
  }

  function Reconcile<R, P, M, F>(
      codec: Codec<R, P, M, F>, w: World<R, P, M>, c: PullCall, i: nat): (World<R, P, M>, Outcome)
    requires i < |w.rows| && w.rows[i].entity in w.records && c.page in w.pages
  {
    if LocallyChanged(w.records[w.rows[i].entity], w.rows[i]) then FlagConflict(w, c, i)
    else
      match codec.fromExternal(w.records[w.rows[i].entity].record, w.pages[c.page].props)
      case None => (w, Error)
      case Some(fields) =>
        if codec.isEmpty(fields) then (w, Ignored)
        else if !c.applyOk then (SaveFailure(w, i, c.ledgerOk, c.historyOk), Error)
        else TakeRemote(codec, w, c, i, fields)
  }

  function Pull<R, P, M, F>(codec: Codec<R, P, M, F>, w0: World<R, P, M>, c: PullCall): (World<R, P, M>, Outcome) {
    var w := w0.(clock := c.at);
    if !c.lookupOk then (w, Error)
    else
      match FindByExternal(w.rows, c.page)
      case None => (w, Ignored)
      case Some(i) =>
        if c.setup.Inactive? then (w, Ignored)
        else if c.setup.Broken? then (w, Error)
        else if !c.fetchOk || c.page !in w.pages then (SaveFailure(w, i, c.ledgerOk, c.historyOk), Error)
        else if !c.loadOk then (w, Error)
        else if w.rows[i].entity !in w.records then (w, Ignored)
        else Reconcile(codec, w, c, i)
  }

  // ---------------------------------------------------------------- runs

  datatype Event<R, P> =
    | UserEdit(entity: EntityRef, record: R, at: Time)
    | UserDelete(entity: EntityRef, at: Time)
    | RemoteEdit(page: string, props: P, remoteAt: Time)
    | PushEvent(push: PushCall)
    | PullEvent(pull: PullCall)

  function Step<R, P, M, F>(codec: Codec<R, P, M, F>, w: World<R, P, M>, ev: Event<R, P>): World<R, P, M> {
    match ev
    case UserEdit(e, r, at) =>
      w.(clock := at, records := w.records[e := Local(r, at)], journal := w.journal + [Edited(e, r)])
    case UserDelete(e, at) =>
      w.(clock := at, records := w.records - {e}, deleted := w.deleted + {e})
    case RemoteEdit(id, props, remoteAt) =>
      w.(pages := w.pages[id := Page(props, remoteAt, id in w.pages && w.pages[id].archived)])
    case PushEvent(c) => Push(codec, w, c).0
    case PullEvent(c) => Pull(codec, w, c).0
  }

  /** The provider stamps every write to a page later than the page's previous version. */
  predicate RemoteClockAdvances<P>(pages: map<string, Page<P>>, rows: seq<Row>, e: EntityRef, remoteAt: Time) {
    forall i :: 0 <= i < |rows| && rows[i].entity == e && rows[i].externalId in pages ==>
      remoteAt > pages[rows[i].externalId].editedAt
  }

  /** What the environment guarantees: clocks advance, a deleted record never comes back, a
      delete event follows its delete, the provider never hands out an id twice. */
  predicate Enabled<R, P, M>(w: World<R, P, M>, ev: Event<R, P>) {
    match ev
    case UserEdit(e, _, at) => at > w.clock && e !in w.deleted
    case UserDelete(e, at) => at > w.clock && e in w.records
    case RemoteEdit(id, _, remoteAt) => id in w.pages ==> remoteAt > w.pages[id].editedAt
    case PushEvent(c) =>
      && c.at > w.clock
      && (c.isDelete ==> c.entity !in w.records)
      && c.newId !in w.pages
      && RemoteClockAdvances(w.pages, w.rows, c.entity, c.remoteAt)
    case PullEvent(c) => w.clock < c.savedAt <= c.at
  }

  function Run<R, P, M, F>(codec: Codec<R, P, M, F>, w: World<R, P, M>, evs: seq<Event<R, P>>): World<R, P, M>
    decreases |evs|
  {
    if evs == [] then w else Run(codec, Step(codec, w, evs[0]), evs[1..])
  }

  predicate Legal<R, P, M, F>(codec: Codec<R, P, M, F>, w: World<R, P, M>, evs: seq<Event<R, P>>)
    decreases |evs|
  {
    evs == [] || (Enabled(w, evs[0]) && Legal(codec, Step(codec, w, evs[0]), evs[1..]))
  }

  function Empty<R, P, M>(): World<R, P, M> {
    World(0, map[], {}, map[], [], [])
  }
}
