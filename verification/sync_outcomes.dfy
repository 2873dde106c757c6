/**
 What each outcome of a push and of a pull leaves behind: the page, the record, the ledger row and
 the history entry, case by case. Together the cases are all there are.
 */
module SyncOutcomes {
  import opened Wrappers
  import opened SyncWorld
  import opened SyncSafety
  import opened SyncTheorems
  import opened SyncGuard

  /** The same pages, and all but this one as they were. */
  ghost predicate OnlyPage<P>(pages: map<string, Page<P>>, pages': map<string, Page<P>>, id: string) {
    pages'.Keys == pages.Keys && forall other :: other in pages && other != id ==> pages'[other] == pages[other]
  }

  /** The same rows, and all but this one as they were. */
  ghost predicate OnlyRow(rows: seq<Row>, rows': seq<Row>, i: nat) {
    |rows'| == |rows| && forall k :: 0 <= k < |rows| && k != i ==> rows'[k] == rows[k]
  }

  /** A completed sync of this side: one version more, in agreement, without an error. */
  predicate Completes(row: Row, row': Row, source: Side, at: Time) {
    && row'.entity == row.entity && row'.externalId == row.externalId && row'.source == source
    && row'.syncState == Synced && row'.version == row.version + 1 && !row'.hasError
    && row'.lastSyncedAt == Some(at)
  }

  /** A failure: the row says so, and is otherwise as it was. */
  predicate SaysFailed(row: Row, row': Row) {
    row'.syncState == Errored && row'.hasError
    && row' == row.(syncState := row'.syncState, hasError := row'.hasError)
  }

  /** A conflict: the row says so, and counts no sync. */
  predicate SaysConflict(row: Row, row': Row) {
    && row'.syncState == Conflict && row'.conflictState == BothChanged
    && row'.entity == row.entity && row'.externalId == row.externalId && row'.source == row.source
    && row'.version == row.version && row'.lastSyncedAt == row.lastSyncedAt && row'.hasError == row.hasError
  }

  /** The push finds an integration, the ledger and what it needs of the record. */
  predicate Starts(c: PushCall) {
    c.setup.Ready? && c.lookupOk && (c.isDelete || c.loadOk)
  }

  /** The record is to be archived: it was deleted, or is gone by the time it is loaded. */
  predicate Gone<R, P, M>(w: World<R, P, M>, c: PushCall) {
    c.isDelete || c.entity !in w.records
  }

  // ---------------------------------------------------------------- pushes

  /** A push that cannot start, or whose record cannot be translated, changes nothing. */
  lemma {:induction false} PushStops<R(!new), P, M, F>(codec: Codec<R, P, M, F>, w: World<R, P, M>, c: PushCall)
    requires !Starts(c) || (!Gone(w, c) && codec.toExternal(w.records[c.entity].record).None?)
    ensures Push(codec, w, c) == (w.(clock := c.at), if c.setup.Inactive? then Ignored else Error)
  {
  }

  /** The delete of a record that no row links is ignored. */
  lemma {:induction false} UnlinkedDeleteIsIgnored<R(!new), P, M, F>(
      codec: Codec<R, P, M, F>, w: World<R, P, M>, c: PushCall)
    requires Starts(c) && Gone(w, c) && forall i :: 0 <= i < |w.rows| ==> w.rows[i].entity != c.entity
    ensures Push(codec, w, c) == (w.(clock := c.at), Ignored)
  {
  }

  /** A delivered delete archives the linked page, content and all other pages untouched, and
      completes a sync of the row, unless the ledger write is lost. */
  lemma {:induction false} DeleteArchives<R(!new), P, M, F>(
      codec: Codec<R, P, M, F>, w: World<R, P, M>, c: PushCall, i: nat)
    requires Inv(codec.toExternal, w) && Starts(c) && Gone(w, c)
    requires i < |w.rows| && w.rows[i].entity == c.entity && c.answer.Delivered?
    ensures var (w', outcome) := Push(codec, w, c);
            var id := w.rows[i].externalId;
            && outcome == Archived && w'.records == w.records && w'.deleted == w.deleted
            && id in w.pages && OnlyPage(w.pages, w'.pages, id)
            && w'.pages[id] == Page(w.pages[id].props, c.remoteAt, true)
            && OnlyRow(w.rows, w'.rows, i)
            && (if c.ledgerOk
                then Completes(w.rows[i], w'.rows[i], Timeless, c.at) && w'.rows[i].lastModifiedLocal == Some(c.at)
                     && w'.rows[i].lastModifiedRemote == w.rows[i].lastModifiedRemote
                     && w'.rows[i].conflictState == w.rows[i].conflictState
                else w'.rows == w.rows)
            && w'.journal == w.journal + [Pushed(c.entity, None, c.ledgerOk, c.historyOk)]
  {
    FindsTheRow(w, i);
  }

  /** A delete whose answer is lost fails; the page may have been archived all the same. */
  lemma {:induction false} LostDeleteFails<R(!new), P, M, F>(
      codec: Codec<R, P, M, F>, w: World<R, P, M>, c: PushCall, i: nat)
    requires Inv(codec.toExternal, w) && Starts(c) && Gone(w, c)
    requires i < |w.rows| && w.rows[i].entity == c.entity && c.answer.Lost?
    ensures var (w', outcome) := Push(codec, w, c);
            var id := w.rows[i].externalId;
            && outcome == Error && w'.records == w.records && w'.deleted == w.deleted
            && id in w.pages && OnlyPage(w.pages, w'.pages, id)
            && w'.pages[id] == (if c.answer.applied then Page(w.pages[id].props, c.remoteAt, true) else w.pages[id])
            && OnlyRow(w.rows, w'.rows, i)
            && (if c.ledgerOk then SaysFailed(w.rows[i], w'.rows[i]) else w'.rows == w.rows)
            && w'.journal == w.journal + [Failed(c.entity, c.historyOk)]
  {
    FindsTheRow(w, i);
  }

  /** The page was edited after the version the row last observed, and its timestamp can be read. */
  predicate Due<R, P, M>(w: World<R, P, M>, c: PushCall, i: nat)
    requires i < |w.rows|
  {
    var row := w.rows[i];
    && c.stamped && row.lastModifiedRemote.Some? && row.externalId in w.pages
    && w.pages[row.externalId].editedAt > row.lastModifiedRemote.value
  }

  /** The push of a linked, loaded and translated record. */
  ghost predicate PushesLinked<R(!new), P, M, F>(codec: Codec<R, P, M, F>, w: World<R, P, M>, c: PushCall, i: nat, m: M) {
    && Inv(codec.toExternal, w) && Starts(c) && !Gone(w, c)
    && i < |w.rows| && w.rows[i].entity == c.entity && codec.toExternal(w.records[c.entity].record) == Some(m)
  }

  /** A push that is due to be refused leaves every page as it is, and the row in conflict. */
  lemma {:induction false} DuePushIsRefused<R(!new), P, M, F>(
      codec: Codec<R, P, M, F>, w: World<R, P, M>, c: PushCall, i: nat, m: M)
    requires PushesLinked(codec, w, c, i, m) && Due(w, c, i)
    ensures var (w', outcome) := Push(codec, w, c);
            && w'.pages == w.pages && w'.records == w.records && w'.deleted == w.deleted
            && OnlyRow(w.rows, w'.rows, i)
            && (if c.ledgerOk
                then outcome == ConflictRaised && SaysConflict(w.rows[i], w'.rows[i])
                     && w'.rows[i].lastModifiedLocal == Some(c.at)
                     && w'.rows[i].lastModifiedRemote == w.rows[i].lastModifiedRemote
                     && w'.journal == w.journal + [Conflicted(c.entity, None, false, c.historyOk)]
                else outcome == Error && w'.rows == w.rows && w'.journal == w.journal)
  {
    FindsTheRow(w, i);
  }

  /** Otherwise a delivered push writes the payload over the linked page and no other, and settles
      the row, unless the ledger write is lost. */
  lemma {:induction false} PushOverwrites<R(!new), P, M, F>(
      codec: Codec<R, P, M, F>, w: World<R, P, M>, c: PushCall, i: nat, m: M)
    requires PushesLinked(codec, w, c, i, m) && !Due(w, c, i) && c.answer.Delivered?
    ensures var (w', outcome) := Push(codec, w, c);
            var id := w.rows[i].externalId;
            && w'.records == w.records && w'.deleted == w.deleted
            && id in w.pages && OnlyPage(w.pages, w'.pages, id)
            && w'.pages[id] == Page(codec.write(w.pages[id].props, m), c.remoteAt, w.pages[id].archived)
            && OnlyRow(w.rows, w'.rows, i)
            && (if c.ledgerOk
                then outcome == Overwrote
                     && Completes(w.rows[i], w'.rows[i], Timeless, c.at) && w'.rows[i].lastModifiedLocal == Some(c.at)
                     && w'.rows[i].lastModifiedRemote == w.rows[i].lastModifiedRemote && w'.rows[i].conflictState == Settled
                     && w'.journal == w.journal + [Pushed(c.entity, Some(m), true, c.historyOk)]
                else outcome == Error && w'.rows == w.rows && w'.journal == w.journal)
  {
    FindsTheRow(w, i);
  }

  /** ... and a push whose answer is lost fails, whether or not the page was written. */
  lemma {:induction false} LostPushFails<R(!new), P, M, F>(
      codec: Codec<R, P, M, F>, w: World<R, P, M>, c: PushCall, i: nat, m: M)
    requires PushesLinked(codec, w, c, i, m) && !Due(w, c, i) && c.answer.Lost?
    ensures var (w', outcome) := Push(codec, w, c);
            var id := w.rows[i].externalId;
            && outcome == Error && w'.records == w.records && w'.deleted == w.deleted
            && id in w.pages && OnlyPage(w.pages, w'.pages, id)
            && w'.pages[id] == (if c.answer.applied
                                then Page(codec.write(w.pages[id].props, m), c.remoteAt, w.pages[id].archived)
                                else w.pages[id])
            && OnlyRow(w.rows, w'.rows, i)
            && (if c.ledgerOk then SaysFailed(w.rows[i], w'.rows[i]) else w'.rows == w.rows)
            && w'.journal == w.journal + [Failed(c.entity, c.historyOk)]
  {
    FindsTheRow(w, i);
  }

  /** The first push of a record: a page holding its payload, and a row at version 1 that links it,
      if the id comes back and the ledger write goes through. */
  lemma {:induction false} FirstPushCreates<R(!new), P, M, F>(
      codec: Codec<R, P, M, F>, w: World<R, P, M>, c: PushCall, m: M)
    requires Starts(c) && !Gone(w, c) && codec.toExternal(w.records[c.entity].record) == Some(m)
    requires forall i :: 0 <= i < |w.rows| ==> w.rows[i].entity != c.entity
    ensures var (w', outcome) := Push(codec, w, c);
            && w'.records == w.records && w'.deleted == w.deleted
            && (if c.newId != "" && (c.answer.Delivered? || c.answer.applied)
                then w'.pages == w.pages[c.newId := Page(codec.write(codec.blank, m), c.remoteAt, false)]
                else w'.pages == w.pages)
            && (if c.newId != "" && c.answer.Delivered? && c.ledgerOk
                then outcome == Created
                     && w'.rows == w.rows + [Row(c.entity, c.newId, Synced, Settled, 1, Timeless, Some(c.at), None, Some(c.at), false)]
                     && w'.journal == w.journal + [Pushed(c.entity, Some(m), true, c.historyOk)]
                else outcome == Error && w'.rows == w.rows && w'.journal == w.journal)
  {
  }

  // ---------------------------------------------------------------- pulls

  /** The pull of a page that a row links, once the integration is found. */
  ghost predicate PullsLinked<R(!new), P, M, F>(codec: Codec<R, P, M, F>, w: World<R, P, M>, c: PullCall, i: nat) {
    Inv(codec.toExternal, w) && c.lookupOk && c.setup.Ready? && i < |w.rows| && w.rows[i].externalId == c.page
  }

  /** A pull that cannot start changes nothing; of a page that no row links, it is ignored. */
  lemma {:induction false} PullStops<R(!new), P, M, F>(codec: Codec<R, P, M, F>, w: World<R, P, M>, c: PullCall)
    requires !c.lookupOk || !c.setup.Ready? || forall i :: 0 <= i < |w.rows| ==> w.rows[i].externalId != c.page
    ensures Pull(codec, w, c) ==
            (w.(clock := c.at),
             if !c.lookupOk then Error
             else if c.setup.Broken? && exists i :: 0 <= i < |w.rows| && w.rows[i].externalId == c.page then Error
             else Ignored)
  {
  }

  /** A pull that fetches nothing, or cannot save what it fetched, fails and says so on the row. */
  lemma {:induction false} FailedPullIsRecorded<R(!new), P, M, F>(
      codec: Codec<R, P, M, F>, w: World<R, P, M>, c: PullCall, i: nat)
    requires PullsLinked(codec, w, c, i)
    requires !c.fetchOk || (c.loadOk && !c.applyOk && Takes(codec, w, c, i))
    ensures var (w', outcome) := Pull(codec, w, c);
            && outcome == Error && w'.records == w.records && w'.deleted == w.deleted && w'.pages == w.pages
            && OnlyRow(w.rows, w'.rows, i)
            && (if c.ledgerOk then SaysFailed(w.rows[i], w'.rows[i]) else w'.rows == w.rows)
            && w'.journal == w.journal + [Failed(w.rows[i].entity, c.historyOk)]
  {
    VersionIsObserved(codec.toExternal, w, i);
  }

  /** The record was saved after the row's last sync. */
  predicate SavedSince<R, P, M>(w: World<R, P, M>, i: nat)
    requires i < |w.rows| && w.rows[i].entity in w.records
  {
    var row := w.rows[i];
    row.lastSyncedAt.Some? && w.records[row.entity].updatedAt > row.lastSyncedAt.value
  }

  /** There are fields to take, into a record that was not saved since. */
  predicate Takes<R, P, M, F>(codec: Codec<R, P, M, F>, w: World<R, P, M>, c: PullCall, i: nat)
    requires i < |w.rows|
  {
    && w.rows[i].entity in w.records && c.page in w.pages && !SavedSince(w, i)
    && codec.fromExternal(w.records[w.rows[i].entity].record, w.pages[c.page].props).Some?
    && !codec.isEmpty(codec.fromExternal(w.records[w.rows[i].entity].record, w.pages[c.page].props).value)
  }

  /** A fetched page changes nothing when its record cannot be loaded or is gone, or when nothing
      of the page translates into a field. */
  lemma {:induction false} PullTakesNothing<R(!new), P, M, F>(
      codec: Codec<R, P, M, F>, w: World<R, P, M>, c: PullCall, i: nat)
    requires PullsLinked(codec, w, c, i) && c.fetchOk
    requires !c.loadOk || w.rows[i].entity !in w.records || (!SavedSince(w, i) && !Takes(codec, w, c, i))
    ensures Pull(codec, w, c) ==
            (w.(clock := c.at),
             if c.loadOk && (w.rows[i].entity !in w.records
                             || codec.fromExternal(w.records[w.rows[i].entity].record, w.pages[c.page].props).Some?)
             then Ignored else Error)
  {
    VersionIsObserved(codec.toExternal, w, i);
  }

  /** A pull of a record saved since its last sync touches neither side: the row is in conflict, and
      has observed the fetched version. */
  lemma {:induction false} PullOfSavedRecordConflicts<R(!new), P, M, F>(
      codec: Codec<R, P, M, F>, w: World<R, P, M>, c: PullCall, i: nat)
    requires PullsLinked(codec, w, c, i) && c.fetchOk && c.loadOk
    requires w.rows[i].entity in w.records && SavedSince(w, i)
    ensures var (w', outcome) := Pull(codec, w, c);
            var version := if c.stamped then Some(w.pages[c.page].editedAt) else None;
            && w'.records == w.records && w'.deleted == w.deleted && w'.pages == w.pages
            && OnlyRow(w.rows, w'.rows, i)
            && (if c.ledgerOk
                then outcome == ConflictRaised && SaysConflict(w.rows[i], w'.rows[i])
                     && w'.rows[i].lastModifiedRemote == version
                     && w'.rows[i].lastModifiedLocal == w.rows[i].lastModifiedLocal
                     && w'.journal == w.journal + [Conflicted(w.rows[i].entity, version, true, c.historyOk)]
                else outcome == Error && w'.rows == w.rows && w'.journal == w.journal)
  {
    VersionIsObserved(codec.toExternal, w, i);
  }

  /** Otherwise the record takes the fields of the page, no other record changes, and the row has
      observed the version and is in agreement, unless the ledger write is lost. */
  lemma {:induction false} PullTakesFields<R(!new), P, M, F>(
      codec: Codec<R, P, M, F>, w: World<R, P, M>, c: PullCall, i: nat)
    requires PullsLinked(codec, w, c, i) && c.fetchOk && c.loadOk && c.applyOk && Takes(codec, w, c, i)
    ensures var (w', outcome) := Pull(codec, w, c);
            var e, version := w.rows[i].entity, if c.stamped then Some(w.pages[c.page].editedAt) else None;
            var fields := codec.fromExternal(w.records[e].record, w.pages[c.page].props).value;
            && w'.deleted == w.deleted && w'.pages == w.pages
            && w'.records == w.records[e := Local(codec.apply(w.records[e].record, fields), c.savedAt)]
            && OnlyRow(w.rows, w'.rows, i)
            && (if c.ledgerOk
                then outcome == Applied
                     && Completes(w.rows[i], w'.rows[i], External, c.at) && w'.rows[i].conflictState == Settled
                     && w'.rows[i].lastModifiedRemote == version
                     && w'.rows[i].lastModifiedLocal == w.rows[i].lastModifiedLocal
                     && w'.journal == w.journal + [Pulled(e, version, true, c.historyOk)]
                else outcome == Error && w'.rows == w.rows && w'.journal == w.journal + [Pulled(e, version, false, false)])
  {
    VersionIsObserved(codec.toExternal, w, i);
  }
}
