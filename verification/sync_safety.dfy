/**
 What every run of the sync ledger keeps, and what follows from it: no unpushed user edit is
 overwritten by a pull, no unseen remote version is overwritten by a push of a row that has
 observed one, and the ledger table stays well formed.
 */
module SyncSafety {
  import opened Wrappers
  import opened SyncWorld

  // ---------------------------------------------------------------- reading the journal

  /** The record as the user last saved it. */
  ghost function LastEdit<R, M>(journal: seq<Entry<R, M>>, e: EntityRef): Option<R> {
    if journal == [] then None
    else
      var last := journal[|journal| - 1];
      if last.Edited? && last.entity == e then Some(last.record) else LastEdit(journal[..|journal| - 1], e)
  }

  /** Since the user last saved the record, exactly that content was pushed. */
  ghost predicate Carried<R(!new), M>(toExternal: R -> Option<M>, journal: seq<Entry<R, M>>, e: EntityRef) {
    journal != [] &&
    var last, rest := journal[|journal| - 1], journal[..|journal| - 1];
    if last.Edited? && last.entity == e then false
    else
      || (last.Pushed? && last.entity == e && last.payload.Some?
          && LastEdit(rest, e).Some? && toExternal(LastEdit(rest, e).value) == last.payload)
      || Carried(toExternal, rest, e)
  }

  /** Since the last completed sync the user saved the record, or a pull saved it but the
      ledger write recording that pull was lost. */
  ghost predicate Dirty<R, M>(journal: seq<Entry<R, M>>, e: EntityRef) {
    journal != [] &&
    var last, rest := journal[|journal| - 1], journal[..|journal| - 1];
    if last.entity != e then Dirty(rest, e)
    else if last.Edited? || (last.Pulled? && !last.saved) then true
    else if (last.Pushed? || last.Pulled?) && last.saved then false
    else Dirty(rest, e)
  }

  /** A pull fetched this version of the record's page and logged it. */
  ghost predicate Seen<R, M>(journal: seq<Entry<R, M>>, e: EntityRef, version: Time) {
    exists k :: 0 <= k < |journal| && LogsVersion(journal[k], e, version)
  }

  ghost predicate LogsVersion<R, M>(entry: Entry<R, M>, e: EntityRef, version: Time) {
    && entry.entity == e
    && ((entry.Pulled? && entry.saved) || (entry.Conflicted? && entry.byPull))
    && entry.version == Some(version)
  }

  /** Completed syncs whose ledger write went through. */
  ghost function SavedSyncs<R, M>(journal: seq<Entry<R, M>>, e: EntityRef): nat {
    if journal == [] then 0
    else
      var last := journal[|journal| - 1];
      SavedSyncs(journal[..|journal| - 1], e)
      + if last.entity == e && (last.Pushed? || last.Pulled?) && last.saved then 1 else 0
  }

  /** pushed_to_remote and pulled_from_remote rows of the sync history table. */
  ghost function HistorySyncs<R, M>(journal: seq<Entry<R, M>>, e: EntityRef): nat {
    if journal == [] then 0
    else
      var last := journal[|journal| - 1];
      HistorySyncs(journal[..|journal| - 1], e)
      + if last.entity == e && (last.Pushed? || last.Pulled?) && last.recorded then 1 else 0
  }

  // ---------------------------------------------------------------- the invariant

  /** At most one row a record, external ids distinct and in use, deleted records gone. */
  ghost predicate Keys<R, P, M>(w: World<R, P, M>) {
    && (forall i, j :: 0 <= i < j < |w.rows| ==>
          w.rows[i].entity != w.rows[j].entity && w.rows[i].externalId != w.rows[j].externalId)
    && (forall i :: 0 <= i < |w.rows| ==> w.rows[i].externalId != "" && w.rows[i].externalId in w.pages)
    && w.records.Keys !! w.deleted
  }

  /** A ledger row against the pages and the journal. */
  ghost predicate RowFields<R, P, M>(w: World<R, P, M>, row: Row) {
    && (row.entity in w.records || row.entity in w.deleted)
    && row.lastSyncedAt.Some? && row.lastSyncedAt.value <= w.clock
    && (row.syncState.Conflict? ==> row.conflictState.BothChanged?)
    && row.version == SavedSyncs(w.journal, row.entity)
    && (row.lastModifiedRemote.Some? && row.externalId in w.pages ==>
          && row.lastModifiedRemote.value <= w.pages[row.externalId].editedAt
          && Seen(w.journal, row.entity, row.lastModifiedRemote.value))
  }

  /** The record holds the user's last save, or that save was pushed. */
  ghost predicate LocalEdit<R(!new), P, M>(toExternal: R -> Option<M>, w: World<R, P, M>, e: EntityRef)
    requires e in w.records
  {
    && w.records[e].updatedAt <= w.clock
    && LastEdit(w.journal, e).Some?
    && (LastEdit(w.journal, e) == Some(w.records[e].record) || Carried(toExternal, w.journal, e))
  }

  /** The comparison of timestamps tells whether the last completed sync is out of date, and a
      record that is up to date had its last user save pushed. */
  ghost predicate LinkedEdit<R(!new), P, M>(toExternal: R -> Option<M>, w: World<R, P, M>, row: Row)
    requires row.entity in w.records
  {
    && (LocallyChanged(w.records[row.entity], row) <==> Dirty(w.journal, row.entity))
    && (!Dirty(w.journal, row.entity) ==> Carried(toExternal, w.journal, row.entity))
  }

  /** All of the invariant that is about one record. */
  ghost predicate About<R(!new), P, M>(toExternal: R -> Option<M>, w: World<R, P, M>, e: EntityRef) {
    var i := FindByInternal(w.rows, e);
    && (i.None? ==> SavedSyncs(w.journal, e) == 0)
    && (i.Some? ==> RowFields(w, w.rows[i.value]))
    && (e in w.records ==> LocalEdit(toExternal, w, e))
    && (i.Some? && e in w.records ==> LinkedEdit(toExternal, w, w.rows[i.value]))
  }

  ghost predicate Inv<R(!new), P, M>(toExternal: R -> Option<M>, w: World<R, P, M>) {
    Keys(w) && forall e :: About(toExternal, w, e)
  }

  // ---------------------------------------------------------------- frames

  /** How the journal readings of one record change when one entry is appended. */
  lemma {:induction false} Append<R(!new), M>(
      toExternal: R -> Option<M>, journal: seq<Entry<R, M>>, x: Entry<R, M>, e: EntityRef)
    ensures LastEdit(journal + [x], e) ==
            if x.Edited? && x.entity == e then Some(x.record) else LastEdit(journal, e)
    ensures Carried(toExternal, journal + [x], e) <==>
            if x.Edited? && x.entity == e then false
            else
              || (x.Pushed? && x.entity == e && x.payload.Some?
                  && LastEdit(journal, e).Some? && toExternal(LastEdit(journal, e).value) == x.payload)
              || Carried(toExternal, journal, e)
    ensures Dirty(journal + [x], e) <==>
            if x.entity != e then Dirty(journal, e)
            else if x.Edited? || (x.Pulled? && !x.saved) then true
            else if (x.Pushed? || x.Pulled?) && x.saved then false
            else Dirty(journal, e)
    ensures SavedSyncs(journal + [x], e) == SavedSyncs(journal, e)
            + if x.entity == e && (x.Pushed? || x.Pulled?) && x.saved then 1 else 0
    ensures forall v :: Seen(journal, e, v) || LogsVersion(x, e, v) ==> Seen(journal + [x], e, v)
  {
    assert (journal + [x])[..|journal|] == journal;
    forall v | Seen(journal, e, v) || LogsVersion(x, e, v)
      ensures Seen(journal + [x], e, v)
    {
      if LogsVersion(x, e, v) {
        assert LogsVersion((journal + [x])[|journal|], e, v);
      } else {
        var k :| 0 <= k < |journal| && LogsVersion(journal[k], e, v);
        assert LogsVersion((journal + [x])[k], e, v);
      }
    }
  }

  /** Pages only gain versions. */
  ghost predicate PagesGrow<P>(pages: map<string, Page<P>>, pages': map<string, Page<P>>) {
    && pages.Keys <= pages'.Keys
    && (forall id :: id in pages ==> pages[id].editedAt <= pages'[id].editedAt)
  }

  /** At most one more journal entry, about e. */
  ghost predicate Logs<R, M>(journal: seq<Entry<R, M>>, journal': seq<Entry<R, M>>, e: EntityRef) {
    || journal' == journal
    || (|journal'| == |journal| + 1
        && journal' == journal + [journal'[|journal|]]
        && journal'[|journal|].entity == e)
  }

  /** Rows keep their record and external id; rows of other records do not change at all. */
  ghost predicate SameLinks(rows: seq<Row>, rows': seq<Row>, e: EntityRef) {
    && |rows'| == |rows|
    && (forall i :: 0 <= i < |rows| ==>
          && rows'[i].entity == rows[i].entity
          && rows'[i].externalId == rows[i].externalId
          && (rows[i].entity != e ==> rows'[i] == rows[i]))
  }

  lemma {:induction false} FindSame(rows: seq<Row>, rows': seq<Row>, e: EntityRef)
    requires |rows| == |rows'|
    requires forall i :: 0 <= i < |rows| ==> rows'[i].entity == rows[i].entity
    ensures FindByInternal(rows', e) == FindByInternal(rows, e)
  {
    if rows != [] {
      FindSame(rows[1..], rows'[1..], e);
    }
  }

  lemma {:induction false} FindAppended(rows: seq<Row>, row: Row, e: EntityRef)
    ensures FindByInternal(rows + [row], e) ==
            if FindByInternal(rows, e).Some? then FindByInternal(rows, e)
            else if row.entity == e then Some(|rows|)
            else None
  {
    if rows != [] {
      assert (rows + [row])[1..] == rows[1..] + [row];
      FindAppended(rows[1..], row, e);
    }
  }

  /** With at most one row a record, either lookup finds the row. */
  lemma {:induction false} FindsTheRow<R, P, M>(w: World<R, P, M>, i: nat)
    requires Keys(w) && i < |w.rows|
    ensures FindByInternal(w.rows, w.rows[i].entity) == Some(i)
    ensures FindByExternal(w.rows, w.rows[i].externalId) == Some(i)
  {
  }

  /** The frame of a step that works on the record e. */
  ghost predicate OnlyTouches<R(!new), P, M>(w: World<R, P, M>, w': World<R, P, M>, e: EntityRef) {
    && w.clock <= w'.clock
    && w.deleted - {e} == w'.deleted - {e}
    && w.records - {e} == w'.records - {e}
    && PagesGrow(w.pages, w'.pages)
    && Logs(w.journal, w'.journal, e)
  }

  /** A step that works on e keeps what the invariant says about every other record. */
  lemma {:induction false} OthersKeep<R(!new), P, M>(
      toExternal: R -> Option<M>, w: World<R, P, M>, w': World<R, P, M>, e: EntityRef, other: EntityRef)
    requires OnlyTouches(w, w', e) && other != e && About(toExternal, w, other) && Keys(w)
    requires FindByInternal(w'.rows, other) == FindByInternal(w.rows, other)
    requires var i := FindByInternal(w.rows, other); i.Some? ==> w'.rows[i.value] == w.rows[i.value]
    ensures About(toExternal, w', other)
  {
    if w'.journal != w.journal {
      Append(toExternal, w.journal, w'.journal[|w.journal|], other);
    }
    assert other in w.records <==> other in (w.records - {e});
    assert other in w'.records <==> other in (w'.records - {e});
    assert other in w.records ==> w'.records[other] == (w'.records - {e})[other] == w.records[other];
    assert other in w.deleted <==> other in w.deleted - {e};
    assert other in w'.deleted <==> other in w'.deleted - {e};
  }

  /** Inv, from the part about e, when no row is added. */
  lemma {:induction false} KeepsInv<R(!new), P, M>(
      toExternal: R -> Option<M>, w: World<R, P, M>, w': World<R, P, M>, e: EntityRef)
    requires Inv(toExternal, w) && OnlyTouches(w, w', e) && SameLinks(w.rows, w'.rows, e)
    requires About(toExternal, w', e) && w'.records.Keys !! w'.deleted
    ensures Inv(toExternal, w')
  {
    forall i, j | 0 <= i < j < |w'.rows|
      ensures w'.rows[i].entity != w'.rows[j].entity && w'.rows[i].externalId != w'.rows[j].externalId
    {
      assert w.rows[i].entity != w.rows[j].entity && w.rows[i].externalId != w.rows[j].externalId;
    }
    forall other | other != e
      ensures About(toExternal, w', other)
    {
      FindSame(w.rows, w'.rows, other);
      OthersKeep(toExternal, w, w', e, other);
    }
  }

  /** Inv, when the step rewrites the row at i, keeping its links. */
  lemma {:induction false} SavedRowKeepsInv<R(!new), P, M>(
      toExternal: R -> Option<M>, w: World<R, P, M>, w': World<R, P, M>, i: nat, row': Row)
    requires Inv(toExternal, w) && i < |w.rows| && w'.rows == w.rows[i := row']
    requires row'.entity == w.rows[i].entity && row'.externalId == w.rows[i].externalId
    requires OnlyTouches(w, w', row'.entity) && w'.records.Keys !! w'.deleted
    requires RowFields(w', row')
    requires row'.entity in w'.records ==> LocalEdit(toExternal, w', row'.entity) && LinkedEdit(toExternal, w', row')
    ensures Inv(toExternal, w')
  {
    FindsTheRow(w, i);
    FindSame(w.rows, w'.rows, row'.entity);
    KeepsInv(toExternal, w, w', row'.entity);
  }

  // ---------------------------------------------------------------- the steps keep it

  /** The clock alone. */
  lemma {:induction false} TickKeepsInv<R(!new), P, M>(toExternal: R -> Option<M>, w: World<R, P, M>, at: Time)
    requires Inv(toExternal, w) && w.clock <= at
    ensures Inv(toExternal, w.(clock := at))
  {
    forall e ensures About(toExternal, w.(clock := at), e) {
      assert About(toExternal, w, e);
    }
  }

  lemma {:induction false} FailureKeepsInv<R(!new), P, M>(
      toExternal: R -> Option<M>, w: World<R, P, M>, pages: map<string, Page<P>>, i: nat, ledgerOk: bool, historyOk: bool)
    requires Inv(toExternal, w) && i < |w.rows| && PagesGrow(w.pages, pages)
    ensures Inv(toExternal, SaveFailure(w.(pages := pages), i, ledgerOk, historyOk))
  {
    var e := w.rows[i].entity;
    FindsTheRow(w, i);
    assert About(toExternal, w, e);
    var w' := SaveFailure(w.(pages := pages), i, ledgerOk, historyOk);
    Append(toExternal, w.journal, Failed(e, historyOk), e);
    assert RowFields(w', w'.rows[i]);
    SavedRowKeepsInv(toExternal, w, w', i, w'.rows[i]);
  }

  lemma {:induction false} ArchivedKeepsInv<R(!new), P, M>(
      toExternal: R -> Option<M>, w: World<R, P, M>, c: PushCall, i: nat)
    requires Inv(toExternal, w) && c.at == w.clock && c.entity !in w.records && c.answer.Delivered?
    requires RemoteClockAdvances(w.pages, w.rows, c.entity, c.remoteAt)
    requires FindByInternal(w.rows, c.entity) == Some(i)
    ensures Inv(toExternal, Archive(w, c).0)
  {
    hide SaveFailure;
    var w' := Archive(w, c).0;
    assert PagesGrow(w.pages, w'.pages);
    assert About(toExternal, w, c.entity);
    Append(toExternal, w.journal, w'.journal[|w.journal|], c.entity);
    assert RowFields(w', w'.rows[i]);
    SavedRowKeepsInv(toExternal, w, w', i, w'.rows[i]);
  }

  lemma {:induction false} ArchiveKeepsInv<R(!new), P, M>(toExternal: R -> Option<M>, w: World<R, P, M>, c: PushCall)
    requires Inv(toExternal, w) && c.at == w.clock && c.entity !in w.records
    requires RemoteClockAdvances(w.pages, w.rows, c.entity, c.remoteAt)
    ensures Inv(toExternal, Archive(w, c).0)
  {
    var found := FindByInternal(w.rows, c.entity);
    if found.Some? {
      if c.answer.Lost? {
        hide SaveFailure;
        FailureKeepsInv(toExternal, w, Archive(w, c).0.pages, found.value, c.ledgerOk, c.historyOk);
      } else {
        ArchivedKeepsInv(toExternal, w, c, found.value);
      }
    }
  }

  lemma {:induction false} CreateKeepsInv<R(!new), P, M, F>(
      codec: Codec<R, P, M, F>, w: World<R, P, M>, c: PushCall, m: M)
    requires Inv(codec.toExternal, w) && c.at == w.clock && c.newId !in w.pages
    requires c.entity in w.records && codec.toExternal(w.records[c.entity].record) == Some(m)
    requires FindByInternal(w.rows, c.entity).None?
    ensures Inv(codec.toExternal, Deliver(codec, w, None, m, c).0)
  {
    var w' := Deliver(codec, w, None, m, c).0;
    assert PagesGrow(w.pages, w'.pages);
    if w'.journal == w.journal {
      assert About(codec.toExternal, w, c.entity);
      KeepsInv(codec.toExternal, w, w', c.entity);
    } else {
      hide Settle;
      NewRowKeepsInv(codec.toExternal, w, w'.pages, c, m);
    }
  }

  lemma {:induction false} NewRowKeepsInv<R(!new), P, M>(
      toExternal: R -> Option<M>, w: World<R, P, M>, pages': map<string, Page<P>>, c: PushCall, m: M)
    requires Inv(toExternal, w) && c.at == w.clock && c.newId !in w.pages && c.newId != "" && c.ledgerOk
    requires c.entity in w.records && toExternal(w.records[c.entity].record) == Some(m)
    requires FindByInternal(w.rows, c.entity).None?
    requires PagesGrow(w.pages, pages') && c.newId in pages'
    ensures Inv(toExternal, Settle(w.(pages := pages'), None, c.newId, m, c).0)
  {
    var w' := Settle(w.(pages := pages'), None, c.newId, m, c).0;
    assert About(toExternal, w, c.entity);
    Append(toExternal, w.journal, w'.journal[|w.journal|], c.entity);
    forall e ensures About(toExternal, w', e) {
      FindAppended(w.rows, w'.rows[|w.rows|], e);
      if e != c.entity {
        assert About(toExternal, w, e);
        OthersKeep(toExternal, w, w', c.entity, e);
      }
    }
  }

  lemma {:induction false} RefusalKeepsInv<R(!new), P, M>(
      toExternal: R -> Option<M>, w: World<R, P, M>, c: PushCall, i: nat)
    requires Inv(toExternal, w) && i < |w.rows| && w.rows[i].entity == c.entity && c.ledgerOk
    ensures Inv(toExternal, MarkConflict(w, Some(i), c).0)
  {
    var w' := MarkConflict(w, Some(i), c).0;
    FindsTheRow(w, i);
    assert About(toExternal, w, c.entity);
    Append(toExternal, w.journal, w'.journal[|w.journal|], c.entity);
    assert RowFields(w', w'.rows[i]);
    SavedRowKeepsInv(toExternal, w, w', i, w'.rows[i]);
  }

  /** A linked row after a successful push, the page being written already. */
  lemma {:induction false} SettledKeepsInv<R(!new), P, M>(
      toExternal: R -> Option<M>, w: World<R, P, M>, pages': map<string, Page<P>>, c: PushCall, i: nat, m: M)
    requires Inv(toExternal, w) && c.at == w.clock && i < |w.rows| && w.rows[i].entity == c.entity && c.ledgerOk
    requires c.entity in w.records && toExternal(w.records[c.entity].record) == Some(m)
    requires PagesGrow(w.pages, pages')
    ensures Inv(toExternal, Settle(w.(pages := pages'), Some(i), w.rows[i].externalId, m, c).0)
  {
    var w' := Settle(w.(pages := pages'), Some(i), w.rows[i].externalId, m, c).0;
    FindsTheRow(w, i);
    assert About(toExternal, w, c.entity);
    Append(toExternal, w.journal, w'.journal[|w.journal|], c.entity);
    assert RowFields(w', w'.rows[i]);
    SavedRowKeepsInv(toExternal, w, w', i, w'.rows[i]);
  }

  lemma {:induction false} OverwriteKeepsInv<R(!new), P, M, F>(
      codec: Codec<R, P, M, F>, w: World<R, P, M>, c: PushCall, i: nat, m: M)
    requires Inv(codec.toExternal, w) && c.at == w.clock && i < |w.rows| && w.rows[i].entity == c.entity
    requires c.entity in w.records && codec.toExternal(w.records[c.entity].record) == Some(m)
    requires RemoteClockAdvances(w.pages, w.rows, c.entity, c.remoteAt) && !Stale(w.pages, w.rows[i], c.stamped)
    ensures Inv(codec.toExternal, Deliver(codec, w, Some(i), m, c).0)
  {
    hide Settle, SaveFailure;
    var row := w.rows[i];
    var pages' := AdapterPush(codec, w.pages, row.externalId, m, row.lastModifiedRemote, c).pages;
    assert PagesGrow(w.pages, pages');
    if c.answer.Lost? {
      FailureKeepsInv(codec.toExternal, w, pages', i, c.ledgerOk, c.historyOk);
    } else if c.ledgerOk {
      SettledKeepsInv(codec.toExternal, w, pages', c, i, m);
    } else {
      UnsavedKeepsInv(codec.toExternal, w, pages', c, i, m);
    }
  }

  lemma {:induction false} UnsavedKeepsInv<R(!new), P, M>(
      toExternal: R -> Option<M>, w: World<R, P, M>, pages': map<string, Page<P>>, c: PushCall, i: nat, m: M)
    requires Inv(toExternal, w) && i < |w.rows| && w.rows[i].entity == c.entity && !c.ledgerOk
    requires PagesGrow(w.pages, pages')
    ensures Inv(toExternal, Settle(w.(pages := pages'), Some(i), w.rows[i].externalId, m, c).0)
  {
    FindsTheRow(w, i);
    assert About(toExternal, w, c.entity);
    KeepsInv(toExternal, w, w.(pages := pages'), c.entity);
  }

  lemma {:induction false} PushKeepsInv<R(!new), P, M, F>(codec: Codec<R, P, M, F>, w: World<R, P, M>, c: PushCall)
    requires Inv(codec.toExternal, w) && Enabled(w, PushEvent(c))
    ensures Inv(codec.toExternal, Push(codec, w, c).0)
  {
    TickKeepsInv(codec.toExternal, w, c.at);
    var w1 := w.(clock := c.at);
    if c.setup.Ready? && c.lookupOk {
      if c.isDelete || (c.loadOk && c.entity !in w1.records) {
        ArchiveKeepsInv(codec.toExternal, w1, c);
      } else if c.loadOk {
        var payload := codec.toExternal(w1.records[c.entity].record);
        if payload.Some? {
          match FindByInternal(w1.rows, c.entity)
          case None => CreateKeepsInv(codec, w1, c, payload.value);
          case Some(i) =>
            if !Stale(w1.pages, w1.rows[i], c.stamped) {
              OverwriteKeepsInv(codec, w1, c, i, payload.value);
            } else if c.ledgerOk {
              RefusalKeepsInv(codec.toExternal, w1, c, i);
            }
        }
      }
    }
  }

  lemma {:induction false} FlagKeepsInv<R(!new), P, M>(
      toExternal: R -> Option<M>, w: World<R, P, M>, c: PullCall, i: nat)
    requires Inv(toExternal, w) && i < |w.rows| && w.rows[i].externalId == c.page && c.ledgerOk
    ensures Inv(toExternal, FlagConflict(w, c, i).0)
  {
    var w' := FlagConflict(w, c, i).0;
    var e, x := w.rows[i].entity, w'.journal[|w.journal|];
    FindsTheRow(w, i);
    assert About(toExternal, w, e);
    Append(toExternal, w.journal, x, e);
    assert x.version.Some? ==> LogsVersion(x, e, x.version.value);
    assert RowFields(w', w'.rows[i]);
    SavedRowKeepsInv(toExternal, w, w', i, w'.rows[i]);
  }

  lemma {:induction false} TakeRemoteKeepsInv<R(!new), P, M, F>(
      codec: Codec<R, P, M, F>, w: World<R, P, M>, c: PullCall, i: nat, f: F)
    requires Inv(codec.toExternal, w) && c.at == w.clock && c.savedAt <= c.at
    requires i < |w.rows| && w.rows[i].entity in w.records && w.rows[i].externalId == c.page
    requires !LocallyChanged(w.records[w.rows[i].entity], w.rows[i])
    requires w.rows[i].lastSyncedAt.Some? ==> w.rows[i].lastSyncedAt.value < c.savedAt
    ensures Inv(codec.toExternal, TakeRemote(codec, w, c, i, f).0)
  {
    var w' := TakeRemote(codec, w, c, i, f).0;
    var e, x := w.rows[i].entity, w'.journal[|w.journal|];
    FindsTheRow(w, i);
    assert About(codec.toExternal, w, e);
    Append(codec.toExternal, w.journal, x, e);
    assert x.version.Some? && x.saved ==> LogsVersion(x, e, x.version.value);
    assert RowFields(w', w'.rows[i]);
    SavedRowKeepsInv(codec.toExternal, w, w', i, w'.rows[i]);
  }

  lemma {:induction false} ReconcileKeepsInv<R(!new), P, M, F>(
      codec: Codec<R, P, M, F>, w: World<R, P, M>, c: PullCall, i: nat)
    requires Inv(codec.toExternal, w) && c.at == w.clock && c.savedAt <= c.at
    requires i < |w.rows| && w.rows[i].entity in w.records && w.rows[i].externalId == c.page && c.page in w.pages
    requires w.rows[i].lastSyncedAt.Some? ==> w.rows[i].lastSyncedAt.value < c.savedAt
    ensures Inv(codec.toExternal, Reconcile(codec, w, c, i).0)
  {
    if LocallyChanged(w.records[w.rows[i].entity], w.rows[i]) {
      if c.ledgerOk {
        FlagKeepsInv(codec.toExternal, w, c, i);
      }
    } else {
      var fields := codec.fromExternal(w.records[w.rows[i].entity].record, w.pages[c.page].props);
      if fields.Some? && !codec.isEmpty(fields.value) {
        if c.applyOk {
          TakeRemoteKeepsInv(codec, w, c, i, fields.value);
        } else {
          FailureKeepsInv(codec.toExternal, w, w.pages, i, c.ledgerOk, c.historyOk);
        }
      }
    }
  }

  lemma {:induction false} PullKeepsInv<R(!new), P, M, F>(codec: Codec<R, P, M, F>, w: World<R, P, M>, c: PullCall)
    requires Inv(codec.toExternal, w) && Enabled(w, PullEvent(c))
    ensures Inv(codec.toExternal, Pull(codec, w, c).0)
  {
    TickKeepsInv(codec.toExternal, w, c.at);
    var w1 := w.(clock := c.at);
    match FindByExternal(w1.rows, c.page)
    case None =>
    case Some(i) =>
      FindsTheRow(w, i);
      assert About(codec.toExternal, w, w.rows[i].entity);
      if c.setup.Ready? && c.lookupOk {
        if !c.fetchOk || c.page !in w1.pages {
          FailureKeepsInv(codec.toExternal, w1, w1.pages, i, c.ledgerOk, c.historyOk);
        } else if c.loadOk && w1.rows[i].entity in w1.records {
          ReconcileKeepsInv(codec, w1, c, i);
        }
      }
  }

  lemma {:induction false} EditKeepsInv<R(!new), P, M, F>(
      codec: Codec<R, P, M, F>, w: World<R, P, M>, e: EntityRef, r: R, at: Time)
    requires Inv(codec.toExternal, w) && at > w.clock && e !in w.deleted
    ensures Inv(codec.toExternal, Step(codec, w, UserEdit(e, r, at)))
  {
    var w' := Step(codec, w, UserEdit(e, r, at));
    assert About(codec.toExternal, w, e);
    Append(codec.toExternal, w.journal, Edited(e, r), e);
    KeepsInv(codec.toExternal, w, w', e);
  }

  lemma {:induction false} StepKeepsInv<R(!new), P, M, F>(codec: Codec<R, P, M, F>, w: World<R, P, M>, ev: Event<R, P>)
    requires Inv(codec.toExternal, w) && Enabled(w, ev)
    ensures Inv(codec.toExternal, Step(codec, w, ev))
  {
    var w' := Step(codec, w, ev);
    match ev
    case UserEdit(e, r, at) => EditKeepsInv(codec, w, e, r, at);
    case UserDelete(e, at) =>
      assert About(codec.toExternal, w, e);
      KeepsInv(codec.toExternal, w, w', e);
    case RemoteEdit(id, props, remoteAt) =>
      forall e ensures About(codec.toExternal, w', e) {
        assert About(codec.toExternal, w, e);
      }
    case PushEvent(c) => PushKeepsInv(codec, w, c);
    case PullEvent(c) => PullKeepsInv(codec, w, c);
  }
}
