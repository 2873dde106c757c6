/**
 The two handlers of the sync engine as they are written: they load a ledger row, branch, change
 the row in memory and save it back. Each is proved to be the step of SyncWorld.
 */
module SyncEngine {
  import opened Wrappers
  import opened SyncWorld

  class Engine<R, P, M, F> {
    const codec: Codec<R, P, M, F>
    var clock: Time
    var records: map<EntityRef, Local<R>>
    var deleted: set<EntityRef>
    var pages: map<string, Page<P>>
    var rows: seq<Row>
    var journal: seq<Entry<R, M>>

    constructor (codec: Codec<R, P, M, F>)
      ensures this.codec == codec && State() == Empty()
    {
      this.codec := codec;
      clock, records, deleted, pages, rows, journal := 0, map[], {}, map[], [], [];
    }

    function State(): World<R, P, M>
      reads this
    {
      World(clock, records, deleted, pages, rows, journal)
    }

    /** repository.SyncedEntityRepository.Update */
    method SaveRow(i: nat, synced: Row, ledgerOk: bool) returns (err: bool)
      requires i < |rows|
      modifies this`rows
      ensures err == !ledgerOk
      ensures rows == if ledgerOk then old(rows)[i := synced] else old(rows)
    {
      if !ledgerOk {
        return true;
      }
      rows := rows[i := synced];
      err := false;
    }

    method RecordFailure(i: nat, ledgerOk: bool, historyOk: bool)
      requires i < |rows|
      modifies this`rows, this`journal
      ensures State() == SaveFailure(old(State()), i, ledgerOk, historyOk)
    {
      var synced := rows[i];
      synced := synced.(syncState := Errored);
      synced := synced.(hasError := true);
      var _ := SaveRow(i, synced, ledgerOk);
      journal := journal + [Failed(synced.entity, historyOk)];
    }

    /** PushService.markConflict; a record without a ledger row gets one. */
    method MarkPushConflict(found: Option<nat>, c: PushCall) returns (outcome: Outcome)
      requires found.Some? ==> found.value < |rows| && rows[found.value].entity == c.entity
      modifies this`rows, this`journal
      ensures (State(), outcome) == MarkConflict(old(State()), found, c)
    {
      if found.None? {
        if !c.ledgerOk {
          return Error;
        }
        rows := rows + [Row(c.entity, "", Conflict, BothChanged, 0, Timeless, Some(c.at), None, None, false)];
        return ConflictRaised;
      }
      var synced := rows[found.value];
      synced := synced.(syncState := Conflict);
      synced := synced.(conflictState := BothChanged);
      synced := synced.(lastModifiedLocal := Some(c.at));
      var err := SaveRow(found.value, synced, c.ledgerOk);
      if err {
        return Error;
      }
      journal := journal + [Conflicted(synced.entity, None, false, c.historyOk)];
      return ConflictRaised;
    }

    /** PullService.markConflict */
    method MarkPullConflict(i: nat, c: PullCall) returns (outcome: Outcome)
      requires i < |rows|
      modifies this`rows, this`journal
      ensures (State(), outcome) == FlagConflict(old(State()), c, i)
    {
      var synced := rows[i];
      synced := synced.(syncState := Conflict);
      synced := synced.(conflictState := BothChanged);
      synced := synced.(lastModifiedRemote := RemoteVersion(pages, c.page, c.stamped));
      var err := SaveRow(i, synced, c.ledgerOk);
      if err {
        return Error;
      }
      journal := journal + [Conflicted(synced.entity, synced.lastModifiedRemote, true, c.historyOk)];
      return ConflictRaised;
    }

    /** NotionClient.UpdatePageProperties: refused when the page is newer than expected. */
    method UpdatePage(id: string, m: M, expected: Option<Time>, c: PushCall) returns (conflict: bool, err: bool)
      modifies this`pages
      ensures conflict <==> c.stamped && expected.Some? && id in old(pages) && old(pages)[id].editedAt > expected.value
      ensures err <==> !conflict && c.answer.Lost?
      ensures pages ==
        if !conflict && Reached(c.answer) && id in old(pages)
        then old(pages)[id := old(pages)[id].(props := codec.write(old(pages)[id].props, m), editedAt := c.remoteAt)]
        else old(pages)
    {
      if expected.Some? {
        if c.stamped && id in pages && pages[id].editedAt > expected.value {
          return true, false;
        }
      }
      if Reached(c.answer) && id in pages {
        pages := pages[id := pages[id].(props := codec.write(pages[id].props, m), editedAt := c.remoteAt)];
      }
      return false, c.answer.Lost?;
    }

    /** NotionClient.CreatePage: a page whose id does not come back is an error. */
    method CreatePage(m: M, c: PushCall) returns (id: string, err: bool)
      modifies this`pages
      ensures err <==> c.answer.Lost? || c.newId == ""
      ensures id == if err then "" else c.newId
      ensures pages ==
        if Reached(c.answer) && c.newId != ""
        then old(pages)[c.newId := Page(codec.write(codec.blank, m), c.remoteAt, false)]
        else old(pages)
    {
      if Reached(c.answer) && c.newId != "" {
        pages := pages[c.newId := Page(codec.write(codec.blank, m), c.remoteAt, false)];
      }
      if c.answer.Lost? || c.newId == "" {
        return "", true;
      }
      return c.newId, false;
    }

    /** The delete half of PushService.pushOne. */
    method ArchiveRemote(c: PushCall) returns (outcome: Outcome)
      modifies this`pages, this`rows, this`journal
      ensures (State(), outcome) == Archive(old(State()), c)
    {
      var found := FindByInternal(rows, c.entity);
      if found.None? || rows[found.value].externalId == "" {
        return Ignored;
      }
      var i := found.value;
      var synced := rows[i];
      if Reached(c.answer) && synced.externalId in pages {
        pages := pages[synced.externalId := pages[synced.externalId].(archived := true, editedAt := c.remoteAt)];
      }
      if c.answer.Lost? {
        RecordFailure(i, c.ledgerOk, c.historyOk);
        return Error;
      }
      synced := synced.(syncState := Synced, version := synced.version + 1, source := Timeless);
      synced := synced.(lastModifiedLocal := Some(c.at), lastSyncedAt := Some(c.at), hasError := false);
      var _ := SaveRow(i, synced, c.ledgerOk);
      journal := journal + [Pushed(synced.entity, None, c.ledgerOk, c.historyOk)];
      return Archived;
    }

    /** NotionAdapter.Push */
    method AdapterPushes(existing: string, m: M, expected: Option<Time>, c: PushCall)
      returns (id: string, conflict: bool, err: bool)
      modifies this`pages
      ensures Sent(pages, id, conflict, err) == AdapterPush(codec, old(pages), existing, m, expected, c)
    {
      if existing == "" {
        id, err := CreatePage(m, c);
        return id, false, err;
      }
      conflict, err := UpdatePage(existing, m, expected, c);
      if conflict || err {
        return "", conflict, err;
      }
      return existing, false, false;
    }

    /** The rest of PushService.pushOne, from the adapter's push on. */
    method DeliverRecord(found: Option<nat>, m: M, c: PushCall) returns (outcome: Outcome)
      requires found.Some? ==> found.value < |rows| && rows[found.value].entity == c.entity
      modifies this`pages, this`rows, this`journal
      ensures (State(), outcome) == Deliver(codec, old(State()), found, m, c)
    {
      var existing, expected := "", None;
      if found.Some? {
        existing, expected := rows[found.value].externalId, rows[found.value].lastModifiedRemote;
      }
      var id, conflict, err := AdapterPushes(existing, m, expected, c);
      if conflict {
        outcome := MarkPushConflict(found, c);
        return;
      }
      if err {
        if found.Some? {
          RecordFailure(found.value, c.ledgerOk, c.historyOk);
        }
        return Error;
      }
      outcome := SettleRow(found, id, m, c);
    }

    /** The ledger write at the end of PushService.pushOne. */
    method SettleRow(found: Option<nat>, id: string, m: M, c: PushCall) returns (outcome: Outcome)
      requires found.Some? ==> found.value < |rows| && rows[found.value].entity == c.entity
      modifies this`rows, this`journal
      ensures (State(), outcome) == Settle(old(State()), found, id, m, c)
    {
      var created := true;
      if found.None? {
        if !c.ledgerOk {
          return Error;
        }
        rows := rows + [Row(c.entity, id, Synced, Settled, 1, Timeless, Some(c.at), None, Some(c.at), false)];
      } else {
        var synced := rows[found.value];
        created := synced.externalId == "";
        synced := synced.(externalId := id, syncState := Synced, version := synced.version + 1, source := Timeless);
        synced := synced.(lastModifiedLocal := Some(c.at), lastSyncedAt := Some(c.at));
        synced := synced.(hasError := false, conflictState := Settled);
        var err := SaveRow(found.value, synced, c.ledgerOk);
        if err {
          return Error;
        }
      }
      journal := journal + [Pushed(c.entity, Some(m), true, c.historyOk)];
      return if created then Created else Overwrote;
    }

    /** PushService.pushOne; a record that is gone is pushed as a delete. */
    method PushOne(c: PushCall) returns (outcome: Outcome)
      modifies this
      ensures (State(), outcome) == Push(codec, old(State()), c)
      decreases !c.isDelete
    {
      clock := c.at;
      if c.setup.Inactive? {
        return Ignored;
      }
      if c.setup.Broken? || !c.lookupOk {
        return Error;
      }
      if c.isDelete {
        outcome := ArchiveRemote(c);
        return;
      }
      if !c.loadOk {
        return Error;
      }
      if c.entity !in records {
        outcome := PushOne(c.(isDelete := true));
        return;
      }
      var properties := codec.toExternal(records[c.entity].record);
      if properties.None? {
        return Error;
      }
      var found := FindByInternal(rows, c.entity);
      outcome := DeliverRecord(found, properties.value, c);
    }

    /** PullService.PullRecord */
    method PullRecord(c: PullCall) returns (outcome: Outcome)
      modifies this
      ensures (State(), outcome) == Pull(codec, old(State()), c)
    {
      clock := c.at;
      if !c.lookupOk {
        return Error;
      }
      var found := FindByExternal(rows, c.page);
      if found.None? || c.setup.Inactive? {
        return Ignored;
      }
      if c.setup.Broken? {
        return Error;
      }
      var i := found.value;
      var synced := rows[i];
      if !c.fetchOk || c.page !in pages {
        RecordFailure(i, c.ledgerOk, c.historyOk);
        return Error;
      }
      if !c.loadOk {
        return Error;
      }
      if synced.entity !in records {
        return Ignored;
      }
      if synced.lastSyncedAt.Some? && records[synced.entity].updatedAt > synced.lastSyncedAt.value {
        outcome := MarkPullConflict(i, c);
        return;
      }
      var fields := codec.fromExternal(records[synced.entity].record, pages[c.page].props);
      if fields.None? {
        return Error;
      }
      if codec.isEmpty(fields.value) {
        return Ignored;
      }
      if !c.applyOk {
        RecordFailure(i, c.ledgerOk, c.historyOk);
        return Error;
      }
      outcome := TakeRemoteVersion(i, fields.value, c);
    }

    /** The end of PullRecord: the local record takes the remote fields, the ledger its version. */
    method TakeRemoteVersion(i: nat, fields: F, c: PullCall) returns (outcome: Outcome)
      requires i < |rows| && rows[i].entity in records
      modifies this`records, this`rows, this`journal
      ensures (State(), outcome) == TakeRemote(codec, old(State()), c, i, fields)
    {
      var synced := rows[i];
      records := records[synced.entity := Local(codec.apply(records[synced.entity].record, fields), c.savedAt)];
      synced := synced.(syncState := Synced, version := synced.version + 1, source := External);
      synced := synced.(lastModifiedRemote := RemoteVersion(pages, c.page, c.stamped), lastSyncedAt := Some(c.at));
      synced := synced.(hasError := false, conflictState := Settled);
      var err := SaveRow(i, synced, c.ledgerOk);
      if err {
        journal := journal + [Pulled(synced.entity, synced.lastModifiedRemote, false, false)];
        return Error;
      }
      journal := journal + [Pulled(synced.entity, synced.lastModifiedRemote, true, c.historyOk)];
      return Applied;
    }
  }
}
