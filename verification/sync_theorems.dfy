/** What the sync ledger promises over whole runs, from the invariant of SyncSafety. */
module SyncTheorems {
  import opened Wrappers
  import opened SyncWorld
  import opened SyncSafety

  // ---------------------------------------------------------------- reachable worlds

  lemma {:induction false} RunKeepsInv<R(!new), P, M, F>(
      codec: Codec<R, P, M, F>, w: World<R, P, M>, evs: seq<Event<R, P>>)
    requires Inv(codec.toExternal, w) && Legal(codec, w, evs)
    ensures Inv(codec.toExternal, Run(codec, w, evs))
    decreases |evs|
  {
    if evs != [] {
      StepKeepsInv(codec, w, evs[0]);
      RunKeepsInv(codec, Step(codec, w, evs[0]), evs[1..]);
    }
  }

  /** Every legal run from the empty world. */
  lemma {:induction false} Reachable<R(!new), P, M, F>(codec: Codec<R, P, M, F>, evs: seq<Event<R, P>>)
    requires Legal(codec, Empty(), evs)
    ensures Inv(codec.toExternal, Run(codec, Empty(), evs))
  {
    var w: World<R, P, M> := Empty();
    forall e ensures About(codec.toExternal, w, e) {
    }
    RunKeepsInv(codec, w, evs);
  }

  // ---------------------------------------------------------------- local edits survive

  ghost predicate IsLastEdit<R, M>(journal: seq<Entry<R, M>>, e: EntityRef, j: int) {
    && 0 <= j < |journal| && journal[j].Edited? && journal[j].entity == e
    && forall k :: j < k < |journal| && journal[k].entity == e ==> !journal[k].Edited?
  }

  /** A push, logged after the user's last save, delivered exactly the content of that save. */
  ghost predicate LastEditPushed<R(!new), M>(toExternal: R -> Option<M>, journal: seq<Entry<R, M>>, e: EntityRef) {
    exists j, m :: IsLastEdit(journal, e, j) && j < m < |journal| && Delivers(toExternal, journal[j], journal[m])
  }

  ghost predicate Delivers<R(!new), M>(toExternal: R -> Option<M>, edit: Entry<R, M>, push: Entry<R, M>) {
    && edit.Edited? && push.Pushed? && push.entity == edit.entity
    && push.payload.Some? && push.payload == toExternal(edit.record)
  }

  lemma {:induction false} LastEditIndex<R, M>(journal: seq<Entry<R, M>>, e: EntityRef) returns (j: nat)
    requires LastEdit(journal, e).Some?
    ensures IsLastEdit(journal, e, j) && LastEdit(journal, e) == Some(journal[j].record)
  {
    var n := |journal| - 1;
    if journal[n].Edited? && journal[n].entity == e {
      j := n;
    } else {
      j := LastEditIndex(journal[..n], e);
    }
  }

  lemma {:induction false} CarriedMeansPushed<R(!new), M>(
      toExternal: R -> Option<M>, journal: seq<Entry<R, M>>, e: EntityRef)
    requires Carried(toExternal, journal, e)
    ensures LastEditPushed(toExternal, journal, e)
  {
    var n := |journal| - 1;
    var last, rest := journal[n], journal[..n];
    if Carried(toExternal, rest, e) {
      CarriedMeansPushed(toExternal, rest, e);
      var j, m :| IsLastEdit(rest, e, j) && j < m < |rest| && Delivers(toExternal, rest[j], rest[m]);
      assert IsLastEdit(journal, e, j) && Delivers(toExternal, journal[j], journal[m]);
    } else {
      var j := LastEditIndex(rest, e);
      assert IsLastEdit(journal, e, j) && Delivers(toExternal, journal[j], journal[n]);
    }
  }

  /** In every run, a pull that changes a record finds the user's last save of it already pushed. */
  lemma {:induction false} PullOverwritesOnlyPushedEdits<R(!new), P, M, F>(
      codec: Codec<R, P, M, F>, evs: seq<Event<R, P>>, c: PullCall, e: EntityRef)
    requires Legal(codec, Empty(), evs) && Enabled(Run(codec, Empty(), evs), PullEvent(c))
    requires var w := Run(codec, Empty(), evs);
             e in w.records && (e in Pull(codec, w, c).0.records ==> Pull(codec, w, c).0.records[e] != w.records[e])
    ensures LastEditPushed(codec.toExternal, Run(codec, Empty(), evs).journal, e)
  {
    Reachable(codec, evs);
    var w := Run(codec, Empty(), evs);
    var i := FindByExternal(w.rows, c.page).value;
    FindsTheRow(w, i);
    assert About(codec.toExternal, w, e);
    CarriedMeansPushed(codec.toExternal, w.journal, e);
  }

  // ---------------------------------------------------------------- conflicts are exact

  ghost predicate Unsynced<R, M>(entry: Entry<R, M>, e: EntityRef) {
    entry.entity == e && (entry.Edited? || (entry.Pulled? && !entry.saved))
  }

  ghost predicate CompletesSync<R, M>(entry: Entry<R, M>, e: EntityRef) {
    entry.entity == e && (entry.Pushed? || entry.Pulled?) && entry.saved
  }

  /** A change of the record that no completed sync followed. */
  ghost predicate ChangedSinceSync<R, M>(journal: seq<Entry<R, M>>, e: EntityRef) {
    exists j :: 0 <= j < |journal| && Unsynced(journal[j], e) && NoSyncAfter(journal, e, j)
  }

  ghost predicate NoSyncAfter<R, M>(journal: seq<Entry<R, M>>, e: EntityRef, j: int) {
    forall k :: j < k < |journal| && 0 <= k ==> !CompletesSync(journal[k], e)
  }

  lemma {:induction false} ChangedBeforeTheLast<R, M>(journal: seq<Entry<R, M>>, e: EntityRef)
    requires ChangedSinceSync(journal, e) && !Unsynced(journal[|journal| - 1], e)
    ensures ChangedSinceSync(journal[..|journal| - 1], e) && !CompletesSync(journal[|journal| - 1], e)
  {
    var rest := journal[..|journal| - 1];
    var j :| 0 <= j < |journal| && Unsynced(journal[j], e) && NoSyncAfter(journal, e, j);
    assert Unsynced(rest[j], e) && NoSyncAfter(rest, e, j);
  }

  lemma {:induction false} DirtyMeansChanged<R, M>(journal: seq<Entry<R, M>>, e: EntityRef)
    ensures Dirty(journal, e) <==> ChangedSinceSync(journal, e)
  {
    if journal != [] {
      var n := |journal| - 1;
      var last, rest := journal[n], journal[..n];
      DirtyMeansChanged(rest, e);
      if Unsynced(last, e) {
        assert NoSyncAfter(journal, e, n);
      } else {
        if ChangedSinceSync(journal, e) {
          ChangedBeforeTheLast(journal, e);
        }
        if Dirty(journal, e) {
          var j :| 0 <= j < |rest| && Unsynced(rest[j], e) && NoSyncAfter(rest, e, j);
          assert Unsynced(journal[j], e) && NoSyncAfter(journal, e, j);
        }
      }
    }
  }

  /** The pull gets as far as comparing timestamps, and its own ledger write goes through. */
  ghost predicate Compares<R, P, M>(w: World<R, P, M>, c: PullCall, i: nat) {
    && FindByExternal(w.rows, c.page) == Some(i)
    && c.setup.Ready? && c.lookupOk && c.fetchOk && c.loadOk && c.ledgerOk
    && i < |w.rows| && w.rows[i].entity in w.records
  }

  /** In every run, a pull raises a conflict exactly when the record changed since the last
      completed sync: by a user's save, or by a pull whose ledger write was lost. */
  lemma {:induction false} PullRaisesConflictExactly<R(!new), P, M, F>(
      codec: Codec<R, P, M, F>, evs: seq<Event<R, P>>, c: PullCall, i: nat)
    requires Legal(codec, Empty(), evs) && Enabled(Run(codec, Empty(), evs), PullEvent(c))
    requires Compares(Run(codec, Empty(), evs), c, i)
    ensures var w := Run(codec, Empty(), evs);
            Pull(codec, w, c).1 == ConflictRaised <==> ChangedSinceSync(w.journal, w.rows[i].entity)
  {
    Reachable(codec, evs);
    var w := Run(codec, Empty(), evs);
    FindsTheRow(w, i);
    assert About(codec.toExternal, w, w.rows[i].entity);
    DirtyMeansChanged(w.journal, w.rows[i].entity);
  }

  // ---------------------------------------------------------------- remote versions survive

  /** In every run, a checked, non-delete push that changes a page whose version the ledger
      has observed replaces exactly a version that a pull fetched and logged. */
  lemma {:induction false} PushOverwritesOnlySeenVersions<R(!new), P, M, F>(
      codec: Codec<R, P, M, F>, evs: seq<Event<R, P>>, c: PushCall, i: nat)
    requires Legal(codec, Empty(), evs) && Enabled(Run(codec, Empty(), evs), PushEvent(c))
    requires var w := Run(codec, Empty(), evs);
             && FindByInternal(w.rows, c.entity) == Some(i) && i < |w.rows|
             && c.entity in w.records && c.stamped && w.rows[i].lastModifiedRemote.Some?
             && Push(codec, w, c).0.pages != w.pages
    ensures var w := Run(codec, Empty(), evs);
            && w.rows[i].externalId in w.pages
            && w.pages[w.rows[i].externalId].editedAt == w.rows[i].lastModifiedRemote.value
            && Seen(w.journal, c.entity, w.pages[w.rows[i].externalId].editedAt)
            && forall id :: id in w.pages && id != w.rows[i].externalId ==>
                 id in Push(codec, w, c).0.pages && Push(codec, w, c).0.pages[id] == w.pages[id]
  {
    Reachable(codec, evs);
    var w := Run(codec, Empty(), evs);
    assert About(codec.toExternal, w, c.entity);
  }

  /** The events after which a refused push stays refused: no pull of the page, no delete of
      the record, and every page read carries its timestamp. */
  predicate LeavesRefused<R, P>(ev: Event<R, P>, row: Row) {
    match ev
    case UserDelete(e, _) => e != row.entity
    case PushEvent(c) => c.stamped
    case PullEvent(c) => c.page != row.externalId
    case _ => true
  }

  /** The row at i, its page's version and its refusal are as they were. */
  ghost predicate StaysRefused<R, P, M>(w: World<R, P, M>, w': World<R, P, M>, i: nat)
    requires i < |w.rows|
  {
    && i < |w'.rows|
    && w'.rows[i].entity == w.rows[i].entity && w'.rows[i].entity in w'.records
    && w'.rows[i].externalId == w.rows[i].externalId
    && w'.rows[i].lastSyncedAt == w.rows[i].lastSyncedAt
    && w'.rows[i].lastModifiedRemote == w.rows[i].lastModifiedRemote
    && Stale(w'.pages, w'.rows[i], true)
  }

  /** The row at i and its page are as they were. */
  ghost predicate LeavesRow<R, P, M>(w: World<R, P, M>, w': World<R, P, M>, i: nat)
    requires i < |w.rows|
  {
    && w'.records == w.records
    && i < |w'.rows| && w'.rows[i] == w.rows[i]
    && w.rows[i].externalId in w.pages && w.rows[i].externalId in w'.pages
    && w'.pages[w.rows[i].externalId] == w.pages[w.rows[i].externalId]
  }

  lemma {:induction false} RowsAreApart<R, P, M>(w: World<R, P, M>, i: nat, k: nat)
    requires Keys(w) && i < |w.rows| && k < |w.rows| && i != k
    ensures w.rows[i].externalId != w.rows[k].externalId && w.rows[i].externalId in w.pages
  {
    if i < k {
      assert w.rows[i].externalId != w.rows[k].externalId;
    } else {
      assert w.rows[k].externalId != w.rows[i].externalId;
    }
  }

  lemma {:induction false} DeliverFrame<R(!new), P, M, F>(
      codec: Codec<R, P, M, F>, w: World<R, P, M>, found: Option<nat>, m: M, c: PushCall, i: nat)
    requires Keys(w) && c.newId !in w.pages && i < |w.rows|
    requires found.Some? ==> found.value < |w.rows| && found.value != i
    ensures LeavesRow(w, Deliver(codec, w, found, m, c).0, i)
  {
    if found.Some? {
      RowsAreApart(w, i, found.value);
    }
  }

  lemma {:induction false} ArchiveFrame<R, P, M>(w: World<R, P, M>, c: PushCall, i: nat)
    requires Keys(w) && i < |w.rows| && w.rows[i].entity != c.entity
    ensures LeavesRow(w, Archive(w, c).0, i)
  {
    var found := FindByInternal(w.rows, c.entity);
    if found.Some? {
      RowsAreApart(w, i, found.value);
    }
  }

  /** A push leaves the rows and pages of other records alone. */
  lemma {:induction false} PushFrame<R(!new), P, M, F>(codec: Codec<R, P, M, F>, w: World<R, P, M>, c: PushCall, i: nat)
    requires Keys(w) && c.newId !in w.pages && i < |w.rows| && w.rows[i].entity != c.entity
    ensures LeavesRow(w, Push(codec, w, c).0, i)
  {
    hide Deliver, Archive;
    var w1 := w.(clock := c.at);
    ArchiveFrame(w1, c, i);
    if c.entity in w1.records {
      var m := codec.toExternal(w1.records[c.entity].record);
      if m.Some? {
        DeliverFrame(codec, w1, FindByInternal(w1.rows, c.entity), m.value, c, i);
      }
    }
  }

  lemma {:induction false} PushStaysRefused<R(!new), P, M, F>(
      codec: Codec<R, P, M, F>, w: World<R, P, M>, c: PushCall, i: nat)
    requires Inv(codec.toExternal, w) && Enabled(w, PushEvent(c)) && c.stamped
    requires i < |w.rows| && w.rows[i].entity in w.records && Stale(w.pages, w.rows[i], true)
    ensures var w' := Push(codec, w, c).0;
            StaysRefused(w, w', i) && w'.pages[w.rows[i].externalId] == w.pages[w.rows[i].externalId]
  {
    if c.entity == w.rows[i].entity {
      FindsTheRow(w, i);
    } else {
      PushFrame(codec, w, c, i);
    }
  }

  lemma {:induction false} PullStaysRefused<R(!new), P, M, F>(
      codec: Codec<R, P, M, F>, w: World<R, P, M>, c: PullCall, i: nat)
    requires Inv(codec.toExternal, w) && Enabled(w, PullEvent(c))
    requires i < |w.rows| && w.rows[i].entity in w.records && Stale(w.pages, w.rows[i], true)
    requires c.page != w.rows[i].externalId
    ensures StaysRefused(w, Pull(codec, w, c).0, i) && Pull(codec, w, c).0.pages == w.pages
  {
    FindsTheRow(w, i);
    var found := FindByExternal(w.rows, c.page);
    if found.Some? && found.value < i {
      assert w.rows[found.value].entity != w.rows[i].entity;
    } else if found.Some? && i < found.value {
      assert w.rows[i].entity != w.rows[found.value].entity;
    }
  }

  lemma {:induction false} StepStaysRefused<R(!new), P, M, F>(
      codec: Codec<R, P, M, F>, w: World<R, P, M>, ev: Event<R, P>, i: nat)
    requires Inv(codec.toExternal, w) && Enabled(w, ev)
    requires i < |w.rows| && w.rows[i].entity in w.records && Stale(w.pages, w.rows[i], true)
    requires LeavesRefused(ev, w.rows[i])
    ensures StaysRefused(w, Step(codec, w, ev), i)
  {
    match ev
    case PushEvent(c) => PushStaysRefused(codec, w, c, i);
    case PullEvent(c) => PullStaysRefused(codec, w, c, i);
    case _ =>
  }

  /** A push of the record at row i that gets as far as the version check. */
  ghost predicate RefusalApplies<R, P, M, F>(codec: Codec<R, P, M, F>, w: World<R, P, M>, c: PushCall, i: nat) {
    && i < |w.rows| && c.entity == w.rows[i].entity && c.entity in w.records
    && c.setup.Ready? && c.lookupOk && c.loadOk && !c.isDelete && c.stamped && c.ledgerOk
    && codec.toExternal(w.records[c.entity].record).Some?
  }

  /** Once a push of the record would be refused, it stays refused, the row keeps its
      LastSyncedAt and LastModifiedRemote, and no push touches the page, however long the run,
      until a pull of the page. */
  lemma {:induction false} RefusedUntilPulled<R(!new), P, M, F>(
      codec: Codec<R, P, M, F>, w: World<R, P, M>, evs: seq<Event<R, P>>, i: nat)
    requires Inv(codec.toExternal, w) && Legal(codec, w, evs)
    requires i < |w.rows| && w.rows[i].entity in w.records && Stale(w.pages, w.rows[i], true)
    requires forall k :: 0 <= k < |evs| ==> LeavesRefused(evs[k], w.rows[i])
    ensures var w' := Run(codec, w, evs);
            && i < |w'.rows| && w'.rows[i].entity == w.rows[i].entity && w'.rows[i].entity in w'.records
            && w'.rows[i].lastSyncedAt == w.rows[i].lastSyncedAt
            && w'.rows[i].lastModifiedRemote == w.rows[i].lastModifiedRemote
            && (forall c: PushCall :: RefusalApplies(codec, w', c, i) ==>
                  Push(codec, w', c).1 == ConflictRaised && Push(codec, w', c).0.pages == w'.pages)
    decreases |evs|
  {
    if evs == [] {
      FindsTheRow(w, i);
    } else {
      var w1 := Step(codec, w, evs[0]);
      StepKeepsInv(codec, w, evs[0]);
      StepStaysRefused(codec, w, evs[0], i);
      forall k | 0 <= k < |evs[1..]|
        ensures LeavesRefused(evs[1..][k], w1.rows[i])
      {
        assert LeavesRefused(evs[k + 1], w.rows[i]);
      }
      RefusedUntilPulled(codec, w1, evs[1..], i);
    }
  }

  // ---------------------------------------------------------------- echo

  /** The properties a push of the record writes onto: those of its page, or of a blank one. */
  function PageBefore<R, P, M, F>(codec: Codec<R, P, M, F>, w: World<R, P, M>, c: PushCall): P {
    match FindByInternal(w.rows, c.entity)
    case None => codec.blank
    case Some(i) => if w.rows[i].externalId in w.pages then w.pages[w.rows[i].externalId].props else codec.blank
  }

  /** A push that succeeds went all the way: the record was translated, the page written, and the
      ledger settled. */
  lemma {:induction false} SuccessIsSettled<R(!new), P, M, F>(codec: Codec<R, P, M, F>, w: World<R, P, M>, c: PushCall)
    requires Inv(codec.toExternal, w) && Enabled(w, PushEvent(c))
    requires Push(codec, w, c).1 == Overwrote || Push(codec, w, c).1 == Created
    ensures c.ledgerOk && c.entity in w.records && codec.toExternal(w.records[c.entity].record).Some?
    ensures var found, m := FindByInternal(w.rows, c.entity), codec.toExternal(w.records[c.entity].record).value;
            var id := if found.Some? then w.rows[found.value].externalId else c.newId;
            var pages' := Push(codec, w, c).0.pages;
            && id in pages'
            && pages'[id].props == codec.write(PageBefore(codec, w, c), m)
            && pages'[id].editedAt == c.remoteAt
            && Push(codec, w, c) == Settle(w.(clock := c.at, pages := pages'), found, id, m, c)
  {
    if FindByInternal(w.rows, c.entity).Some? {
      assert About(codec.toExternal, w, c.entity);
    }
  }

  /** After a successful push the guard refuses the next push exactly when the ledger had
      observed a remote version before: the engine takes its own write for someone else's. */
  lemma {:induction false} OwnWriteLooksForeign<R(!new), P, M, F>(
      codec: Codec<R, P, M, F>, w: World<R, P, M>, c: PushCall, i: nat)
    requires Inv(codec.toExternal, w) && Enabled(w, PushEvent(c))
    requires Push(codec, w, c).1 == Overwrote || Push(codec, w, c).1 == Created
    requires FindByInternal(Push(codec, w, c).0.rows, c.entity) == Some(i) && i < |Push(codec, w, c).0.rows|
    ensures var w' := Push(codec, w, c).0;
            Stale(w'.pages, w'.rows[i], true) <==>
            FindByInternal(w.rows, c.entity).Some? && w.rows[i].lastModifiedRemote.Some?
  {
    hide Push;
    SuccessIsSettled(codec, w, c);
    var before := FindByInternal(w.rows, c.entity);
    var w' := Push(codec, w, c).0;
    match before
    case Some(k) =>
      assert About(codec.toExternal, w, c.entity);
      FindSame(w.rows, w'.rows, c.entity);
    case None =>
      FindAppended(w.rows, w'.rows[|w.rows|], c.entity);
  }

  /** After a successful push the ledger links the record, unchanged, to a page in use. */
  lemma {:induction false} PushLinks<R(!new), P, M, F>(codec: Codec<R, P, M, F>, w: World<R, P, M>, c: PushCall, i: nat)
    requires Inv(codec.toExternal, w) && Enabled(w, PushEvent(c))
    requires Push(codec, w, c).1 == Overwrote || Push(codec, w, c).1 == Created
    requires FindByInternal(Push(codec, w, c).0.rows, c.entity) == Some(i) && i < |Push(codec, w, c).0.rows|
    ensures var w1 := Push(codec, w, c).0;
            && w1.records == w.records && c.entity in w1.records
            && w1.rows[i].entity == c.entity && w1.rows[i].externalId in w1.pages
            && !LocallyChanged(w1.records[c.entity], w1.rows[i])
            && w1.rows[i].conflictState.Settled?
  {
    hide Push;
    SuccessIsSettled(codec, w, c);
    assert About(codec.toExternal, w, c.entity);
    if FindByInternal(w.rows, c.entity).Some? {
      FindSame(w.rows, Push(codec, w, c).0.rows, c.entity);
    } else {
      FindAppended(w.rows, Push(codec, w, c).0.rows[|w.rows|], c.entity);
    }
  }

  /** A push followed by its own echo: the pull brings the page's fields back onto the record
      the push sent, the row is synced and the next push passes the guard. When nothing comes
      back, the pull changes nothing but the clock. */
  lemma {:induction false} PushThenPullConverges<R(!new), P, M, F>(
      codec: Codec<R, P, M, F>, w: World<R, P, M>, c: PushCall, p: PullCall, i: nat)
    requires Inv(codec.toExternal, w) && Enabled(w, PushEvent(c))
    requires Push(codec, w, c).1 == Overwrote || Push(codec, w, c).1 == Created
    requires FindByInternal(Push(codec, w, c).0.rows, c.entity) == Some(i)
    requires Compares(Push(codec, w, c).0, p, i) && p.stamped && p.applyOk
    ensures p.page in Push(codec, w, c).0.pages && c.entity in w.records
    ensures var w1 := Push(codec, w, c).0;
            var fields := codec.fromExternal(w1.records[c.entity].record, w1.pages[p.page].props);
            var (w2, outcome) := Pull(codec, w1, p);
            if fields.Some? && !codec.isEmpty(fields.value) then
              && outcome == Applied
              && w2.records == w.records[c.entity := Local(codec.apply(w.records[c.entity].record, fields.value), p.savedAt)]
              && i < |w2.rows| && w2.rows[i].syncState.Synced? && w2.rows[i].conflictState.Settled?
              && !Stale(w2.pages, w2.rows[i], true)
            else
              outcome != Applied && w2 == w1.(clock := p.at)
  {
    PushLinks(codec, w, c, i);
  }

  // ---------------------------------------------------------------- the ledger table

  /** The two lookups agree in every run: at most one row a record, and one a page. */
  lemma {:induction false} LookupsAgree<R(!new), P, M, F>(
      codec: Codec<R, P, M, F>, evs: seq<Event<R, P>>, e: EntityRef, id: string)
    requires Legal(codec, Empty(), evs)
    ensures var rows := Run(codec, Empty(), evs).rows;
            && FindByExternal(rows, "").None?
            && (forall i :: 0 <= i < |rows| ==>
                  (rows[i].entity == e <==> FindByInternal(rows, e) == Some(i))
                  && (rows[i].externalId == id <==> FindByExternal(rows, id) == Some(i)))
  {
    Reachable(codec, evs);
    var w := Run(codec, Empty(), evs);
    forall i | 0 <= i < |w.rows|
      ensures (w.rows[i].entity == e <==> FindByInternal(w.rows, e) == Some(i))
              && (w.rows[i].externalId == id <==> FindByExternal(w.rows, id) == Some(i))
    {
      FindsTheRow(w, i);
    }
  }

  /** Rows stay, keep what they link, and their version and LastSyncedAt never decrease. */
  ghost predicate RowsAdvance(rows: seq<Row>, rows': seq<Row>) {
    && |rows| <= |rows'|
    && forall i :: 0 <= i < |rows| ==> RowAdvances(rows[i], rows'[i])
  }

  ghost predicate RowAdvances(row: Row, row': Row) {
    && row'.entity == row.entity && row'.externalId == row.externalId && row.version <= row'.version
    && (row.lastSyncedAt.Some? ==> row'.lastSyncedAt.Some? && row.lastSyncedAt.value <= row'.lastSyncedAt.value)
  }

  lemma {:induction false} RunAdvancesRows<R(!new), P, M, F>(
      codec: Codec<R, P, M, F>, w: World<R, P, M>, evs: seq<Event<R, P>>)
    requires Inv(codec.toExternal, w) && Legal(codec, w, evs)
    ensures RowsAdvance(w.rows, Run(codec, w, evs).rows)
    decreases |evs|
  {
    if evs != [] {
      var w1 := Step(codec, w, evs[0]);
      StepAdvancesRows(codec, w, evs[0]);
      StepKeepsInv(codec, w, evs[0]);
      RunAdvancesRows(codec, w1, evs[1..]);
      var w' := Run(codec, w, evs);
      forall i | 0 <= i < |w.rows| ensures RowAdvances(w.rows[i], w'.rows[i]) {
        assert RowAdvances(w.rows[i], w1.rows[i]) && RowAdvances(w1.rows[i], w'.rows[i]);
      }
    }
  }

  lemma {:induction false} SyncedInThePast<R(!new), P, M>(toExternal: R -> Option<M>, w: World<R, P, M>, i: nat)
    requires Inv(toExternal, w) && i < |w.rows|
    ensures w.rows[i].lastSyncedAt.Some? && w.rows[i].lastSyncedAt.value <= w.clock
  {
    FindsTheRow(w, i);
    assert About(toExternal, w, w.rows[i].entity);
  }

  lemma {:induction false} ArchiveAdvancesRow<R, P, M>(w: World<R, P, M>, c: PushCall, i: nat)
    requires i < |w.rows| && FindByInternal(w.rows, c.entity) == Some(i)
    requires w.rows[i].lastSyncedAt.Some? && w.rows[i].lastSyncedAt.value <= c.at
    ensures |w.rows| == |Archive(w, c).0.rows| && RowAdvances(w.rows[i], Archive(w, c).0.rows[i])
  {
  }

  lemma {:induction false} WriteAdvancesRow<R, P, M, F>(
      codec: Codec<R, P, M, F>, w: World<R, P, M>, c: PushCall, i: nat)
    requires i < |w.rows| && FindByInternal(w.rows, c.entity) == Some(i)
    requires !c.isDelete && c.entity in w.records && w.rows[i].externalId != ""
    requires w.rows[i].lastSyncedAt.Some? && w.rows[i].lastSyncedAt.value <= c.at
    ensures |w.rows| == |Push(codec, w, c).0.rows| && RowAdvances(w.rows[i], Push(codec, w, c).0.rows[i])
  {
  }

  lemma {:induction false} PushAdvancesRow<R(!new), P, M, F>(
      codec: Codec<R, P, M, F>, w: World<R, P, M>, c: PushCall, i: nat)
    requires Inv(codec.toExternal, w) && Enabled(w, PushEvent(c)) && i < |w.rows|
    ensures |w.rows| <= |Push(codec, w, c).0.rows| && RowAdvances(w.rows[i], Push(codec, w, c).0.rows[i])
  {
    if c.entity == w.rows[i].entity {
      FindsTheRow(w, i);
      SyncedInThePast(codec.toExternal, w, i);
      if c.isDelete || c.entity !in w.records {
        ArchiveAdvancesRow(w.(clock := c.at), c, i);
      } else {
        WriteAdvancesRow(codec, w, c, i);
      }
    } else {
      PushFrame(codec, w, c, i);
    }
  }

  lemma {:induction false} PullAdvancesRow<R(!new), P, M, F>(
      codec: Codec<R, P, M, F>, w: World<R, P, M>, c: PullCall, i: nat)
    requires Inv(codec.toExternal, w) && Enabled(w, PullEvent(c)) && i < |w.rows|
    ensures |w.rows| == |Pull(codec, w, c).0.rows| && RowAdvances(w.rows[i], Pull(codec, w, c).0.rows[i])
  {
    SyncedInThePast(codec.toExternal, w, i);
  }

  lemma {:induction false} StepAdvancesRows<R(!new), P, M, F>(
      codec: Codec<R, P, M, F>, w: World<R, P, M>, ev: Event<R, P>)
    requires Inv(codec.toExternal, w) && Enabled(w, ev)
    ensures RowsAdvance(w.rows, Step(codec, w, ev).rows)
  {
    match ev
    case PushEvent(c) =>
      if w.rows != [] {
        forall i | 0 <= i < |w.rows|
          ensures |w.rows| <= |Push(codec, w, c).0.rows| && RowAdvances(w.rows[i], Push(codec, w, c).0.rows[i])
        {
          PushAdvancesRow(codec, w, c, i);
        }
        assert |w.rows| <= |Push(codec, w, c).0.rows| by {
          PushAdvancesRow(codec, w, c, 0);
        }
      }
    case PullEvent(c) =>
      if w.rows != [] {
        PullAdvancesRow(codec, w, c, 0);
        forall i | 0 <= i < |w.rows| ensures RowAdvances(w.rows[i], Pull(codec, w, c).0.rows[i]) {
          PullAdvancesRow(codec, w, c, i);
        }
      }
    case _ =>
  }

  /** Completed syncs missing from the history table, and history entries of archivals whose
      ledger write was lost. */
  ghost function LostHistory<R, M>(journal: seq<Entry<R, M>>, e: EntityRef): nat {
    if journal == [] then 0
    else
      var last := journal[|journal| - 1];
      LostHistory(journal[..|journal| - 1], e)
      + if last.entity == e && (last.Pushed? || last.Pulled?) && last.saved && !last.recorded then 1 else 0
  }

  ghost function UnsavedHistory<R, M>(journal: seq<Entry<R, M>>, e: EntityRef): nat {
    if journal == [] then 0
    else
      var last := journal[|journal| - 1];
      UnsavedHistory(journal[..|journal| - 1], e)
      + if last.entity == e && (last.Pushed? || last.Pulled?) && !last.saved && last.recorded then 1 else 0
  }

  lemma {:induction false} HistoryBalance<R, M>(journal: seq<Entry<R, M>>, e: EntityRef)
    ensures SavedSyncs(journal, e) + UnsavedHistory(journal, e) == HistorySyncs(journal, e) + LostHistory(journal, e)
  {
    if journal != [] {
      HistoryBalance(journal[..|journal| - 1], e);
    }
  }

  /** In every run, a row's version is its number of pushed_to_remote and pulled_from_remote
      history rows, up to the writes the database lost. */
  lemma {:induction false} VersionCountsHistory<R(!new), P, M, F>(
      codec: Codec<R, P, M, F>, evs: seq<Event<R, P>>, i: nat)
    requires Legal(codec, Empty(), evs) && i < |Run(codec, Empty(), evs).rows|
    ensures var w := Run(codec, Empty(), evs);
            var e := w.rows[i].entity;
            && w.rows[i].version + UnsavedHistory(w.journal, e) == HistorySyncs(w.journal, e) + LostHistory(w.journal, e)
            && (w.rows[i].syncState.Conflict? ==> w.rows[i].conflictState.BothChanged?)
            && w.rows[i].lastSyncedAt.Some?
  {
    Reachable(codec, evs);
    var w := Run(codec, Empty(), evs);
    FindsTheRow(w, i);
    assert About(codec.toExternal, w, w.rows[i].entity);
    HistoryBalance(w.journal, w.rows[i].entity);
  }

  /** The adapter refuses only a page that exists, so a refused push has a ledger row to mark: in
      every world the branch of markConflict that would create one is never taken, and the number
      of rows stays. */
  lemma {:induction false} RefusalHasARow<R(!new), P, M, F>(
      codec: Codec<R, P, M, F>, w: World<R, P, M>, c: PushCall)
    requires Push(codec, w, c).1 == ConflictRaised
    ensures var i := FindByInternal(w.rows, c.entity);
            && i.Some? && w.rows[i.value].externalId != ""
            && Push(codec, w, c) == MarkConflict(w.(clock := c.at), i, c)
            && |Push(codec, w, c).0.rows| == |w.rows|
  {
    var found := FindByInternal(w.rows, c.entity);
    var existing := if found.Some? then w.rows[found.value].externalId else "";
    assert existing != "";
  }

  /** Taken, that branch would leave a row without an external id, which no run of the ledger has. */
  lemma {:induction false} ConflictWithoutARowIsIllFormed<R(!new), P, M>(w: World<R, P, M>, c: PushCall)
    requires c.ledgerOk
    ensures !Keys(MarkConflict(w, None, c).0)
  {
    var rows := MarkConflict(w, None, c).0.rows;
    assert rows[|w.rows|].externalId == "";
  }
}
