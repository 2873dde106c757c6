/** What the version guard sees of the edits made to a page, and what it does not. */
module SyncGuard {
  import opened Wrappers
  import opened SyncWorld
  import opened SyncSafety
  import opened SyncTheorems

  // ---------------------------------------------------------------- runs that leave a row alone

  /** The event is neither a push of the row's record nor a pull of its page. */
  predicate Bystander<R, P>(ev: Event<R, P>, row: Row) {
    match ev
    case PushEvent(c) => c.entity != row.entity
    case PullEvent(c) => c.page != row.externalId
    case _ => true
  }

  /** Somebody edits the row's page. */
  predicate EditsPage<R, P>(ev: Event<R, P>, row: Row) {
    ev.RemoteEdit? && ev.page == row.externalId
  }

  /** The row at i is as it was, and its page has a later version exactly if it was edited. */
  ghost predicate RowStays<R, P, M>(w: World<R, P, M>, w': World<R, P, M>, i: nat, edited: bool)
    requires i < |w.rows|
  {
    var id := w.rows[i].externalId;
    && i < |w'.rows| && w'.rows[i] == w.rows[i] && id in w.pages && id in w'.pages
    && w.pages[id].editedAt <= w'.pages[id].editedAt
    && (edited <==> w.pages[id].editedAt < w'.pages[id].editedAt)
  }

  lemma {:induction false} PullFrame<R(!new), P, M, F>(codec: Codec<R, P, M, F>, w: World<R, P, M>, c: PullCall, i: nat)
    requires Keys(w) && i < |w.rows| && w.rows[i].externalId != c.page
    ensures var w' := Pull(codec, w, c).0; w'.pages == w.pages && i < |w'.rows| && w'.rows[i] == w.rows[i]
  {
  }

  lemma {:induction false} StepStays<R(!new), P, M, F>(
      codec: Codec<R, P, M, F>, w: World<R, P, M>, ev: Event<R, P>, i: nat)
    requires Inv(codec.toExternal, w) && Enabled(w, ev) && i < |w.rows| && Bystander(ev, w.rows[i])
    ensures RowStays(w, Step(codec, w, ev), i, EditsPage(ev, w.rows[i]))
  {
    assert w.rows[i].externalId in w.pages;
    match ev
    case PushEvent(c) =>
      hide Push;
      PushFrame(codec, w, c, i);
    case PullEvent(c) =>
      hide Pull;
      PullFrame(codec, w, c, i);
    case _ =>
  }

  lemma {:induction false} RunStays<R(!new), P, M, F>(
      codec: Codec<R, P, M, F>, w: World<R, P, M>, evs: seq<Event<R, P>>, i: nat)
    requires Inv(codec.toExternal, w) && Legal(codec, w, evs) && i < |w.rows|
    requires forall k :: 0 <= k < |evs| ==> Bystander(evs[k], w.rows[i])
    ensures RowStays(w, Run(codec, w, evs), i, exists k :: 0 <= k < |evs| && EditsPage(evs[k], w.rows[i]))
    decreases |evs|
  {
    hide Step, Enabled, Bystander, EditsPage;
    if evs == [] {
      assert Keys(w);
    } else {
      var row, rest := w.rows[i], evs[1..];
      StepStays(codec, w, evs[0], i);
      StepKeepsInv(codec, w, evs[0]);
      RunStays(codec, Step(codec, w, evs[0]), rest, i);
      if k :| 0 <= k < |evs| && EditsPage(evs[k], row) {
        assert k > 0 ==> EditsPage(rest[k - 1], row);
      }
      if k :| 0 <= k < |rest| && EditsPage(rest[k], row) {
        assert EditsPage(evs[k + 1], row);
      }
    }
  }

  // ---------------------------------------------------------------- the guard, exactly

  /** Over any run that leaves the row alone, its next checked push is due to be refused if and only
      if the ledger has observed a version at all, and the page was due already or edited since. */
  lemma {:induction false} GuardSeesEditsExactly<R(!new), P, M, F>(
      codec: Codec<R, P, M, F>, w: World<R, P, M>, evs: seq<Event<R, P>>, i: nat)
    requires Inv(codec.toExternal, w) && Legal(codec, w, evs) && i < |w.rows|
    requires forall k :: 0 <= k < |evs| ==> Bystander(evs[k], w.rows[i])
    ensures var w' := Run(codec, w, evs);
            && i < |w'.rows| && w'.rows[i] == w.rows[i]
            && (Stale(w'.pages, w'.rows[i], true) <==>
                && w.rows[i].lastModifiedRemote.Some?
                && (Stale(w.pages, w.rows[i], true) || exists k :: 0 <= k < |evs| && EditsPage(evs[k], w.rows[i])))
  {
    RunStays(codec, w, evs, i);
    hide Run, Legal, EditsPage, Bystander;
    VersionIsObserved(codec.toExternal, w, i);
  }

  lemma {:induction false} VersionIsObserved<R(!new), P, M>(toExternal: R -> Option<M>, w: World<R, P, M>, i: nat)
    requires Inv(toExternal, w) && i < |w.rows|
    ensures var row := w.rows[i];
            && row.externalId != "" && row.externalId in w.pages && FindByInternal(w.rows, row.entity) == Some(i)
            && FindByExternal(w.rows, row.externalId) == Some(i)
            && (row.lastModifiedRemote.Some? ==> row.lastModifiedRemote.value <= w.pages[row.externalId].editedAt)
  {
    FindsTheRow(w, i);
    assert About(toExternal, w, w.rows[i].entity);
  }

  /** A checked push whose answer comes back is refused if and only if it is due to be; otherwise it
      overwrites the page, whatever the page held. */
  lemma {:induction false} PushesExactly<R(!new), P, M, F>(
      codec: Codec<R, P, M, F>, w: World<R, P, M>, c: PushCall, i: nat)
    requires Inv(codec.toExternal, w) && Enabled(w, PushEvent(c)) && RefusalApplies(codec, w, c, i) && c.answer.Delivered?
    ensures var w', id := Push(codec, w, c).0, w.rows[i].externalId;
            var m := codec.toExternal(w.records[c.entity].record).value;
            && id in w.pages
            && if Stale(w.pages, w.rows[i], true)
               then Push(codec, w, c).1 == ConflictRaised && w'.pages == w.pages
               else Push(codec, w, c).1 == Overwrote && w'.pages == w.pages[id := w.pages[id].(
                 props := codec.write(w.pages[id].props, m), editedAt := c.remoteAt)]
  {
    VersionIsObserved(codec.toExternal, w, i);
  }

  /** After a pull flags a conflict, which leaves both sides as they are, the next checked push of
      the record is refused if and only if the flagged version had a timestamp and the page was
      edited once more. Otherwise it overwrites the remote side the conflict was raised for. */
  lemma {:induction false} FlaggedConflictEndsExactly<R(!new), P, M, F>(
      codec: Codec<R, P, M, F>, w: World<R, P, M>, p: PullCall, i: nat, evs: seq<Event<R, P>>, c: PushCall)
    requires Inv(codec.toExternal, w) && Enabled(w, PullEvent(p))
    requires FindByExternal(w.rows, p.page) == Some(i) && Pull(codec, w, p).1 == ConflictRaised
    requires var w1 := Pull(codec, w, p).0;
             && Legal(codec, w1, evs) && i < |w1.rows|
             && (forall k :: 0 <= k < |evs| ==> Bystander(evs[k], w1.rows[i]))
             && Enabled(Run(codec, w1, evs), PushEvent(c))
             && RefusalApplies(codec, Run(codec, w1, evs), c, i) && c.answer.Delivered?
    ensures var w1 := Pull(codec, w, p).0;
            var w2 := Run(codec, w1, evs);
            var (w3, pushed) := Push(codec, w2, c);
            var m := codec.toExternal(w2.records[c.entity].record).value;
            && w1.pages == w.pages && w1.records == w.records && p.page in w2.pages && p.page in w3.pages
            && if p.stamped && exists k :: 0 <= k < |evs| && EditsPage(evs[k], w1.rows[i])
               then pushed == ConflictRaised && w3.pages == w2.pages
               else pushed == Overwrote && w3.pages[p.page].props == codec.write(w2.pages[p.page].props, m)
  {
    var w1 := Pull(codec, w, p).0;
    FlagLeavesFresh(codec, w, p, i);
    PullKeepsInv(codec, w, p);
    hide Pull, Push, Run, Legal, EditsPage, Bystander, Inv, RefusalApplies, Enabled;
    GuardSeesEditsExactly(codec, w1, evs, i);
    var w2 := Run(codec, w1, evs);
    RunKeepsInv(codec, w1, evs);
    PushesExactly(codec, w2, c, i);
  }

  lemma {:induction false} FlagLeavesFresh<R(!new), P, M, F>(
      codec: Codec<R, P, M, F>, w: World<R, P, M>, p: PullCall, i: nat)
    requires Inv(codec.toExternal, w) && Enabled(w, PullEvent(p))
    requires FindByExternal(w.rows, p.page) == Some(i) && Pull(codec, w, p).1 == ConflictRaised
    ensures var w1 := Pull(codec, w, p).0;
            && w1.pages == w.pages && w1.records == w.records && i < |w1.rows|
            && w1.rows[i].externalId == p.page && !Stale(w1.pages, w1.rows[i], true)
            && (w1.rows[i].lastModifiedRemote.Some? <==> p.stamped)
  {
  }

  // ---------------------------------------------------------------- runs the guard gets wrong

  /** A push that meets no error; the provider stamps a write at remoteAt. */
  function PushAt(e: EntityRef, at: Time, remoteAt: Time, newId: string): PushCall {
    PushCall(e, false, Ready, true, true, at, remoteAt, Delivered, newId, true, true, true)
  }

  function PullAt(page: string, savedAt: Time, at: Time): PullCall {
    PullCall(page, true, Ready, true, true, true, true, savedAt, at, true, true)
  }

  lemma {:induction false} RunFirst<R, P, M, F>(
      codec: Codec<R, P, M, F>, w: World<R, P, M>, ev: Event<R, P>, evs: seq<Event<R, P>>)
    ensures Run(codec, w, [ev] + evs) == Run(codec, Step(codec, w, ev), evs)
    ensures Legal(codec, w, [ev] + evs) <==> Enabled(w, ev) && Legal(codec, Step(codec, w, ev), evs)
  {
    assert ([ev] + evs)[1..] == evs;
  }

  /** The ledger row of a record that was pushed once and never pulled. */
  function NewRow(e: EntityRef, at: Time): Row {
    Row(e, "p", Synced, Settled, 1, Timeless, Some(at), None, Some(at), false)
  }

  /** A record is saved and pushed for the first time. */
  lemma {:induction false} FirstPush<R(!new), P, M, F>(codec: Codec<R, P, M, F>, e: EntityRef, r: R)
    requires codec.toExternal(r).Some?
    ensures var evs := [UserEdit(e, r, 1), PushEvent(PushAt(e, 2, 10, "p"))];
            var m := codec.toExternal(r).value;
            && Legal(codec, Empty(), evs)
            && Run(codec, Empty(), evs) ==
               World(2, map[e := Local(r, 1)], {}, map["p" := Page(codec.write(codec.blank, m), 10, false)],
                     [NewRow(e, 2)], [Edited(e, r), Pushed(e, Some(m), true, true)])
  {
    var edit: Event<R, P> := UserEdit(e, r, 1);
    var push: Event<R, P> := PushEvent(PushAt(e, 2, 10, "p"));
    var w0: World<R, P, M> := Empty();
    var w1 := Step(codec, w0, edit);
    RunFirst(codec, w0, edit, [push]);
    RunFirst(codec, w1, push, []);
    assert [push] + [] == [push] && [edit] + [push] == [edit, push];
    assert w1.rows == [] && w1.records == map[e := Local(r, 1)];
  }

  /** A page that was pushed and never pulled has no observed version: an edit of it is overwritten
      by the next push, although no pull ever fetched it. */
  lemma {:induction false} UnseenEditIsOverwritten<R(!new), P, M, F>(
      codec: Codec<R, P, M, F>, e: EntityRef, r: R, edit: P, r': R)
    requires codec.toExternal(r).Some? && codec.toExternal(r').Some?
    ensures var evs := [UserEdit(e, r, 1), PushEvent(PushAt(e, 2, 10, "p"))] + [RemoteEdit("p", edit, 20), UserEdit(e, r', 3)];
            var c := PushAt(e, 4, 30, "q");
            && Legal(codec, Empty(), evs) && Enabled(Run(codec, Empty(), evs), PushEvent(c))
            && var w := Run(codec, Empty(), evs);
            && "p" in w.pages && w.pages["p"].props == edit && w.pages["p"].editedAt == 20
            && !Seen(w.journal, e, 20)
            && Push(codec, w, c).1 == Overwrote
            && "p" in Push(codec, w, c).0.pages
            && Push(codec, w, c).0.pages["p"].props == codec.write(edit, codec.toExternal(r').value)
  {
    FirstPush(codec, e, r);
    var evs: seq<Event<R, P>> := [UserEdit(e, r, 1), PushEvent(PushAt(e, 2, 10, "p"))];
    var w := Run(codec, Empty(), evs);
    var remote: Event<R, P> := RemoteEdit("p", edit, 20);
    var save: Event<R, P> := UserEdit(e, r', 3);
    var w1 := Step(codec, w, remote);
    var w2 := Step(codec, w1, save);
    RunFirst(codec, w, remote, [save]);
    RunFirst(codec, w1, save, []);
    assert [save] + [] == [save] && [remote] + [save] == [remote, save];
    RunAppends(codec, Empty(), evs, [remote, save]);
    assert w2.rows == [NewRow(e, 2)];
  }

  lemma {:induction false} RunAppends<R, P, M, F>(
      codec: Codec<R, P, M, F>, w: World<R, P, M>, evs: seq<Event<R, P>>, more: seq<Event<R, P>>)
    ensures Run(codec, w, evs + more) == Run(codec, Run(codec, w, evs), more)
    ensures Legal(codec, w, evs + more) <==> Legal(codec, w, evs) && Legal(codec, Run(codec, w, evs), more)
    decreases |evs|
  {
    hide Step, Enabled;
    if evs == [] {
      assert evs + more == more;
    } else {
      assert (evs + more)[1..] == evs[1..] + more;
      RunAppends(codec, Step(codec, w, evs[0]), evs[1..], more);
    }
  }

  /** Nobody but the engine touches the page, and yet a push of it raises a conflict: the second one
      after a pull. */
  lemma {:induction false} OwnWriteRaisesConflict<R(!new), P, M, F>(
      codec: Codec<R, P, M, F>, e: EntityRef, r: R, r': R, fields: F)
    requires codec.toExternal(r).Some? && codec.toExternal(r').Some?
    requires codec.fromExternal(r, codec.write(codec.blank, codec.toExternal(r).value)) == Some(fields)
    requires !codec.isEmpty(fields)
    ensures var evs := [UserEdit(e, r, 1), PushEvent(PushAt(e, 2, 10, "p"))]
                       + [PullEvent(PullAt("p", 3, 4)), UserEdit(e, r', 5), PushEvent(PushAt(e, 6, 20, "q"))];
            var c := PushAt(e, 7, 30, "s");
            && Legal(codec, Empty(), evs) && Enabled(Run(codec, Empty(), evs), PushEvent(c))
            && (forall k :: 0 <= k < |evs| ==> !evs[k].RemoteEdit?)
            && Push(codec, Run(codec, Empty(), evs), c).1 == ConflictRaised
  {
    FirstPush(codec, e, r);
    var evs: seq<Event<R, P>> := [UserEdit(e, r, 1), PushEvent(PushAt(e, 2, 10, "p"))];
    var w := Run(codec, Empty(), evs);
    var pull: Event<R, P> := PullEvent(PullAt("p", 3, 4));
    var save: Event<R, P> := UserEdit(e, r', 5);
    var push: Event<R, P> := PushEvent(PushAt(e, 6, 20, "q"));
    var w1 := Step(codec, w, pull);
    var w2 := Step(codec, w1, save);
    RunFirst(codec, w, pull, [save, push]);
    RunFirst(codec, w1, save, [push]);
    RunFirst(codec, w2, push, []);
    assert [push] + [] == [push] && [save] + [push] == [save, push] && [pull] + [save, push] == [pull, save, push];
    RunAppends(codec, Empty(), evs, [pull, save, push]);
    hide Legal;
    assert w2.rows == [NewRow(e, 2).(version := 2, source := External, lastModifiedRemote := Some(10), lastSyncedAt := Some(4))];
  }

  /** A record is saved, pushed, saved again and pushed again; the echo of the second push brings
      back whatever the page holds by then. */
  lemma {:induction false} SavedTwiceAndPulled<R(!new), P, M, F>(
      codec: Codec<R, P, M, F>, e: EntityRef, r: R, r': R, fields: F)
    requires codec.toExternal(r).Some? && codec.toExternal(r').Some?
    requires codec.fromExternal(r', codec.write(codec.write(codec.blank, codec.toExternal(r).value), codec.toExternal(r').value))
             == Some(fields)
    requires !codec.isEmpty(fields)
    ensures var evs := [UserEdit(e, r, 1), PushEvent(PushAt(e, 2, 10, "p"))]
                       + [UserEdit(e, r', 3), PushEvent(PushAt(e, 4, 20, "q")), PullEvent(PullAt("p", 5, 6))];
            && Legal(codec, Empty(), evs)
            && Run(codec, Empty(), evs).records == map[e := Local(codec.apply(r', fields), 5)]
            && (exists k :: LastEditIs(Run(codec, Empty(), evs).journal, e, r', k))
  {
    FirstPush(codec, e, r);
    var evs: seq<Event<R, P>> := [UserEdit(e, r, 1), PushEvent(PushAt(e, 2, 10, "p"))];
    var w := Run(codec, Empty(), evs);
    var save: Event<R, P> := UserEdit(e, r', 3);
    var push: Event<R, P> := PushEvent(PushAt(e, 4, 20, "q"));
    var pull: Event<R, P> := PullEvent(PullAt("p", 5, 6));
    var w1 := Step(codec, w, save);
    var w2 := Step(codec, w1, push);
    RunFirst(codec, w, save, [push, pull]);
    RunFirst(codec, w1, push, [pull]);
    RunFirst(codec, w2, pull, []);
    assert [pull] + [] == [pull] && [push] + [pull] == [push, pull] && [save] + [push, pull] == [save, push, pull];
    RunAppends(codec, Empty(), evs, [save, push, pull]);
    assert w2.rows == [NewRow(e, 4).(version := 2)];
    assert LastEditIs(Run(codec, w, [save, push, pull]).journal, e, r', 2);
  }

  /** The user saved the record as r in entry k of the journal, and not since. */
  ghost predicate LastEditIs<R, M>(journal: seq<Entry<R, M>>, e: EntityRef, r: R, k: nat) {
    IsLastEdit(journal, e, k) && journal[k].record == r
  }
}
