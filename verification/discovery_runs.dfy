/** Sync runs against a changing workspace: the watermark is committed last, so nothing present at
    a run is lost, and each run pages through what the watermark leaves. */
module DiscoveryRuns {
  import opened Discovery
  import opened Wrappers

  // ---------------------------------------------------------------- the search endpoint

  function Lo(feed: seq<Item>, p: nat): nat {
    if PAGE_SIZE * p <= |feed| then PAGE_SIZE * p else |feed|
  }

  function Somes(items: seq<Item>): (results: seq<Option<Item>>) {
    if items == [] then [] else Somes(items[..|items| - 1]) + [Some(items[|items| - 1])]
  }

  /** The endpoint serves a feed in pages, failing on some of them. */
  function Serve(feed: seq<Item>, fails: nat -> bool): nat -> Reply {
    (p: nat) => if fails(p) then Failed else Page(Somes(feed[Lo(feed, p)..Lo(feed, p + 1)]), PAGE_SIZE * (p + 1) < |feed|)
  }

  /** The first page from p on that is not delivered: it fails, or is beyond the cap. */
  function Reach(fails: nat -> bool, p: nat): (r: nat)
    requires p <= MAX_SEARCH_PAGES
    ensures p <= r <= MAX_SEARCH_PAGES
    ensures r < MAX_SEARCH_PAGES ==> fails(r)
    ensures r == p <==> p == MAX_SEARCH_PAGES || fails(p)
    decreases MAX_SEARCH_PAGES - p
  {
    if p == MAX_SEARCH_PAGES || fails(p) then p else Reach(fails, p + 1)
  }

  lemma {:induction false} DecodedSomes(items: seq<Item>)
    ensures Decoded(Somes(items)) == items
  {
    if items != [] {
      var n := |items| - 1;
      DecodedSomes(items[..n]);
      assert Somes(items)[..|Somes(items)| - 1] == Somes(items[..n]);
    }
  }

  lemma {:induction false} ServedPage(feed: seq<Item>, fails: nat -> bool, p: nat)
    requires p < MAX_SEARCH_PAGES && !fails(p)
    ensures var replies := Serve(feed, fails);
            && Lo(feed, p) <= Lo(feed, p + 1)
            && Stream(replies, p) == feed[Lo(feed, p)..Lo(feed, p + 1)]
                                     + (if PAGE_SIZE * (p + 1) < |feed| then Stream(replies, p + 1) else [])
            && (Breaks(replies, p) <==> PAGE_SIZE * (p + 1) < |feed| && Breaks(replies, p + 1))
  {
    hide Stream, Breaks, Decoded, Somes;
    DecodedSomes(feed[Lo(feed, p)..Lo(feed, p + 1)]);
    StreamStep(Serve(feed, fails), p);
  }

  lemma {:induction false} UnservedPage(feed: seq<Item>, fails: nat -> bool, p: nat)
    requires p <= MAX_SEARCH_PAGES && (p == MAX_SEARCH_PAGES || fails(p))
    ensures Stream(Serve(feed, fails), p) == []
    ensures Breaks(Serve(feed, fails), p) <==> p < MAX_SEARCH_PAGES
  {
  }

  lemma {:induction false} LoGrows(feed: seq<Item>, p: nat, q: nat)
    requires p <= q
    ensures PAGE_SIZE * p <= PAGE_SIZE * q
    ensures Lo(feed, p) <= Lo(feed, q) <= |feed| && (PAGE_SIZE * p >= |feed| ==> Lo(feed, p) == |feed| == Lo(feed, q))
  {
  }

  /** The pages from p on deliver the feed from there to the first page not delivered. */
  lemma {:induction false} StreamServes(feed: seq<Item>, fails: nat -> bool, p: nat)
    requires p <= MAX_SEARCH_PAGES
    ensures Lo(feed, p) <= Lo(feed, Reach(fails, p))
    ensures Stream(Serve(feed, fails), p) == feed[Lo(feed, p)..Lo(feed, Reach(fails, p))]
    ensures Breaks(Serve(feed, fails), p) <==>
              Reach(fails, p) < MAX_SEARCH_PAGES && (Reach(fails, p) == p || PAGE_SIZE * Reach(fails, p) < |feed|)
    decreases MAX_SEARCH_PAGES - p
  {
    hide Stream, Breaks, Serve, Lo;
    LoGrows(feed, p, Reach(fails, p));
    if p < MAX_SEARCH_PAGES && !fails(p) {
      ServedPage(feed, fails, p);
      StreamServes(feed, fails, p + 1);
      var r := Reach(fails, p);
      assert r == Reach(fails, p + 1) && r > p;
      LoGrows(feed, p, p + 1);
      LoGrows(feed, p + 1, r);
      if PAGE_SIZE * (p + 1) < |feed| {
        assert feed[Lo(feed, p)..Lo(feed, r)] == feed[Lo(feed, p)..Lo(feed, p + 1)] + feed[Lo(feed, p + 1)..Lo(feed, r)];
      } else {
        assert PAGE_SIZE * r >= |feed| && Lo(feed, p + 1) == Lo(feed, r);
      }
    } else {
      UnservedPage(feed, fails, p);
    }
  }

  // ---------------------------------------------------------------- a run

  ghost predicate NewestFirst(feed: seq<Item>) {
    && (forall i :: 0 <= i < |feed| ==> feed[i].edited > 0)
    && (forall i, j :: 0 <= i < j < |feed| ==> feed[i].edited >= feed[j].edited)
  }

  lemma {:induction false} UnknownIsNewer(feed: seq<Item>, watermark: nat, item: Item)
    requires NewestFirst(feed)
    ensures item in Unknown(feed, watermark) <==> item in feed && item.edited > watermark
  {
    var prefix := Unknown(feed, watermark);
    if item in feed && item.edited > watermark {
      var i :| 0 <= i < |feed| && feed[i] == item;
      assert i < |prefix|;
      assert prefix[i] == item;
    }
    if item in prefix {
      var i :| 0 <= i < |prefix| && prefix[i] == item;
      assert feed[i] == item && !Known(item, watermark);
    }
  }

  lemma {:induction false} UnknownOfPrefix(feed: seq<Item>, n: nat, watermark: nat)
    requires n <= |feed|
    ensures Unknown(feed[..n], watermark) ==
            if |Unknown(feed, watermark)| <= n then Unknown(feed, watermark) else feed[..n]
  {
    hide Known;
    assert feed == feed[..n] + feed[n..];
    UnknownAppend(feed[..n], feed[n..], watermark);
    assert Unknown(feed[..n], watermark) <= feed[..n];
  }

  /** How far storing the results gets: contacts come first, then notes, and the first error ends
      the run. */
  datatype Ingestion = AllStored | ContactsFail(stored: nat) | NotesFail(stored: nat)

  /** One run's fortune: failing pages, how ingestion ends, whether the config is saved. */
  datatype Run = Run(fails: nat -> bool, ingestion: Ingestion, saved: bool)

  function Delivered(feed: seq<Item>, run: Run): (n: nat)
    ensures n <= |feed|
  {
    Lo(feed, Reach(run.fails, 0))
  }

  function Results(feed: seq<Item>, run: Run, watermark: nat): seq<Item> {
    Unknown(feed[..Delivered(feed, run)], watermark)
  }

  /** Every item newer than the watermark is on a page that is delivered. */
  ghost predicate Complete(feed: seq<Item>, run: Run, watermark: nat) {
    |Unknown(feed, watermark)| <= PAGE_SIZE * Reach(run.fails, 0)
  }

  /** A run returns exactly the feed's items newer than the watermark, newest first, if and only
      if they all fit on the pages before the first failure and the cap. */
  lemma {:induction false} ReturnsNewerExactly(feed: seq<Item>, run: Run, watermark: nat)
    requires NewestFirst(feed)
    ensures Unknown(Stream(Serve(feed, run.fails), 0), watermark) == Results(feed, run, watermark)
    ensures forall item :: item in Unknown(feed, watermark) <==> item in feed && item.edited > watermark
    ensures Results(feed, run, watermark) == Unknown(feed, watermark) <==> Complete(feed, run, watermark)
    ensures Results(feed, run, watermark) <= Unknown(feed, watermark)
  {
    hide Unknown, Serve, Stream, Reach, NewestFirst;
    StreamServes(feed, run.fails, 0);
    UnknownOfPrefix(feed, Delivered(feed, run), watermark);
    forall item ensures item in Unknown(feed, watermark) <==> item in feed && item.edited > watermark {
      UnknownIsNewer(feed, watermark, item);
    }
  }

  lemma {:induction false} NoPageFails(fails: nat -> bool, p: nat)
    requires p <= MAX_SEARCH_PAGES && forall q :: !fails(q)
    ensures Reach(fails, p) == MAX_SEARCH_PAGES
    decreases MAX_SEARCH_PAGES - p
  {
    if p < MAX_SEARCH_PAGES {
      NoPageFails(fails, p + 1);
    }
  }

  /** Without a failing page a run reaches the two thousand newest items, and is complete exactly when
      no more are new. */
  lemma {:induction false} TwoThousandAreReached(feed: seq<Item>, run: Run, watermark: nat)
    requires forall q :: !run.fails(q)
    ensures Delivered(feed, run) == if |feed| < 2000 then |feed| else 2000
    ensures Complete(feed, run, watermark) <==> |Unknown(feed, watermark)| <= 2000
  {
    NoPageFails(run.fails, 0);
  }

  /** A workspace, what the worker knows of it, and what it stored. A contact that is stored
      already is not stored again; a note is, every time. reported are the results of the runs
      whose ingestion succeeded. */
  datatype Sync = Sync(watermark: nat, feed: seq<Item>, reported: seq<Item>, contacts: set<Item>, notes: seq<Item>)

  function Take(items: seq<Item>, n: nat): seq<Item> {
    if n < |items| then items[..n] else items
  }

  function Items(items: seq<Item>): set<Item> {
    set item | item in items
  }

  /** The ingestion of this many results meets no error. */
  predicate Stores(ingestion: Ingestion, n: nat) {
    ingestion.AllStored? || ingestion.stored >= n
  }

  predicate Ingests(s: Sync, run: Run) {
    !run.fails(0) && Stores(run.ingestion, |Results(s.feed, run, s.watermark)|)
  }

  /** The tables after ingestion, successful or not. */
  function Ingest(s: Sync, found: seq<Item>, ingestion: Ingestion): Sync {
    match ingestion
    case AllStored => s.(contacts := s.contacts + Items(found), notes := s.notes + found)
    case NotesFail(n) => s.(contacts := s.contacts + Items(found), notes := s.notes + Take(found, n))
    case ContactsFail(n) =>
      s.(contacts := s.contacts + Items(Take(found, n)), notes := if n >= |found| then s.notes + found else s.notes)
  }

  /** Sync gives up without results only when the first page fails; otherwise even a partial
      result is ingested, and if that succeeds the watermark moves to the newest item seen. */
  function AfterRun(s: Sync, run: Run): Sync {
    if run.fails(0) then s
    else
      var found := Results(s.feed, run, s.watermark);
      var s' := Ingest(s, found, run.ingestion);
      if !Stores(run.ingestion, |found|) then s'
      else
        s'.(watermark := if run.saved && s.feed != [] then s.feed[0].edited else s.watermark,
            reported := s.reported + found)
  }

  /** What a run leaves, by how it ends: without a first page nothing; stopped among the contacts,
      those before the stop; among the notes, all contacts and the notes before the stop; otherwise
      everything, reported, and the watermark at the newest item if the config is saved. */
  lemma {:induction false} RunLeaves(s: Sync, run: Run)
    ensures var found, s' := Results(s.feed, run, s.watermark), AfterRun(s, run);
            && s'.feed == s.feed
            && (run.fails(0) ==> s' == s)
            && (!run.fails(0) && run.ingestion.ContactsFail? && run.ingestion.stored < |found| ==>
                  && s'.contacts == s.contacts + (set i | 0 <= i < run.ingestion.stored :: found[i])
                  && s'.notes == s.notes && s'.reported == s.reported && s'.watermark == s.watermark)
            && (!run.fails(0) && run.ingestion.NotesFail? && run.ingestion.stored < |found| ==>
                  && s'.contacts == s.contacts + (set i | 0 <= i < |found| :: found[i])
                  && s'.notes == s.notes + found[..run.ingestion.stored]
                  && s'.reported == s.reported && s'.watermark == s.watermark)
            && (!run.fails(0) && (run.ingestion.AllStored? || run.ingestion.stored >= |found|) ==>
                  && s'.contacts == s.contacts + (set i | 0 <= i < |found| :: found[i])
                  && s'.notes == s.notes + found && s'.reported == s.reported + found
                  && s'.watermark == if run.saved && s.feed != [] then s.feed[0].edited else s.watermark)
  {
    hide Results;
    var found := Results(s.feed, run, s.watermark);
    ItemsByIndex(found);
    if !run.ingestion.AllStored? {
      ItemsByIndex(Take(found, run.ingestion.stored));
    }
  }

  lemma {:induction false} ItemsByIndex(items: seq<Item>)
    ensures Items(items) == set i | 0 <= i < |items| :: items[i]
  {
  }

  // ---------------------------------------------------------------- the integration's config

  /** A JSON value; other kinds than objects and timestamp strings are numbered. */
  datatype Value = Object(fields: map<string, Value>) | Stamp(time: nat) | Other(kind: nat)

  /** A config column; None is not a JSON object. */
  type Config = Option<map<string, Value>>

  function ExtractState(config: Config): map<string, Value> {
    if config.Some? && STATE in config.value && config.value[STATE].Object?
    then config.value[STATE].fields
    else map[]
  }

  function Watermark(state: map<string, Value>): nat {
    if "watermark" in state && state["watermark"].Stamp? then state["watermark"].time else 0
  }

  /** The loop over the new state. */
  method MergeState(base: map<string, Value>, state: map<string, Value>) returns (existingState: map<string, Value>)
    ensures existingState == base + state
  {
    existingState := base;
    var rest := state.Keys;
    ghost var merged: map<string, Value> := map[];
    while rest != {}
      invariant rest <= state.Keys && merged.Keys == state.Keys - rest
      invariant forall k :: k in merged ==> merged[k] == state[k]
      invariant existingState == base + merged
      decreases |rest|
    {
      var k :| k in rest;
      existingState := existingState[k := state[k]];
      merged := merged[k := state[k]];
      rest := rest - {k};
    }
    assert merged == state;
  }

  const STATE := "state"
  const DETAILS := "details"

  lemma {:induction false} NamesDiffer()
    ensures STATE != DETAILS
  {
    assert |STATE| == 5 && |DETAILS| == 7;
  }

  method MergeConfig(oldConfig: Config, details: map<string, Value>, state: map<string, Value>) returns (r: Config)
    ensures r.Some? && ExtractState(r) == ExtractState(oldConfig) + state
    ensures DETAILS in r.value && r.value[DETAILS] == Object(details)
    ensures "state" in r.value && r.value["state"] == Object(ExtractState(oldConfig) + state)
    ensures "details" in r.value && r.value["details"] == Object(details)
    ensures oldConfig.Some? ==>
              forall k :: k != STATE && k != DETAILS ==>
                            (k in oldConfig.value <==> k in r.value)
                            && (k in oldConfig.value ==> r.value[k] == oldConfig.value[k])
  {
    var existing := if oldConfig.Some? then oldConfig.value else map[];
    var existingState := MergeState(ExtractState(oldConfig), state);
    NamesDiffer();
    existing := existing[STATE := Object(existingState)];
    existing := existing[DETAILS := Object(details)];
    r := Some(existing);
  }

  /** The watermark a config holds, where it holds one as a text under "state". */
  lemma {:induction false} StoredWatermark(config: map<string, Value>, state: map<string, Value>, time: nat)
    ensures Watermark(ExtractState(Some(config["state" := Object(state["watermark" := Stamp(time)])]))) == time
    ensures "watermark" !in state ==> Watermark(ExtractState(Some(config["state" := Object(state)]))) == 0
    ensures "state" !in config ==> Watermark(ExtractState(Some(config))) == 0
    ensures Watermark(ExtractState(None)) == 0
  {
  }

  class Worker {
    var config: Config
    var reported: seq<Item>
    var contacts: set<Item>
    var notes: seq<Item>

    constructor (config: Config)
      ensures this.config == config && reported == [] && contacts == {} && notes == []
    {
      this.config, reported, contacts, notes := config, [], {}, [];
    }

    function State(feed: seq<Item>): Sync
      reads this
    {
      Sync(Watermark(ExtractState(config)), feed, reported, contacts, notes)
    }

    /** Each contact is stored unless it is there; the first error ends it. */
    method IngestContacts(results: seq<Item>, failAt: Option<nat>) returns (err: bool)
      modifies this`contacts
      ensures err <==> failAt.Some? && failAt.value < |results|
      ensures contacts == old(contacts) + Items(if err then results[..failAt.value] else results)
    {
      for i := 0 to |results|
        invariant contacts == old(contacts) + Items(results[..i])
        invariant failAt.Some? ==> i <= failAt.value
      {
        if failAt == Some(i) {
          return true;
        }
        assert results[..i + 1] == results[..i] + [results[i]];
        if results[i] !in contacts {
          contacts := contacts + {results[i]};
        }
      }
      assert results[..|results|] == results;
      return false;
    }

    /** Every note is stored anew. */
    method IngestNotes(results: seq<Item>, failAt: Option<nat>) returns (err: bool)
      modifies this`notes
      ensures err <==> failAt.Some? && failAt.value < |results|
      ensures notes == old(notes) + if err then results[..failAt.value] else results
    {
      for i := 0 to |results|
        invariant notes == old(notes) + results[..i]
        invariant failAt.Some? ==> i <= failAt.value
      {
        if failAt == Some(i) {
          return true;
        }
        assert results[..i + 1] == results[..i] + [results[i]];
        notes := notes + [results[i]];
      }
      assert results[..|results|] == results;
      return false;
    }

    /** Contacts, then notes, up to the first error. */
    method IngestResults(ghost feed: seq<Item>, results: seq<Item>, ingestion: Ingestion) returns (ok: bool)
      modifies this`contacts, this`notes
      ensures ok <==> Stores(ingestion, |results|)
      ensures State(feed) == Ingest(old(State(feed)), results, ingestion)
    {
      var err := IngestContacts(results, if ingestion.ContactsFail? then Some(ingestion.stored) else None);
      if err {
        return false;
      }
      err := IngestNotes(results, if ingestion.NotesFail? then Some(ingestion.stored) else None);
      return !err;
    }

    /** The part of run that moves the watermark, which is written last. */
    method RunOnce(feed: seq<Item>, run: Run, details: map<string, Value>) returns (ok: bool)
      requires NewestFirst(feed)
      modifies this
      ensures State(feed) == AfterRun(old(State(feed)), run)
      ensures ok <==> Ingests(old(State(feed)), run)
      ensures !ok || !run.saved ==> config == old(config)
    {
      hide Unknown, Serve, Stream, Breaks, Newest, NewestFirst, Ingest, Stores, Results;
      var state := ExtractState(config);
      var watermark := Watermark(state);
      var all, newestSeen, failed := DiscoverAll(Serve(feed, run.fails), watermark);
      RunFacts(feed, run, watermark);
      if failed && |all| == 0 {
        return false;
      }
      if newestSeen == 0 {
        newestSeen := watermark;
      }
      var stored := IngestResults(feed, all, run.ingestion);
      if !stored {
        return false;
      }
      reported := reported + all;
      var newConfig := MergeConfig(config, details, map["watermark" := Stamp(newestSeen)]);
      if run.saved {
        config := newConfig;
      }
      return true;
    }
  }

  lemma {:induction false} RunFacts(feed: seq<Item>, run: Run, watermark: nat)
    requires NewestFirst(feed)
    ensures var replies := Serve(feed, run.fails);
            && Unknown(Stream(replies, 0), watermark) == Results(feed, run, watermark)
            && ((Breaks(replies, 0) && Results(feed, run, watermark) == Stream(replies, 0)
                 && Results(feed, run, watermark) == []) <==> run.fails(0))
            && Newest(replies, watermark) == (if run.fails(0) || feed == [] then watermark else feed[0].edited)
            && (feed != [] ==> feed[0].edited > 0)
  {
    hide Unknown, Reach, Stream, Breaks, Serve, Newest;
    var replies := Serve(feed, run.fails);
    StreamServes(feed, run.fails, 0);
    EmptyUnknown(watermark);
    NewestServed(feed, run.fails, watermark);
  }

  lemma {:induction false} NewestServed(feed: seq<Item>, fails: nat -> bool, watermark: nat)
    ensures Newest(Serve(feed, fails), watermark) == if fails(0) || feed == [] then watermark else feed[0].edited
  {
    hide Somes, Decoded;
    DecodedSomes(feed[Lo(feed, 0)..Lo(feed, 1)]);
  }

  lemma {:induction false} EmptyUnknown(watermark: nat)
    ensures Unknown([], watermark) == []
  {
  }

  // ---------------------------------------------------------------- runs and edits over time

  datatype Event = Edited(id: string, at: nat) | Ran(run: Run)

  /** Editing a page gives it a new version, at the head of the feed. */
  function Without(feed: seq<Item>, id: string): seq<Item> {
    if feed == [] then []
    else Without(feed[..|feed| - 1], id) + (if feed[|feed| - 1].id == id then [] else [feed[|feed| - 1]])
  }

  function Step(s: Sync, e: Event): Sync {
    match e
    case Edited(id, at) => s.(feed := [Item(id, at)] + Without(s.feed, id))
    case Ran(run) => AfterRun(s, run)
  }

  /** The workspace's clock does not run backwards. */
  predicate Enabled(s: Sync, e: Event) {
    e.Edited? ==> e.at > 0 && (s.feed != [] ==> e.at >= s.feed[0].edited)
  }

  function Play(s: Sync, es: seq<Event>): Sync {
    if es == [] then s else Step(Play(s, es[..|es| - 1]), es[|es| - 1])
  }

  ghost predicate Legal(s: Sync, es: seq<Event>) {
    forall i :: 0 <= i < |es| ==> Enabled(Play(s, es[..i]), es[i])
  }

  /** The worker has never run on this workspace. */
  predicate Untouched(s: Sync) {
    s.watermark == 0 && s.reported == [] && s.contacts == {} && s.notes == []
  }

  ghost predicate Consistent(s: Sync) {
    && NewestFirst(s.feed)
    && (s.feed == [] ==> s.watermark == 0)
    && (s.feed != [] ==> s.watermark <= s.feed[0].edited)
  }

  lemma {:induction false} WithoutIsSorted(feed: seq<Item>, id: string, bound: nat)
    requires NewestFirst(feed) && (feed != [] ==> bound >= feed[0].edited)
    ensures NewestFirst(Without(feed, id))
    ensures forall i :: 0 <= i < |Without(feed, id)| ==> Without(feed, id)[i].edited <= bound && Without(feed, id)[i] in feed
    ensures feed != [] ==> forall i :: 0 <= i < |Without(feed, id)| ==> Without(feed, id)[i].edited >= feed[|feed| - 1].edited
  {
    if feed != [] {
      var n := |feed| - 1;
      var front := feed[..n];
      WithoutIsSorted(front, id, bound);
      if n > 0 {
        assert front[n - 1] == feed[n - 1] && front[0] == feed[0];
      }
    }
  }

  lemma {:induction false} StepIsConsistent(s: Sync, e: Event)
    requires Consistent(s) && Enabled(s, e)
    ensures Consistent(Step(s, e)) && Step(s, e).watermark >= s.watermark
  {
    hide Results;
    if e.Edited? {
      WithoutIsSorted(s.feed, e.id, e.at);
    }
  }

  lemma {:induction false} PlayIsConsistent(s: Sync, es: seq<Event>)
    requires Consistent(s) && Legal(s, es)
    ensures Consistent(Play(s, es)) && Play(s, es).watermark >= s.watermark
  {
    hide Consistent, Enabled, Step;
    if es != [] {
      var n := |es| - 1;
      assert forall i :: 0 <= i < n ==> es[..n][..i] == es[..i];
      PlayIsConsistent(s, es[..n]);
      StepIsConsistent(Play(s, es[..n]), es[n]);
    }
  }

  // ---------------------------------------------------------------- nothing is lost

  /** Whatever the watermark hides has been reported. */
  ghost predicate Covered(s: Sync) {
    forall item :: item in s.feed && item.edited <= s.watermark ==> item in s.reported
  }

  /** Every newer version on a page that is not delivered was reported before. */
  ghost predicate SkipsNothing(s: Sync, run: Run) {
    forall i :: Delivered(s.feed, run) <= i < |s.feed| && s.feed[i].edited > s.watermark ==> s.feed[i] in s.reported
  }

  /** An edit is stamped later than the watermark, or is a version reported already; a run that
      commits its watermark skips nothing. */
  ghost predicate Timely(s: Sync, e: Event) {
    match e
    case Edited(id, at) => at > s.watermark || Item(id, at) in s.reported
    case Ran(run) => Ingests(s, run) && run.saved ==> SkipsNothing(s, run)
  }

  lemma {:induction false} FoundExactly(s: Sync, run: Run, item: Item)
    requires NewestFirst(s.feed)
    ensures item in Results(s.feed, run, s.watermark)
            <==> item in s.feed[..Delivered(s.feed, run)] && item.edited > s.watermark
  {
    hide Unknown, Delivered;
    UnknownIsNewer(s.feed[..Delivered(s.feed, run)], s.watermark, item);
  }

  lemma {:induction false} RunCovers(s: Sync, run: Run)
    requires Consistent(s) && Covered(s)
    requires Ingests(s, run) && SkipsNothing(s, run)
    ensures forall item :: item in s.feed ==> item in AfterRun(s, run).reported
  {
    hide Results, Delivered;
    var n := Delivered(s.feed, run);
    forall i | 0 <= i < |s.feed| ensures s.feed[i] in AfterRun(s, run).reported {
      FoundExactly(s, run, s.feed[i]);
      if i < n {
        assert s.feed[..n][i] == s.feed[i];
      }
    }
  }

  lemma {:induction false} SkippedIsNotReported(s: Sync, run: Run, i: nat)
    requires Consistent(s) && DistinctIds(s.feed) && Ingests(s, run)
    requires Delivered(s.feed, run) <= i < |s.feed| && s.feed[i] !in s.reported
    ensures s.feed[i] !in AfterRun(s, run).reported
  {
    hide Results, Delivered;
    FoundExactly(s, run, s.feed[i]);
    assert s.feed[i] !in s.feed[..Delivered(s.feed, run)];
  }

  /** Whatever the watermark hides stays reported over a step if and only if the step is timely. */
  lemma {:induction false} StepCoversExactly(s: Sync, e: Event)
    requires Consistent(s) && Enabled(s, e) && Covered(s)
    ensures Timely(s, e) ==> Covered(Step(s, e))
    ensures DistinctIds(s.feed) && Covered(Step(s, e)) ==> Timely(s, e)
  {
    hide Results, Delivered;
    if e.Edited? {
      WithoutIsSorted(s.feed, e.id, e.at);
      assert Step(s, e).feed[0] == Item(e.id, e.at);
    } else if Ingests(s, e.run) && e.run.saved {
      if SkipsNothing(s, e.run) {
        RunCovers(s, e.run);
      } else if DistinctIds(s.feed) {
        var i :| Delivered(s.feed, e.run) <= i < |s.feed| && s.feed[i].edited > s.watermark && s.feed[i] !in s.reported;
        SkippedIsNotReported(s, e.run, i);
      }
    }
  }

  /** No version present at a committed run is ever lost: after any run of edits and syncs, failed
      ones included, everything at or below the watermark has been reported. */
  lemma {:induction false} NothingIsLost(s: Sync, es: seq<Event>)
    requires Untouched(s) && NewestFirst(s.feed) && Legal(s, es)
    requires forall i :: 0 <= i < |es| ==> Timely(Play(s, es[..i]), es[i])
    ensures Covered(Play(s, es))
  {
    hide Enabled, Timely, Step;
    if es == [] {
    } else {
      var n := |es| - 1;
      assert forall i :: 0 <= i < n ==> es[..n][..i] == es[..i];
      NothingIsLost(s, es[..n]);
      PlayIsConsistent(s, es[..n]);
      StepCoversExactly(Play(s, es[..n]), es[n]);
    }
  }

  lemma {:induction false} PlayKeepsIds(s: Sync, es: seq<Event>)
    requires DistinctIds(s.feed)
    ensures DistinctIds(Play(s, es).feed)
  {
    hide AfterRun;
    if es != [] {
      var n := |es| - 1;
      PlayKeepsIds(s, es[..n]);
      if es[n].Edited? {
        WithoutIsDistinct(Play(s, es[..n]).feed, es[n].id);
      } else {
        RunKeepsFeed(Play(s, es[..n]), es[n].run);
      }
    }
  }

  lemma {:induction false} RunKeepsFeed(s: Sync, run: Run)
    ensures AfterRun(s, run).feed == s.feed
  {
    hide Results;
  }

  lemma {:induction false} UntimelyLoses(s: Sync, es: seq<Event>, i: nat)
    requires Untouched(s) && NewestFirst(s.feed) && DistinctIds(s.feed) && Legal(s, es)
    requires i < |es| && !Timely(Play(s, es[..i]), es[i])
    ensures Covered(Play(s, es[..i])) ==> !Covered(Play(s, es[..i + 1]))
  {
    hide Enabled, Step, Consistent, Timely, Covered, Untouched, NewestFirst, DistinctIds;
    var before, now := es[..i], es[..i + 1];
    assert now[..|now| - 1] == before && now[i] == es[i];
    assert forall k :: 0 <= k < i ==> before[..k] == es[..k];
    StartIsConsistent(s);
    PlayIsConsistent(s, before);
    PlayKeepsIds(s, before);
    if Covered(Play(s, before)) {
      StepCoversExactly(Play(s, before), es[i]);
    }
  }

  /** ... all along if and only if every step is timely. */
  lemma {:induction false} NothingIsLostExactly(s: Sync, es: seq<Event>)
    requires Untouched(s) && NewestFirst(s.feed) && DistinctIds(s.feed) && Legal(s, es)
    ensures (forall k :: 0 <= k <= |es| ==> Covered(Play(s, es[..k])))
            <==> forall i :: 0 <= i < |es| ==> Timely(Play(s, es[..i]), es[i])
  {
    hide Play, Legal, Timely, Covered, Untouched, NewestFirst, DistinctIds;
    if forall i :: 0 <= i < |es| ==> Timely(Play(s, es[..i]), es[i]) {
      forall k | 0 <= k <= |es| ensures Covered(Play(s, es[..k])) {
        assert forall i :: 0 <= i < k ==> es[..k][..i] == es[..i];
        PrefixIsLegal(s, es, k);
        NothingIsLost(s, es[..k]);
      }
    } else {
      var i :| 0 <= i < |es| && !Timely(Play(s, es[..i]), es[i]);
      UntimelyLoses(s, es, i);
    }
  }

  /** A run that ingests leaves every version in the feed reported if and only if it skips nothing. */
  lemma {:induction false} CommittedRunReportsAll(s: Sync, es: seq<Event>, run: Run)
    requires Untouched(s) && NewestFirst(s.feed) && DistinctIds(s.feed) && Legal(s, es)
    requires forall i :: 0 <= i < |es| ==> Timely(Play(s, es[..i]), es[i])
    requires Ingests(Play(s, es), run)
    ensures (forall item :: item in Play(s, es).feed ==> item in AfterRun(Play(s, es), run).reported)
            <==> SkipsNothing(Play(s, es), run)
  {
    hide Enabled, Timely, Step, AfterRun, Play, Results, Delivered, Covered, Legal, Untouched;
    NothingIsLost(s, es);
    StartIsConsistent(s);
    PlayIsConsistent(s, es);
    PlayKeepsIds(s, es);
    var now := Play(s, es);
    if SkipsNothing(now, run) {
      RunCovers(now, run);
    } else {
      var i :| Delivered(now.feed, run) <= i < |now.feed| && now.feed[i].edited > now.watermark && now.feed[i] !in now.reported;
      SkippedIsNotReported(now, run, i);
    }
  }

  lemma {:induction false} CompleteSkipsNothing(s: Sync, run: Run)
    requires NewestFirst(s.feed) && Complete(s.feed, run, s.watermark)
    ensures SkipsNothing(s, run)
  {
    hide Unknown, Reach;
    var prefix := Unknown(s.feed, s.watermark);
    forall i | |prefix| <= i < |s.feed| ensures s.feed[i].edited <= s.watermark {
      assert s.feed[|prefix|].edited >= s.feed[i].edited;
    }
  }

  /** When no version is reported twice or about to be, a committed run covers if and only if it is
      complete: an incomplete one moves the watermark over a version it did not report. */
  lemma {:induction false} CommitCoversExactly(s: Sync, run: Run)
    requires Consistent(s) && Covered(s) && OnceEach(s) && Ingests(s, run) && run.saved
    ensures Covered(AfterRun(s, run)) <==> Complete(s.feed, run, s.watermark)
  {
    hide Unknown, Reach;
    if Complete(s.feed, run, s.watermark) {
      CompleteSkipsNothing(s, run);
      RunCovers(s, run);
    } else {
      var version := PassesOver(s, run);
    }
  }

  lemma {:induction false} PassesOver(s: Sync, run: Run) returns (version: Item)
    requires Consistent(s) && OnceEach(s) && Ingests(s, run) && run.saved
    requires !Complete(s.feed, run, s.watermark)
    ensures version in s.feed && s.watermark < version.edited <= AfterRun(s, run).watermark
    ensures version !in AfterRun(s, run).reported
    ensures Delivered(s.feed, run) < |s.feed| && version == s.feed[Delivered(s.feed, run)]
  {
    hide Reach, Known;
    var n := Delivered(s.feed, run);
    UnknownOfPrefix(s.feed, n, s.watermark);
    assert n < |Unknown(s.feed, s.watermark)|;
    version := s.feed[n];
    assert Unknown(s.feed, s.watermark)[n] == version;
    UnknownIsNewer(s.feed, s.watermark, version);
    assert forall i :: 0 <= i < n ==> s.feed[..n][i] == s.feed[i];
  }

  lemma {:induction false} StaysUnreported(s: Sync, e: Event, version: Item)
    requires 0 < version.edited <= s.watermark && version !in s.reported
    ensures version !in Step(s, e).reported
  {
    hide Results, Ingest;
    if e.Ran? {
      ResultsAreNewer(s.feed, e.run, s.watermark, version);
      IngestKeepsReports(s, Results(s.feed, e.run, s.watermark), e.run.ingestion);
    }
  }

  lemma {:induction false} IngestKeepsReports(s: Sync, found: seq<Item>, ingestion: Ingestion)
    ensures Ingest(s, found, ingestion).reported == s.reported
    ensures Ingest(s, found, ingestion).feed == s.feed && Ingest(s, found, ingestion).watermark == s.watermark
  {
  }

  /** ... and what is passed over stays so: a version at or below the watermark that has not been
      reported never is, whatever follows. */
  lemma {:induction false} PassedOverIsFinal(s: Sync, es: seq<Event>, version: Item)
    requires Consistent(s) && Legal(s, es)
    requires 0 < version.edited <= s.watermark && version !in s.reported
    ensures version !in Play(s, es).reported
  {
    hide Enabled, Consistent, Step;
    if es != [] {
      var n := |es| - 1;
      assert forall i :: 0 <= i < n ==> es[..n][..i] == es[..i];
      PassedOverIsFinal(s, es[..n], version);
      PlayIsConsistent(s, es[..n]);
      StaysUnreported(Play(s, es[..n]), es[n], version);
    }
  }

  /** An edit stamped no later than the watermark, if it is a new version, is never reported. */
  lemma {:induction false} UntimelyEditIsLost(s: Sync, id: string, at: nat, es: seq<Event>)
    requires Consistent(s) && Enabled(s, Edited(id, at)) && !Timely(s, Edited(id, at))
    requires Legal(Step(s, Edited(id, at)), es)
    ensures Item(id, at) in Step(s, Edited(id, at)).feed
    ensures Item(id, at) !in Play(Step(s, Edited(id, at)), es).reported
  {
    hide Legal, Play;
    StepIsConsistent(s, Edited(id, at));
    PassedOverIsFinal(Step(s, Edited(id, at)), es, Item(id, at));
  }

  lemma {:induction false} FirstSync(page: Item)
    requires page.edited > 0
    ensures AfterRun(Sync(0, [page], [], {}, []), Run(_ => false, AllStored, true))
            == Sync(page.edited, [page], [page], {page}, [page])
  {
    hide Reach, Unknown;
    var run := Run(_ => false, AllStored, true);
    NothingKnown([page]);
    ReturnsNewerExactly([page], run, 0);
    assert Items([page]) == {page};
  }

  lemma {:induction false} TwoEvents(s: Sync, e: Event, e': Event)
    ensures Play(s, [e, e']) == Step(Step(s, e), e')
    ensures Legal(s, [e, e']) <==> Enabled(s, e) && Enabled(Step(s, e), e')
  {
    hide Step, Enabled;
    assert [e, e'][..1] == [e] && [e, e'][..0] == [] && [e][..0] == [];
    assert Play(s, [e]) == Step(s, e);
  }

  /** One page is edited and synced at time 5; another gets the same timestamp, and is never
      reported. */
  lemma {:induction false} EqualStampIsLost(es: seq<Event>)
    requires var page := Item("p", 5); Legal(Step(Sync(5, [page], [page], {page}, [page]), Edited("q", 5)), es)
    ensures var start := Sync(0, [Item("p", 5)], [], {}, []);
            var evs := [Ran(Run(_ => false, AllStored, true)), Edited("q", 5)];
            && Untouched(start) && Legal(start, evs)
            && Item("q", 5) !in Play(Play(start, evs), es).reported
  {
    var page := Item("p", 5);
    var start, s := Sync(0, [page], [], {}, []), Sync(5, [page], [page], {page}, [page]);
    var sync, edit := Ran(Run(_ => false, AllStored, true)), Edited("q", 5);
    FirstSync(page);
    TwoEvents(start, sync, edit);
    assert Item("q", 5) != page by {
      assert "q"[0] == 'q' && "p"[0] == 'p';
    }
    hide AfterRun, Play, Legal;
    UntimelyEditIsLost(s, "q", 5, es);
  }

  lemma {:induction false} NothingKnown(items: seq<Item>)
    ensures Unknown(items, 0) == items
  {
    if items != [] {
      NothingKnown(items[1..]);
    }
  }

  /** A workspace of n pages, the newest edited at time n. */
  function Pages(n: nat): (feed: seq<Item>)
    ensures |feed| == n && forall i :: 0 <= i < n ==> feed[i] == Item(seq(i, _ => 'p'), n - i)
  {
    seq(n, i requires 0 <= i < n => Item(seq(i, _ => 'p'), n - i))
  }

  lemma {:induction false} PagesAreProper(n: nat)
    ensures NewestFirst(Pages(n)) && DistinctIds(Pages(n))
  {
    assert forall i :: 0 <= i < n ==> |Pages(n)[i].id| == i;
  }

  lemma {:induction false} SecondPageFails(ingestion: Ingestion)
    ensures var feed, run := Pages(101), Run(p => p == 1, ingestion, true);
            && Delivered(feed, run) == 100 && Results(feed, run, 0) == feed[..100]
            && !Complete(feed, run, 0) && !run.fails(0)
  {
    var feed, run := Pages(101), Run(p => p == 1, ingestion, true);
    hide Pages;
    assert run.fails(1) && !run.fails(0);
    assert Reach(run.fails, 0) == 1;
    NothingKnown(feed);
    NothingKnown(feed[..100]);
  }

  /** A first run over 101 pages whose second request fails: the hundred pages it got are ingested,
      the watermark moves past the last one, and that one is never reported, whatever follows. */
  lemma {:induction false} BrokenPageIsLost(ingestion: Ingestion, es: seq<Event>)
    requires Stores(ingestion, PAGE_SIZE)
    requires Legal(AfterRun(Sync(0, Pages(101), [], {}, []), Run(p => p == 1, ingestion, true)), es)
    ensures var s, run := Sync(0, Pages(101), [], {}, []), Run(p => p == 1, ingestion, true);
            && Untouched(s) && AfterRun(s, run).watermark == 101
            && s.feed[100] == Item(seq(100, _ => 'p'), 1)
            && s.feed[100] !in AfterRun(s, run).reported
            && s.feed[100] !in Play(AfterRun(s, run), es).reported
  {
    hide Reach, Unknown, Results, Delivered, NewestFirst, DistinctIds, Legal, Complete, Ingest;
    var s, run := Sync(0, Pages(101), [], {}, []), Run(p => p == 1, ingestion, true);
    PagesAreProper(101);
    SecondPageFails(ingestion);
    assert Ingests(s, run);
    var version := PassesOver(s, run);
    StepIsConsistent(s, Ran(run));
    PassedOverIsFinal(AfterRun(s, run), es, version);
  }

  lemma {:induction false} ResultsAreNewer(feed: seq<Item>, run: Run, watermark: nat, item: Item)
    ensures item in Results(feed, run, watermark) && item.edited > 0 ==> item in feed && item.edited > watermark
  {
    var prefix := Results(feed, run, watermark);
    if item in prefix {
      var i :| 0 <= i < |prefix| && prefix[i] == item;
      assert !Known(prefix[i], watermark);
      assert feed[..Delivered(feed, run)][i] == item;
    }
  }

  // ---------------------------------------------------------------- nothing is reported twice

  ghost predicate Distinct(items: seq<Item>) {
    forall i, j :: 0 <= i < j < |items| ==> items[i] != items[j]
  }

  ghost predicate DistinctIds(feed: seq<Item>) {
    forall i, j :: 0 <= i < j < |feed| ==> feed[i].id != feed[j].id
  }

  /** A run that ingests something also saves the config. */
  predicate Clean(s: Sync, e: Event) {
    e.Ran? && Ingests(s, e.run) ==> e.run.saved || Results(s.feed, e.run, s.watermark) == []
  }

  ghost predicate OnceEach(s: Sync) {
    && DistinctIds(s.feed)
    && Distinct(s.reported)
    && forall item :: item in s.reported ==> 0 < item.edited <= s.watermark
  }

  lemma {:induction false} WithoutIsDistinct(feed: seq<Item>, id: string)
    requires DistinctIds(feed)
    ensures DistinctIds(Without(feed, id))
    ensures forall i :: 0 <= i < |Without(feed, id)| ==> Without(feed, id)[i].id != id && Without(feed, id)[i] in feed
  {
    if feed != [] {
      WithoutIsDistinct(feed[..|feed| - 1], id);
    }
  }

  lemma {:induction false} RunReportsOnce(s: Sync, run: Run)
    requires Consistent(s) && OnceEach(s) && run.saved
    ensures OnceEach(AfterRun(s, run))
  {
    hide Unknown, Reach;
    var found := Results(s.feed, run, s.watermark);
    forall item | item in found ensures 0 < s.watermark ==> item.edited > s.watermark
      ensures 0 < item.edited && s.feed != [] && item.edited <= s.feed[0].edited
    {
      var i :| 0 <= i < |found| && found[i] == item;
      assert s.feed[i] == item by { ReturnsNewerExactly(s.feed, run, s.watermark); }
      ResultsAreNewer(s.feed, run, s.watermark, item);
    }
    assert Distinct(found) by {
      ReturnsNewerExactly(s.feed, run, s.watermark);
      assert forall i :: 0 <= i < |found| ==> found[i] == s.feed[i];
    }
    assert forall item :: item in s.reported ==> item !in found;
  }

  /** What an unsaved run reports stays above the watermark. */
  lemma {:induction false} UnsavedIsPending(s: Sync, run: Run)
    requires Consistent(s) && OnceEach(s)
    requires Ingests(s, run) && !run.saved && Results(s.feed, run, s.watermark) != []
    ensures !OnceEach(AfterRun(s, run))
  {
    hide Unknown, Reach;
    var found := Results(s.feed, run, s.watermark);
    ReturnsNewerExactly(s.feed, run, s.watermark);
    assert found[0] in found && found[0] in s.feed;
    ResultsAreNewer(s.feed, run, s.watermark, found[0]);
    assert found[0] in AfterRun(s, run).reported;
  }

  /** A step keeps each version reported once, and none of them still to come, if and only if it is
      clean. */
  lemma {:induction false} StepReportsOnce(s: Sync, e: Event)
    requires Consistent(s) && Enabled(s, e) && OnceEach(s)
    ensures OnceEach(Step(s, e)) <==> Clean(s, e)
  {
    hide Results, Reach;
    if e.Edited? {
      WithoutIsDistinct(s.feed, e.id);
    } else if Ingests(s, e.run) {
      var found := Results(s.feed, e.run, s.watermark);
      if e.run.saved {
        RunReportsOnce(s, e.run);
      } else if found != [] {
        UnsavedIsPending(s, e.run);
      } else {
        assert s.reported + found == s.reported;
      }
    }
  }

  /** When every run that ingests something also saves its config, no version is reported twice. */
  lemma {:induction false} NothingTwice(s: Sync, es: seq<Event>)
    requires Untouched(s) && NewestFirst(s.feed) && DistinctIds(s.feed) && Legal(s, es)
    requires forall i :: 0 <= i < |es| ==> Clean(Play(s, es[..i]), es[i])
    ensures Distinct(Play(s, es).reported)
    ensures OnceEach(Play(s, es))
  {
    hide Enabled, Step, Consistent, Clean;
    if es == [] {
    } else {
      var n := |es| - 1;
      assert forall i :: 0 <= i < n ==> es[..n][..i] == es[..i];
      NothingTwice(s, es[..n]);
      StartIsConsistent(s);
      PlayIsConsistent(s, es[..n]);
      StepReportsOnce(Play(s, es[..n]), es[n]);
    }
  }

  lemma {:induction false} UncleanBreaksIt(s: Sync, es: seq<Event>, i: nat)
    requires Untouched(s) && NewestFirst(s.feed) && Legal(s, es)
    requires i < |es| && !Clean(Play(s, es[..i]), es[i])
    ensures OnceEach(Play(s, es[..i])) ==> !OnceEach(Play(s, es[..i + 1]))
  {
    hide Enabled, Step, Consistent, Clean, OnceEach, Untouched, NewestFirst;
    var before, now := es[..i], es[..i + 1];
    assert now[..|now| - 1] == before && now[i] == es[i];
    assert forall k :: 0 <= k < i ==> before[..k] == es[..k];
    StartIsConsistent(s);
    PlayIsConsistent(s, before);
    if OnceEach(Play(s, before)) {
      StepReportsOnce(Play(s, before), es[i]);
    }
  }

  lemma {:induction false} PrefixIsLegal(s: Sync, es: seq<Event>, k: nat)
    requires Legal(s, es) && k <= |es|
    ensures Legal(s, es[..k])
  {
    hide Enabled, Play;
    assert forall i :: 0 <= i < k ==> es[..k][..i] == es[..i];
  }

  /** ... and only then is no version, all along, reported twice or about to be. */
  lemma {:induction false} OnceEachExactly(s: Sync, es: seq<Event>)
    requires Untouched(s) && NewestFirst(s.feed) && DistinctIds(s.feed) && Legal(s, es)
    ensures (forall k :: 0 <= k <= |es| ==> OnceEach(Play(s, es[..k])))
            <==> forall i :: 0 <= i < |es| ==> Clean(Play(s, es[..i]), es[i])
  {
    hide Play, Legal, Clean, OnceEach, Untouched, NewestFirst, DistinctIds;
    if forall i :: 0 <= i < |es| ==> Clean(Play(s, es[..i]), es[i]) {
      forall k | 0 <= k <= |es| ensures OnceEach(Play(s, es[..k])) {
        assert forall i :: 0 <= i < k ==> es[..k][..i] == es[..i];
        PrefixIsLegal(s, es, k);
        NothingTwice(s, es[..k]);
      }
    } else {
      var i :| 0 <= i < |es| && !Clean(Play(s, es[..i]), es[i]);
      UncleanBreaksIt(s, es, i);
    }
  }

  lemma {:induction false} StartIsConsistent(s: Sync)
    requires Untouched(s) && NewestFirst(s.feed)
    ensures Consistent(s)
  {
  }

  /** A run whose config is not saved reports again what it reported: the next complete run
      returns the same items. */
  lemma {:induction false} UnsavedIsReportedAgain(s: Sync, run: Run, again: Run)
    requires Ingests(s, run) && !run.saved && again.fails == run.fails && Ingests(s, again)
    ensures var found := Results(s.feed, run, s.watermark);
            AfterRun(AfterRun(s, run), again).reported == s.reported + found + found
  {
    assert Reach(again.fails, 0) == Reach(run.fails, 0);
  }

  // ---------------------------------------------------------------- what is stored

  /** Whatever was reported is stored, as a contact and as a note. */
  ghost predicate ReportsAreStored(s: Sync) {
    forall item :: item in s.reported ==> item in s.contacts && item in s.notes
  }

  lemma {:induction false} StepStoresReports(s: Sync, e: Event)
    requires ReportsAreStored(s)
    ensures ReportsAreStored(Step(s, e))
  {
    hide Results;
    if e.Ran? {
      var found := Results(s.feed, e.run, s.watermark);
      assert forall item :: item in found ==> item in Items(found);
    }
  }

  lemma {:induction false} RunsStoreReports(s: Sync, es: seq<Event>)
    requires Untouched(s)
    ensures ReportsAreStored(Play(s, es))
  {
    hide Step;
    if es != [] {
      RunsStoreReports(s, es[..|es| - 1]);
      StepStoresReports(Play(s, es[..|es| - 1]), es[|es| - 1]);
    }
  }

  /** No ingestion stops among the notes. */
  predicate WholeNotes(s: Sync, e: Event) {
    e.Ran? && !e.run.fails(0) ==>
      !e.run.ingestion.NotesFail? || e.run.ingestion.stored == 0 || Ingests(s, e.run)
  }

  /** The notes stored by an ingestion that stops among them: it reports none of them. */
  function Unreported(s: Sync, e: Event): nat {
    if e.Ran? && !e.run.fails(0) && e.run.ingestion.NotesFail? && !Ingests(s, e.run) then e.run.ingestion.stored else 0
  }

  lemma {:induction false} NotesStep(s: Sync, e: Event)
    ensures |Step(s, e).notes| - |Step(s, e).reported| == |s.notes| - |s.reported| + Unreported(s, e)
    ensures Unreported(s, e) == 0 <==> WholeNotes(s, e)
    ensures s.notes == s.reported && WholeNotes(s, e) ==> Step(s, e).notes == Step(s, e).reported
  {
    hide Results;
    if e.Ran? {
      var found := Results(s.feed, e.run, s.watermark);
      assert Take(found, 0) == [] && s.notes + [] == s.notes;
    }
  }

  /** Notes outnumber reports by those stored before a stop, and by no others. */
  lemma {:induction false} NotesOutnumber(s: Sync, es: seq<Event>)
    requires Untouched(s)
    ensures |Play(s, es).notes| >= |Play(s, es).reported|
    ensures |Play(s, es).notes| == |Play(s, es).reported| ==>
              forall i :: 0 <= i < |es| ==> WholeNotes(Play(s, es[..i]), es[i])
  {
    hide Step, WholeNotes, Unreported;
    if es != [] {
      var n := |es| - 1;
      NotesOutnumber(s, es[..n]);
      NotesStep(Play(s, es[..n]), es[n]);
      assert forall i :: 0 <= i < n ==> es[..n][..i] == es[..i];
      assert forall i :: 0 <= i < n ==> es[..n][i] == es[i];
    }
  }

  /** The notes are exactly the reports, so that each version has one note whenever it is reported
      once, if and only if no ingestion stops among the notes. */
  lemma {:induction false} NotesAreReports(s: Sync, es: seq<Event>)
    requires Untouched(s)
    ensures Play(s, es).notes == Play(s, es).reported
            <==> forall i :: 0 <= i < |es| ==> WholeNotes(Play(s, es[..i]), es[i])
  {
    hide Step, WholeNotes;
    if forall i :: 0 <= i < |es| ==> WholeNotes(Play(s, es[..i]), es[i]) {
      WholeNotesAreReports(s, es);
    } else {
      NotesOutnumber(s, es);
    }
  }

  lemma {:induction false} WholeNotesAreReports(s: Sync, es: seq<Event>)
    requires Untouched(s) && forall i :: 0 <= i < |es| ==> WholeNotes(Play(s, es[..i]), es[i])
    ensures Play(s, es).notes == Play(s, es).reported
  {
    hide Step, WholeNotes;
    if es != [] {
      var n := |es| - 1;
      assert forall i :: 0 <= i < n ==> es[..n][..i] == es[..i];
      WholeNotesAreReports(s, es[..n]);
      NotesStep(Play(s, es[..n]), es[n]);
    }
  }

  /** An ingestion that stops among the notes moves neither watermark nor reports, and the next run
      stores the notes before the stop a second time; contacts it does not. */
  lemma {:induction false} StoppedNotesAreStoredTwice(s: Sync, run: Run, again: Run)
    requires !run.fails(0) && run.ingestion.NotesFail? && !Ingests(s, run)
    requires again.fails == run.fails && again.ingestion.AllStored?
    ensures var found, s' := Results(s.feed, run, s.watermark), AfterRun(s, run);
            && s'.watermark == s.watermark && s'.reported == s.reported
            && AfterRun(s', again).notes == s.notes + found[..run.ingestion.stored] + found
            && AfterRun(s', again).contacts == s'.contacts
  {
    assert Reach(again.fails, 0) == Reach(run.fails, 0);
  }
}
