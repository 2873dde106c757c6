/** MergeDuplicateCompanies: the run over all groups, and what every run and every prefix keeps. */
module CompanyMerge {
  import opened Wrappers
  import opened CompanyDedupe

  function Keys(nz: Normalizer, cs: seq<Company>): set<string> {
    set c | c in cs :: DedupeKey(nz, c)
  }

  /** The keys more than one company has. */
  function SharedKeys(nz: Normalizer, cs: seq<Company>): set<string> {
    set key | key in Keys(nz, cs) && |Group(nz, cs, key)| >= 2
  }

  /** Every duplicate of every group has been merged. */
  function Full(nz: Normalizer, cs: seq<Company>): Progress {
    map key | key in Keys(nz, cs) :: |Duplicates(nz, cs, key)|
  }

  // ---------------------------------------------------------------- every snapshot

  /** Absorbing duplicates of its own key leaves a company's name, and its key, alone. */
  lemma {:induction false} AbsorbKeepsKey(nz: Normalizer, p: Company, dups: seq<Company>)
    requires forall d :: d in dups ==> DedupeKey(nz, d) == DedupeKey(nz, p)
    ensures Absorb(p, dups).id == p.id && Absorb(p, dups).name == p.name
    ensures Absorb(p, dups).domain == p.domain || (!Filled(p.domain) && Filled(Absorb(p, dups).domain)
                                                   && nz.domain(Absorb(p, dups).domain.value) == "")
    ensures DedupeKey(nz, Absorb(p, dups)) == DedupeKey(nz, p)
  {
    if dups != [] {
      var n := |dups| - 1;
      AbsorbKeepsKey(nz, p, dups[..n]);
      var d := dups[n];
      assert d in dups;
      if Filled(d.domain) {
        DomainIsNotName(nz.domain(d.domain.value), nz.name(p.name));
      }
    }
  }

  lemma {:induction false} CurrentKeepsKey(nz: Normalizer, cs: seq<Company>, pr: Progress, c: Company)
    requires DistinctIds(cs) && Sensible(nz, cs, pr) && c in cs
    ensures DedupeKey(nz, Current(nz, cs, pr, c)) == DedupeKey(nz, c) && Current(nz, cs, pr, c).id == c.id
  {
    var key := DedupeKey(nz, c);
    OwnGroup(nz, cs, c);
    GroupShape(nz, cs, key);
    var dups := Duplicates(nz, cs, key)[..Done(pr, key)];
    assert forall d :: d in dups ==> d in Duplicates(nz, cs, key);
    AbsorbKeepsKey(nz, c, dups);
  }

  /** After any number of merges, whatever the order of the groups: every child still exists, an
      orphan stays an orphan, and a child of a live company points at a live company with the
      key its company had. */
  lemma {:induction false} ChildrenFollow(nz: Normalizer, cs: seq<Company>, s: Store, pr: Progress, k: Child)
    requires Loaded(s, cs) && Sensible(nz, cs, pr) && k in s.children
    ensures k in Snapshot(nz, cs, s, pr).children
    ensures var owner, after := s.children[k], Snapshot(nz, cs, s, pr);
            if owner.None? || owner.value !in s.live then after.children[k] == owner
            else
              && after.children[k].Some? && after.children[k].value in after.live
              && after.children[k].value !in after.gone
              && DedupeKey(nz, after.live[after.children[k].value]) == DedupeKey(nz, s.live[owner.value])
  {
    hide Group, Primary, Duplicates, Absorb, DedupeKey, MergedAway;
    var owner := s.children[k];
    if owner.Some? && owner.value in s.live {
      var c := s.live[owner.value];
      OwnGroup(nz, cs, c);
      GroupShape(nz, cs, DedupeKey(nz, c));
      var p := PrimaryOf(nz, cs, DedupeKey(nz, c)).value;
      PrimaryStays(nz, cs, pr, p);
      CurrentKeepsKey(nz, cs, pr, p);
      CurrentKeepsKey(nz, cs, pr, c);
    }
  }

  // ---------------------------------------------------------------- the full merge

  lemma {:induction false} FullIsSensible(nz: Normalizer, cs: seq<Company>)
    ensures Sensible(nz, cs, Full(nz, cs))
  {
  }

  lemma {:induction false} FullMergesAllButPrimaries(nz: Normalizer, cs: seq<Company>, c: Company)
    requires DistinctIds(cs) && c in cs
    ensures Sensible(nz, cs, Full(nz, cs))
    ensures MergedAway(nz, cs, Full(nz, cs), c) <==> PrimaryOf(nz, cs, DedupeKey(nz, c)) != Some(c)
  {
    var key := DedupeKey(nz, c);
    FullIsSensible(nz, cs);
    OwnGroup(nz, cs, c);
    GroupShape(nz, cs, key);
    assert key in Keys(nz, cs);
    var dups := Duplicates(nz, cs, key);
    assert dups[..|dups|] == dups;
    var p := PrimaryOf(nz, cs, key).value;
    if c.id == p.id {
      SameIdSameCompany(cs, c, p);
    }
  }

  function FullyMerged(nz: Normalizer, cs: seq<Company>, s: Store): Store {
    FullIsSensible(nz, cs);
    Snapshot(nz, cs, s, Full(nz, cs))
  }

  /** A company that survives the full merge is the primary of its key, and keeps its key. */
  lemma {:induction false} Survivor(nz: Normalizer, cs: seq<Company>, s: Store, id: Id)
    requires Loaded(s, cs) && id in FullyMerged(nz, cs, s).live
    ensures var row := FullyMerged(nz, cs, s).live[id];
            && id in s.live && row.id == id
            && DedupeKey(nz, row) == DedupeKey(nz, s.live[id]) && DedupeKey(nz, row) in Keys(nz, cs)
            && PrimaryOf(nz, cs, DedupeKey(nz, row)) == Some(s.live[id])
  {
    FullIsSensible(nz, cs);
    CurrentKeepsKey(nz, cs, Full(nz, cs), s.live[id]);
    FullMergesAllButPrimaries(nz, cs, s.live[id]);
  }

  lemma {:induction false} KeySurvives(nz: Normalizer, cs: seq<Company>, s: Store, key: string) returns (id: Id)
    requires Loaded(s, cs) && key in Keys(nz, cs)
    ensures id in FullyMerged(nz, cs, s).live && DedupeKey(nz, FullyMerged(nz, cs, s).live[id]) == key
  {
    FullIsSensible(nz, cs);
    var c :| c in cs && DedupeKey(nz, c) == key;
    OwnGroup(nz, cs, c);
    GroupShape(nz, cs, key);
    var p := PrimaryOf(nz, cs, key).value;
    FullMergesAllButPrimaries(nz, cs, p);
    CurrentKeepsKey(nz, cs, Full(nz, cs), p);
    id := p.id;
  }

  /** Live companies have distinct keys. */
  ghost predicate NoDuplicates(nz: Normalizer, live: map<Id, Company>) {
    forall a, b :: a in live && b in live && a != b ==> DedupeKey(nz, live[a]) != DedupeKey(nz, live[b])
  }

  lemma {:induction false} SurvivorsAreDistinct(nz: Normalizer, cs: seq<Company>, s: Store)
    requires Loaded(s, cs)
    ensures NoDuplicates(nz, FullyMerged(nz, cs, s).live)
  {
    var live := FullyMerged(nz, cs, s).live;
    forall a, b | a in live && b in live && a != b
      ensures DedupeKey(nz, live[a]) != DedupeKey(nz, live[b])
    {
      Survivor(nz, cs, s, a);
      Survivor(nz, cs, s, b);
    }
  }

  function LiveKeys(nz: Normalizer, live: map<Id, Company>): set<string> {
    set id | id in live :: DedupeKey(nz, live[id])
  }

  lemma {:induction false} SurvivorsHaveEveryKey(nz: Normalizer, cs: seq<Company>, s: Store)
    requires Loaded(s, cs)
    ensures LiveKeys(nz, FullyMerged(nz, cs, s).live) == Keys(nz, cs)
  {
    var live := FullyMerged(nz, cs, s).live;
    forall key | key in LiveKeys(nz, live) ensures key in Keys(nz, cs) {
      var id :| id in live && DedupeKey(nz, live[id]) == key;
      Survivor(nz, cs, s, id);
    }
    forall key | key in Keys(nz, cs) ensures key in LiveKeys(nz, live) {
      var id := KeySurvives(nz, cs, s, key);
    }
  }

  /** After any number of merges every company is either live or soft-deleted. */
  lemma {:induction false} NoCompanyIsLost(nz: Normalizer, cs: seq<Company>, s: Store, pr: Progress)
    requires Loaded(s, cs) && Sensible(nz, cs, pr)
    ensures var after := Snapshot(nz, cs, s, pr);
            after.live.Keys + after.gone == s.live.Keys + s.gone && after.live.Keys !! after.gone
  {
    assert (Rows(nz, cs, s, pr) - Away(nz, cs, s, pr)).Keys == s.live.Keys - Away(nz, cs, s, pr);
  }

  /** The full merge leaves exactly one live company of each key there was. */
  lemma {:induction false} OneCompanyPerKey(nz: Normalizer, cs: seq<Company>, s: Store)
    requires Loaded(s, cs)
    ensures NoDuplicates(nz, FullyMerged(nz, cs, s).live)
    ensures LiveKeys(nz, FullyMerged(nz, cs, s).live) == Keys(nz, cs)
  {
    SurvivorsAreDistinct(nz, cs, s);
    SurvivorsHaveEveryKey(nz, cs, s);
  }

  // ---------------------------------------------------------------- counting

  lemma {:induction false} InjectiveImage(nz: Normalizer, live: map<Id, Company>, keys: set<string>)
    requires NoDuplicates(nz, live)
    requires keys == LiveKeys(nz, live)
    ensures |live| == |keys|
    decreases |live|
  {
    hide DedupeKey;
    if live != map[] {
      var id :| id in live;
      var rest := live - {id};
      assert live.Keys == rest.Keys + {id};
      InjectiveImage(nz, rest, keys - {DedupeKey(nz, live[id])});
    } else {
      assert keys == {};
    }
  }

  function Ids(cs: seq<Company>): set<Id> {
    set c | c in cs :: c.id
  }

  lemma {:induction false} LoadedCount(s: Store, cs: seq<Company>)
    requires Loaded(s, cs)
    ensures |s.live| == |cs|
  {
    IdCount(cs);
    assert s.live.Keys == Ids(cs);
  }

  lemma {:induction false} NewId(cs: seq<Company>)
    requires DistinctIds(cs) && cs != []
    ensures cs[|cs| - 1].id !in Ids(cs[..|cs| - 1])
    ensures Ids(cs) == Ids(cs[..|cs| - 1]) + {cs[|cs| - 1].id}
  {
    var n := |cs| - 1;
    assert cs == cs[..n] + [cs[n]];
    forall c | c in cs[..n] ensures c.id != cs[n].id {
      var i :| 0 <= i < n && cs[i] == c;
    }
  }

  lemma {:induction false} IdCount(cs: seq<Company>)
    requires DistinctIds(cs)
    ensures |Ids(cs)| == |cs|
  {
    if cs != [] {
      IdCount(cs[..|cs| - 1]);
      NewId(cs);
    }
  }

  /** What is left after the full merge, counted: one company a key. */
  lemma {:induction false} FullCount(nz: Normalizer, cs: seq<Company>, s: Store)
    requires Loaded(s, cs)
    ensures |FullyMerged(nz, cs, s).live| == |Keys(nz, cs)|
    ensures |s.live| == |cs|
  {
    OneCompanyPerKey(nz, cs, s);
    InjectiveImage(nz, FullyMerged(nz, cs, s).live, Keys(nz, cs));
    LoadedCount(s, cs);
  }

  // ---------------------------------------------------------------- who ends up where

  /** The row a loaded company ends in: the most complete of the rows that are one company with it. */
  lemma {:induction false} EndsIn(nz: Normalizer, cs: seq<Company>, s: Store, a: Id) returns (x: Id)
    requires Loaded(s, cs) && a in s.live
    ensures var merged := FullyMerged(nz, cs, s);
            && x in s.live && x in merged.live && DedupeKey(nz, s.live[x]) == DedupeKey(nz, s.live[a])
            && (if x == a then true else a !in merged.live && a in merged.gone)
            && PrimaryOf(nz, cs, DedupeKey(nz, s.live[a])) == Some(s.live[x])
    ensures forall k :: k in s.children && s.children[k] == Some(a) ==>
                          k in FullyMerged(nz, cs, s).children && FullyMerged(nz, cs, s).children[k] == Some(x)
  {
    hide Group, Primary, PrimaryOf, Duplicates, Absorb, DedupeKey, MergedAway;
    FullIsSensible(nz, cs);
    var c := s.live[a];
    OwnGroup(nz, cs, c);
    GroupShape(nz, cs, DedupeKey(nz, c));
    var p := PrimaryOf(nz, cs, DedupeKey(nz, c)).value;
    x := p.id;
    assert s.live[x] == p;
    FullMergesAllButPrimaries(nz, cs, p);
    FullMergesAllButPrimaries(nz, cs, c);
    if x == a {
      SameIdSameCompany(cs, p, c);
    }
  }

  /** Two loaded companies end in one row of the full merge if and only if they are one company;
      their children follow them, and neither is less complete than anything merged into it. */
  lemma {:induction false} EndInOneRowExactly(nz: Normalizer, cs: seq<Company>, s: Store, a: Id, b: Id)
      returns (x: Id, y: Id)
    requires Loaded(s, cs) && a in s.live && b in s.live
    ensures x in FullyMerged(nz, cs, s).live && y in FullyMerged(nz, cs, s).live && x in s.live && y in s.live
    ensures SameCompany(nz, s.live[x], s.live[a]) && SameCompany(nz, s.live[y], s.live[b])
    ensures a in FullyMerged(nz, cs, s).live <==> x == a
    ensures x == y <==> SameCompany(nz, s.live[a], s.live[b])
    ensures Completeness(s.live[a]) <= Completeness(s.live[x])
    ensures forall k :: k in s.children && s.children[k] == Some(a) ==> FullyMerged(nz, cs, s).children[k] == Some(x)
    ensures forall k :: k in s.children && s.children[k] == Some(b) ==> FullyMerged(nz, cs, s).children[k] == Some(y)
  {
    x := EndsIn(nz, cs, s, a);
    y := EndsIn(nz, cs, s, b);
    hide FullyMerged, DedupeKey, PrimaryOf, SameCompany, Completeness;
    KeyIsSameCompany(nz, s.live[x], s.live[a]);
    KeyIsSameCompany(nz, s.live[y], s.live[b]);
    KeyIsSameCompany(nz, s.live[a], s.live[b]);
    PrimaryIsBest(nz, cs, s.live[a]);
  }

  lemma {:induction false} PrimaryIsBest(nz: Normalizer, cs: seq<Company>, c: Company)
    requires c in cs
    ensures PrimaryOf(nz, cs, DedupeKey(nz, c)).Some?
    ensures Completeness(c) <= Completeness(PrimaryOf(nz, cs, DedupeKey(nz, c)).value)
  {
    hide Completeness, DedupeKey, Group, Primary;
    var group := Group(nz, cs, DedupeKey(nz, c));
    GroupMembers(nz, cs, DedupeKey(nz, c));
    assert c in group;
    var i := PrimaryIsTheOldestBest(group);
  }

  /** Among the loaded rows of a key, the primary is the first of the most complete. */
  lemma {:induction false} PrimaryComesFirst(nz: Normalizer, cs: seq<Company>, key: string) returns (j: nat)
    requires Group(nz, cs, key) != []
    ensures j < |cs| && cs[j] == Primary(Group(nz, cs, key)) && DedupeKey(nz, cs[j]) == key
    ensures forall k :: 0 <= k < j && DedupeKey(nz, cs[k]) == key ==> Completeness(cs[k]) < Completeness(cs[j])
    ensures forall k :: 0 <= k < |cs| && DedupeKey(nz, cs[k]) == key ==> Completeness(cs[k]) <= Completeness(cs[j])
  {
    hide Completeness, DedupeKey;
    var n := |cs| - 1;
    var before := Group(nz, cs[..n], key);
    assert forall k :: 0 <= k < n ==> cs[..n][k] == cs[k];
    if before == [] {
      j := n;
      forall k | 0 <= k < n ensures DedupeKey(nz, cs[k]) != key {
        GroupMembers(nz, cs[..n], key);
        assert cs[k] in cs[..n];
      }
      assert Group(nz, cs, key) == [cs[n]];
    } else {
      j := PrimaryComesFirst(nz, cs[..n], key);
      assert before + [] == before;
      PrimaryOfOneMore(before, cs[n]);
      hide Primary;
      if DedupeKey(nz, cs[n]) == key && Completeness(cs[n]) > Completeness(cs[j]) {
        j := n;
      }
    }
  }

  lemma {:induction false} PrimaryOfOneMore(group: seq<Company>, c: Company)
    requires group != []
    ensures Primary(group + [c]) == if Completeness(c) > Completeness(Primary(group)) then c else Primary(group)
  {
    hide Completeness;
    assert (group + [c])[..|group|] == group;
  }

  /** The row others are merged into is, of those that are one company, the oldest of the most
      complete. */
  lemma {:induction false} SurvivorIsOldestBest(nz: Normalizer, cs: seq<Company>, s: Store, a: Id) returns (j: nat)
    requires Loaded(s, cs) && a in FullyMerged(nz, cs, s).live
    ensures j < |cs| && cs[j].id == a && a in s.live && s.live[a] == cs[j]
    ensures forall k :: 0 <= k < j && SameCompany(nz, cs[k], cs[j]) ==> Completeness(cs[k]) < Completeness(cs[j])
    ensures forall k :: 0 <= k < |cs| && SameCompany(nz, cs[k], cs[j]) ==> Completeness(cs[k]) <= Completeness(cs[j])
  {
    Survivor(nz, cs, s, a);
    var was := s.live[a];
    OwnGroup(nz, cs, was);
    j := PrimaryComesFirst(nz, cs, DedupeKey(nz, was));
    hide FullyMerged, DedupeKey, Group, Primary, SameCompany, Completeness;
    forall k | 0 <= k < |cs| ensures SameCompany(nz, cs[k], cs[j]) <==> DedupeKey(nz, cs[k]) == DedupeKey(nz, cs[j]) {
      KeyIsSameCompany(nz, cs[k], cs[j]);
    }
  }

  /** Absorbing duplicates changes a company's tags and, if it has none, its domain; nothing else. */
  lemma {:induction false} AbsorbedDomain(p: Company, dups: seq<Company>)
    ensures Absorb(p, dups).(tags := p.tags, domain := p.domain) == p
    ensures Filled(p.domain) ==> Absorb(p, dups).domain == p.domain
    ensures Absorb(p, dups).domain == p.domain || FromOne(Absorb(p, dups).domain, dups)
    ensures !Filled(Absorb(p, dups).domain) ==> forall d :: d in dups ==> !Filled(d.domain)
  {
    hide MergedStrings;
    if dups != [] {
      var n := |dups| - 1;
      AbsorbedDomain(p, dups[..n]);
      assert dups == dups[..n] + [dups[n]];
    }
  }

  ghost predicate FromOne(domain: Option<string>, dups: seq<Company>) {
    exists d :: d in dups && Filled(d.domain) && domain == d.domain
  }

  /** The domain taken is that of the last duplicate with one. */
  lemma {:induction false} LastDomainIsTaken(p: Company, dups: seq<Company>, i: nat)
    requires i < |dups| && !Filled(p.domain) && Filled(dups[i].domain)
    requires forall k :: i < k < |dups| ==> !Filled(dups[k].domain)
    ensures Absorb(p, dups).domain == dups[i].domain
  {
    hide MergedStrings;
    if i < |dups| - 1 {
      LastDomainIsTaken(p, dups[..|dups| - 1], i);
    }
  }

  lemma {:induction false} AbsorbedTagsAre(p: Company, dups: seq<Company>)
    ensures dups == [] ==> Absorb(p, dups).tags == p.tags
    ensures dups != [] ==>
              forall x :: x in Absorb(p, dups).tags <==> x != "" && (x in p.tags || x in dups[|dups| - 1].tags)
  {
    AbsorbedTags(p, dups);
    if dups != [] {
      var last := dups[|dups| - 1];
      FirstAppearancesAreAUnion(p.tags + last.tags);
      hide FirstAppearances, Absorb;
      forall x ensures x in Absorb(p, dups).tags <==> x != "" && (x in p.tags || x in last.tags) {
        assert x in p.tags + last.tags <==> x in p.tags || x in last.tags;
      }
    }
  }

  /** Another loaded company that is one with this one. */
  predicate Twin(nz: Normalizer, cs: seq<Company>, was: Company, d: Company) {
    d in cs && d.id != was.id && SameCompany(nz, d, was)
  }

  /** A row that survives is the loaded row, but for a domain and tags it has from its twins. */
  lemma {:induction false} SurvivingRow(nz: Normalizer, cs: seq<Company>, s: Store, a: Id)
    requires Loaded(s, cs) && a in FullyMerged(nz, cs, s).live
    ensures a in s.live
    ensures var row, was := FullyMerged(nz, cs, s).live[a], s.live[a];
            && row.(tags := was.tags, domain := was.domain) == was
            && (Filled(was.domain) ==> row.domain == was.domain)
            && (row.domain == was.domain || exists d :: Twin(nz, cs, was, d) && Filled(d.domain) && row.domain == d.domain)
            && (!Filled(row.domain) ==> forall d :: Twin(nz, cs, was, d) ==> !Filled(d.domain))
            && (forall x :: x in was.tags && x != "" ==> x in row.tags)
            && (forall x :: x in row.tags ==> x in was.tags || exists d :: Twin(nz, cs, was, d) && x in d.tags)
  {
    var was := SurvivorAbsorbs(nz, cs, s, a);
    var dups := Duplicates(nz, cs, DedupeKey(nz, was));
    AbsorbedDomain(was, dups);
    AbsorbedTagsAre(was, dups);
    hide FullyMerged, DedupeKey, Duplicates, Absorb, Twin, Filled, Loaded;
    if dups != [] {
      assert dups[|dups| - 1] in dups;
    }
  }

  lemma {:induction false} SurvivorAbsorbs(nz: Normalizer, cs: seq<Company>, s: Store, a: Id) returns (was: Company)
    requires Loaded(s, cs) && a in FullyMerged(nz, cs, s).live
    ensures a in s.live && was == s.live[a]
    ensures FullyMerged(nz, cs, s).live[a] == Absorb(was, Duplicates(nz, cs, DedupeKey(nz, was)))
    ensures forall d :: d in Duplicates(nz, cs, DedupeKey(nz, was)) <==> Twin(nz, cs, was, d)
  {
    Survivor(nz, cs, s, a);
    was := s.live[a];
    var key := DedupeKey(nz, was);
    assert was in cs && was.id == a;
    hide FullyMerged, DedupeKey, PrimaryOf, SameCompany, Group, Duplicates, Absorb;
    OwnGroup(nz, cs, was);
    GroupShape(nz, cs, key);
    MergedRow(nz, cs, s, key);
    forall d ensures SameCompany(nz, d, was) <==> DedupeKey(nz, d) == key {
      KeyIsSameCompany(nz, d, was);
    }
  }

  // ---------------------------------------------------------------- running it again

  lemma {:induction false} SameKeySameCompany(nz: Normalizer, s: Store, cs: seq<Company>, a: Company, b: Company)
    requires Loaded(s, cs) && NoDuplicates(nz, s.live)
    requires a in cs && b in cs && DedupeKey(nz, a) == DedupeKey(nz, b)
    ensures a.id == b.id
  {
    assert s.live[a.id] == a && s.live[b.id] == b;
  }

  function First(cs: seq<Company>): (c: Option<Company>)
    ensures c.Some? ==> c.value in cs
    ensures c.None? <==> cs == []
  {
    if cs == [] then None else Some(cs[0])
  }

  /** On a store without duplicates no group has anything to merge. */
  lemma {:induction false} NothingLeftToMerge(nz: Normalizer, s: Store, cs: seq<Company>, key: string)
    requires Loaded(s, cs) && NoDuplicates(nz, s.live)
    ensures Duplicates(nz, cs, key) == []
  {
    if Group(nz, cs, key) != [] {
      GroupShape(nz, cs, key);
      var p := PrimaryOf(nz, cs, key).value;
      forall c | c in cs && DedupeKey(nz, c) == key ensures c.id == p.id {
        SameKeySameCompany(nz, s, cs, c, p);
      }
      assert First(Duplicates(nz, cs, key)).None?;
    }
  }

  ghost predicate Unmoved(nz: Normalizer, cs: seq<Company>, pr: Progress, c: Company)
    requires Sensible(nz, cs, pr)
  {
    !MergedAway(nz, cs, pr, c) && Current(nz, cs, pr, c) == c
  }

  lemma {:induction false} NothingMoved(nz: Normalizer, s: Store, cs: seq<Company>, pr: Progress)
    requires Sensible(nz, cs, pr) && forall id :: id in s.live ==> Unmoved(nz, cs, pr, s.live[id])
    ensures Away(nz, cs, s, pr) == {}
    ensures Rows(nz, cs, s, pr) == s.live
    ensures Owners(nz, cs, s, pr) == s.children
  {
  }

  lemma {:induction false} RowIsUnmoved(nz: Normalizer, s: Store, cs: seq<Company>, pr: Progress, c: Company)
    requires Loaded(s, cs) && NoDuplicates(nz, s.live) && Sensible(nz, cs, pr)
    ensures Unmoved(nz, cs, pr, c)
  {
    NothingLeftToMerge(nz, s, cs, DedupeKey(nz, c));
  }

  lemma {:induction false} NothingMerged(nz: Normalizer, s: Store, cs: seq<Company>, pr: Progress)
    requires Loaded(s, cs) && NoDuplicates(nz, s.live) && Sensible(nz, cs, pr)
    ensures Snapshot(nz, cs, s, pr) == s
  {
    forall id | id in s.live ensures Unmoved(nz, cs, pr, s.live[id]) {
      RowIsUnmoved(nz, s, cs, pr, s.live[id]);
    }
    NothingMoved(nz, s, cs, pr);
    assert s.live - {} == s.live;
  }

  /** A second run finds one company a key: every snapshot it can reach is the store it found. */
  lemma {:induction false} SecondRunMergesNothing(
      nz: Normalizer, cs: seq<Company>, s: Store, again: seq<Company>, pr: Progress)
    requires Loaded(s, cs) && Loaded(FullyMerged(nz, cs, s), again) && Sensible(nz, again, pr)
    ensures Snapshot(nz, again, FullyMerged(nz, cs, s), pr) == FullyMerged(nz, cs, s)
    ensures |again| == |Keys(nz, again)| == |Keys(nz, cs)|
  {
    SurvivorsAreDistinct(nz, cs, s);
    NothingMerged(nz, FullyMerged(nz, cs, s), again, pr);
    FullCount(nz, cs, s);
    LoadedKeyCount(nz, FullyMerged(nz, cs, s), again);
  }

  /** On a store without duplicates there are as many keys as companies. */
  lemma {:induction false} LoadedKeyCount(nz: Normalizer, s: Store, cs: seq<Company>)
    requires Loaded(s, cs) && NoDuplicates(nz, s.live)
    ensures |cs| == |Keys(nz, cs)| == |s.live|
  {
    forall c | c in cs ensures DedupeKey(nz, c) in LiveKeys(nz, s.live) {
      assert c.id in s.live && s.live[c.id] == c;
    }
    assert Keys(nz, cs) == LiveKeys(nz, s.live);
    InjectiveImage(nz, s.live, Keys(nz, cs));
    LoadedCount(s, cs);
  }

  // ---------------------------------------------------------------- tags

  lemma {:induction false} AbsorbedTags(p: Company, dups: seq<Company>)
    ensures Absorb(p, dups).tags == if dups == [] then p.tags else MergedStrings(p.tags, dups[|dups| - 1].tags)
  {
  }

  lemma {:induction false} AbsorbedTagsExactly(p: Company, dups: seq<Company>)
    requires dups != []
    ensures (forall d, x :: d in dups && x in d.tags && x != "" ==> x in Absorb(p, dups).tags) <==>
            (forall d, x :: d in dups && x in d.tags && x != "" ==> x in p.tags || x in dups[|dups| - 1].tags)
    ensures forall x :: x in p.tags && x != "" ==> x in Absorb(p, dups).tags
  {
    AbsorbedTags(p, dups);
    var last := dups[|dups| - 1];
    FirstAppearancesAreAUnion(p.tags + last.tags);
    forall x ensures x in Absorb(p, dups).tags <==> (x in p.tags || x in last.tags) && x != "" {
      assert x in p.tags + last.tags <==> x in p.tags || x in last.tags;
    }
  }

  /** The row a group leaves: its primary, with all its duplicates absorbed. */
  lemma {:induction false} MergedRow(nz: Normalizer, cs: seq<Company>, s: Store, key: string)
    requires Loaded(s, cs) && Group(nz, cs, key) != []
    ensures PrimaryOf(nz, cs, key).Some?
    ensures var p := PrimaryOf(nz, cs, key).value;
            && p.id in FullyMerged(nz, cs, s).live
            && FullyMerged(nz, cs, s).live[p.id] == Absorb(p, Duplicates(nz, cs, key))
  {
    hide Absorb, Group, Primary;
    FullIsSensible(nz, cs);
    GroupShape(nz, cs, key);
    var p, dups := PrimaryOf(nz, cs, key).value, Duplicates(nz, cs, key);
    FullMergesAllButPrimaries(nz, cs, p);
    assert key in Keys(nz, cs);
    assert dups[..|dups|] == dups;
  }

  /** The members of a group are its primary and its duplicates. */
  lemma {:induction false} GroupIsPrimaryAndDuplicates(nz: Normalizer, cs: seq<Company>, key: string, c: Company)
    requires DistinctIds(cs) && Group(nz, cs, key) != []
    ensures PrimaryOf(nz, cs, key).Some?
    ensures c in Group(nz, cs, key) <==> c == PrimaryOf(nz, cs, key).value || c in Duplicates(nz, cs, key)
  {
    hide Group, Primary, Duplicates;
    GroupMembers(nz, cs, key);
    GroupShape(nz, cs, key);
    var p := PrimaryOf(nz, cs, key).value;
    if c in cs && c.id == p.id {
      SameIdSameCompany(cs, c, p);
    }
  }

  /** After the full merge the row of a group has every nonempty tag the group had if and only if
      each is on the primary or on the last duplicate merged. */
  lemma {:induction false} TagsAreUnionedExactly(nz: Normalizer, cs: seq<Company>, s: Store, key: string)
    requires Loaded(s, cs) && Duplicates(nz, cs, key) != []
    ensures PrimaryOf(nz, cs, key).Some? && PrimaryOf(nz, cs, key).value.id in FullyMerged(nz, cs, s).live
    ensures var p, dups := PrimaryOf(nz, cs, key).value, Duplicates(nz, cs, key);
            var row := FullyMerged(nz, cs, s).live[p.id];
            (forall c, x :: c in Group(nz, cs, key) && x in c.tags && x != "" ==> x in row.tags) <==>
            (forall d, x :: d in dups && x in d.tags && x != "" ==> x in p.tags || x in dups[|dups| - 1].tags)
  {
    assert Group(nz, cs, key) != [];
    hide Absorb, Group, Primary, PrimaryOf, Duplicates, FullyMerged;
    MergedRow(nz, cs, s, key);
    var p, dups := PrimaryOf(nz, cs, key).value, Duplicates(nz, cs, key);
    AbsorbedTagsExactly(p, dups);
    forall c ensures c in Group(nz, cs, key) <==> c == p || c in dups {
      GroupIsPrimaryAndDuplicates(nz, cs, key, c);
    }
  }

  function Tagged(id: Id, tag: string): Company {
    Company(id, "acme", None, None, None, None, None, 2, [tag])
  }

  /** Three companies of one name, each with one tag, the oldest first. */
  function ThreeOfAName(): seq<Company> {
    [Tagged(0, "a"), Tagged(1, "b"), Tagged(2, "c")]
  }

  function ThreeStored(): Store {
    Store(map[0 := Tagged(0, "a"), 1 := Tagged(1, "b"), 2 := Tagged(2, "c")], map[], {})
  }

  lemma {:induction false} ThreeLoad()
    ensures Loaded(ThreeStored(), ThreeOfAName())
  {
    var s, cs := ThreeStored(), ThreeOfAName();
    forall id | id in s.live ensures s.live[id] in cs && s.live[id].id == id {
      assert s.live[id] == cs[id];
    }
  }

  lemma {:induction false} ThreeGroup(nz: Normalizer)
    ensures var cs, key := ThreeOfAName(), "name:" + nz.name("acme");
            && Group(nz, cs, key) == cs
            && PrimaryOf(nz, cs, key) == Some(cs[0])
            && Duplicates(nz, cs, key) == [cs[1], cs[2]]
  {
    var cs, key := ThreeOfAName(), "name:" + nz.name("acme");
    assert forall i :: 0 <= i < 3 ==> DedupeKey(nz, cs[i]) == key && Completeness(cs[i]) == 0;
    hide DedupeKey, Completeness;
    var two, one := cs[..2], cs[..1];
    assert two[..1] == one && one[..0] == [] && cs == two + [cs[2]] && two == one + [cs[1]] && one == [cs[0]];
    assert Group(nz, one, key) == one;
    assert Group(nz, two, key) == two;
    assert Group(nz, cs, key) == cs;
    PrimaryOfOneMore(one, cs[1]);
    PrimaryOfOneMore(two, cs[2]);
    assert Without(one, 0) == [];
    assert Without(two, 0) == [cs[1]];
    assert Without(cs, 0) == [cs[1], cs[2]];
  }

  /** Merging them leaves the oldest, without the middle one's tag. */
  lemma {:induction false} MiddleTagIsLost(nz: Normalizer)
    ensures var merged := FullyMerged(nz, ThreeOfAName(), ThreeStored());
            && Loaded(ThreeStored(), ThreeOfAName())
            && merged.live.Keys == {0} && merged.gone == {1, 2}
            && merged.live[0].tags == ["a", "c"]
  {
    var cs, s, key := ThreeOfAName(), ThreeStored(), "name:" + nz.name("acme");
    var p, dups := cs[0], [cs[1], cs[2]];
    ThreeLoad();
    ThreeGroup(nz);
    MergedRow(nz, cs, s, key);
    AbsorbedTags(p, dups);
    TwoTags();
    ThreeBecomeOne(nz);
  }

  lemma {:induction false} TwoTags()
    ensures MergedStrings(["a"], ["c"]) == ["a", "c"]
  {
    var s := ["a"] + ["c"];
    assert s == ["a", "c"] && s[..1] == ["a"] && s[..1][..0] == [];
    assert "c"[0] != "a"[0];
    assert FirstAppearances(s[..1]) == ["a"];
    assert FirstAppearances(s) == ["a", "c"];
  }

  lemma {:induction false} NoneLostInAll(nz: Normalizer, cs: seq<Company>, s: Store)
    requires Loaded(s, cs)
    ensures var after := FullyMerged(nz, cs, s);
            after.live.Keys + after.gone == s.live.Keys + s.gone && after.live.Keys !! after.gone
  {
    hide Snapshot, Loaded, Sensible;
    FullIsSensible(nz, cs);
    NoCompanyIsLost(nz, cs, s, Full(nz, cs));
  }

  lemma {:induction false} ThreeBecomeOne(nz: Normalizer)
    ensures var merged := FullyMerged(nz, ThreeOfAName(), ThreeStored());
            merged.live.Keys == {0} && merged.gone == {1, 2}
  {
    var cs, s, key := ThreeOfAName(), ThreeStored(), "name:" + nz.name("acme");
    ThreeLoad();
    ThreeGroup(nz);
    hide Group, Primary, PrimaryOf, Duplicates, Loaded, FullyMerged;
    var merged := FullyMerged(nz, cs, s);
    NoneLostInAll(nz, cs, s);
    MergedRow(nz, cs, s, key);
    assert s.live.Keys == {0, 1, 2} && s.gone == {};
    forall id | id in merged.live ensures id == 0 {
      Survivor(nz, cs, s, id);
      ThreeKeys(nz, id);
    }
    assert merged.live.Keys == {0};
    assert merged.gone == (merged.live.Keys + merged.gone) - {0};
  }

  lemma {:induction false} ThreeKeys(nz: Normalizer, id: Id)
    requires id in ThreeStored().live
    ensures var c := ThreeStored().live[id];
            c in ThreeOfAName() && c.id == id && DedupeKey(nz, c) == "name:" + nz.name("acme")
  {
    assert ThreeStored().live[id] == ThreeOfAName()[id];
  }

  // ---------------------------------------------------------------- the run

  lemma {:induction false} WithoutPrefix(group: seq<Company>, id: Id, j: nat)
    requires j <= |group|
    ensures |Without(group[..j], id)| <= |Without(group, id)|
    ensures j < |group| && group[j].id != id ==>
              |Without(group[..j], id)| < |Without(group, id)|
              && Without(group, id)[|Without(group[..j], id)|] == group[j]
  {
    var n := |group| - 1;
    if j == |group| {
      assert group[..j] == group;
    } else if j < n {
      assert group[..n][..j] == group[..j];
      WithoutPrefix(group[..n], id, j);
    }
  }

  lemma {:induction false} SameProgressSameRow(nz: Normalizer, cs: seq<Company>, a: Progress, b: Progress, c: Company)
    requires Sensible(nz, cs, a) && Sensible(nz, cs, b) && forall key :: Done(a, key) == Done(b, key)
    ensures MergedAway(nz, cs, a, c) <==> MergedAway(nz, cs, b, c)
    ensures Current(nz, cs, a, c) == Current(nz, cs, b, c)
  {
    assert Done(a, DedupeKey(nz, c)) == Done(b, DedupeKey(nz, c));
  }

  lemma {:induction false} SameProgressSameSnapshot(
      nz: Normalizer, cs: seq<Company>, s: Store, a: Progress, b: Progress)
    requires Loaded(s, cs)
    requires Sensible(nz, cs, a) && Sensible(nz, cs, b) && forall key :: Done(a, key) == Done(b, key)
    ensures Snapshot(nz, cs, s, a) == Snapshot(nz, cs, s, b)
  {
    hide MergedAway, Current, Sensible, Done;
    forall id | id in s.live
      ensures MergedAway(nz, cs, a, s.live[id]) <==> MergedAway(nz, cs, b, s.live[id])
      ensures Current(nz, cs, a, s.live[id]) == Current(nz, cs, b, s.live[id])
    {
      SameProgressSameRow(nz, cs, a, b, s.live[id]);
    }
    assert Away(nz, cs, s, a) == Away(nz, cs, s, b);
    assert Rows(nz, cs, s, a) == Rows(nz, cs, s, b);
    assert Owners(nz, cs, s, a) == Owners(nz, cs, s, b);
  }

  lemma {:induction false} KeyHasGroup(nz: Normalizer, cs: seq<Company>, key: string)
    requires DistinctIds(cs) && key in Keys(nz, cs)
    ensures Group(nz, cs, key) != [] && |Duplicates(nz, cs, key)| == |Group(nz, cs, key)| - 1
  {
    var c :| c in cs && DedupeKey(nz, c) == key;
    OwnGroup(nz, cs, c);
    GroupShape(nz, cs, key);
  }

  lemma {:induction false} AllGroupsDone(nz: Normalizer, cs: seq<Company>, s: Store, pr: Progress)
    requires Loaded(s, cs) && Sensible(nz, cs, pr)
    requires forall key :: Done(pr, key) == if key in Keys(nz, cs) then |Duplicates(nz, cs, key)| else 0
    ensures Snapshot(nz, cs, s, pr) == FullyMerged(nz, cs, s)
  {
    FullIsSensible(nz, cs);
    SameProgressSameSnapshot(nz, cs, s, pr, Full(nz, cs));
  }

  lemma {:induction false} LoadedIds(s: Store, cs: seq<Company>)
    requires Loaded(s, cs)
    ensures DistinctIds(cs) && |s.live| == |cs|
  {
    LoadedCount(s, cs);
  }

  lemma {:induction false} DuplicatesOf(nz: Normalizer, cs: seq<Company>, key: string)
    requires Group(nz, cs, key) != []
    ensures PrimaryOf(nz, cs, key) == Some(Primary(Group(nz, cs, key)))
    ensures Duplicates(nz, cs, key) == Without(Group(nz, cs, key), Primary(Group(nz, cs, key)).id)
  {
  }

  lemma {:induction false} AdvanceDone(pr: Progress, key: string)
    ensures forall k :: Done(Advance(pr, key), k) == if k == key then Done(pr, k) + 1 else Done(pr, k)
  {
  }

  class CompanyStore {
    var live: map<Id, Company>
    var children: map<Child, Option<Id>>
    var gone: set<Id>

    constructor (s: Store)
      ensures State() == s
    {
      live, children, gone := s.live, s.children, s.gone;
    }

    function State(): Store
      reads this
    {
      Store(live, children, gone)
    }

    /** mergeCompanyInto, one transaction: it happens as a whole or not at all. */
    method MergeCompanyInto(primary: Company, dup: Company, ok: bool) returns (err: bool)
      modifies this
      ensures err == !ok
      ensures State() == if ok then MergeInto(old(State()), primary, dup) else old(State())
    {
      if !ok {
        return true;
      }
      var tables := [Contacts, DecisionMakers, Sponsors, PainPoints];
      for t := 0 to |tables|
        invariant live == old(live) && gone == old(gone)
        invariant children.Keys == old(children).Keys
        invariant forall k :: k in children ==>
          children[k] == if k.table in tables[..t] && old(children)[k] == Some(dup.id) then Some(primary.id) else old(children)[k]
      {
        assert tables[..t + 1] == tables[..t] + [tables[t]];
        children := map k | k in children ::
          if k.table == tables[t] && children[k] == Some(dup.id) then Some(primary.id) else children[k];
      }
      forall t: Table ensures t in tables {
        assert tables[0] == Contacts && tables[1] == DecisionMakers && tables[2] == Sponsors && tables[3] == PainPoints;
        match t
        case Contacts =>
        case DecisionMakers =>
        case Sponsors =>
        case PainPoints =>
      }
      assert tables[..|tables|] == tables;
      assert children == Reassigned(old(children), dup.id, primary.id);
      var tags := MergeStringSlices(primary.tags, dup.tags);
      if primary.id in live {
        var row := live[primary.id].(tags := tags);
        if !Filled(primary.domain) && Filled(dup.domain) {
          row := row.(domain := dup.domain);
        }
        live := live[primary.id := row];
      }
      if dup.id in live {
        gone := gone + {dup.id};
      }
      live := live - {dup.id};
      return false;
    }

    method GroupByKey(nz: Normalizer, cs: seq<Company>) returns (groups: map<string, seq<Company>>)
      ensures forall key :: key in groups <==> key in Keys(nz, cs)
      ensures forall key :: key in groups ==> groups[key] == Group(nz, cs, key)
    {
      groups := map[];
      for i := 0 to |cs|
        invariant forall key :: key in groups <==> Group(nz, cs[..i], key) != []
        invariant forall key :: key in groups ==> groups[key] == Group(nz, cs[..i], key)
      {
        assert cs[..i + 1][..i] == cs[..i];
        var key := DedupeKey(nz, cs[i]);
        groups := groups[key := (if key in groups then groups[key] else []) + [cs[i]]];
      }
      assert cs[..|cs|] == cs;
      forall key ensures Group(nz, cs, key) != [] <==> key in Keys(nz, cs) {
        GroupMembers(nz, cs, key);
        assert First(Group(nz, cs, key)).None? <==> Group(nz, cs, key) == [];
      }
    }

    /** The merges of one group, up to the merge that fails. The ghost progress says how far the
        whole run has got. */
    method MergeGroup(nz: Normalizer, cs: seq<Company>, group: seq<Company>, failAt: Option<nat>, already: nat,
                      ghost s: Store, ghost before: Progress, ghost key: string)
      returns (merged: nat, err: bool, ghost pr: Progress)
      requires Loaded(s, cs) && group == Group(nz, cs, key) && group != []
      requires Sensible(nz, cs, before) && Done(before, key) == 0
      requires State() == Snapshot(nz, cs, s, before) && |live| + already == |cs|
      modifies this
      ensures Sensible(nz, cs, pr) && State() == Snapshot(nz, cs, s, pr)
      ensures |live| + merged == |cs|
      ensures forall k :: k != key ==> Done(pr, k) == Done(before, k)
      ensures !err ==> Done(pr, key) == |Duplicates(nz, cs, key)|
      ensures err ==> failAt == Some(merged)
    {
      hide Snapshot, Loaded, Sensible, Duplicates, Group, PrimaryOf, MergeInto, DedupeKey, DistinctIds, Done;
      merged, pr := already, before;
      var primary := PickPrimaryCompany(group);
      LoadedIds(s, cs);
      GroupShape(nz, cs, key);
      DuplicatesOf(nz, cs, key);
      for j := 0 to |group|
        invariant Sensible(nz, cs, pr) && State() == Snapshot(nz, cs, s, pr)
        invariant |live| + merged == |cs|
        invariant Done(pr, key) == |Without(group[..j], primary.id)|
        invariant forall k :: k != key ==> Done(pr, k) == Done(before, k)
      {
        var dup := group[j];
        assert group[..j + 1][..j] == group[..j];
        WithoutPrefix(group, primary.id, j);
        if dup.id == primary.id {
          continue;
        }
        MergeIsAStep(nz, cs, s, pr, key);
        err := MergeCompanyInto(primary, dup, failAt != Some(merged));
        if err {
          return merged, true, pr;
        }
        AdvanceDone(pr, key);
        pr := Advance(pr, key);
        merged := merged + 1;
      }
      assert group[..|group|] == group;
      return merged, false, pr;
    }

    /** Visits the groups in an order of its own choosing, as Go ranges over a map. */
    method MergeDuplicateCompanies(nz: Normalizer, cs: seq<Company>, failAt: Option<nat>)
      returns (groupsFound: nat, merged: nat, err: bool, ghost pr: Progress)
      requires Loaded(State(), cs)
      modifies this
      ensures Sensible(nz, cs, pr) && State() == Snapshot(nz, cs, old(State()), pr)
      ensures |live| + merged == |cs|
      ensures !err ==> State() == FullyMerged(nz, cs, old(State())) && merged == |cs| - |Keys(nz, cs)|
      ensures !err ==> groupsFound == |SharedKeys(nz, cs)|
      ensures err ==> failAt == Some(merged)
    {
      hide Snapshot, FullyMerged, Loaded, Sensible, Duplicates, Group, Keys;
      ghost var s := State();
      var groups := GroupByKey(nz, cs);
      var rest := groups.Keys;
      ghost var multi: set<string> := {};
      groupsFound, merged, pr := 0, 0, map[];
      NothingDone(nz, cs, s);
      LoadedIds(s, cs);
      while rest != {}
        invariant rest <= groups.Keys
        invariant Sensible(nz, cs, pr) && State() == Snapshot(nz, cs, s, pr)
        invariant |live| + merged == |cs|
        invariant forall key :: Done(pr, key) == if key in groups && key !in rest then |Duplicates(nz, cs, key)| else 0
        invariant groupsFound == |multi|
        invariant forall key :: key in multi <==> key in groups && key !in rest && |Group(nz, cs, key)| >= 2
        decreases |rest|
      {
        var key :| key in rest;
        rest := rest - {key};
        var group := groups[key];
        KeyHasGroup(nz, cs, key);
        if |group| < 2 {
          continue;
        }
        groupsFound := groupsFound + 1;
        multi := multi + {key};
        merged, err, pr := MergeGroup(nz, cs, group, failAt, merged, s, pr, key);
        if err {
          return groupsFound, merged, true, pr;
        }
      }
      AllGroupsDone(nz, cs, s, pr);
      FullCount(nz, cs, s);
      assert multi == SharedKeys(nz, cs);
      return groupsFound, merged, false, pr;
    }
  }

  lemma {:induction false} NothingDone(nz: Normalizer, cs: seq<Company>, s: Store)
    requires Loaded(s, cs)
    ensures Sensible(nz, cs, map[]) && Snapshot(nz, cs, s, map[]) == s
  {
    assert Away(nz, cs, s, map[]) == {};
    assert Rows(nz, cs, s, map[]) == s.live;
    assert s.live - {} == s.live;
    assert Owners(nz, cs, s, map[]) == s.children;
  }
}
