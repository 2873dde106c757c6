/**
 Merging duplicate companies. The merge is described by how far each group has got: Snapshot is
 the store after some number of duplicates of every group have been merged, in whatever order
 the groups were visited. Every single merge moves from one snapshot to the next.
 */
module CompanyDedupe {
  import opened Wrappers

  type Id = nat

  datatype Company = Company(
    id: Id,
    name: string,
    domain: Option<string>,
    website: Option<string>,
    description: Option<string>,
    employeeCount: Option<string>,
    linkedinUrl: Option<string>,
    enrichmentLength: nat,
    tags: seq<string>)

  datatype Table = Contacts | DecisionMakers | Sponsors | PainPoints

  datatype Child = Child(table: Table, id: nat)

  /** Live companies, the live children of the four tables with the company each points at, and
      the soft-deleted companies. */
  datatype Store = Store(live: map<Id, Company>, children: map<Child, Option<Id>>, gone: set<Id>)

  /** normalize.Domain and normalize.CompanyName */
  datatype Normalizer = Normalizer(domain: string -> string, name: string -> string)

  predicate Filled(s: Option<string>) {
    s.Some? && s.value != ""
  }

  function DedupeKey(nz: Normalizer, c: Company): string {
    if Filled(c.domain) && nz.domain(c.domain.value) != "" then "domain:" + nz.domain(c.domain.value)
    else "name:" + nz.name(c.name)
  }

  function One(b: bool): nat {
    if b then 1 else 0
  }

  function Completeness(c: Company): nat {
    One(Filled(c.domain)) + One(Filled(c.website)) + One(Filled(c.description)) + One(Filled(c.employeeCount))
    + One(Filled(c.linkedinUrl)) + One(c.enrichmentLength > 2)
  }

  /** The normal form of the company's domain, if it has one. */
  function NormalDomain(nz: Normalizer, c: Company): Option<string> {
    if c.domain.Some? && c.domain.value != "" && nz.domain(c.domain.value) != "" then Some(nz.domain(c.domain.value)) else None
  }

  /** Two rows are one company: their domains agree, or neither has a domain and their names do. */
  predicate SameCompany(nz: Normalizer, a: Company, b: Company) {
    NormalDomain(nz, a) == NormalDomain(nz, b) && (NormalDomain(nz, a).None? ==> nz.name(a.name) == nz.name(b.name))
  }

  lemma {:induction false} SamePrefix(prefix: string, a: string, b: string)
    ensures prefix + a == prefix + b <==> a == b
  {
    if prefix + a == prefix + b {
      assert a == (prefix + a)[|prefix|..] == (prefix + b)[|prefix|..] == b;
    }
  }

  /** Two keys with different prefixes differ. */
  lemma {:induction false} DomainIsNotName(d: string, n: string)
    ensures "domain:" + d != "name:" + n
  {
    assert ("domain:" + d)[0] == 'd' && ("name:" + n)[0] == 'n';
  }

  /** The key tells companies apart as it should. */
  lemma {:induction false} KeyIsSameCompany(nz: Normalizer, a: Company, b: Company)
    ensures DedupeKey(nz, a) == DedupeKey(nz, b) <==> SameCompany(nz, a, b)
  {
    var d, e := NormalDomain(nz, a), NormalDomain(nz, b);
    if d.Some? && e.Some? {
      SamePrefix("domain:", d.value, e.value);
    } else if d.Some? {
      DomainIsNotName(d.value, nz.name(b.name));
    } else if e.Some? {
      DomainIsNotName(e.value, nz.name(a.name));
    } else {
      SamePrefix("name:", nz.name(a.name), nz.name(b.name));
    }
  }

  /** Completeness counts six attributes, one each, if they hold something; name, tags and id do
      not count. An enrichment counts from three characters on. */
  lemma {:induction false} CompletenessCounts(c: Company, id: Id, name: string, tags: seq<string>, s: string, n: nat)
    requires s != ""
    ensures var empty := Company(id, name, None, None, None, None, None, 0, tags); Completeness(empty) == 0
    ensures Completeness(c.(id := id, name := name, tags := tags)) == Completeness(c)
    ensures Completeness(c.(domain := Some(s))) == Completeness(c.(domain := None)) + 1
    ensures Completeness(c.(website := Some(s))) == Completeness(c.(website := None)) + 1
    ensures Completeness(c.(description := Some(s))) == Completeness(c.(description := None)) + 1
    ensures Completeness(c.(employeeCount := Some(s))) == Completeness(c.(employeeCount := None)) + 1
    ensures Completeness(c.(linkedinUrl := Some(s))) == Completeness(c.(linkedinUrl := None)) + 1
    ensures Completeness(c.(domain := Some(""))) == Completeness(c.(domain := None))
    ensures Completeness(c.(website := Some(""))) == Completeness(c.(website := None))
    ensures Completeness(c.(description := Some(""))) == Completeness(c.(description := None))
    ensures Completeness(c.(employeeCount := Some(""))) == Completeness(c.(employeeCount := None))
    ensures Completeness(c.(linkedinUrl := Some(""))) == Completeness(c.(linkedinUrl := None))
    ensures Completeness(c.(enrichmentLength := n)) == Completeness(c.(enrichmentLength := 0)) + if n >= 3 then 1 else 0
  {
  }

  // ---------------------------------------------------------------- tags

  /** The nonempty strings in order of first appearance. */
  function FirstAppearances(s: seq<string>): seq<string> {
    if s == [] then []
    else
      var before, x := FirstAppearances(s[..|s| - 1]), s[|s| - 1];
      if x == "" || x in s[..|s| - 1] then before else before + [x]
  }

  function MergedStrings(a: seq<string>, b: seq<string>): seq<string> {
    FirstAppearances(a + b)
  }

  /** A union without duplicates: exactly the nonempty strings of both, each once. */
  lemma {:induction false} FirstAppearancesAreAUnion(s: seq<string>)
    ensures forall x :: x in FirstAppearances(s) <==> x in s && x != ""
    ensures forall i, j :: 0 <= i < j < |FirstAppearances(s)| ==> FirstAppearances(s)[i] != FirstAppearances(s)[j]
  {
    if s != [] {
      FirstAppearancesAreAUnion(s[..|s| - 1]);
      assert s == s[..|s| - 1] + [s[|s| - 1]];
    }
  }

  method MergeStringSlices(a: seq<string>, b: seq<string>) returns (out: seq<string>)
    ensures out == MergedStrings(a, b)
    ensures forall x :: x in out <==> (x in a || x in b) && x != ""
  {
    var all := a + b;
    var seen: set<string> := {};
    out := [];
    for i := 0 to |all|
      invariant out == FirstAppearances(all[..i])
      invariant forall x :: x in seen <==> x in all[..i] && x != ""
    {
      assert all[..i + 1][..i] == all[..i] && all[..i + 1] == all[..i] + [all[i]];
      var s := all[i];
      if s == "" || s in seen {
        continue;
      }
      seen := seen + {s};
      out := out + [s];
    }
    assert all[..|all|] == all;
    FirstAppearancesAreAUnion(all);
  }

  // ---------------------------------------------------------------- groups

  /** The companies with a key, oldest first. */
  function Group(nz: Normalizer, cs: seq<Company>, key: string): seq<Company> {
    if cs == [] then []
    else
      var last := cs[|cs| - 1];
      Group(nz, cs[..|cs| - 1], key) + if DedupeKey(nz, last) == key then [last] else []
  }

  /** The most complete company of a group, the oldest among equals. */
  function Primary(group: seq<Company>): Company
    requires group != []
  {
    var n := |group| - 1;
    if n == 0 then group[0]
    else
      var best := Primary(group[..n]);
      if Completeness(group[n]) > Completeness(best) then group[n] else best
  }

  lemma {:induction false} PrimaryIsTheOldestBest(group: seq<Company>) returns (i: nat)
    requires group != []
    ensures i < |group| && group[i] == Primary(group)
    ensures forall k :: 0 <= k < |group| ==> Completeness(group[k]) <= Completeness(group[i])
    ensures forall k :: 0 <= k < i ==> Completeness(group[k]) < Completeness(group[i])
  {
    hide Completeness;
    var n := |group| - 1;
    if n == 0 {
      i := 0;
    } else {
      var k := PrimaryIsTheOldestBest(group[..n]);
      i := if Completeness(group[n]) > Completeness(group[k]) then n else k;
    }
  }

  method PickPrimaryCompany(group: seq<Company>) returns (best: Company)
    requires group != []
    ensures best == Primary(group)
  {
    best := group[0];
    for i := 1 to |group|
      invariant best == Primary(group[..i])
    {
      assert group[..i + 1][..i] == group[..i];
      if Completeness(group[i]) > Completeness(best) {
        best := group[i];
      }
    }
    assert group[..|group|] == group;
  }

  /** The members other than the one with this id, in order. */
  function Without(group: seq<Company>, id: Id): seq<Company> {
    if group == [] then []
    else Without(group[..|group| - 1], id) + if group[|group| - 1].id == id then [] else [group[|group| - 1]]
  }

  function PrimaryOf(nz: Normalizer, cs: seq<Company>, key: string): Option<Company> {
    var group := Group(nz, cs, key);
    if group == [] then None else Some(Primary(group))
  }

  /** The companies a group merges away, in order. */
  function Duplicates(nz: Normalizer, cs: seq<Company>, key: string): seq<Company> {
    match PrimaryOf(nz, cs, key)
    case None => []
    case Some(p) => Without(Group(nz, cs, key), p.id)
  }

  // ---------------------------------------------------------------- one merge

  /** The primary row after one more duplicate; both are the rows as first loaded. */
  function AbsorbOne(row: Company, primary: Company, dup: Company): Company {
    row.(tags := MergedStrings(primary.tags, dup.tags),
         domain := if !Filled(primary.domain) && Filled(dup.domain) then dup.domain else row.domain)
  }

  function Reassigned(children: map<Child, Option<Id>>, from: Id, to: Id): map<Child, Option<Id>> {
    map k | k in children :: if children[k] == Some(from) then Some(to) else children[k]
  }

  function MergeInto(s: Store, primary: Company, dup: Company): Store {
    Store(
      (if primary.id in s.live then s.live[primary.id := AbsorbOne(s.live[primary.id], primary, dup)] else s.live)
      - {dup.id},
      Reassigned(s.children, dup.id, primary.id),
      if dup.id in s.live then s.gone + {dup.id} else s.gone)
  }

  // ---------------------------------------------------------------- snapshots

  /** How many duplicates of each key have been merged. */
  type Progress = map<string, nat>

  function Done(pr: Progress, key: string): nat {
    if key in pr then pr[key] else 0
  }

  ghost predicate DistinctIds(cs: seq<Company>) {
    forall i, j :: 0 <= i < j < |cs| ==> cs[i].id != cs[j].id
  }

  /** The rows the query returned, oldest first, are the live companies. */
  ghost predicate Loaded(s: Store, cs: seq<Company>) {
    && DistinctIds(cs)
    && (forall i :: 0 <= i < |cs| ==> cs[i].id in s.live && s.live[cs[i].id] == cs[i])
    && (forall id :: id in s.live ==> s.live[id] in cs && s.live[id].id == id)
    && s.gone !! s.live.Keys
  }

  predicate Sensible(nz: Normalizer, cs: seq<Company>, pr: Progress) {
    forall key :: key in pr ==> pr[key] <= |Duplicates(nz, cs, key)|
  }

  predicate MergedAway(nz: Normalizer, cs: seq<Company>, pr: Progress, c: Company)
    requires Sensible(nz, cs, pr)
  {
    c in Duplicates(nz, cs, DedupeKey(nz, c))[..Done(pr, DedupeKey(nz, c))]
  }

  /** A primary row after its first duplicates were merged. */
  function Absorb(primary: Company, dups: seq<Company>): Company {
    if dups == [] then primary
    else AbsorbOne(Absorb(primary, dups[..|dups| - 1]), primary, dups[|dups| - 1])
  }

  function Current(nz: Normalizer, cs: seq<Company>, pr: Progress, c: Company): Company
    requires Sensible(nz, cs, pr)
  {
    var key := DedupeKey(nz, c);
    if PrimaryOf(nz, cs, key) == Some(c) then Absorb(c, Duplicates(nz, cs, key)[..Done(pr, key)]) else c
  }

  function Target(nz: Normalizer, cs: seq<Company>, pr: Progress, s: Store, owner: Option<Id>): Option<Id>
    requires Sensible(nz, cs, pr)
  {
    if owner.Some? && owner.value in s.live && MergedAway(nz, cs, pr, s.live[owner.value])
       && PrimaryOf(nz, cs, DedupeKey(nz, s.live[owner.value])).Some?
    then Some(PrimaryOf(nz, cs, DedupeKey(nz, s.live[owner.value])).value.id)
    else owner
  }

  function Away(nz: Normalizer, cs: seq<Company>, s: Store, pr: Progress): set<Id>
    requires Sensible(nz, cs, pr)
  {
    set id | id in s.live && MergedAway(nz, cs, pr, s.live[id])
  }

  function Rows(nz: Normalizer, cs: seq<Company>, s: Store, pr: Progress): map<Id, Company>
    requires Sensible(nz, cs, pr)
  {
    map id | id in s.live :: Current(nz, cs, pr, s.live[id])
  }

  function Owners(nz: Normalizer, cs: seq<Company>, s: Store, pr: Progress): map<Child, Option<Id>>
    requires Sensible(nz, cs, pr)
  {
    map k | k in s.children :: Target(nz, cs, pr, s, s.children[k])
  }

  function Snapshot(nz: Normalizer, cs: seq<Company>, s: Store, pr: Progress): Store
    requires Sensible(nz, cs, pr)
  {
    Store(
      Rows(nz, cs, s, pr) - Away(nz, cs, s, pr),
      Owners(nz, cs, s, pr),
      s.gone + Away(nz, cs, s, pr))
  }

  // ---------------------------------------------------------------- groups and their members

  lemma {:induction false} SameIdSameCompany(cs: seq<Company>, a: Company, b: Company)
    requires DistinctIds(cs) && a in cs && b in cs && a.id == b.id
    ensures a == b
  {
    var i :| 0 <= i < |cs| && cs[i] == a;
    var j :| 0 <= j < |cs| && cs[j] == b;
  }

  lemma {:induction false} GroupMembers(nz: Normalizer, cs: seq<Company>, key: string)
    ensures forall c :: c in Group(nz, cs, key) <==> c in cs && DedupeKey(nz, c) == key
  {
    if cs != [] {
      GroupMembers(nz, cs[..|cs| - 1], key);
      assert cs == cs[..|cs| - 1] + [cs[|cs| - 1]];
    }
  }

  lemma {:induction false} GroupIsDistinct(nz: Normalizer, cs: seq<Company>, key: string)
    requires DistinctIds(cs)
    ensures DistinctIds(Group(nz, cs, key))
  {
    if cs != [] {
      var n := |cs| - 1;
      GroupIsDistinct(nz, cs[..n], key);
      GroupMembers(nz, cs[..n], key);
      var before := Group(nz, cs[..n], key);
      forall i | 0 <= i < |before| ensures before[i].id != cs[n].id {
        assert before[i] in before;
      }
    }
  }

  lemma {:induction false} WithoutMembers(group: seq<Company>, id: Id)
    ensures forall c :: c in Without(group, id) <==> c in group && c.id != id
  {
    if group != [] {
      WithoutMembers(group[..|group| - 1], id);
      assert group == group[..|group| - 1] + [group[|group| - 1]];
    }
  }

  lemma {:induction false} WithoutIsDistinct(group: seq<Company>, id: Id)
    requires DistinctIds(group)
    ensures DistinctIds(Without(group, id))
  {
    if group != [] {
      var n := |group| - 1;
      WithoutIsDistinct(group[..n], id);
      WithoutMembers(group[..n], id);
      var before := Without(group[..n], id);
      forall i | 0 <= i < |before| ensures before[i].id != group[n].id {
        assert before[i] in before;
      }
    }
  }

  lemma {:induction false} DistinctFront(group: seq<Company>)
    requires DistinctIds(group) && group != []
    ensures var n := |group| - 1;
            DistinctIds(group[..n]) && forall i :: 0 <= i < n ==> group[..n][i] == group[i] && group[i].id != group[n].id
  {
  }

  lemma {:induction false} WithoutSize(group: seq<Company>, k: nat)
    requires DistinctIds(group) && k < |group|
    ensures |Without(group, group[k].id)| == |group| - 1
  {
    var n, id := |group| - 1, group[k].id;
    var front := group[..n];
    DistinctFront(group);
    hide DistinctIds;
    if k < n {
      WithoutSize(front, k);
    } else {
      NothingToDrop(front, id);
    }
  }

  lemma {:induction false} NothingToDrop(group: seq<Company>, id: Id)
    requires forall i :: 0 <= i < |group| ==> group[i].id != id
    ensures Without(group, id) == group
  {
    if group != [] {
      NothingToDrop(group[..|group| - 1], id);
    }
  }

  /** The shape of a loaded group: a primary of that key, and its duplicates, distinct from it
      and from each other. */
  lemma {:induction false} GroupShape(nz: Normalizer, cs: seq<Company>, key: string)
    requires DistinctIds(cs) && Group(nz, cs, key) != []
    ensures PrimaryOf(nz, cs, key).Some? && PrimaryOf(nz, cs, key).value in cs
    ensures DedupeKey(nz, PrimaryOf(nz, cs, key).value) == key
    ensures forall c :: c in Duplicates(nz, cs, key) <==>
              c in cs && DedupeKey(nz, c) == key && c.id != PrimaryOf(nz, cs, key).value.id
    ensures |Duplicates(nz, cs, key)| == |Group(nz, cs, key)| - 1
    ensures DistinctIds(Duplicates(nz, cs, key))
  {
    var group := Group(nz, cs, key);
    GroupMembers(nz, cs, key);
    GroupIsDistinct(nz, cs, key);
    var i := PrimaryIsTheOldestBest(group);
    assert group[i] in group;
    WithoutMembers(group, Primary(group).id);
    WithoutIsDistinct(group, Primary(group).id);
    WithoutSize(group, i);
  }

  lemma {:induction false} OwnGroup(nz: Normalizer, cs: seq<Company>, c: Company)
    requires c in cs
    ensures Group(nz, cs, DedupeKey(nz, c)) != []
  {
    GroupMembers(nz, cs, DedupeKey(nz, c));
  }

  // ---------------------------------------------------------------- one merge is one step

  /** The next duplicate of a group is not merged yet and is nobody's primary. */
  lemma {:induction false} NextDuplicate(nz: Normalizer, cs: seq<Company>, pr: Progress, key: string)
    requires DistinctIds(cs) && Sensible(nz, cs, pr) && Group(nz, cs, key) != []
    requires Done(pr, key) < |Duplicates(nz, cs, key)|
    ensures var dup := Duplicates(nz, cs, key)[Done(pr, key)];
            && dup in cs && DedupeKey(nz, dup) == key
            && dup.id != PrimaryOf(nz, cs, key).value.id
            && !MergedAway(nz, cs, pr, dup)
  {
    GroupShape(nz, cs, key);
    var dups, d := Duplicates(nz, cs, key), Done(pr, key);
    assert dups[d] in dups;
    assert dups[d] !in dups[..d];
  }

  lemma {:induction false} PrimaryStays(nz: Normalizer, cs: seq<Company>, pr: Progress, c: Company)
    requires DistinctIds(cs) && Sensible(nz, cs, pr) && c in cs
    requires PrimaryOf(nz, cs, DedupeKey(nz, c)) == Some(c)
    ensures !MergedAway(nz, cs, pr, c)
  {
    OwnGroup(nz, cs, c);
    GroupShape(nz, cs, DedupeKey(nz, c));
    var dups := Duplicates(nz, cs, DedupeKey(nz, c));
    assert c in dups[..Done(pr, DedupeKey(nz, c))] ==> c in dups;
  }

  function Advance(pr: Progress, key: string): Progress {
    pr[key := Done(pr, key) + 1]
  }

  lemma {:induction false} MergedAfterStep(nz: Normalizer, cs: seq<Company>, pr: Progress, key: string, c: Company)
    requires Sensible(nz, cs, pr) && Done(pr, key) < |Duplicates(nz, cs, key)|
    ensures Sensible(nz, cs, Advance(pr, key))
    ensures MergedAway(nz, cs, Advance(pr, key), c) <==>
            MergedAway(nz, cs, pr, c)
            || (DedupeKey(nz, c) == key && c == Duplicates(nz, cs, key)[Done(pr, key)])
  {
    hide Duplicates, DedupeKey;
    var dups, d := Duplicates(nz, cs, key), Done(pr, key);
    assert dups[..d + 1] == dups[..d] + [dups[d]];
  }

  lemma {:induction false} LiveAfterStep(nz: Normalizer, cs: seq<Company>, s: Store, pr: Progress, key: string, id: Id)
    requires Loaded(s, cs) && Sensible(nz, cs, pr) && Group(nz, cs, key) != []
    requires Done(pr, key) < |Duplicates(nz, cs, key)| && id in s.live
    ensures Sensible(nz, cs, Advance(pr, key)) && PrimaryOf(nz, cs, key).Some?
    ensures var p, dup := PrimaryOf(nz, cs, key).value, Duplicates(nz, cs, key)[Done(pr, key)];
            var c := s.live[id];
            && (MergedAway(nz, cs, Advance(pr, key), c) <==> MergedAway(nz, cs, pr, c) || id == dup.id)
            && Current(nz, cs, Advance(pr, key), c) ==
               if id == p.id then AbsorbOne(Current(nz, cs, pr, c), p, dup) else Current(nz, cs, pr, c)
  {
    hide Group, Primary, PrimaryOf, Duplicates, DedupeKey, AbsorbOne, MergedAway;
    var c := s.live[id];
    var dups, d := Duplicates(nz, cs, key), Done(pr, key);
    GroupShape(nz, cs, key);
    NextDuplicate(nz, cs, pr, key);
    MergedAfterStep(nz, cs, pr, key, c);
    if id == dups[d].id {
      SameIdSameCompany(cs, c, dups[d]);
    }
    var p := PrimaryOf(nz, cs, key).value;
    if id == p.id {
      SameIdSameCompany(cs, c, p);
      assert dups[..d + 1][..d] == dups[..d];
    }
  }

  lemma {:induction false} ChildAfterStep(
      nz: Normalizer, cs: seq<Company>, s: Store, pr: Progress, key: string, owner: Option<Id>)
    requires Loaded(s, cs) && Sensible(nz, cs, pr) && Group(nz, cs, key) != []
    requires Done(pr, key) < |Duplicates(nz, cs, key)|
    ensures Sensible(nz, cs, Advance(pr, key)) && PrimaryOf(nz, cs, key).Some?
    ensures var p, dup := PrimaryOf(nz, cs, key).value, Duplicates(nz, cs, key)[Done(pr, key)];
            Target(nz, cs, Advance(pr, key), s, owner) ==
            if Target(nz, cs, pr, s, owner) == Some(dup.id) then Some(p.id) else Target(nz, cs, pr, s, owner)
  {
    var dup := Duplicates(nz, cs, key)[Done(pr, key)];
    GroupShape(nz, cs, key);
    NextDuplicate(nz, cs, pr, key);
    if owner.Some? && owner.value in s.live {
      var c := s.live[owner.value];
      LiveAfterStep(nz, cs, s, pr, key, owner.value);
      OwnGroup(nz, cs, c);
      GroupShape(nz, cs, DedupeKey(nz, c));
      var q := PrimaryOf(nz, cs, DedupeKey(nz, c)).value;
      if q.id == dup.id {
        SameIdSameCompany(cs, q, dup);
      }
      if owner.value == dup.id {
        SameIdSameCompany(cs, c, dup);
      }
    } else {
      MergedAfterStep(nz, cs, pr, key, dup);
    }
  }

  lemma {:induction false} AwayStep(nz: Normalizer, cs: seq<Company>, s: Store, pr: Progress, key: string)
    requires Loaded(s, cs) && Sensible(nz, cs, pr) && Group(nz, cs, key) != []
    requires Done(pr, key) < |Duplicates(nz, cs, key)|
    ensures Sensible(nz, cs, Advance(pr, key))
    ensures Away(nz, cs, s, Advance(pr, key)) == Away(nz, cs, s, pr) + {Duplicates(nz, cs, key)[Done(pr, key)].id}
    ensures Duplicates(nz, cs, key)[Done(pr, key)].id in s.live.Keys - Away(nz, cs, s, pr)
  {
    hide Current, MergedAway, Duplicates, AbsorbOne, PrimaryOf, Sensible, DedupeKey, Group;
    var dup := Duplicates(nz, cs, key)[Done(pr, key)];
    NextDuplicate(nz, cs, pr, key);
    assert dup.id in s.live && s.live[dup.id] == dup;
    MergedAfterStep(nz, cs, pr, key, dup);
    forall id | id in s.live
      ensures MergedAway(nz, cs, Advance(pr, key), s.live[id]) <==> MergedAway(nz, cs, pr, s.live[id]) || id == dup.id
    {
      LiveAfterStep(nz, cs, s, pr, key, id);
    }
  }

  lemma {:induction false} RowsStep(nz: Normalizer, cs: seq<Company>, s: Store, pr: Progress, key: string)
    requires Loaded(s, cs) && Sensible(nz, cs, pr) && Group(nz, cs, key) != []
    requires Done(pr, key) < |Duplicates(nz, cs, key)|
    ensures Sensible(nz, cs, Advance(pr, key)) && PrimaryOf(nz, cs, key).Some?
    ensures var p, dup := PrimaryOf(nz, cs, key).value, Duplicates(nz, cs, key)[Done(pr, key)];
            && p.id in s.live && p.id != dup.id && !MergedAway(nz, cs, pr, p) && s.live[p.id] == p
            && Rows(nz, cs, s, Advance(pr, key))
               == Rows(nz, cs, s, pr)[p.id := AbsorbOne(Rows(nz, cs, s, pr)[p.id], p, dup)]
  {
    hide Current, MergedAway, Duplicates, AbsorbOne, PrimaryOf, Sensible, DedupeKey, Group;
    var dup := Duplicates(nz, cs, key)[Done(pr, key)];
    GroupShape(nz, cs, key);
    NextDuplicate(nz, cs, pr, key);
    MergedAfterStep(nz, cs, pr, key, dup);
    var p := PrimaryOf(nz, cs, key).value;
    PrimaryStays(nz, cs, pr, p);
    forall id | id in s.live
      ensures Current(nz, cs, Advance(pr, key), s.live[id]) ==
              if id == p.id then AbsorbOne(Current(nz, cs, pr, s.live[id]), p, dup) else Current(nz, cs, pr, s.live[id])
    {
      LiveAfterStep(nz, cs, s, pr, key, id);
    }
  }

  lemma {:induction false} OwnersStep(nz: Normalizer, cs: seq<Company>, s: Store, pr: Progress, key: string)
    requires Loaded(s, cs) && Sensible(nz, cs, pr) && Group(nz, cs, key) != []
    requires Done(pr, key) < |Duplicates(nz, cs, key)|
    ensures Sensible(nz, cs, Advance(pr, key)) && PrimaryOf(nz, cs, key).Some?
    ensures Owners(nz, cs, s, Advance(pr, key)) ==
            Reassigned(Owners(nz, cs, s, pr), Duplicates(nz, cs, key)[Done(pr, key)].id, PrimaryOf(nz, cs, key).value.id)
  {
    hide Target, MergedAway, Duplicates, PrimaryOf, Sensible, DedupeKey, Group, Loaded;
    ChildAfterStep(nz, cs, s, pr, key, None);
    forall k | k in s.children
      ensures Target(nz, cs, Advance(pr, key), s, s.children[k]) ==
              if Target(nz, cs, pr, s, s.children[k]) == Some(Duplicates(nz, cs, key)[Done(pr, key)].id)
              then Some(PrimaryOf(nz, cs, key).value.id)
              else Target(nz, cs, pr, s, s.children[k])
    {
      ChildAfterStep(nz, cs, s, pr, key, s.children[k]);
    }
  }

  /** A merge on a store whose rows are known before the merged-away ones are dropped. */
  lemma {:induction false} UpdateThenDrop(
      rows: map<Id, Company>, away: set<Id>, children: map<Child, Option<Id>>, gone: set<Id>, p: Company, dup: Company)
    requires p.id in rows && p.id !in away && p.id != dup.id && dup.id in rows && dup.id !in away
    ensures MergeInto(Store(rows - away, children, gone + away), p, dup) ==
            Store(rows[p.id := AbsorbOne(rows[p.id], p, dup)] - (away + {dup.id}),
                  Reassigned(children, dup.id, p.id),
                  gone + (away + {dup.id}))
  {
    var row := AbsorbOne(rows[p.id], p, dup);
    assert (rows - away)[p.id] == rows[p.id];
    var a, b := (rows - away)[p.id := row] - {dup.id}, rows[p.id := row] - (away + {dup.id});
    assert a.Keys == b.Keys;
    assert forall id :: id in a ==> a[id] == b[id];
  }

  /** Merging the next duplicate of any group takes a snapshot to the next one. */
  lemma {:induction false} MergeIsAStep(nz: Normalizer, cs: seq<Company>, s: Store, pr: Progress, key: string)
    requires Loaded(s, cs) && Sensible(nz, cs, pr) && Group(nz, cs, key) != []
    requires Done(pr, key) < |Duplicates(nz, cs, key)|
    ensures Sensible(nz, cs, Advance(pr, key)) && PrimaryOf(nz, cs, key).Some?
    ensures MergeInto(Snapshot(nz, cs, s, pr), PrimaryOf(nz, cs, key).value, Duplicates(nz, cs, key)[Done(pr, key)])
            == Snapshot(nz, cs, s, Advance(pr, key))
    ensures Duplicates(nz, cs, key)[Done(pr, key)].id in Snapshot(nz, cs, s, pr).live
    ensures |Snapshot(nz, cs, s, Advance(pr, key)).live| == |Snapshot(nz, cs, s, pr).live| - 1
  {
    hide MergedAway, Current, Duplicates, AbsorbOne, PrimaryOf, Sensible, DedupeKey, Target, Loaded, Reassigned;
    AwayStep(nz, cs, s, pr, key);
    RowsStep(nz, cs, s, pr, key);
    OwnersStep(nz, cs, s, pr, key);
    var p, dup := PrimaryOf(nz, cs, key).value, Duplicates(nz, cs, key)[Done(pr, key)];
    UpdateThenDrop(Rows(nz, cs, s, pr), Away(nz, cs, s, pr), Owners(nz, cs, s, pr), s.gone, p, dup);
    var live, live' := Snapshot(nz, cs, s, pr).live, Snapshot(nz, cs, s, Advance(pr, key)).live;
    assert live'.Keys == live.Keys - {dup.id};
  }
}
