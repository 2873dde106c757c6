/** Organization slugs: their normal form, and the retry loop that finds a free one. */
module OrgSlug {
  import opened Strings
  import opened Wrappers

  // ---------------------------------------------------------------- the normal form

  /** strings.ToLower, rune by rune, and unicode.IsSpace. */
  datatype Unicode = Unicode(lower: char -> char, space: char -> bool)

  predicate Alnum(c: char) {
    'a' <= c <= 'z' || '0' <= c <= '9'
  }

  /** Lower-casing keeps what a slug is made of, and none of that is white space. */
  ghost predicate UnicodeLaw(u: Unicode) {
    forall c: char :: Alnum(c) || c == '-' ==> u.lower(c) == c && !u.space(c)
  }

  function Lowered(u: Unicode, s: string): string {
    seq(|s|, i requires 0 <= i < |s| => u.lower(s[i]))
  }

  /** Each run of characters outside a-z and 0-9 becomes one dash. */
  function Collapsed(s: string): string {
    if s == "" then ""
    else
      var front, c := s[..|s| - 1], s[|s| - 1];
      if Alnum(c) then Collapsed(front) + [c]
      else if front != "" && !Alnum(front[|front| - 1]) then Collapsed(front)
      else Collapsed(front) + "-"
  }

  function IsDash(c: char): bool {
    c == '-'
  }

  function Slug(u: Unicode, name: string): string {
    TrimRight(TrimLeft(Collapsed(Lowered(u, TrimRight(TrimLeft(name, u.space), u.space))), IsDash), IsDash)
  }

  /** Runs of a-z and 0-9 joined by single dashes, or nothing. */
  predicate Normal(s: string) {
    && (forall i :: 0 <= i < |s| ==> Alnum(s[i]) || s[i] == '-')
    && (forall i :: 0 <= i < |s| && s[i] == '-' ==> 0 < i < |s| - 1 && s[i - 1] != '-' && s[i + 1] != '-')
  }

  /** Slug characters without two dashes in a row; dashes at the ends are allowed. */
  predicate Joined(s: string) {
    && (forall i :: 0 <= i < |s| ==> Alnum(s[i]) || s[i] == '-')
    && (forall i :: 0 < i < |s| ==> s[i - 1] != '-' || s[i] != '-')
  }

  lemma {:induction false} CollapsedIsJoined(s: string)
    ensures Joined(Collapsed(s))
    ensures s != "" ==> Collapsed(s) != "" && (Collapsed(s)[|Collapsed(s)| - 1] == '-' <==> !Alnum(s[|s| - 1]))
  {
    if s != "" {
      CollapsedIsJoined(s[..|s| - 1]);
    }
  }

  lemma {:induction false} TrimmedIsNormal(s: string)
    requires Joined(s)
    ensures Normal(TrimRight(TrimLeft(s, IsDash), IsDash))
  {
    var left := TrimLeft(s, IsDash);
    if s != "" && IsDash(s[0]) {
      assert left == TrimLeft(s[1..], IsDash);
      TrimmedIsNormal(s[1..]);
    } else if s != "" && IsDash(s[|s| - 1]) {
      var t := s[..|s| - 1];
      assert t == "" || !IsDash(t[|t| - 1]);
      assert TrimRight(t, IsDash) == t;
    }
  }

  /** Whatever the input, a slug is in normal form. */
  lemma {:induction false} SlugIsNormal(u: Unicode, name: string)
    ensures Normal(Slug(u, name))
  {
    var lowered := Lowered(u, TrimRight(TrimLeft(name, u.space), u.space));
    CollapsedIsJoined(lowered);
    TrimmedIsNormal(Collapsed(lowered));
  }

  lemma {:induction false} JoinedIsCollapsed(s: string)
    requires Joined(s)
    ensures Collapsed(s) == s
  {
    if s != "" {
      JoinedIsCollapsed(s[..|s| - 1]);
      assert s == s[..|s| - 1] + [s[|s| - 1]];
    }
  }

  /** The normal forms are exactly the fixed points. */
  lemma {:induction false} NormalIsFixed(u: Unicode, s: string)
    requires UnicodeLaw(u)
    ensures Normal(s) <==> Slug(u, s) == s
  {
    if Normal(s) {
      assert s != "" ==> Alnum(s[0]) && Alnum(s[|s| - 1]);
      assert TrimRight(TrimLeft(s, u.space), u.space) == s;
      assert Lowered(u, s) == s;
      JoinedIsCollapsed(s);
    } else {
      SlugIsNormal(u, s);
    }
  }

  lemma {:induction false} SlugIsIdempotent(u: Unicode, name: string)
    requires UnicodeLaw(u)
    ensures Slug(u, Slug(u, name)) == Slug(u, name)
  {
    SlugIsNormal(u, name);
    NormalIsFixed(u, Slug(u, name));
  }

  // ---------------------------------------------------------------- what a slug says of its text

  /** The characters of a slug that are no dashes. */
  function Letters(s: string): string {
    if s == "" then ""
    else Letters(s[..|s| - 1]) + if s[|s| - 1] != '-' then [s[|s| - 1]] else ""
  }

  /** The letters a to z and digits of a text, in lower case and in order. */
  function LowerLetters(u: Unicode, s: string): string {
    if s == "" then ""
    else
      var c := u.lower(s[|s| - 1]);
      LowerLetters(u, s[..|s| - 1]) + if 'a' <= c <= 'z' || '0' <= c <= '9' then [c] else ""
  }

  lemma {:induction false} CollapsedLetters(u: Unicode, s: string)
    ensures Letters(Collapsed(Lowered(u, s))) == LowerLetters(u, s)
  {
    var lowered := Lowered(u, s);
    if s != "" {
      var n := |s| - 1;
      assert lowered[..n] == Lowered(u, s[..n]);
      CollapsedLetters(u, s[..n]);
      var front := Collapsed(lowered[..n]);
      if Alnum(lowered[n]) {
        assert (front + [lowered[n]])[..|front|] == front;
      } else {
        assert (front + "-")[..|front|] == front;
        assert Letters(front) + "" == Letters(front);
      }
    }
  }

  lemma {:induction false} LettersFirst(s: string)
    requires s != ""
    ensures Letters(s) == (if s[0] != '-' then [s[0]] else "") + Letters(s[1..])
  {
    var n := |s| - 1;
    if n > 0 {
      LettersFirst(s[..n]);
      assert s[..n][1..] == s[1..][..n - 1];
    } else {
      assert s[..n] == "" && s[1..] == "";
    }
  }

  lemma {:induction false} TrimmedLeftLetters(s: string)
    ensures Letters(TrimLeft(s, IsDash)) == Letters(s)
  {
    if s != "" && IsDash(s[0]) {
      LettersFirst(s);
      TrimmedLeftLetters(s[1..]);
    }
  }

  lemma {:induction false} TrimmedRightLetters(s: string)
    ensures Letters(TrimRight(s, IsDash)) == Letters(s)
  {
    if s != "" && IsDash(s[|s| - 1]) {
      TrimmedRightLetters(s[..|s| - 1]);
    }
  }

  /** A slug has exactly the letters and digits of the text, in lower case and in order. */
  lemma {:induction false} SlugLetters(u: Unicode, name: string)
    ensures Letters(Slug(u, name)) == LowerLetters(u, TrimSpace(name, u.space))
  {
    var trimmed := TrimSpace(name, u.space);
    var collapsed := Collapsed(Lowered(u, trimmed));
    CollapsedLetters(u, trimmed);
    TrimmedLeftLetters(collapsed);
    TrimmedRightLetters(TrimLeft(collapsed, IsDash));
  }

  /** Collapsing goes on afresh behind a letter. */
  lemma {:induction false} CollapsedSplits(a: string, b: string)
    requires a != "" && Alnum(a[|a| - 1])
    ensures Collapsed(a + b) == Collapsed(a) + Collapsed(b)
  {
    if b == "" {
      assert a + b == a && Collapsed(a) + "" == Collapsed(a);
    } else {
      var n := |b| - 1;
      CollapsedSplits(a, b[..n]);
      assert (a + b)[..|a + b| - 1] == a + b[..n];
    }
  }

  lemma {:induction false} GapCollapses(gap: string)
    requires forall i :: 0 <= i < |gap| ==> !Alnum(gap[i])
    ensures Collapsed(gap) == if gap == "" then "" else "-"
  {
    if gap != "" {
      GapCollapses(gap[..|gap| - 1]);
    }
  }

  lemma {:induction false} TrimLeftStops(a: string, c: char, b: string)
    requires c != '-'
    ensures TrimLeft(a + [c] + b, IsDash) == TrimLeft(a, IsDash) + [c] + b
  {
    var s := a + [c] + b;
    if a != "" && IsDash(a[0]) {
      TrimLeftStops(a[1..], c, b);
      assert s[1..] == a[1..] + [c] + b;
    }
  }

  lemma {:induction false} TrimRightStops(a: string, c: char, b: string)
    requires c != '-'
    ensures TrimRight(a + [c] + b, IsDash) == a + [c] + TrimRight(b, IsDash)
  {
    var s := a + [c] + b;
    if b != "" && IsDash(b[|b| - 1]) {
      TrimRightStops(a, c, b[..|b| - 1]);
      assert s[..|s| - 1] == a + [c] + b[..|b| - 1];
    }
  }

  function Dash(gap: string): string {
    if gap == "" then "" else "-"
  }

  lemma {:induction false} CollapsedAround(x: string, c: char, gap: string, d: char, y: string)
    requires Alnum(c) && Alnum(d) && forall i :: 0 <= i < |gap| ==> !Alnum(gap[i])
    ensures Collapsed(x + [c] + (gap + [d] + y)) == Collapsed(x) + [c] + (Dash(gap) + [d] + Collapsed(y))
  {
    CollapsedSplits(x + [c], gap + [d] + y);
    CollapsedSplits(gap + [d], y);
    GapCollapses(gap);
    assert (x + [c])[..|x|] == x && (gap + [d])[..|gap|] == gap;
  }

  lemma {:induction false} LoweredAround(u: Unicode, x: string, c: char, gap: string, d: char, y: string)
    ensures Lowered(u, x + [c] + (gap + [d] + y))
            == Lowered(u, x) + [u.lower(c)] + (Lowered(u, gap) + [u.lower(d)] + Lowered(u, y))
  {
  }

  lemma {:induction false} TrimmedAround(a: string, c: char, g: string, d: char, b: string)
    requires c != '-' && d != '-'
    ensures TrimRight(TrimLeft(a + [c] + (g + [d] + b), IsDash), IsDash)
            == TrimLeft(a, IsDash) + [c] + g + [d] + TrimRight(b, IsDash)
  {
    hide TrimLeft, TrimRight;
    TrimLeftStops(a, c, g + [d] + b);
    var front := TrimLeft(a, IsDash) + [c] + g;
    assert TrimLeft(a, IsDash) + [c] + (g + [d] + b) == front + [d] + b;
    TrimRightStops(front, d, b);
  }

  lemma {:induction false} LettersOfPart(u: Unicode, s: string)
    ensures Letters(TrimLeft(Collapsed(Lowered(u, s)), IsDash)) == LowerLetters(u, s)
    ensures Letters(TrimRight(Collapsed(Lowered(u, s)), IsDash)) == LowerLetters(u, s)
  {
    CollapsedLetters(u, s);
    TrimmedLeftLetters(Collapsed(Lowered(u, s)));
    TrimmedRightLetters(Collapsed(Lowered(u, s)));
  }

  /** A dash stands between two neighbouring letters or digits exactly when something else stood
      between them in the text. */
  lemma {:induction false} GapBecomesDash(u: Unicode, name: string, x: string, c: char, gap: string, d: char, y: string)
      returns (before: string, after: string)
    requires TrimSpace(name, u.space) == x + [c] + (gap + [d] + y)
    requires Alnum(u.lower(c)) && Alnum(u.lower(d)) && forall i :: 0 <= i < |gap| ==> !Alnum(u.lower(gap[i]))
    ensures Slug(u, name) == before + [u.lower(c)] + (if gap == "" then "" else "-") + [u.lower(d)] + after
    ensures Letters(before) == LowerLetters(u, x) && Letters(after) == LowerLetters(u, y)
  {
    var a, b := Collapsed(Lowered(u, x)), Collapsed(Lowered(u, y));
    before, after := TrimLeft(a, IsDash), TrimRight(b, IsDash);
    LettersOfPart(u, x);
    LettersOfPart(u, y);
    var lowered := Lowered(u, gap);
    assert Dash(lowered) == if gap == "" then "" else "-";
    assert forall i :: 0 <= i < |lowered| ==> !Alnum(lowered[i]);
    SlugOf(u, name);
    hide Collapsed, Lowered, Letters, LowerLetters, TrimLeft, TrimRight, Slug, Dash;
    LoweredAround(u, x, c, gap, d, y);
    CollapsedAround(Lowered(u, x), u.lower(c), lowered, u.lower(d), Lowered(u, y));
    TrimmedAround(a, u.lower(c), Dash(lowered), u.lower(d), b);
  }

  lemma {:induction false} SlugOf(u: Unicode, name: string)
    ensures Slug(u, name) == TrimRight(TrimLeft(Collapsed(Lowered(u, TrimSpace(name, u.space))), IsDash), IsDash)
  {
  }

  lemma {:induction false} SlugIsEmptyExactly(u: Unicode, name: string)
    ensures Slug(u, name) == "" <==> LowerLetters(u, TrimSpace(name, u.space)) == ""
  {
    SlugLetters(u, name);
    SlugIsNormal(u, name);
    hide LowerLetters, Slug;
    var slug := Slug(u, name);
    if slug != "" {
      assert slug[0] != '-';
      LettersFirst(slug);
    }
  }

  /** randomSlugSuffix: hexadecimal digits. */
  predicate Hex(s: string) {
    |s| == 6 && forall i :: 0 <= i < |s| ==> '0' <= s[i] <= '9' || 'a' <= s[i] <= 'f'
  }

  lemma {:induction false} SuffixedIsNormal(base: string, suffix: string)
    requires Normal(base) && base != "" && Hex(suffix)
    ensures Normal(base + "-" + suffix)
  {
    var s, n := base + "-" + suffix, |base|;
    assert forall i :: n < i < |s| ==> s[i] == suffix[i - n - 1] && s[i] != '-';
    forall i | 0 <= i < |s| && s[i] == '-' ensures 0 < i < |s| - 1 && s[i - 1] != '-' && s[i + 1] != '-' {
      if i < n {
        assert base[i] == '-';
      } else {
        assert i == n && s[n - 1] == base[n - 1] && s[n + 1] == suffix[0];
      }
    }
  }

  // ---------------------------------------------------------------- the retry loop

  const MAX_SLUG_ATTEMPTS: nat := 20

  datatype Organization = Organization(name: string, slug: string)

  datatype Fault = NoFault | SavePointFails | InsertFails | RollbackFails

  datatype InsertResult = Inserted | UniqueViolation | OtherError

  function Slugs(rows: seq<Organization>): set<string> {
    set i | 0 <= i < |rows| :: rows[i].slug
  }

  /** A Postgres transaction. After any error it is aborted, and refuses every command but
      ROLLBACK TO; the other commands therefore demand a transaction that is not. */
  class Transaction {
    var rows: seq<Organization>
    var aborted: bool
    var savepoints: map<nat, seq<Organization>>
    ghost var inserts: nat

    constructor (rows: seq<Organization>)
      ensures this.rows == rows && !aborted && inserts == 0
    {
      this.rows := rows;
      aborted, savepoints, inserts := false, map[], 0;
    }

    method SavePoint(name: nat, ok: bool) returns (err: bool)
      requires !aborted
      modifies this`savepoints, this`aborted
      ensures err == !ok && aborted == err
      ensures !err ==> savepoints == old(savepoints)[name := rows]
    {
      if ok {
        savepoints := savepoints[name := rows];
      }
      aborted := !ok;
      return !ok;
    }

    /** committed: the slugs other transactions have committed by now. */
    method Insert(org: Organization, committed: set<string>, ok: bool) returns (r: InsertResult)
      requires !aborted
      modifies this`rows, this`aborted, this`inserts
      ensures inserts == old(inserts) + 1
      ensures r == if !ok then OtherError
                   else if org.slug in committed || org.slug in Slugs(old(rows)) then UniqueViolation
                   else Inserted
      ensures aborted <==> !r.Inserted?
      ensures rows == if r.Inserted? then old(rows) + [org] else old(rows)
    {
      inserts := inserts + 1;
      if !ok {
        aborted := true;
        return OtherError;
      }
      if org.slug in committed || org.slug in Slugs(rows) {
        aborted := true;
        return UniqueViolation;
      }
      rows := rows + [org];
      aborted := false;
      return Inserted;
    }

    method RollbackTo(name: nat, ok: bool) returns (err: bool)
      requires name in savepoints
      modifies this`rows, this`aborted
      ensures err == !ok
      ensures !err ==> rows == savepoints[name] && !aborted
      ensures err ==> rows == old(rows)
    {
      if ok {
        rows := savepoints[name];
        aborted := false;
      }
      return !ok;
    }
  }

  /** What the outside world does at each attempt. */
  datatype World = World(suffix: nat -> Option<string>, committed: nat -> set<string>, fault: nat -> Fault)

  function BaseSlug(u: Unicode, name: string, requested: string): string {
    if Slug(u, requested) != "" then Slug(u, requested)
    else if Slug(u, name) != "" then Slug(u, name)
    else "org"
  }

  /** The requested text decides, if it has a letter or digit at all; else the name, if it has one. */
  lemma {:induction false} BaseLetters(u: Unicode, name: string, requested: string)
    ensures var asked, named := LowerLetters(u, TrimSpace(requested, u.space)), LowerLetters(u, TrimSpace(name, u.space));
            && (asked != "" ==> BaseSlug(u, name, requested) == Slug(u, requested)
                                && Letters(BaseSlug(u, name, requested)) == asked)
            && (asked == "" && named != "" ==> BaseSlug(u, name, requested) == Slug(u, name)
                                               && Letters(BaseSlug(u, name, requested)) == named)
            && (asked == named == "" ==> BaseSlug(u, name, requested) == "org")
  {
    SlugIsEmptyExactly(u, requested);
    SlugIsEmptyExactly(u, name);
    SlugLetters(u, requested);
    SlugLetters(u, name);
    hide Slug, LowerLetters, Letters;
  }

  /** The slug of an attempt; a failed draw of randomness has none. */
  function Candidate(base: string, world: World, attempt: nat): Option<string> {
    if attempt == 0 then Some(base)
    else
      match world.suffix(attempt)
      case None => None
      case Some(suffix) => Some(base + "-" + suffix)
  }

  /** At this attempt the candidate exists and its slug is taken, here or elsewhere. */
  predicate Collides(base: string, world: World, attempt: nat, rows: seq<Organization>) {
    && Candidate(base, world, attempt).Some?
    && (Candidate(base, world, attempt).value in world.committed(attempt)
        || Candidate(base, world, attempt).value in Slugs(rows))
  }

  /** No attempt meets an error other than a taken slug. */
  ghost predicate Smooth(world: World) {
    forall i :: 0 <= i < MAX_SLUG_ATTEMPTS ==> world.suffix(i).Some? && world.fault(i).NoFault?
  }

  ghost predicate FreeWithinReach(base: string, world: World, rows: seq<Organization>) {
    exists i :: 0 <= i < MAX_SLUG_ATTEMPTS && !Collides(base, world, i, rows)
  }

  datatype Creation = Created(org: Organization) | Exhausted | Failed

  datatype Attempt = Stored(org: Organization) | SlugTaken | Broken

  /** One pass of the loop once its slug is chosen. */
  method TrySlug(tx: Transaction, name: string, slug: string, attempt: nat, committed: set<string>, fault: Fault)
    returns (r: Attempt)
    requires !tx.aborted
    modifies tx
    ensures tx.inserts <= old(tx.inserts) + 1
    ensures tx.rows == if r.Stored? then old(tx.rows) + [r.org] else old(tx.rows)
    ensures r.Stored? ==> !tx.aborted && r.org == Organization(name, slug)
    ensures r.SlugTaken? ==> !tx.aborted && (slug in committed || slug in Slugs(old(tx.rows)))
    ensures r.Stored? ==> slug !in committed && slug !in Slugs(old(tx.rows))
    ensures r.Broken? ==> !fault.NoFault?
  {
    hide Slugs;
    var err := tx.SavePoint(attempt, fault != SavePointFails);
    if err {
      return Broken;
    }
    var org := Organization(name, slug);
    var inserted := tx.Insert(org, committed, fault != InsertFails);
    if inserted.Inserted? {
      return Stored(org);
    }
    if !inserted.UniqueViolation? {
      return Broken;
    }
    err := tx.RollbackTo(attempt, fault != RollbackFails);
    if err {
      return Broken;
    }
    return SlugTaken;
  }

  lemma {:induction false} CandidateIsNormal(u: Unicode, name: string, requested: string, world: World, attempt: nat)
    requires forall i :: world.suffix(i).Some? ==> Hex(world.suffix(i).value)
    requires Candidate(BaseSlug(u, name, requested), world, attempt).Some?
    ensures Normal(Candidate(BaseSlug(u, name, requested), world, attempt).value)
    ensures Candidate(BaseSlug(u, name, requested), world, attempt).value != ""
  {
    hide Slug, Hex;
    SlugIsNormal(u, requested);
    SlugIsNormal(u, name);
    if attempt > 0 {
      SuffixedIsNormal(BaseSlug(u, name, requested), world.suffix(attempt).value);
    }
  }

  /** createOrgWithUniqueSlug stores the first candidate that does not collide, if there is one
      among the first MAX_SLUG_ATTEMPTS and nothing else fails before it. */
  method CreateOrgWithUniqueSlug(u: Unicode, tx: Transaction, name: string, requested: string, world: World)
    returns (r: Creation, ghost attempts: nat)
    requires !tx.aborted
    requires forall i :: world.suffix(i).Some? ==> Hex(world.suffix(i).value)
    modifies tx
    ensures tx.inserts <= old(tx.inserts) + MAX_SLUG_ATTEMPTS
    ensures attempts <= MAX_SLUG_ATTEMPTS
    ensures forall i :: 0 <= i < attempts ==> Collides(BaseSlug(u, name, requested), world, i, old(tx.rows))
    ensures r.Created? ==>
              && attempts < MAX_SLUG_ATTEMPTS && !tx.aborted
              && tx.rows == old(tx.rows) + [r.org] && r.org.name == name
              && Candidate(BaseSlug(u, name, requested), world, attempts) == Some(r.org.slug)
              && !Collides(BaseSlug(u, name, requested), world, attempts, old(tx.rows))
              && r.org.slug !in Slugs(old(tx.rows)) && r.org.slug != "" && Normal(r.org.slug)
              && (attempts == 0 ==> r.org.slug == BaseSlug(u, name, requested))
              && (attempts > 0 ==> world.suffix(attempts).Some?
                                   && r.org.slug == BaseSlug(u, name, requested) + "-" + world.suffix(attempts).value)
    ensures r.Exhausted? ==> attempts == 20 && tx.rows == old(tx.rows) && !tx.aborted
    ensures r.Failed? ==> attempts < MAX_SLUG_ATTEMPTS && tx.rows == old(tx.rows) && !Smooth(world)
    ensures Smooth(world) ==> (r.Created? <==> FreeWithinReach(BaseSlug(u, name, requested), world, old(tx.rows)))
  {
    hide Slug, Normal, Hex, Slugs;
    var base := Slug(u, requested);
    if base == "" {
      base := Slug(u, name);
    }
    if base == "" {
      base := "org";
    }
    attempts := 0;
    for attempt := 0 to MAX_SLUG_ATTEMPTS
      invariant attempts == attempt && !tx.aborted && tx.rows == old(tx.rows)
      invariant tx.inserts <= old(tx.inserts) + attempt
      invariant forall i :: 0 <= i < attempt ==> Collides(base, world, i, old(tx.rows))
    {
      var slug := base;
      if attempt > 0 {
        var suffix := world.suffix(attempt);
        if suffix.None? {
          return Failed, attempts;
        }
        slug := base + "-" + suffix.value;
      }
      CandidateIsNormal(u, name, requested, world, attempt);
      var tried := TrySlug(tx, name, slug, attempt, world.committed(attempt), world.fault(attempt));
      if tried.Stored? {
        return Created(tried.org), attempts;
      }
      if tried.Broken? {
        return Failed, attempts;
      }
      attempts := attempts + 1;
    }
    return Exhausted, attempts;
  }

  // ---------------------------------------------------------------- stored slugs

  /** The organizations table: slugs in normal form, nonempty and distinct. */
  ghost predicate Directory(rows: seq<Organization>) {
    && (forall i :: 0 <= i < |rows| ==> rows[i].slug != "" && Normal(rows[i].slug))
    && (forall i, j :: 0 <= i < j < |rows| ==> rows[i].slug != rows[j].slug)
  }

  function FindBySlug(rows: seq<Organization>, slug: string): (r: Option<nat>)
    ensures r.Some? ==> r.value < |rows| && rows[r.value].slug == slug
    ensures r.None? ==> slug !in Slugs(rows)
  {
    if rows == [] then None
    else if rows[|rows| - 1].slug == slug then Some(|rows| - 1)
    else FindBySlug(rows[..|rows| - 1], slug)
  }

  datatype SlugChange = Changed(rows: seq<Organization>) | Invalid | Taken

  /** The slug part of UpdateSecure. */
  function UpdateSlug(u: Unicode, rows: seq<Organization>, i: nat, input: string): SlugChange
    requires i < |rows|
  {
    var slug := Slug(u, input);
    if slug == "" then Invalid
    else if slug == rows[i].slug then Changed(rows)
    else
      var existing := FindBySlug(rows, slug);
      if existing.Some? && existing.value != i then Taken else Changed(rows[i := rows[i].(slug := slug)])
  }

  lemma {:induction false} UpdateKeepsDirectory(u: Unicode, rows: seq<Organization>, i: nat, input: string)
    requires Directory(rows) && i < |rows|
    ensures UpdateSlug(u, rows, i, input).Changed? ==> Directory(UpdateSlug(u, rows, i, input).rows)
    ensures UpdateSlug(u, rows, i, input).Taken? <==>
              Slug(u, input) != "" && exists j :: 0 <= j < |rows| && j != i && rows[j].slug == Slug(u, input)
    ensures UpdateSlug(u, rows, i, input).Invalid? <==> Slug(u, input) == ""
    ensures UpdateSlug(u, rows, i, input).Changed? ==>
              UpdateSlug(u, rows, i, input).rows == rows[i := Organization(rows[i].name, Slug(u, input))]
  {
    SlugIsNormal(u, input);
    var slug := Slug(u, input);
    assert forall j :: 0 <= j < |rows| && rows[j].slug == slug ==> slug in Slugs(rows);
  }

  /** Inserting a free slug in normal form keeps the table. */
  lemma {:induction false} InsertKeepsDirectory(rows: seq<Organization>, org: Organization)
    requires Directory(rows) && org.slug != "" && Normal(org.slug) && org.slug !in Slugs(rows)
    ensures Directory(rows + [org])
  {
    forall i | 0 <= i < |rows| ensures rows[i].slug != org.slug {
      assert rows[i].slug in Slugs(rows);
    }
  }

  /** LookupOrganization on an organization's own slug finds that organization. */
  lemma {:induction false} OwnSlugFindsIt(u: Unicode, rows: seq<Organization>, i: nat)
    requires UnicodeLaw(u) && Directory(rows) && i < |rows|
    ensures FindBySlug(rows, Slug(u, rows[i].slug)) == Some(i)
  {
    NormalIsFixed(u, rows[i].slug);
    assert rows[i].slug in Slugs(rows);
  }

  // ---------------------------------------------------------------- every run of registrations and renamings

  /** A registration that comes to insert its first candidate, or one with a suffix; or a slug
      change. */
  datatype Change =
    | Register(name: string, requested: string, suffix: Option<string>)
    | Rename(i: nat, input: string)

  predicate Drawn(c: Change) {
    c.Register? && c.suffix.Some? ==> Hex(c.suffix.value)
  }

  /** The table after a change; a taken slug leaves it alone. */
  function Changing(u: Unicode, rows: seq<Organization>, c: Change): seq<Organization> {
    match c
    case Register(name, requested, suffix) =>
      var base := BaseSlug(u, name, requested);
      var slug := if suffix.None? then base else base + "-" + suffix.value;
      if slug in Slugs(rows) then rows else rows + [Organization(name, slug)]
    case Rename(i, input) =>
      if i < |rows| && UpdateSlug(u, rows, i, input).Changed? then UpdateSlug(u, rows, i, input).rows else rows
  }

  /** What createOrgWithUniqueSlug stores is a registration in this sense. */
  lemma {:induction false} CreationIsARegistration(
      u: Unicode, rows: seq<Organization>, name: string, requested: string, world: World, attempt: nat, org: Organization)
    requires Candidate(BaseSlug(u, name, requested), world, attempt) == Some(org.slug)
    requires org.name == name && org.slug !in Slugs(rows)
    ensures Changing(u, rows, Register(name, requested, if attempt == 0 then None else world.suffix(attempt)))
            == rows + [org]
  {
    hide Slug, Slugs;
  }

  function TableAfter(u: Unicode, changes: seq<Change>): seq<Organization> {
    if changes == [] then []
    else Changing(u, TableAfter(u, changes[..|changes| - 1]), changes[|changes| - 1])
  }

  lemma {:induction false} ChangeKeepsDirectory(u: Unicode, rows: seq<Organization>, c: Change)
    requires Directory(rows) && Drawn(c)
    ensures Directory(Changing(u, rows, c))
  {
    hide Slug, Normal, Hex, Directory, Slugs, UpdateSlug;
    match c
    case Register(name, requested, suffix) =>
      SlugIsNormal(u, requested);
      SlugIsNormal(u, name);
      OrgIsNormal();
      var base := BaseSlug(u, name, requested);
      if suffix.Some? {
        SuffixedIsNormal(base, suffix.value);
      }
      var slug := if suffix.None? then base else base + "-" + suffix.value;
      if slug !in Slugs(rows) {
        InsertKeepsDirectory(rows, Organization(name, slug));
      }
    case Rename(i, input) =>
      if i < |rows| {
        UpdateKeepsDirectory(u, rows, i, input);
      }
  }

  lemma {:induction false} OrgIsNormal()
    ensures Normal("org")
  {
  }

  lemma {:induction false} EveryTableIsADirectory(u: Unicode, changes: seq<Change>)
    requires forall k :: 0 <= k < |changes| ==> Drawn(changes[k])
    ensures Directory(TableAfter(u, changes))
  {
    hide Changing, Drawn;
    if changes != [] {
      EveryTableIsADirectory(u, changes[..|changes| - 1]);
      ChangeKeepsDirectory(u, TableAfter(u, changes[..|changes| - 1]), changes[|changes| - 1]);
    }
  }

  /** In every run of registrations and slug changes from the empty table, looking an organization
      up by its own slug finds it. */
  lemma {:induction false} EveryOrganizationIsFound(u: Unicode, changes: seq<Change>, i: nat)
    requires UnicodeLaw(u) && forall k :: 0 <= k < |changes| ==> Drawn(changes[k])
    requires i < |TableAfter(u, changes)|
    ensures FindBySlug(TableAfter(u, changes), Slug(u, TableAfter(u, changes)[i].slug)) == Some(i)
  {
    EveryTableIsADirectory(u, changes);
    OwnSlugFindsIt(u, TableAfter(u, changes), i);
  }
}
