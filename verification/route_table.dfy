/** The routes of the protected API, and why their table answers alike in every map order.
    Path segments are an enumeration; how they are spelled is a parameter. */
module RouteTable {
  import opened RouteGuard
  import opened RoutePatterns
  import opened Wrappers

  datatype Verb = GET | POST | PATCH | DELETE | PUT

  datatype Resource =
    | AuthRoutes | OrganizationsRoutes | ProfileRoutes | OnboardingRoutes | CompaniesRoutes | CampaignsRoutes
    | SponsorsRoutes | ContactsRoutes | ActivitiesRoutes | SequencesRoutes | ProposalsRoutes
    | IntegrationsRoutes | AutomationsRoutes | WebhooksRoutes | CommunicationsRoutes | AnalyticsRoutes
    | AiRoutes | KnowledgeRoutes | FilesRoutes | SearchRoutes | ImportRoutes | TeamRoutes | EmailsRoutes
    | EventsRoutes | NotificationsRoutes

  datatype Word =
    | Activity | Agents | Approve | Apps | Batch | Campaigns | Companies | Complete | Confirm | Conflicts
    | Connect | Contacts | Count | Current | Dashboard | Dedupe | Delete | Deliveries | Disable | Discovery
    | Edges | Enroll | Export | Feedback | Funnel | Generate | Goals | Invitations | Logout | Me | Members
    | Memories | Mfa | Neighbors | Nodes | Notion | Outcomes | Pages | Password | Pipeline | Plan | Preferences
    | Query | Read | ReadAll | Recommend | Revoke | RevokeAll | Roles | RotateCredentials | RotateSecret | Run
    | Search | Select | Send | SendDirect | SendTemplate | Sessions | Sponsors | Stage | State | Stats | Sync
    | Test | Timeseries | Toggle | TransferOwnership | Update | Upload | Velocity | WebhookToken | Zapier

  datatype Name = Id | PageId | ProviderName

  datatype Part = Text(word: Word) | Param(name: Name)

  /** One key of the table: verb, the parts of the path behind /api/v1/<resource>, and whether
      the path is written with a slash at the end. */
  datatype Row = Row(verb: Verb, parts: seq<Part>, slash: bool)

  function Table(r: Resource): set<Row> {
    match r
    case AuthRoutes => {
      Row(POST, [Text(Logout)], false), Row(GET, [Text(Me)], false),
      Row(POST, [Text(Mfa), Text(Enroll)], false), Row(POST, [Text(Mfa), Text(Confirm)], false),
      Row(POST, [Text(Mfa), Text(Disable)], false), Row(GET, [Text(Sessions)], false),
      Row(DELETE, [Text(Sessions), Param(Id)], false), Row(POST, [Text(Sessions), Text(RevokeAll)], false)
    }
    case OrganizationsRoutes => {
      Row(GET, [Text(Current)], false), Row(PATCH, [Text(Current)], false),
      Row(POST, [Text(Current), Text(TransferOwnership)], false)
    }
    case ProfileRoutes => {
      Row(PATCH, [], false), Row(POST, [Text(Password)], false), Row(POST, [Text(Delete)], false)
    }
    case OnboardingRoutes => {
      Row(GET, [Text(State)], false), Row(PATCH, [Text(State)], false), Row(POST, [Text(Complete)], false),
      Row(POST, [Text(Discovery), Text(Run)], false), Row(POST, [Text(Discovery), Text(Select)], false),
      Row(POST, [Text(Goals), Text(Recommend)], false), Row(POST, [Text(Goals), Text(Plan)], false),
      Row(POST, [Text(Goals), Text(Approve)], false)
    }
    case CompaniesRoutes => {
      Row(GET, [], true), Row(POST, [], true), Row(GET, [Param(Id)], false), Row(PATCH, [Param(Id)], false),
      Row(DELETE, [Param(Id)], false), Row(POST, [Text(Dedupe)], false),
      Row(POST, [Text(Batch), Text(Update)], false), Row(POST, [Text(Batch), Text(Delete)], false)
    }
    case CampaignsRoutes => {
      Row(GET, [], true), Row(POST, [], true), Row(GET, [Param(Id)], false), Row(PATCH, [Param(Id)], false),
      Row(DELETE, [Param(Id)], false)
    }
    case SponsorsRoutes => {
      Row(GET, [], true), Row(POST, [], true), Row(GET, [Param(Id)], false), Row(PATCH, [Param(Id)], false),
      Row(DELETE, [Param(Id)], false), Row(PATCH, [Param(Id), Text(Stage)], false),
      Row(POST, [Text(Batch), Text(Update)], false), Row(POST, [Text(Batch), Text(Delete)], false)
    }
    case ContactsRoutes => {
      Row(GET, [], true), Row(POST, [], true), Row(GET, [Param(Id)], false), Row(PATCH, [Param(Id)], false),
      Row(DELETE, [Param(Id)], false), Row(POST, [Text(Batch), Text(Update)], false),
      Row(POST, [Text(Batch), Text(Delete)], false)
    }
    case ActivitiesRoutes => {
      Row(GET, [], true), Row(POST, [], true)
    }
    case SequencesRoutes => {
      Row(GET, [], true), Row(POST, [], true), Row(GET, [Param(Id)], false), Row(PATCH, [Param(Id)], false),
      Row(DELETE, [Param(Id)], false), Row(POST, [Param(Id), Text(Enroll)], false)
    }
    case ProposalsRoutes => {
      Row(GET, [], true), Row(POST, [], true), Row(POST, [Text(Generate)], false),
      Row(GET, [Param(Id)], false), Row(PATCH, [Param(Id)], false), Row(DELETE, [Param(Id)], false)
    }
    case IntegrationsRoutes => {
      Row(GET, [], true), Row(GET, [Text(Dashboard)], false), Row(GET, [Text(Sync), Text(Conflicts)], false),
      Row(GET, [Text(Sync), Text(Activity)], false), Row(GET, [Text(Zapier), Text(Apps)], false),
      Row(POST, [], true), Row(GET, [Param(Id)], false), Row(PATCH, [Param(Id)], false),
      Row(DELETE, [Param(Id)], false), Row(POST, [Param(Id), Text(Revoke)], false),
      Row(POST, [Param(Id), Text(Sync)], false), Row(POST, [Param(ProviderName), Text(Connect)], false),
      Row(POST, [Param(ProviderName), Text(WebhookToken)], false),
      Row(PATCH, [Text(Notion), Text(Pages), Param(PageId)], false),
      Row(POST, [Text(RotateCredentials)], false)
    }
    case AutomationsRoutes => {
      Row(GET, [], true), Row(POST, [], true), Row(GET, [Param(Id)], false), Row(PATCH, [Param(Id)], false),
      Row(DELETE, [Param(Id)], false), Row(PATCH, [Param(Id), Text(Toggle)], false)
    }
    case WebhooksRoutes => {
      Row(GET, [], true), Row(POST, [], true), Row(GET, [Param(Id)], false), Row(PATCH, [Param(Id)], false),
      Row(DELETE, [Param(Id)], false), Row(POST, [Param(Id), Text(RotateSecret)], false),
      Row(POST, [Param(Id), Text(Test)], false), Row(GET, [Param(Id), Text(Deliveries)], false)
    }
    case CommunicationsRoutes => {
      Row(GET, [], true), Row(POST, [], true), Row(GET, [Text(Stats)], false), Row(GET, [Param(Id)], false),
      Row(PATCH, [Param(Id)], false), Row(DELETE, [Param(Id)], false)
    }
    case AnalyticsRoutes => {
      Row(GET, [Text(Dashboard)], false), Row(GET, [Text(Pipeline)], false), Row(GET, [Text(Activity)], false),
      Row(GET, [Text(Timeseries)], false), Row(GET, [Text(Funnel)], false), Row(GET, [Text(Velocity)], false),
      Row(GET, [Text(Export), Text(Sponsors)], false), Row(GET, [Text(Export), Text(Campaigns)], false)
    }
    case AiRoutes => {
      Row(POST, [Text(Query)], false), Row(GET, [Text(Agents)], false), Row(POST, [Text(Outcomes)], false),
      Row(GET, [Text(Outcomes)], false), Row(POST, [Text(Feedback)], false),
      Row(POST, [Text(Preferences)], false), Row(GET, [Text(Preferences)], false)
    }
    case KnowledgeRoutes => {
      Row(GET, [Text(Search)], false), Row(GET, [Text(Memories)], false), Row(POST, [Text(Memories)], false),
      Row(POST, [Text(Nodes)], false), Row(POST, [Text(Edges)], false),
      Row(GET, [Text(Nodes), Param(Id), Text(Neighbors)], false)
    }
    case FilesRoutes => {
      Row(POST, [Text(Upload)], false), Row(DELETE, [], true)
    }
    case SearchRoutes => {
      Row(GET, [], false)
    }
    case ImportRoutes => {
      Row(POST, [Text(Companies)], false), Row(POST, [Text(Contacts)], false),
      Row(POST, [Text(Sponsors)], false)
    }
    case TeamRoutes => {
      Row(GET, [Text(Members)], false), Row(POST, [Text(Members)], false),
      Row(PATCH, [Text(Members), Param(Id), Text(Roles)], false),
      Row(DELETE, [Text(Members), Param(Id)], false), Row(GET, [Text(Roles)], false),
      Row(GET, [Text(Invitations)], false), Row(DELETE, [Text(Invitations), Param(Id)], false)
    }
    case EmailsRoutes => {
      Row(POST, [Text(Send)], false), Row(POST, [Text(SendDirect)], false),
      Row(POST, [Text(SendTemplate)], false)
    }
    case EventsRoutes => {
      Row(GET, [], false)
    }
    case NotificationsRoutes => {
      Row(GET, [], true), Row(GET, [Text(Count)], false), Row(POST, [Text(ReadAll)], false),
      Row(PATCH, [Param(Id), Text(Read)], false), Row(DELETE, [Param(Id)], false),
      Row(GET, [Text(Preferences)], false), Row(PUT, [Text(Preferences)], false)
    }
  }

  // ---------------------------------------------------------------- the rows of one resource

  function Params(parts: seq<Part>): nat {
    if parts == [] then 0 else (if parts[0].Param? then 1 else 0) + Params(parts[1..])
  }

  /** Some path can be read both ways. */
  predicate Clash(a: seq<Part>, b: seq<Part>) {
    |a| == |b| && forall i :: 0 <= i < |a| ==> a[i] == b[i] || a[i].Param? || b[i].Param?
  }

  ghost predicate SameRank(a: Row, b: Row) {
    a.verb == b.verb && Params(a.parts) == Params(b.parts) && Clash(a.parts, b.parts)
  }

  lemma {:induction false} AccountRows(r: Resource, a: Row, b: Row)
    requires r.AuthRoutes? || r.ProfileRoutes? || r.SearchRoutes?
    requires a in Table(r) && b in Table(r) && SameRank(a, b)
    ensures a == b
  {
  }

  lemma {:induction false} StartRows(r: Resource, a: Row, b: Row)
    requires r.OrganizationsRoutes? || r.OnboardingRoutes? || r.EventsRoutes?
    requires a in Table(r) && b in Table(r) && SameRank(a, b)
    ensures a == b
  {
  }

  lemma {:induction false} CompanyRows(r: Resource, a: Row, b: Row)
    requires r.CompaniesRoutes? || r.CampaignsRoutes? || r.ActivitiesRoutes?
    requires a in Table(r) && b in Table(r) && SameRank(a, b)
    ensures a == b
  {
  }

  lemma {:induction false} ContactRows(r: Resource, a: Row, b: Row)
    requires r.ContactsRoutes? || r.FilesRoutes?
    requires a in Table(r) && b in Table(r) && SameRank(a, b)
    ensures a == b
  {
  }

  lemma {:induction false} SponsorRows(a: Row, b: Row)
    requires a in Table(SponsorsRoutes) && b in Table(SponsorsRoutes) && SameRank(a, b)
    requires !a.verb.PATCH?
    ensures a == b
  {
  }

  lemma {:induction false} SponsorEdits(a: Row, b: Row)
    requires a in Table(SponsorsRoutes) && b in Table(SponsorsRoutes) && SameRank(a, b)
    requires a.verb.PATCH?
    ensures a == b
  {
  }

  lemma {:induction false} ImportRows(a: Row, b: Row)
    requires a in Table(ImportRoutes) && b in Table(ImportRoutes) && SameRank(a, b)
    ensures a == b
  {
  }

  lemma {:induction false} OutreachRows(r: Resource, a: Row, b: Row)
    requires r.SequencesRoutes? || r.ProposalsRoutes? || r.CommunicationsRoutes?
    requires a in Table(r) && b in Table(r) && SameRank(a, b)
    ensures a == b
  {
  }

  lemma {:induction false} AutomationRows(r: Resource, a: Row, b: Row)
    requires r.AutomationsRoutes? || r.EmailsRoutes?
    requires a in Table(r) && b in Table(r) && SameRank(a, b)
    ensures a == b
  {
  }

  lemma {:induction false} WebhookRows(r: Resource, a: Row, b: Row)
    requires r.WebhooksRoutes?
    requires a in Table(r) && b in Table(r) && SameRank(a, b)
    ensures a == b
  {
  }

  lemma {:induction false} InsightRows(r: Resource, a: Row, b: Row)
    requires r.AnalyticsRoutes? || r.AiRoutes?
    requires a in Table(r) && b in Table(r) && SameRank(a, b)
    ensures a == b
  {
  }

  lemma {:induction false} TeamRows(r: Resource, a: Row, b: Row)
    requires r.TeamRoutes?
    requires a in Table(r) && b in Table(r) && SameRank(a, b)
    ensures a == b
  {
  }

  lemma {:induction false} KnowledgeRows(r: Resource, a: Row, b: Row)
    requires r.KnowledgeRoutes?
    requires a in Table(r) && b in Table(r) && SameRank(a, b)
    ensures a == b
  {
  }

  lemma {:induction false} NotificationsRows(r: Resource, a: Row, b: Row)
    requires r.NotificationsRoutes?
    requires a in Table(r) && b in Table(r) && SameRank(a, b)
    ensures a == b
  {
  }

  lemma {:induction false} IntegrationReads(a: Row, b: Row)
    requires a in Table(IntegrationsRoutes) && b in Table(IntegrationsRoutes) && SameRank(a, b)
    requires a.verb.GET?
    ensures a == b
  {
  }

  lemma {:induction false} IntegrationPosts(a: Row, b: Row)
    requires a in Table(IntegrationsRoutes) && b in Table(IntegrationsRoutes) && SameRank(a, b)
    requires a.verb.POST?
    ensures a == b
  {
  }

  lemma {:induction false} IntegrationEdit(a: Row)
    requires a in Table(IntegrationsRoutes) && a.verb.PATCH?
    ensures a == Row(PATCH, [Param(Id)], false) || a == Row(PATCH, [Text(Notion), Text(Pages), Param(PageId)], false)
  {
  }

  lemma {:induction false} IntegrationEdits(a: Row, b: Row)
    requires a in Table(IntegrationsRoutes) && b in Table(IntegrationsRoutes) && SameRank(a, b)
    requires a.verb.PATCH?
    ensures a == b
  {
    hide Table;
    IntegrationEdit(a);
    IntegrationEdit(b);
  }

  lemma {:induction false} IntegrationDeletes(a: Row, b: Row)
    requires a in Table(IntegrationsRoutes) && b in Table(IntegrationsRoutes) && SameRank(a, b)
    requires a.verb.DELETE? || a.verb.PUT?
    ensures a == b
  {
  }

  /** Two rows of one resource, with one verb and as many parameters, never clash. */
  lemma {:induction false} RowsDoNotClash(r: Resource, a: Row, b: Row)
    requires a in Table(r) && b in Table(r) && SameRank(a, b)
    ensures a == b
  {
    hide Table, SameRank;
    if r.AuthRoutes? || r.ProfileRoutes? || r.SearchRoutes? {
      AccountRows(r, a, b);
    } else if r.OrganizationsRoutes? || r.OnboardingRoutes? || r.EventsRoutes? {
      StartRows(r, a, b);
    } else if r.CompaniesRoutes? || r.CampaignsRoutes? || r.ActivitiesRoutes? {
      CompanyRows(r, a, b);
    } else if r.ContactsRoutes? || r.FilesRoutes? {
      ContactRows(r, a, b);
    } else if r.ImportRoutes? {
      ImportRows(a, b);
    } else if r.SponsorsRoutes? {
      if a.verb.PATCH? {
        SponsorEdits(a, b);
      } else {
        SponsorRows(a, b);
      }
    } else if r.SequencesRoutes? || r.ProposalsRoutes? || r.CommunicationsRoutes? {
      OutreachRows(r, a, b);
    } else if r.AutomationsRoutes? || r.EmailsRoutes? {
      AutomationRows(r, a, b);
    } else if r.WebhooksRoutes? {
      WebhookRows(r, a, b);
    } else if r.AnalyticsRoutes? || r.AiRoutes? {
      InsightRows(r, a, b);
    } else if r.TeamRoutes? {
      TeamRows(r, a, b);
    } else if r.KnowledgeRoutes? {
      KnowledgeRows(r, a, b);
    } else if r.NotificationsRoutes? {
      NotificationsRows(r, a, b);
    } else if a.verb.GET? {
      IntegrationReads(a, b);
    } else if a.verb.POST? {
      IntegrationPosts(a, b);
    } else if a.verb.PATCH? {
      IntegrationEdits(a, b);
    } else {
      IntegrationDeletes(a, b);
    }
  }

  // ---------------------------------------------------------------- spelled out

  /** How the enumerations read as text. */
  datatype Spelling = Spelling(
    verb: Verb -> string, resource: Resource -> string, word: Word -> string, name: Name -> string)

  predicate Plain(s: string) {
    s != "" && forall i :: 0 <= i < |s| ==> s[i] != '/' && s[i] != ':' && s[i] != ' '
  }

  /** Different names read differently; no text holds a separator, and a parameter is a colon
      and a name. */
  ghost predicate SpellingLaw(sp: Spelling) {
    && (forall v :: ' ' !in sp.verb(v))
    && (forall v, w :: sp.verb(v) == sp.verb(w) ==> v == w)
    && (forall r :: Plain(sp.resource(r)))
    && (forall r, q :: sp.resource(r) == sp.resource(q) ==> r == q)
    && (forall w :: Plain(sp.word(w)))
    && (forall v, w :: sp.word(v) == sp.word(w) ==> v == w)
    && (forall n :: |sp.name(n)| > 1 && sp.name(n)[0] == ':' && Plain(sp.name(n)[1..]))
  }

  function PartText(sp: Spelling, p: Part): string {
    match p
    case Text(w) => sp.word(w)
    case Param(n) => sp.name(n)
  }

  function PartTexts(sp: Spelling, parts: seq<Part>): (texts: seq<string>)
    ensures |texts| == |parts| && forall i :: 0 <= i < |parts| ==> texts[i] == PartText(sp, parts[i])
  {
    if parts == [] then [] else [PartText(sp, parts[0])] + PartTexts(sp, parts[1..])
  }

  function Segments(sp: Spelling, r: Resource, parts: seq<Part>): seq<string> {
    ["", "api", "v1", sp.resource(r)] + PartTexts(sp, parts)
  }

  function Path(sp: Spelling, r: Resource, row: Row): string {
    Join(Segments(sp, r, row.parts)) + if row.slash then "/" else ""
  }

  function Key(sp: Spelling, r: Resource, row: Row): string {
    sp.verb(row.verb) + " " + Path(sp, r, row)
  }

  lemma {:induction false} SegmentsArePlain(sp: Spelling, r: Resource, parts: seq<Part>)
    requires SpellingLaw(sp)
    ensures forall i :: 0 <= i < |Segments(sp, r, parts)| ==> '/' !in Segments(sp, r, parts)[i]
    ensures Segments(sp, r, parts)[|parts| + 3] != ""
  {
    var segments := Segments(sp, r, parts);
    forall i | 0 <= i < |segments| ensures '/' !in segments[i] && (i >= 4 ==> segments[i] != "") {
      if i >= 4 {
        var p := parts[i - 4];
        assert segments[i] == PartText(sp, p);
        if p.Param? {
          assert sp.name(p.name) == [':'] + sp.name(p.name)[1..];
        }
      }
    }
  }

  lemma {:induction false} JoinEnds(segments: seq<string>)
    requires |segments| >= 1 && segments[|segments| - 1] != ""
    ensures Join(segments) != ""
    ensures Join(segments)[|Join(segments)| - 1] in segments[|segments| - 1]
  {
    if |segments| > 1 {
      JoinEnds(segments[1..]);
    }
  }

  /** A path of the table splits into its segments, whether or not it is written with a slash. */
  lemma {:induction false} PathSegments(sp: Spelling, r: Resource, row: Row)
    requires SpellingLaw(sp)
    ensures Split(DropSlash(Path(sp, r, row))) == Segments(sp, r, row.parts)
    ensures !EndsInTwoSlashes(Path(sp, r, row))
  {
    hide SpellingLaw, Segments, Split, Join;
    SegmentsArePlain(sp, r, row.parts);
    assert |Segments(sp, r, row.parts)| == |row.parts| + 4 by { SegmentCount(sp, r, row.parts); }
    JoinEnds(Segments(sp, r, row.parts));
    SplitJoin(Segments(sp, r, row.parts));
    assert DropSlash(Path(sp, r, row)) == Join(Segments(sp, r, row.parts));
  }

  lemma {:induction false} SegmentCount(sp: Spelling, r: Resource, parts: seq<Part>)
    ensures |Segments(sp, r, parts)| == |parts| + 4
  {
  }

  lemma {:induction false} ColonsAppend(a: string, b: string)
    ensures Colons(a + b) == Colons(a) + Colons(b)
    decreases |a|
  {
    if a == "" {
      assert a + b == b;
    } else {
      ColonsAppend(a[1..], b);
      assert (a + b)[1..] == a[1..] + b;
    }
  }

  lemma {:induction false} PlainHasNoColon(s: string)
    requires forall i :: 0 <= i < |s| ==> s[i] != ':'
    ensures Colons(s) == 0
  {
    if s != "" {
      PlainHasNoColon(s[1..]);
    }
  }

  function TotalColons(segments: seq<string>): nat {
    if segments == [] then 0 else Colons(segments[0]) + TotalColons(segments[1..])
  }

  lemma {:induction false} TotalColonsCons(first: string, rest: seq<string>)
    ensures TotalColons([first] + rest) == Colons(first) + TotalColons(rest)
  {
    assert ([first] + rest)[1..] == rest;
  }

  lemma {:induction false} ColonsJoin(segments: seq<string>)
    requires |segments| >= 1
    ensures Colons(Join(segments)) == TotalColons(segments)
  {
    if |segments| == 1 {
      assert segments[1..] == [];
    } else {
      ColonsJoin(segments[1..]);
      ColonsAppend(segments[0] + "/", Join(segments[1..]));
      ColonsAppend(segments[0], "/");
      PlainHasNoColon("/");
    }
  }

  lemma {:induction false} PartColons(sp: Spelling, parts: seq<Part>)
    requires SpellingLaw(sp)
    ensures TotalColons(PartTexts(sp, parts)) == Params(parts)
  {
    if parts != [] {
      PartColons(sp, parts[1..]);
      var text := PartText(sp, parts[0]);
      if parts[0].Param? {
        PlainHasNoColon(text[1..]);
      } else {
        PlainHasNoColon(text);
      }
      assert PartTexts(sp, parts)[1..] == PartTexts(sp, parts[1..]);
    }
  }

  lemma {:induction false} PrefixHasNoColon(resource: string, texts: seq<string>)
    requires Colons(resource) == 0
    ensures TotalColons(["", "api", "v1", resource] + texts) == TotalColons(texts)
  {
    PlainHasNoColon("");
    PlainHasNoColon("api");
    PlainHasNoColon("v1");
    hide Colons, TotalColons;
    var last := [resource] + texts;
    var third := ["v1"] + last;
    var second := ["api"] + third;
    assert ["", "api", "v1", resource] + texts == [""] + second;
    TotalColonsCons("", second);
    TotalColonsCons("api", third);
    TotalColonsCons("v1", last);
    TotalColonsCons(resource, texts);
  }

  /** The colons of a path are its parameters. */
  lemma {:induction false} PathColons(sp: Spelling, r: Resource, row: Row)
    requires SpellingLaw(sp)
    ensures Colons(Path(sp, r, row)) == Params(row.parts)
  {
    assert Plain(sp.resource(r));
    PlainHasNoColon(sp.resource(r));
    PartColons(sp, row.parts);
    hide SpellingLaw, Colons, TotalColons, PartTexts, Join;
    PrefixHasNoColon(sp.resource(r), PartTexts(sp, row.parts));
    ColonsJoin(Segments(sp, r, row.parts));
    var slash := if row.slash then "/" else "";
    PlainHasNoColon(slash);
    ColonsAppend(Join(Segments(sp, r, row.parts)), slash);
  }

  lemma {:induction false} CompatibleRowsClash(sp: Spelling, r: Resource, a: Row, q: Resource, b: Row)
    requires SpellingLaw(sp)
    requires AllCompatible(Segments(sp, r, a.parts), Segments(sp, q, b.parts))
    ensures r == q && Clash(a.parts, b.parts)
  {
    var ones, others := Segments(sp, r, a.parts), Segments(sp, q, b.parts);
    assert Compatible(ones[3], others[3]);
    assert Plain(sp.resource(r)) && Plain(sp.resource(q));
    forall i | 0 <= i < |a.parts| ensures a.parts[i] == b.parts[i] || a.parts[i].Param? || b.parts[i].Param? {
      assert Compatible(ones[i + 4], others[i + 4]);
      if a.parts[i].Text? && b.parts[i].Text? {
        assert Plain(sp.word(a.parts[i].word)) && Plain(sp.word(b.parts[i].word));
      }
    }
  }

  /** Every key of perms is a row of the table, spelled out. */
  ghost predicate Lists(perms: map<string, string>, sp: Spelling) {
    forall key :: key in perms ==> IsRow(key, sp)
  }

  ghost predicate IsRow(key: string, sp: Spelling) {
    exists r, row :: row in Table(r) && key == Key(sp, r, row)
  }

  lemma {:induction false} KeyOf(sp: Spelling, key: string) returns (r: Resource, row: Row)
    requires SpellingLaw(sp) && IsRow(key, sp)
    ensures row in Table(r) && key == Key(sp, r, row)
    ensures Cut(key) == Some((sp.verb(row.verb), Path(sp, r, row)))
    ensures KeyRank(key) == Params(row.parts)
  {
    hide Table, Cut, Path;
    r, row :| row in Table(r) && key == Key(sp, r, row);
    CutOf(sp.verb(row.verb), Path(sp, r, row));
    PathColons(sp, r, row);
  }

  /** The repository's table: whatever permissions its keys carry, the answer to any request is
      the same in every order Go may walk the map. */
  lemma {:induction false} TableIsOrderFree(sp: Spelling, perms: map<string, string>, method_: string, path: string)
    requires SpellingLaw(sp) && Lists(perms, sp)
    ensures WellFormed(perms) && OrderFree(perms, method_, path)
  {
    hide Table, Cut, Path, SpellingLaw, OrderFree, IsRow, Overlap, KeyRank, Segments, AllCompatible, Clash;
    forall key | key in perms ensures Cut(key).Some? {
      var r, row := KeyOf(sp, key);
    }
    forall a, b | a in perms && b in perms && a != b && Cut(a).value.0 == Cut(b).value.0 && KeyRank(a) == KeyRank(b)
      ensures !Overlap(Cut(a).value.1, Cut(b).value.1)
    {
      var r, one := KeyOf(sp, a);
      var q, other := KeyOf(sp, b);
      PathSegments(sp, r, one);
      PathSegments(sp, q, other);
      OverlapIsCompatibility(Path(sp, r, one), Path(sp, q, other));
      if AllCompatible(Segments(sp, r, one.parts), Segments(sp, q, other.parts)) {
        CompatibleRowsClash(sp, r, one, q, other);
        SameVerb(sp, one.verb, other.verb);
        RowsDoNotClash(r, one, other);
        assert false;
      }
    }
    NoOverlapIsOrderFree(perms, method_, path);
  }

  lemma {:induction false} SameVerb(sp: Spelling, v: Verb, w: Verb)
    requires SpellingLaw(sp) && sp.verb(v) == sp.verb(w)
    ensures v == w
  {
  }
}
