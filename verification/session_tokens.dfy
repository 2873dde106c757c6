/**
 Refresh tokens: each is one signed claim set, one session row and, once spent, one blacklist
 entry in a second store. Every store access can fail, and its outcome is an argument.
 */
module SessionTokens {
  import opened Wrappers

  type Time = nat

  const WEEK: nat := 7 * 24 * 3600

  datatype Kind = Access | Refresh | MfaPending

  /** The claims of a token the service signed; they are all that tells tokens apart. */
  datatype Token = Token(user: string, issuedAt: Time, exp: Time, kind: Kind)

  datatype Presented = Forged | Signed(token: Token)

  datatype Session = Session(user: string, rememberMe: bool, revoked: bool)

  datatype Config = Config(refreshExpiry: nat, rememberMeExpiry: nat)

  /** sessions are keyed by the token their hash column was computed from. */
  datatype Store = Store(
    issued: set<Token>,
    sessions: map<Token, Session>,
    blacklist: map<Token, Time>,
    accepted: seq<Token>)

  datatype Call =
    | Login(user: string, rememberMe: bool, at: Time, createOk: bool)
    | RefreshCall(presented: Presented, at: Time, readOk: bool, userOk: bool, findOk: bool,
                  revokeOk: bool, storeOk: bool, createOk: bool)
    | Logout(token: Token, at: Time, storeOk: bool, findOk: bool, revokeOk: bool)
    | LogoutAll(user: string, at: Time, revokeOk: bool)

  function Ttl(cfg: Config, rememberMe: bool): nat {
    if rememberMe then cfg.rememberMeExpiry else cfg.refreshExpiry
  }

  function NewToken(cfg: Config, user: string, rememberMe: bool, at: Time): Token {
    Token(user, at, at + Ttl(cfg, rememberMe), Refresh)
  }

  /** generateTokens: a session row that cannot be written is only logged. */
  function Issue(cfg: Config, s: Store, user: string, rememberMe: bool, at: Time, createOk: bool): Store {
    var t := NewToken(cfg, user, rememberMe, at);
    s.(issued := s.issued + {t},
       sessions := if createOk then s.sessions[t := Session(user, rememberMe, false)] else s.sessions)
  }

  predicate Blacklisted(s: Store, t: Token, now: Time) {
    t in s.blacklist && now < s.blacklist[t]
  }

  /** The refresh gets past every check. A blacklist that cannot be read counts as empty. */
  predicate Accepts(s: Store, c: Call) {
    && c.RefreshCall? && c.presented.Signed?
    && var t := c.presented.token;
       && c.at < t.exp && t.kind.Refresh?
       && !(c.readOk && Blacklisted(s, t, c.at))
       && c.userOk && c.findOk && t in s.sessions && !s.sessions[t].revoked
  }

  function Revoke(s: Store, t: Token): Store {
    if t in s.sessions then s.(sessions := s.sessions[t := s.sessions[t].(revoked := true)]) else s
  }

  function RevokeAll(s: Store, user: string): Store {
    s.(sessions := map t | t in s.sessions ::
         if s.sessions[t].user == user then s.sessions[t].(revoked := true) else s.sessions[t])
  }

  /** The stores after the old token is spent, before the new one is issued. */
  function Spend(s: Store, t: Token, revokeOk: bool, storeOk: bool): Store {
    var s1 := if revokeOk then Revoke(s, t) else s;
    s1.(blacklist := if storeOk then s.blacklist[t := t.exp] else s.blacklist,
        accepted := s.accepted + [t])
  }

  function Step(cfg: Config, s: Store, c: Call): Store {
    match c
    case Login(user, rememberMe, at, createOk) => Issue(cfg, s, user, rememberMe, at, createOk)
    case RefreshCall(presented, at, _, _, _, revokeOk, storeOk, createOk) =>
      if Accepts(s, c) then
        var t := presented.token;
        Issue(cfg, Spend(s, t, revokeOk, storeOk), s.sessions[t].user, s.sessions[t].rememberMe, at, createOk)
      else s
    case Logout(t, at, storeOk, findOk, revokeOk) =>
      var s1 := if storeOk then s.(blacklist := s.blacklist[t := at + WEEK]) else s;
      if findOk && revokeOk then Revoke(s1, t) else s1
    case LogoutAll(user, _, revokeOk) => if revokeOk then RevokeAll(s, user) else s
  }

  /** No claim set is signed twice: two tokens for one user are never issued in one second. */
  predicate Fresh(cfg: Config, s: Store, c: Call) {
    match c
    case Login(user, rememberMe, at, _) => NewToken(cfg, user, rememberMe, at) !in s.issued
    case RefreshCall(p, at, _, _, _, _, _, _) =>
      Accepts(s, c) ==>
        NewToken(cfg, s.sessions[p.token].user, s.sessions[p.token].rememberMe, at) !in s.issued
    case _ => true
  }

  class TokenService {
    const cfg: Config
    var issued: set<Token>
    var sessions: map<Token, Session>
    var blacklist: map<Token, Time>
    ghost var accepted: seq<Token>

    constructor (cfg: Config)
      ensures this.cfg == cfg && State() == Store({}, map[], map[], [])
    {
      this.cfg := cfg;
      issued, sessions, blacklist, accepted := {}, map[], map[], [];
    }

    ghost function State(): Store
      reads this
    {
      Store(issued, sessions, blacklist, accepted)
    }

    method GenerateTokens(user: string, rememberMe: bool, at: Time, createOk: bool) returns (t: Token)
      modifies this`issued, this`sessions
      ensures State() == Issue(cfg, old(State()), user, rememberMe, at, createOk)
      ensures t == NewToken(cfg, user, rememberMe, at)
      ensures t == Token(user, at, at + (if rememberMe then cfg.rememberMeExpiry else cfg.refreshExpiry), Refresh)
      ensures createOk ==> sessions == old(sessions)[t := Session(user, rememberMe, false)]
      ensures !createOk ==> sessions == old(sessions)
    {
      var ttl := cfg.refreshExpiry;
      if rememberMe {
        ttl := cfg.rememberMeExpiry;
      }
      t := Token(user, at, at + ttl, Refresh);
      issued := issued + {t};
      if createOk {
        sessions := sessions[t := Session(user, rememberMe, false)];
      }
    }

    method RevokeSession(t: Token)
      modifies this`sessions
      ensures State() == Revoke(old(State()), t)
    {
      if t in sessions {
        sessions := sessions[t := sessions[t].(revoked := true)];
      }
    }

    /** AuthService.RefreshToken: rotate, whatever the two revocations answer. */
    method RefreshToken(c: Call) returns (rotated: Option<Token>)
      requires c.RefreshCall?
      modifies this
      ensures State() == Step(cfg, old(State()), c)
      ensures rotated.Some? <==> Accepts(old(State()), c)
      ensures rotated.Some? <==>
              && c.presented.Signed? && c.presented.token.kind == Refresh && c.at < c.presented.token.exp
              && !(c.readOk && c.presented.token in old(blacklist) && c.at < old(blacklist)[c.presented.token])
              && c.userOk && c.findOk
              && c.presented.token in old(sessions) && !old(sessions)[c.presented.token].revoked
      ensures rotated.Some? ==>
                var was := old(sessions)[c.presented.token];
                && rotated.value == Token(was.user, c.at,
                                          c.at + (if was.rememberMe then cfg.rememberMeExpiry else cfg.refreshExpiry), Refresh)
                && (c.createOk ==> rotated.value in sessions
                                   && sessions[rotated.value] == Session(was.user, was.rememberMe, false))
      ensures rotated.None? ==> State() == old(State())
    {
      if c.presented.Forged? || c.at >= c.presented.token.exp {
        return None;
      }
      var t := c.presented.token;
      if t.kind != Refresh {
        return None;
      }
      if c.readOk && t in blacklist && c.at < blacklist[t] {
        return None;
      }
      if !c.userOk {
        return None;
      }
      if !c.findOk || t !in sessions {
        return None;
      }
      var session := sessions[t];
      if session.revoked {
        return None;
      }
      if c.revokeOk {
        RevokeSession(t);
      }
      if c.storeOk {
        blacklist := blacklist[t := t.exp];
      }
      accepted := accepted + [t];
      var next := GenerateTokens(session.user, session.rememberMe, c.at, c.createOk);
      return Some(next);
    }

    method LogoutToken(c: Call)
      requires c.Logout?
      modifies this
      ensures State() == Step(cfg, old(State()), c)
    {
      if c.storeOk {
        blacklist := blacklist[c.token := c.at + WEEK];
      }
      if c.findOk && c.revokeOk {
        RevokeSession(c.token);
      }
    }

    method LogoutAllSessions(c: Call)
      requires c.LogoutAll?
      modifies this
      ensures State() == Step(cfg, old(State()), c)
    {
      if c.revokeOk {
        var user := c.user;
        sessions := map t | t in sessions ::
          if sessions[t].user == user then sessions[t].(revoked := true) else sessions[t];
      }
    }
  }

  // ---------------------------------------------------------------- runs

  function Run(cfg: Config, s: Store, calls: seq<Call>): Store
    decreases |calls|
  {
    if calls == [] then s else Run(cfg, Step(cfg, s, calls[0]), calls[1..])
  }

  predicate Legal(cfg: Config, s: Store, calls: seq<Call>)
    decreases |calls|
  {
    calls == [] || (Fresh(cfg, s, calls[0]) && Legal(cfg, Step(cfg, s, calls[0]), calls[1..]))
  }

  /** Whenever a refresh presents this token before it expires, the blacklist can be read. */
  predicate ReadsWork(calls: seq<Call>, t: Token) {
    forall i :: 0 <= i < |calls| && calls[i].RefreshCall? && calls[i].presented == Signed(t) && calls[i].at < t.exp ==>
                  calls[i].readOk
  }

  /** A logout of a spent token whose row stands does not shorten its blacklist entry, unless it
      also revokes the row. */
  predicate LogoutHolds(s: Store, c: Call) {
    c.Logout? && c.token in s.accepted && c.token in s.sessions && !s.sessions[c.token].revoked ==>
      (c.findOk && c.revokeOk) || !c.storeOk || c.at + WEEK >= c.token.exp
  }

  /** Every rotation leaves a lasting trace: its session row is revoked, or its blacklist entry is
      written, lasts, and can be read whenever the token comes back. */
  predicate Traced(cfg: Config, s: Store, calls: seq<Call>)
    decreases |calls|
  {
    calls == []
    || ((Accepts(s, calls[0]) ==>
           calls[0].revokeOk || (calls[0].storeOk && ReadsWork(calls[1..], calls[0].presented.token)))
        && LogoutHolds(s, calls[0])
        && Traced(cfg, Step(cfg, s, calls[0]), calls[1..]))
  }

  /** The token is not accepted again by these calls. */
  ghost predicate Dead(s: Store, t: Token, calls: seq<Call>) {
    && t in s.issued
    && ((t in s.sessions ==> s.sessions[t].revoked)
        || (t in s.blacklist && s.blacklist[t] >= t.exp && ReadsWork(calls, t)))
  }

  ghost predicate SpentAreDead(s: Store, calls: seq<Call>) {
    && (forall t :: t in s.sessions ==> t in s.issued)
    && (forall t :: t in s.accepted ==> Dead(s, t, calls))
    && (forall i, j :: 0 <= i < j < |s.accepted| ==> s.accepted[i] != s.accepted[j])
  }

  lemma {:induction false} DeadIsRejected(s: Store, t: Token, calls: seq<Call>)
    requires calls != [] && Dead(s, t, calls)
    ensures calls[0].RefreshCall? && calls[0].presented == Signed(t) ==> !Accepts(s, calls[0])
  {
  }

  lemma {:induction false} StepKeepsDead(cfg: Config, s: Store, calls: seq<Call>, t: Token)
    requires calls != [] && t in s.accepted && Dead(s, t, calls) && Fresh(cfg, s, calls[0]) && LogoutHolds(s, calls[0])
    ensures Dead(Step(cfg, s, calls[0]), t, calls[1..])
  {
    assert forall i :: 0 <= i < |calls[1..]| ==> calls[1..][i] == calls[i + 1];
    DeadIsRejected(s, t, calls);
  }

  lemma {:induction false} SpentIsDead(cfg: Config, s: Store, calls: seq<Call>)
    requires calls != [] && Accepts(s, calls[0]) && Fresh(cfg, s, calls[0]) && calls[0].presented.token in s.issued
    requires calls[0].revokeOk || (calls[0].storeOk && ReadsWork(calls[1..], calls[0].presented.token))
    ensures Dead(Step(cfg, s, calls[0]), calls[0].presented.token, calls[1..])
  {
  }

  lemma {:induction false} RunAcceptsOnce(cfg: Config, s: Store, calls: seq<Call>)
    requires SpentAreDead(s, calls) && Legal(cfg, s, calls) && Traced(cfg, s, calls)
    ensures forall i, j :: 0 <= i < j < |Run(cfg, s, calls).accepted| ==>
              Run(cfg, s, calls).accepted[i] != Run(cfg, s, calls).accepted[j]
    decreases |calls|
  {
    if calls != [] {
      StepKeepsSpent(cfg, s, calls);
      RunAcceptsOnce(cfg, Step(cfg, s, calls[0]), calls[1..]);
    }
  }

  lemma {:induction false} StepKeepsSpent(cfg: Config, s: Store, calls: seq<Call>)
    requires calls != [] && SpentAreDead(s, calls) && Legal(cfg, s, calls) && Traced(cfg, s, calls)
    ensures SpentAreDead(Step(cfg, s, calls[0]), calls[1..])
  {
    hide Dead, Run, ReadsWork, Traced;
    assert TracedFirst(cfg, s, calls) by { TracedUnfolds(cfg, s, calls); }
    var c, s' := calls[0], Step(cfg, s, calls[0]);
    forall t | t in s.accepted ensures Dead(s', t, calls[1..]) {
      StepKeepsDead(cfg, s, calls, t);
    }
    if Accepts(s, c) {
      SpentIsDead(cfg, s, calls);
      forall i | 0 <= i < |s.accepted| ensures s.accepted[i] != c.presented.token {
        DeadIsRejected(s, s.accepted[i], calls);
      }
      assert s'.accepted == s.accepted + [c.presented.token];
    }
  }

  predicate TracedFirst(cfg: Config, s: Store, calls: seq<Call>)
    requires calls != []
  {
    && (Accepts(s, calls[0]) ==>
          calls[0].revokeOk || (calls[0].storeOk && ReadsWork(calls[1..], calls[0].presented.token)))
    && LogoutHolds(s, calls[0])
  }

  lemma {:induction false} TracedUnfolds(cfg: Config, s: Store, calls: seq<Call>)
    requires calls != [] && Traced(cfg, s, calls)
    ensures TracedFirst(cfg, s, calls)
  {
  }

  /** In every sequential run whose rotations leave a trace in at least one of the two stores, no
      refresh token is accepted twice. */
  lemma {:induction false} AcceptedAtMostOnce(cfg: Config, calls: seq<Call>)
    requires var s := Store({}, map[], map[], []); Legal(cfg, s, calls) && Traced(cfg, s, calls)
    ensures var accepted := Run(cfg, Store({}, map[], map[], []), calls).accepted;
            forall i, j :: 0 <= i < j < |accepted| ==> accepted[i] != accepted[j]
  {
    RunAcceptsOnce(cfg, Store({}, map[], map[], []), calls);
  }

  // ---------------------------------------------------------------- the second acceptance, exactly

  /** The token comes back and passes every check but those of the two stores. */
  predicate ComesBack(c: Call, t: Token) {
    c.RefreshCall? && c.presented == Signed(t) && c.at < t.exp && c.userOk && c.findOk
  }

  /** What the stores say of one token: its row is revoked, its blacklist entry. */
  datatype Trail = Trail(revoked: bool, entry: Option<Time>)

  function TrailOf(s: Store, t: Token): Trail
    requires t in s.sessions
  {
    Trail(s.sessions[t].revoked, if t in s.blacklist then Some(s.blacklist[t]) else None)
  }

  /** What a call other than an acceptance of the token does to its trail: a logout of it and a
      logout of its user everywhere are all that does anything. */
  function Follow(trail: Trail, t: Token, user: string, c: Call): Trail {
    match c
    case Logout(x, at, storeOk, findOk, revokeOk) =>
      if x != t then trail
      else Trail(trail.revoked || (findOk && revokeOk), if storeOk then Some(at + WEEK) else trail.entry)
    case LogoutAll(u, _, revokeOk) => if u == user && revokeOk then trail.(revoked := true) else trail
    case _ => trail
  }

  function FollowAll(trail: Trail, t: Token, user: string, calls: seq<Call>): Trail
    decreases |calls|
  {
    if calls == [] then trail else FollowAll(Follow(trail, t, user, calls[0]), t, user, calls[1..])
  }

  /** None of the calls accepts the token. */
  predicate Idle(cfg: Config, s: Store, calls: seq<Call>, t: Token)
    decreases |calls|
  {
    calls == []
    || (!(Accepts(s, calls[0]) && calls[0].presented == Signed(t)) && Idle(cfg, Step(cfg, s, calls[0]), calls[1..], t))
  }

  /** A trail lets the token through: the row stands, and the blacklist entry has lapsed, is
      missing or cannot be read. */
  predicate LetsThrough(trail: Trail, c: Call)
    requires c.RefreshCall?
  {
    !trail.revoked && !(c.readOk && trail.entry.Some? && c.at < trail.entry.value)
  }

  lemma {:induction false} StepFollows(cfg: Config, s: Store, c: Call, t: Token)
    requires t in s.sessions && t in s.issued && Fresh(cfg, s, c)
    requires !(Accepts(s, c) && c.presented == Signed(t))
    ensures var s' := Step(cfg, s, c);
            && t in s'.sessions && t in s'.issued && s'.sessions[t].user == s.sessions[t].user
            && TrailOf(s', t) == Follow(TrailOf(s, t), t, s.sessions[t].user, c)
  {
  }

  lemma {:induction false} RunFollows(cfg: Config, s: Store, calls: seq<Call>, t: Token)
    requires t in s.sessions && t in s.issued && Legal(cfg, s, calls) && Idle(cfg, s, calls, t)
    ensures var s' := Run(cfg, s, calls);
            && t in s'.sessions && TrailOf(s', t) == FollowAll(TrailOf(s, t), t, s.sessions[t].user, calls)
    decreases |calls|
  {
    if calls != [] {
      StepFollows(cfg, s, calls[0], t);
      RunFollows(cfg, Step(cfg, s, calls[0]), calls[1..], t);
    }
  }

  /** The trail a rotation leaves of the token it spends. */
  lemma {:induction false} SpendLeavesTrail(cfg: Config, s: Store, spend: Call)
    requires Accepts(s, spend) && Fresh(cfg, s, spend) && spend.presented.token in s.issued
    ensures var t, s' := spend.presented.token, Step(cfg, s, spend);
            && t in s'.sessions && t in s'.issued && s'.sessions[t].user == s.sessions[t].user
            && TrailOf(s', t) == Trail(spend.revokeOk, if spend.storeOk then Some(t.exp) else TrailOf(s, t).entry)
  {
  }

  /** A spent token that comes back, after any calls that did not accept it in between, is accepted
      a second time if and only if nothing since revoked its row, and its blacklist entry was not
      written, has lapsed or cannot be read. */
  lemma {:induction false} SecondAcceptanceExactly(
      cfg: Config, s: Store, spend: Call, between: seq<Call>, again: Call)
    requires Accepts(s, spend) && spend.presented.token in s.issued && Legal(cfg, s, [spend] + between)
    requires Idle(cfg, Step(cfg, s, spend), between, spend.presented.token)
    requires ComesBack(again, spend.presented.token)
    ensures var t := spend.presented.token;
            var left := Trail(spend.revokeOk, if spend.storeOk then Some(t.exp) else TrailOf(s, t).entry);
            Accepts(Run(cfg, Step(cfg, s, spend), between), again) <==>
            LetsThrough(FollowAll(left, t, s.sessions[t].user, between), again)
  {
    assert ([spend] + between)[1..] == between;
    SpendLeavesTrail(cfg, s, spend);
    RunFollows(cfg, Step(cfg, s, spend), between, spend.presented.token);
  }

  /** Presented again at once: accepted if and only if the row was not revoked, and the blacklist
      cannot be read or was not written, then or before. */
  lemma {:induction false} NextPresentationExactly(cfg: Config, s: Store, spend: Call, again: Call)
    requires Accepts(s, spend) && Fresh(cfg, s, spend) && spend.presented.token in s.issued
    requires ComesBack(again, spend.presented.token)
    ensures var t := spend.presented.token;
            Accepts(Step(cfg, s, spend), again) <==>
            !spend.revokeOk && !(again.readOk && (spend.storeOk || Blacklisted(s, t, again.at)))
  {
  }

  // ---------------------------------------------------------------- logging out

  /** Every session of the user that exists is revoked. */
  ghost predicate LoggedOut(s: Store, user: string, before: set<Token>) {
    before <= s.issued && forall t :: t in before && t in s.sessions && s.sessions[t].user == user ==> s.sessions[t].revoked
  }

  /** A session row belongs to the user its token names. */
  ghost predicate OwnSessions(s: Store) {
    forall t :: t in s.sessions ==> s.sessions[t].user == t.user && t in s.issued
  }

  lemma {:induction false} StepKeepsLoggedOut(cfg: Config, s: Store, c: Call, user: string, before: set<Token>)
    requires OwnSessions(s) && LoggedOut(s, user, before) && Fresh(cfg, s, c)
    ensures OwnSessions(Step(cfg, s, c)) && LoggedOut(Step(cfg, s, c), user, before)
  {
  }

  lemma {:induction false} RunKeepsLoggedOut(cfg: Config, s: Store, calls: seq<Call>, user: string, before: set<Token>)
    requires OwnSessions(s) && LoggedOut(s, user, before) && Legal(cfg, s, calls)
    ensures OwnSessions(Run(cfg, s, calls)) && LoggedOut(Run(cfg, s, calls), user, before)
    decreases |calls|
  {
    hide OwnSessions, LoggedOut;
    if calls != [] {
      StepKeepsLoggedOut(cfg, s, calls[0], user, before);
      RunKeepsLoggedOut(cfg, Step(cfg, s, calls[0]), calls[1..], user, before);
    }
  }

  lemma {:induction false} StepOwnsSessions(cfg: Config, s: Store, c: Call)
    requires OwnSessions(s) && Fresh(cfg, s, c)
    ensures OwnSessions(Step(cfg, s, c))
  {
  }

  lemma {:induction false} RunOwnsSessions(cfg: Config, s: Store, calls: seq<Call>)
    requires OwnSessions(s) && Legal(cfg, s, calls)
    ensures OwnSessions(Run(cfg, s, calls))
    decreases |calls|
  {
    hide OwnSessions;
    if calls != [] {
      StepOwnsSessions(cfg, s, calls[0]);
      RunOwnsSessions(cfg, Step(cfg, s, calls[0]), calls[1..]);
    }
  }

  /** After "log out everywhere" no token issued to the user before it is ever accepted, whatever
      fails later and whatever the blacklist says. */
  lemma {:induction false} LogoutAllIsFinal(cfg: Config, calls: seq<Call>, out: Call, later: seq<Call>, c: Call)
    requires out.LogoutAll? && out.revokeOk
    requires var s := Run(cfg, Store({}, map[], map[], []), calls);
             && Legal(cfg, Store({}, map[], map[], []), calls)
             && Legal(cfg, Step(cfg, s, out), later)
             && Accepts(Run(cfg, Step(cfg, s, out), later), c) && c.presented.token.user == out.user
    ensures c.presented.token !in Run(cfg, Store({}, map[], map[], []), calls).issued
  {
    var start := Store({}, map[], map[], []);
    RunOwnsSessions(cfg, start, calls);
    var s := Run(cfg, start, calls);
    RunKeepsLoggedOut(cfg, Step(cfg, s, out), later, out.user, s.issued);
  }

  /** A logout whose row could not be revoked rests on the blacklist alone: the token is refused
      for a week and accepted again afterwards, until it expires. */
  lemma {:induction false} BlacklistOnlyLogout(cfg: Config, s: Store, t: Token, out: Call, c: Call)
    requires out.Logout? && out.token == t && out.storeOk && !(out.findOk && out.revokeOk)
    requires t.kind.Refresh? && t in s.sessions && !s.sessions[t].revoked
    requires c.RefreshCall? && c.presented == Signed(t) && c.readOk && c.userOk && c.findOk && out.at <= c.at
    ensures Accepts(Step(cfg, s, out), c) <==> out.at + WEEK <= c.at < t.exp
  {
  }

  /** Why Traced speaks of logouts: a token rotated while its row could not be revoked is refused
      until it expires, but a later logout that only reaches the blacklist cuts that to a week,
      and the token is accepted a second time. */
  lemma {:induction false} LogoutRevivesASpentToken(
      cfg: Config, s: Store, t: Token, spend: Call, out: Call, again: Call)
    requires t in s.issued && t in s.sessions && t.kind.Refresh? && spend.RefreshCall? && spend.presented == Signed(t)
    requires Accepts(s, spend) && Fresh(cfg, s, spend) && !spend.revokeOk && spend.storeOk
    requires out.Logout? && out.token == t && out.storeOk && !(out.findOk && out.revokeOk)
    requires again.RefreshCall? && again.presented == Signed(t) && again.userOk && again.findOk && again.readOk
    requires spend.at <= out.at && out.at + WEEK <= again.at < t.exp
    ensures !Accepts(Step(cfg, s, spend), again)
    ensures Accepts(Step(cfg, Step(cfg, s, spend), out), again)
  {
  }

  // ---------------------------------------------------------------- what a login is good for

  /** What the life of a token is by its session row: remembered sessions last longer. */
  ghost predicate LivesAsRemembered(cfg: Config, s: Store) {
    forall t :: t in s.sessions ==>
      && t.kind == Refresh && t.user == s.sessions[t].user
      && t.exp == t.issuedAt + if s.sessions[t].rememberMe then cfg.rememberMeExpiry else cfg.refreshExpiry
  }

  lemma {:induction false} StepLivesAsRemembered(cfg: Config, s: Store, c: Call)
    requires LivesAsRemembered(cfg, s)
    ensures LivesAsRemembered(cfg, Step(cfg, s, c))
  {
  }

  /** In every run, every session's token is a refresh token of its user that expires as the
      session's remember-me says; and only such tokens are ever accepted, access tokens never. */
  lemma {:induction false} SessionsLiveAsRemembered(cfg: Config, calls: seq<Call>, c: Call)
    ensures var s := Run(cfg, Store({}, map[], map[], []), calls);
            && LivesAsRemembered(cfg, s)
            && (Accepts(s, c) ==> c.presented.Signed? && c.presented.token.kind == Refresh && c.presented.token in s.sessions)
  {
    var start := Store({}, map[], map[], []);
    RunLivesAsRemembered(cfg, start, calls);
  }

  lemma {:induction false} RunLivesAsRemembered(cfg: Config, s: Store, calls: seq<Call>)
    requires LivesAsRemembered(cfg, s)
    ensures LivesAsRemembered(cfg, Run(cfg, s, calls))
    decreases |calls|
  {
    hide LivesAsRemembered, Step;
    if calls != [] {
      StepLivesAsRemembered(cfg, s, calls[0]);
      RunLivesAsRemembered(cfg, Step(cfg, s, calls[0]), calls[1..]);
    }
  }

  /** The token a login issues with its row is accepted, after any calls that did not present it,
      until it expires, unless a logout or a logout everywhere came in between. */
  lemma {:induction false} LoginIsGoodForARefresh(
      cfg: Config, s: Store, login: Call, between: seq<Call>, c: Call)
    requires login.Login? && login.createOk && Legal(cfg, s, [login] + between)
    requires var t := Token(login.user, login.at,
                            login.at + (if login.rememberMe then cfg.rememberMeExpiry else cfg.refreshExpiry), Refresh);
             && t !in s.blacklist && ComesBack(c, t) && Undisturbed(between, t)
    ensures Accepts(Run(cfg, Step(cfg, s, login), between), c)
  {
    var t := NewToken(cfg, login.user, login.rememberMe, login.at);
    var s1 := Step(cfg, s, login);
    assert ([login] + between)[1..] == between;
    UndisturbedStays(cfg, s1, between, t);
  }

  /** None of these calls presents the token, logs it out, or logs its user out everywhere. */
  predicate Undisturbed(calls: seq<Call>, t: Token) {
    forall i :: 0 <= i < |calls| ==>
      match calls[i]
      case RefreshCall(p, _, _, _, _, _, _, _) => p != Signed(t)
      case Logout(x, _, _, _, _) => x != t
      case LogoutAll(user, _, _) => user != t.user
      case Login(_, _, _, _) => true
  }

  lemma {:induction false} UndisturbedStays(cfg: Config, s: Store, calls: seq<Call>, t: Token)
    requires t in s.issued && t in s.sessions && !s.sessions[t].revoked && s.sessions[t].user == t.user && t !in s.blacklist
    requires Legal(cfg, s, calls) && Undisturbed(calls, t)
    ensures var s' := Run(cfg, s, calls); t in s'.sessions && !s'.sessions[t].revoked && t !in s'.blacklist
    decreases |calls|
  {
    if calls != [] {
      assert forall i :: 0 <= i < |calls[1..]| ==> calls[1..][i] == calls[i + 1];
      UndisturbedStays(cfg, Step(cfg, s, calls[0]), calls[1..], t);
    }
  }

  /** A logout whose row is found and revoked is final, whatever follows. */
  lemma {:induction false} LogoutIsFinal(cfg: Config, s: Store, out: Call, later: seq<Call>, c: Call)
    requires out.Logout? && out.findOk && out.revokeOk && out.token in s.issued
    requires Legal(cfg, Step(cfg, s, out), later)
    requires c.RefreshCall? && c.presented == Signed(out.token)
    ensures !Accepts(Run(cfg, Step(cfg, s, out), later), c)
  {
    RevokedStays(cfg, Step(cfg, s, out), later, out.token);
  }

  lemma {:induction false} RevokedStays(cfg: Config, s: Store, calls: seq<Call>, t: Token)
    requires t in s.issued && (t in s.sessions ==> s.sessions[t].revoked) && Legal(cfg, s, calls)
    ensures var s' := Run(cfg, s, calls); t in s'.sessions ==> s'.sessions[t].revoked
    decreases |calls|
  {
    if calls != [] {
      RevokedStays(cfg, Step(cfg, s, calls[0]), calls[1..], t);
    }
  }
}
