/** The session protocol end to end: the HTTP handlers that set and clear the refresh
    cookie, and the browser client that holds it and keeps the access token in memory. */
module Browser {
  import opened Ledger
  import opened Rotation
  import Families

  /** Whether a request reached the server and its answer came back. */
  datatype Delivery = Unsent | Answered | AnswerLost

  datatype Client = Client(cookie: Option<Token>, access: Option<Token>)

  datatype Reply = NoCookie | Refused(error: Error) | Granted(session: Session)

  /** Of a call behind authentication: fetch threw, the last answer was 401, or the
      resource was reached. */
  datatype Result = Threw | Unauthorized | Reached

  // ----- handlers --------------------------------------------------------------------------

  function HandleRefresh(cfg: Settings, s: Server, cookie: Option<Token>, c: Clock, f: Faults): (Server, Reply) {
    match cookie
    case None => (s, NoCookie)
    case Some(token) =>
      var (t, o) := DoRefresh(cfg, s, token, c, f);
      (t, if o.Ok? then Granted(o.session) else Refused(o.error))
  }

  /** A refusal clears the cookie, a grant replaces it. */
  function CookieAfter(cookie: Option<Token>, reply: Reply): Option<Token> {
    match reply
    case NoCookie => cookie
    case Refused(_) => None
    case Granted(session) => Some(session.refresh)
  }

  function HandleLogout(s: Server, cookie: Option<Token>, c: Clock, f: Faults): Server {
    match cookie
    case None => s
    case Some(token) => DoLogout(s, token, c, f).0
  }

  /** The authentication middleware. */
  predicate Authorized(access: Option<Token>, now: int) {
    access.Some? && Parses(access.value, Kind.Access, now)
  }

  /** The token is a refresh token, read in time, of an unused, unrevoked row inside both
      windows. */
  predicate Live(cfg: Settings, s: Server, cookie: Option<Token>, c: Clock) {
    && cookie.Some? && cookie.value.kind == Kind.Refresh && c.parse < cookie.value.expiresAt
    && cookie.value.jti in s.rows
    && var row := s.rows[cookie.value.jti];
       && row.usedAt.None? && row.revokedAt.None?
       && c.check <= row.origin + cfg.refreshTTL && c.check <= row.issuedAt + cfg.idleTimeout
  }

  predicate Healthy(f: Faults) {
    f.get && f.mark.Done? && f.user.Found? && f.signAccess && f.signRefresh && f.insert.Done?
  }

  /** An access token of the user, good until its expiry and not longer, which is the
      lifetime after the signing, up to a second. */
  ghost predicate AccessFor(access: Option<Token>, user: string, cfg: Settings, c: Clock) {
    && access.Some? && access.value.subject == user
    && c.access + cfg.accessTTL - SECOND < access.value.expiresAt <= c.access + cfg.accessTTL
    && forall now: int :: Authorized(access, now) <==> now < access.value.expiresAt
  }

  // ----- client ----------------------------------------------------------------------------

  function DoClientRefresh(cfg: Settings, s: Server, b: Client, d: Delivery, c: Clock, f: Faults)
    : (Server, Client, Option<Reply>)
  {
    if d.Unsent? then (s, b, None)
    else
      var (t, reply) := HandleRefresh(cfg, s, b.cookie, c, f);
      if d.AnswerLost? then (t, b, Some(reply))
      else (t, Client(CookieAfter(b.cookie, reply), if reply.Granted? then Some(reply.session.access) else None),
            Some(reply))
  }

  /** One refresh and one retry after a 401. */
  function DoAuthed(cfg: Settings, s: Server, b: Client, first: Delivery, now: int, d: Delivery, c: Clock, f: Faults)
    : (Server, Client, Option<Reply>)
  {
    if first.Answered? && !Authorized(b.access, now) then DoClientRefresh(cfg, s, b, d, c, f) else (s, b, None)
  }

  function DoLogin(cfg: Settings, s: Server, b: Client, user: string, d: Delivery, c: Clock, f: Faults)
    : (Server, Client)
  {
    if d.Unsent? then (s, b)
    else
      var (t, o) := DoMint(cfg, s, user, c, f);
      (t, if d.Answered? && o.Ok? then Client(Some(o.session.refresh), Some(o.session.access)) else b)
  }

  function DoClientLogout(s: Server, b: Client, d: Delivery, c: Clock, f: Faults): (Server, Client) {
    if d.Unsent? then (s, b.(access := None))
    else (HandleLogout(s, b.cookie, c, f), Client(if d.Answered? then None else b.cookie, None))
  }

  /** The API object of one page, with the browser's cookie jar. */
  class Api {
    const server: Service
    var cookie: Option<Token>
    var accessToken: Option<Token>

    constructor (server: Service)
      ensures this.server == server && View() == Client(None, None)
    {
      this.server := server;
      cookie, accessToken := None, None;
    }

    ghost function View(): Client
      reads this
    {
      Client(cookie, accessToken)
    }

    method Refresh(d: Delivery, c: Clock, f: Faults) returns (ok: bool, threw: bool, ghost reply: Option<Reply>)
      modifies this, server
      ensures (server.View(), View(), reply) == DoClientRefresh(server.cfg, old(server.View()), old(View()), d, c, f)
      ensures threw <==> !d.Answered?
      ensures ok <==> d.Answered? && reply.Some? && reply.value.Granted?
      ensures ok ==>
        && old(cookie).Some? && old(cookie).value.jti in old(server.rows)
        && cookie.Some? && cookie.value.kind == Kind.Refresh && cookie.value.jti in server.rows
        && server.rows[cookie.value.jti].parent == Some(old(cookie).value.jti)
        && AccessFor(accessToken, old(server.rows)[old(cookie).value.jti].user, server.cfg, c)
      ensures d.Answered? && !ok ==> cookie.None? && accessToken.None?
      ensures !d.Answered? ==> cookie == old(cookie) && accessToken == old(accessToken)
      ensures d.Unsent? ==> server.View() == old(server.View())
      ensures d.Answered? && Live(server.cfg, old(server.View()), old(cookie), c) && Healthy(f) ==> ok
    {
      GrantedRefresh(server.cfg, server.View(), View(), c, f);
      if d.Unsent? {
        return false, true, None;
      }
      if cookie.None? {
        if d.Answered? { accessToken := None; }
        return false, d.AnswerLost?, Some(NoCookie);
      }
      var o := server.Refresh(cookie.value, c, f);
      reply := Some(if o.Ok? then Granted(o.session) else Refused(o.error));
      if d.AnswerLost? {
        return false, true, reply;
      }
      ok, threw := o.Ok?, false;
      if ok {
        cookie, accessToken := Some(o.session.refresh), Some(o.session.access);
      } else {
        cookie, accessToken := None, None;
      }
    }

    method Authed(first: Delivery, now: int, d: Delivery, c: Clock, f: Faults, second: Delivery, later: int)
      returns (r: Result, ghost reply: Option<Reply>)
      modifies this, server
      ensures (server.View(), View(), reply)
           == DoAuthed(server.cfg, old(server.View()), old(View()), first, now, d, c, f)
      ensures r.Reached? <==>
        && first.Answered?
        && (Authorized(old(accessToken), now) || (d.Answered? && second.Answered? && Authorized(accessToken, later)))
      ensures !first.Answered? || Authorized(old(accessToken), now) ==>
        server.View() == old(server.View()) && View() == old(View()) && reply.None?
      ensures r.Unauthorized? ==>
        && !Authorized(old(accessToken), now)
        && (accessToken.None? || (second.Answered? && !Authorized(accessToken, later)))
      ensures first.Answered? && d.Answered? && second.Answered? && Healthy(f)
              && Live(server.cfg, old(server.View()), old(cookie), c)
              && later <= c.access + server.cfg.accessTTL - SECOND
        ==> r.Reached?
      ensures first.Answered? && d.Answered? && second.Answered? && Healthy(f)
              && Live(server.cfg, old(server.View()), old(cookie), c) && !Authorized(old(accessToken), now)
        ==> accessToken.Some? && (r.Reached? <==> later < accessToken.value.expiresAt)
      ensures first.Answered? && d.Answered? && second.Answered? && old(cookie).None?
        ==> (r.Reached? <==> Authorized(old(accessToken), now))
    {
      reply := None;
      if !first.Answered? {
        return Threw, None;
      }
      if Authorized(accessToken, now) {
        return Reached, None;
      }
      var ok, threw;
      ok, threw, reply := Refresh(d, c, f);
      if threw {
        return Threw, reply;
      }
      if !ok {
        return Unauthorized, reply;
      }
      if !second.Answered? {
        return Threw, reply;
      }
      r := if Authorized(accessToken, later) then Reached else Unauthorized;
    }

    /** login and verifyPhone, once the credentials are accepted. */
    method Login(user: string, d: Delivery, c: Clock, f: Faults)
      modifies this, server
      ensures (server.View(), View()) == DoLogin(server.cfg, old(server.View()), old(View()), user, d, c, f)
      ensures d.Answered? && f.signAccess && f.signRefresh && f.insert.Done? ==>
        && cookie.Some? && cookie.value.kind == Kind.Refresh && cookie.value.subject == user
        && cookie.value.jti in server.rows && server.rows[cookie.value.jti].user == user
        && server.rows[cookie.value.jti].parent.None? && server.rows[cookie.value.jti].origin == c.check
        && AccessFor(accessToken, user, server.cfg, c)
      ensures !(d.Answered? && f.signAccess && f.signRefresh && f.insert.Done?) ==>
        cookie == old(cookie) && accessToken == old(accessToken)
      ensures d.Unsent? ==> server.View() == old(server.View())
    {
      if d.Unsent? {
        return;
      }
      var o := server.MintSession(user, c, f);
      if d.Answered? && o.Ok? {
        cookie, accessToken := Some(o.session.refresh), Some(o.session.access);
      }
    }

    /** The access token is dropped whatever becomes of the request. */
    method Logout(d: Delivery, c: Clock, f: Faults)
      modifies this, server
      ensures (server.View(), View()) == DoClientLogout(old(server.View()), old(View()), d, c, f)
    {
      if !d.Unsent? {
        if cookie.Some? {
          var _ := server.Logout(cookie.value, c, f);
        }
        if d.Answered? { cookie := None; }
      }
      accessToken := None;
    }
  }

  /** What the server hands the client on a refresh that is answered with a grant. */
  lemma GrantedRefresh(cfg: Settings, s: Server, b: Client, c: Clock, f: Faults)
    ensures var (t, b', reply) := DoClientRefresh(cfg, s, b, Answered, c, f);
      && (reply.value.Granted? ==>
            && b.cookie.Some? && b.cookie.value.jti in s.rows
            && b'.cookie == Some(reply.value.session.refresh) && b'.access == Some(reply.value.session.access)
            && reply.value.session.refresh.kind == Kind.Refresh && reply.value.session.refresh.jti in t.rows
            && t.rows[reply.value.session.refresh.jti].parent == Some(b.cookie.value.jti)
            && AccessFor(b'.access, s.rows[b.cookie.value.jti].user, cfg, c))
      && (Live(cfg, s, b.cookie, c) && Healthy(f) ==> reply.value.Granted?)
  {
  }

  // ----- after a refresh, after a login ----------------------------------------------------

  /** An answered grant leaves the new unused child of the old cookie's token and an access
      token of its user, good exactly until it expires; an answered refusal leaves neither;
      an answered refresh without a cookie no access token; an unanswered one changes
      nothing in the client, and an unsent one nothing at all. */
  lemma AfterRefresh(cfg: Settings, s: Server, b: Client, d: Delivery, c: Clock, f: Faults)
    requires Families.Shape(s)
    ensures var (t, b', reply) := DoClientRefresh(cfg, s, b, d, c, f);
      && (!d.Answered? ==> b' == b)
      && (d.Unsent? ==> t == s && reply.None?)
      && (d.Answered? && b.cookie.None? ==> t == s && b' == Client(None, None))
      && (d.Answered? && reply.value.Refused? ==> b' == Client(None, None))
      && (d.Answered? && reply.value.Granted? ==>
            && b.cookie.Some? && b.cookie.value.jti in s.rows
            && ChildCookie(s, t, b.cookie.value.jti, b'.cookie, c) && (forall now: int :: !Authorized(b'.cookie, now))
            && AccessFor(b'.access, s.rows[b.cookie.value.jti].user, cfg, c))
      && (d.Answered? ==>
            (reply.value.Granted? <==> Live(cfg, s, b.cookie, c) && Healthy(f)))
  {
    if b.cookie.Some? && DoRefresh(cfg, s, b.cookie.value, c, f).1.Ok? {
      Families.GrantedTokens(cfg, s, b.cookie.value, c, f);
    }
  }

  /** The cookie names a new, unused, unrevoked row: the child of p, in its family. */
  ghost predicate ChildCookie(s: Server, t: Server, p: Id, cookie: Option<Token>, c: Clock)
    requires p in s.rows
  {
    && cookie.Some? && cookie.value.kind == Kind.Refresh && cookie.value.subject == s.rows[p].user
    && cookie.value.jti !in s.rows && cookie.value.jti in t.rows
    && t.rows[cookie.value.jti]
       == Row(s.rows[p].user, s.rows[p].family, Some(p), c.stored, s.rows[p].origin, None, None)
  }

  /** A login whose answer arrived leaves a cookie that names a new family's first row and
      an access token of that user, when nothing failed; else the client keeps what it had. */
  lemma AfterLogin(cfg: Settings, s: Server, b: Client, user: string, d: Delivery, c: Clock, f: Faults)
    requires Families.Shape(s)
    ensures var (t, b') := DoLogin(cfg, s, b, user, d, c, f);
      && (d.Unsent? ==> t == s)
      && if d.Answered? && f.signAccess && f.signRefresh && f.insert.Done?
         then b'.cookie.Some? && b'.cookie.value.kind == Kind.Refresh && b'.cookie.value.subject == user
              && Families.RootRow(s, t, user, c, b'.cookie.value.jti) && AccessFor(b'.access, user, cfg, c)
         else b' == b
  {
    Families.SignedIn(cfg, s, user, c, f);
    if f.signAccess && f.signRefresh && f.insert.Done? { Families.SignInTokens(cfg, s, user, c, f); }
  }

  // ----- runs of several browsers ----------------------------------------------------------

  datatype Action =
    | Login(user: string, delivery: Delivery, clock: Clock, faults: Faults)
    | Call(first: Delivery, now: int, delivery: Delivery, clock: Clock, faults: Faults)
    | Logout(delivery: Delivery, clock: Clock, faults: Faults)
    | Reload                // the page's memory is lost
    | CookieDropped         // the browser's copy expires or is deleted

  datatype Step = Step(browser: nat, action: Action)

  datatype World = World(server: Server, clients: seq<Client>)

  function Act(cfg: Settings, s: Server, b: Client, a: Action): (Server, Client, Option<Reply>) {
    match a
    case Login(user, d, c, f) => var (t, b') := DoLogin(cfg, s, b, user, d, c, f); (t, b', None)
    case Call(first, now, d, c, f) => DoAuthed(cfg, s, b, first, now, d, c, f)
    case Logout(d, c, f) => var (t, b') := DoClientLogout(s, b, d, c, f); (t, b', None)
    case Reload => (s, b.(access := None), None)
    case CookieDropped => (s, b.(cookie := None), None)
  }

  function Take(cfg: Settings, y: World, step: Step): (World, Option<Reply>) {
    if step.browser >= |y.clients| then (y, None)
    else
      var (t, b, reply) := Act(cfg, y.server, y.clients[step.browser], step.action);
      (World(t, y.clients[step.browser := b]), reply)
  }

  function RunSteps(cfg: Settings, y: World, steps: seq<Step>): World
    decreases |steps|
  {
    if steps == [] then y else RunSteps(cfg, Take(cfg, y, steps[0]).0, steps[1..])
  }

  // ----- a cookie names a token that was never rotated -------------------------------------

  ghost predicate NeverRotated(s: Server, t: Token) {
    && t.kind.Refresh? && t.jti in s.rows && t.jti < s.next && s.rows[t.jti].usedAt.None?
  }

  ghost predicate Fresh(y: World) {
    && (forall i | 0 <= i < |y.clients| ::
          y.clients[i].cookie.Some? ==> NeverRotated(y.server, y.clients[i].cookie.value))
    && (forall i, k | 0 <= i < k < |y.clients| :: Distinct(y.clients[i], y.clients[k]))
    && (forall j | j in y.server.rows :: j < y.server.next)
  }

  ghost predicate Distinct(a: Client, b: Client) {
    a.cookie.Some? && b.cookie.Some? ==> a.cookie.value.jti != b.cookie.value.jti
  }

  /** What one browser's action does to the server: the unused tokens of the others stay
      unused, and its own new cookie is empty, its old one, or a token just drawn. */
  ghost predicate Careful(s: Server, b: Client, t: Server, b': Client) {
    && s.next <= t.next
    && (forall j | j in t.rows && j !in s.rows :: s.next <= j < t.next)
    && (forall j | j in s.rows && s.rows[j].usedAt.None? && !(b.cookie.Some? && b.cookie.value.jti == j) ::
          j in t.rows && t.rows[j].usedAt.None?)
    && (b'.cookie.Some? ==>
          NeverRotated(t, b'.cookie.value) && (b'.cookie == b.cookie || b'.cookie.value.jti >= s.next))
  }

  lemma RefreshIsCareful(cfg: Settings, s: Server, b: Client, d: Delivery, c: Clock, f: Faults)
    requires forall j | j in s.rows :: j < s.next
    requires b.cookie.Some? ==> NeverRotated(s, b.cookie.value)
    requires !d.AnswerLost?
    ensures var (t, b', reply) := DoClientRefresh(cfg, s, b, d, c, f);
      Careful(s, b, t, b') && reply != Some(Refused(TokenReuse))
  {
  }

  lemma ActIsCareful(cfg: Settings, s: Server, b: Client, a: Action)
    requires forall j | j in s.rows :: j < s.next
    requires b.cookie.Some? ==> NeverRotated(s, b.cookie.value)
    requires a.Call? ==> !a.delivery.AnswerLost?
    ensures var (t, b', reply) := Act(cfg, s, b, a);
      Careful(s, b, t, b') && reply != Some(Refused(TokenReuse))
  {
    match a
    case Login(_, _, _, _) =>
    case Call(_, _, d, c, f) => RefreshIsCareful(cfg, s, b, d, c, f);
    case Logout(_, _, _) =>
    case Reload =>
    case CookieDropped =>
  }

  lemma CarefulKeepsFresh(y: World, i: nat, t: Server, b: Client)
    requires Fresh(y) && i < |y.clients| && Careful(y.server, y.clients[i], t, b)
    ensures Fresh(World(t, y.clients[i := b]))
  {
    var z := World(t, y.clients[i := b]);
    forall k | 0 <= k < |z.clients| && z.clients[k].cookie.Some?
      ensures NeverRotated(z.server, z.clients[k].cookie.value)
    {
      if k != i {
        assert NeverRotated(y.server, y.clients[k].cookie.value);
        assert Distinct(y.clients[if k < i then k else i], y.clients[if k < i then i else k]);
      }
    }
    forall k, l | 0 <= k < l < |z.clients| ensures Distinct(z.clients[k], z.clients[l]) {
      assert Distinct(y.clients[k], y.clients[l]);
      assert y.clients[k].cookie.Some? ==> NeverRotated(y.server, y.clients[k].cookie.value);
      assert y.clients[l].cookie.Some? ==> NeverRotated(y.server, y.clients[l].cookie.value);
    }
  }

  /** Every refresh that reaches the server is answered. */
  ghost predicate NoLostRefresh(steps: seq<Step>) {
    forall i | 0 <= i < |steps| :: steps[i].action.Call? ==> !steps[i].action.delivery.AnswerLost?
  }

  lemma StepKeepsFresh(cfg: Settings, y: World, step: Step)
    requires Fresh(y) && (step.action.Call? ==> !step.action.delivery.AnswerLost?)
    ensures Fresh(Take(cfg, y, step).0) && Take(cfg, y, step).1 != Some(Refused(TokenReuse))
  {
    if step.browser < |y.clients| {
      var b := y.clients[step.browser];
      ActIsCareful(cfg, y.server, b, step.action);
      var (t, b', _) := Act(cfg, y.server, b, step.action);
      CarefulKeepsFresh(y, step.browser, t, b');
    }
  }

  lemma {:induction false} FreshRunKeepsFresh(cfg: Settings, y: World, steps: seq<Step>, i: nat)
    requires Fresh(y) && NoLostRefresh(steps) && i < |steps|
    ensures Fresh(RunSteps(cfg, y, steps[..i]))
    ensures Take(cfg, RunSteps(cfg, y, steps[..i]), steps[i]).1 != Some(Refused(TokenReuse))
    decreases i
  {
    StepKeepsFresh(cfg, y, steps[0]);
    if i > 0 {
      FreshRunKeepsFresh(cfg, Take(cfg, y, steps[0]).0, steps[1..], i - 1);
      assert steps[..i][1..] == steps[1..][..i - 1];
    }
  }

  /** No tokens yet, and n browsers without cookies. */
  function Start(n: nat): World {
    World(EMPTY, seq(n, _ => Client(None, None)))
  }

  lemma StartsFresh(n: nat)
    ensures Fresh(Start(n))
  {
  }

  /** Browsers that each issue one request at a time never set off reuse detection,
      whatever store writes fail, as long as no answer to a refresh is lost. */
  lemma NeverReuse(cfg: Settings, n: nat, steps: seq<Step>, i: nat)
    requires NoLostRefresh(steps) && i < |steps|
    ensures Take(cfg, RunSteps(cfg, Start(n), steps[..i]), steps[i]).1 != Some(Refused(TokenReuse))
    ensures Fresh(RunSteps(cfg, Start(n), steps[..i]))
  {
    StartsFresh(n);
    FreshRunKeepsFresh(cfg, Start(n), steps, i);
  }

  // ----- why the assumption is needed --------------------------------------------------------

  /** If a rotation's answer is lost, the browser still holds the rotated token, and its
      next refresh inside the token's lifetime ends the session. */
  lemma LostAnswerEndsSession(cfg: Settings, s: Server, b: Client, c: Clock, f: Faults, c': Clock, f': Faults)
    requires Families.Shape(s)
    requires b.cookie.Some? && HandleRefresh(cfg, s, b.cookie, c, f).1.Granted?
    requires c'.parse < b.cookie.value.expiresAt && f'.get
    ensures var (t, b', _) := DoClientRefresh(cfg, s, b, AnswerLost, c, f);
      var (u, b'', reply) := DoClientRefresh(cfg, t, b', Answered, c', f');
      && reply == Some(Refused(TokenReuse)) && b'' == Client(None, None)
      && (!f'.revoke.Lost? ==> Families.Dead(u, s.rows[b.cookie.value.jti].family))
  {
    var (t, b', _) := DoClientRefresh(cfg, s, b, AnswerLost, c, f);
    Families.RenewKeepsShape(cfg, s, b.cookie.value, c, f);
    Families.RefusalKillsIff(cfg, t, b.cookie.value, c', f');
  }

  // ----- signing out -----------------------------------------------------------------------

  /** Signing out always forgets the access token; the cookie survives exactly when no
      answer arrived, and with a healthy store an answered sign-out kills the family. */
  lemma SignedOut(s: Server, b: Client, d: Delivery, c: Clock, f: Faults)
    requires Families.Shape(s)
    ensures var (t, b') := DoClientLogout(s, b, d, c, f);
      && b'.access.None?
      && (d.Unsent? ==> t == s)
      && (b'.cookie == b.cookie || b'.cookie.None?)
      && (b.cookie.Some? ==> (b'.cookie.Some? <==> !d.Answered?))
      && (b.cookie.Some? && b.cookie.value.jti in s.rows && Parses(b.cookie.value, Kind.Refresh, c.parse)
          && f.get && !f.revoke.Lost? && !d.Unsent?
          ==> Families.Dead(t, s.rows[b.cookie.value.jti].family))
  {
    if b.cookie.Some? && b.cookie.value.jti in s.rows && Parses(b.cookie.value, Kind.Refresh, c.parse)
       && f.get && !f.revoke.Lost? {
      Families.LogoutKills(s, b.cookie.value, c, f);
    }
  }
}
