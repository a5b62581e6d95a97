/** Refresh-token rotation on the server: every refresh marks the presented token used
    and inserts its child; a used token presented again revokes its family. Requests are
    handled one at a time, but any store statement may fail, with or without effect. */
module Rotation {
  import opened Ledger
  import opened Store

  /** uuid.NewString never repeats; identifiers are numbered in the order drawn. */
  type Id = nat

  /** A refresh_tokens row. */
  datatype Row = Row(
    user: string, family: Id, parent: Option<Id>, issuedAt: int, origin: int,
    usedAt: Option<int>, revokedAt: Option<int>)

  datatype Kind = Access | Refresh

  /** A signed token. Signatures are not forged or altered, so a token is its claims. */
  datatype Token = Token(kind: Kind, subject: string, jti: Id, expiresAt: int)

  datatype Session = Session(access: Token, refresh: Token)

  datatype Error = InvalidToken | TokenReuse | SessionExpired | UserNotFound | Internal

  datatype Outcome = Ok(session: Session) | Err(error: Error)

  datatype Settings = Settings(refreshTTL: nat, idleTimeout: nat, accessTTL: nat)

  /** The clock readings of one request, in microseconds: by the token parser, by the
      service, by the two signings, and by the database. */
  datatype Clock = Clock(parse: int, check: int, access: int, refresh: int, stored: int)

  datatype Lookup = Found | Missing | Failed

  /** How each statement and signing of one request turns out. */
  datatype Faults = Faults(
    get: bool, revoke: Fate, mark: Fate, user: Lookup, signAccess: bool, signRefresh: bool, insert: Fate)

  datatype Server = Server(rows: map<Id, Row>, next: Id)

  // ----- tokens --------------------------------------------------------------------------

  const SECOND: int := 1000000

  /** Expiry claims are whole seconds. */
  function NumericDate(t: int): (d: int)
    ensures t - 1_000_000 < d <= t && d % 1_000_000 == 0
  {
    t - t % SECOND
  }

  predicate Parses(t: Token, kind: Kind, now: int) {
    t.kind == kind && now < t.expiresAt
  }

  // ----- statements ------------------------------------------------------------------------

  /** UPDATE ... WHERE jti = $1 AND used_at IS NULL; matching no row is no error. */
  function Marked(rows: map<Id, Row>, jti: Id, at: int): map<Id, Row> {
    if jti in rows && rows[jti].usedAt.None? then rows[jti := rows[jti].(usedAt := Some(at))] else rows
  }

  function RevokedRow(r: Row, family: Id, at: int): Row {
    if r.family == family && r.revokedAt.None? then r.(revokedAt := Some(at)) else r
  }

  /** UPDATE ... WHERE family_id = $1 AND revoked_at IS NULL */
  function Revoked(rows: map<Id, Row>, family: Id, at: int): map<Id, Row> {
    map j | j in rows :: RevokedRow(rows[j], family, at)
  }

  // ----- operations ------------------------------------------------------------------------

  /** Sign an access and a refresh token and insert the latter's row. */
  function DoRotate(cfg: Settings, s: Server, user: string, family: Id, parent: Option<Id>, origin: int,
                  c: Clock, f: Faults): (Server, Outcome)
  {
    if !f.signAccess then (s.(next := s.next + 1), Err(Internal))
    else
      var jti := s.next + 1;
      var t := s.(next := s.next + 2);
      if !f.signRefresh then (t, Err(Internal))
      else
        var row := Row(user, family, parent, c.stored, origin, None, None);
        var u := t.(rows := Written(f.insert, s.rows, s.rows[jti := row]));
        if f.insert.Done? then
          (u, Ok(Session(Token(Access, user, s.next, NumericDate(c.access + cfg.accessTTL)),
                         Token(Kind.Refresh, user, jti, NumericDate(c.refresh + cfg.refreshTTL)))))
        else (u, Err(Internal))
  }

  /** A login or phone verification whose credentials were accepted. */
  function DoMint(cfg: Settings, s: Server, user: string, c: Clock, f: Faults): (Server, Outcome) {
    DoRotate(cfg, s.(next := s.next + 1), user, s.next, None, c.check, c, f)
  }

  /** Refresh once its row has been read: the row may be older than the table. */
  function RefreshRow(cfg: Settings, s: Server, jti: Id, row: Row, c: Clock, f: Faults): (Server, Outcome) {
    if row.revokedAt.Some? then (s, Err(InvalidToken))
    else
      var killed := s.(rows := Written(f.revoke, s.rows, Revoked(s.rows, row.family, c.check)));
      if row.usedAt.Some? then (killed, Err(TokenReuse))
      else if c.check > row.origin + cfg.refreshTTL || c.check > row.issuedAt + cfg.idleTimeout then
        (killed, Err(SessionExpired))
      else
        var t := s.(rows := Written(f.mark, s.rows, Marked(s.rows, jti, c.check)));
        if !f.mark.Done? || f.user.Failed? then (t, Err(Internal))
        else if f.user.Missing? then (t, Err(UserNotFound))
        else DoRotate(cfg, t, row.user, row.family, Some(jti), row.origin, c, f)
  }

  function DoRefresh(cfg: Settings, s: Server, token: Token, c: Clock, f: Faults): (Server, Outcome) {
    if !Parses(token, Kind.Refresh, c.parse) then (s, Err(InvalidToken))
    else if !f.get then (s, Err(Internal))
    else if token.jti !in s.rows then (s, Err(InvalidToken))
    else RefreshRow(cfg, s, token.jti, s.rows[token.jti], c, f)
  }

  /** An unusable or unknown token is not an error. */
  function DoLogout(s: Server, token: Token, c: Clock, f: Faults): (Server, bool) {
    if !Parses(token, Kind.Refresh, c.parse) then (s, true)
    else if !f.get then (s, false)
    else if token.jti !in s.rows then (s, true)
    else (s.(rows := Written(f.revoke, s.rows, Revoked(s.rows, s.rows[token.jti].family, c.check))), f.revoke.Done?)
  }

  // ----- the service -----------------------------------------------------------------------

  class Service {
    var rows: map<Id, Row>
    var next: Id
    const cfg: Settings

    constructor (cfg: Settings)
      ensures View() == Server(map[], 0) && this.cfg == cfg
    {
      this.cfg := cfg;
      rows, next := map[], 0;
    }

    ghost function View(): Server
      reads this
    {
      Server(rows, next)
    }

    method NewString() returns (id: Id)
      modifies this`next
      ensures id == old(next) && next == old(next) + 1
    {
      id := next;
      next := next + 1;
    }

    method InsertRefresh(jti: Id, row: Row, fate: Fate) returns (ok: bool)
      modifies this`rows
      ensures rows == Written(fate, old(rows), old(rows)[jti := row]) && ok == fate.Done?
    {
      if !fate.Lost? {
        rows := rows[jti := row];
      }
      ok := fate.Done?;
    }

    method MarkRefreshUsed(jti: Id, at: int, fate: Fate) returns (ok: bool)
      modifies this`rows
      ensures rows == Written(fate, old(rows), Marked(old(rows), jti, at)) && ok == fate.Done?
    {
      if !fate.Lost? && jti in rows && rows[jti].usedAt.None? {
        rows := rows[jti := rows[jti].(usedAt := Some(at))];
      }
      ok := fate.Done?;
    }

    method RevokeFamily(family: Id, at: int, fate: Fate) returns (ok: bool)
      modifies this`rows
      ensures rows == Written(fate, old(rows), Revoked(old(rows), family, at)) && ok == fate.Done?
    {
      if !fate.Lost? {
        rows := map j | j in rows :: RevokedRow(rows[j], family, at);
      }
      ok := fate.Done?;
    }

    method Rotate(user: string, family: Id, parent: Option<Id>, origin: int, c: Clock, f: Faults)
      returns (o: Outcome)
      modifies this
      ensures (View(), o) == DoRotate(cfg, old(View()), user, family, parent, origin, c, f)
    {
      var accessId := NewString();
      if !f.signAccess {
        return Err(Internal);
      }
      var access := Token(Access, user, accessId, NumericDate(c.access + cfg.accessTTL));
      var jti := NewString();
      if !f.signRefresh {
        return Err(Internal);
      }
      var refresh := Token(Kind.Refresh, user, jti, NumericDate(c.refresh + cfg.refreshTTL));
      var ok := InsertRefresh(jti, Row(user, family, parent, c.stored, origin, None, None), f.insert);
      if !ok {
        return Err(Internal);
      }
      o := Ok(Session(access, refresh));
    }

    method MintSession(user: string, c: Clock, f: Faults) returns (o: Outcome)
      modifies this
      ensures (View(), o) == DoMint(cfg, old(View()), user, c, f)
    {
      var family := NewString();
      o := Rotate(user, family, None, c.check, c, f);
    }

    method Refresh(token: Token, c: Clock, f: Faults) returns (o: Outcome)
      modifies this
      ensures (View(), o) == DoRefresh(cfg, old(View()), token, c, f)
    {
      if !Parses(token, Kind.Refresh, c.parse) {
        return Err(InvalidToken);
      }
      if !f.get {
        return Err(Internal);
      }
      if token.jti !in rows || rows[token.jti].revokedAt.Some? {
        return Err(InvalidToken);
      }
      var row := rows[token.jti];
      if row.usedAt.Some? {
        var _ := RevokeFamily(row.family, c.check, f.revoke);
        return Err(TokenReuse);
      }
      if c.check > row.origin + cfg.refreshTTL || c.check > row.issuedAt + cfg.idleTimeout {
        var _ := RevokeFamily(row.family, c.check, f.revoke);
        return Err(SessionExpired);
      }
      var ok := MarkRefreshUsed(token.jti, c.check, f.mark);
      if !ok || f.user.Failed? {
        return Err(Internal);
      }
      if f.user.Missing? {
        return Err(UserNotFound);
      }
      o := Rotate(row.user, row.family, Some(token.jti), row.origin, c, f);
    }

    method Logout(token: Token, c: Clock, f: Faults) returns (ok: bool)
      modifies this
      ensures (View(), ok) == DoLogout(old(View()), token, c, f)
    {
      if !Parses(token, Kind.Refresh, c.parse) {
        return true;
      }
      if !f.get {
        return false;
      }
      if token.jti !in rows {
        return true;
      }
      ok := RevokeFamily(rows[token.jti].family, c.check, f.revoke);
    }
  }

  // ----- runs ------------------------------------------------------------------------------

  datatype Op =
    | SignIn(user: string, clock: Clock, faults: Faults)
    | Renew(token: Token, clock: Clock, faults: Faults)
    | SignOut(token: Token, clock: Clock, faults: Faults)

  function Do(cfg: Settings, s: Server, op: Op): (Server, Option<Outcome>) {
    match op
    case SignIn(user, c, f) => var (t, o) := DoMint(cfg, s, user, c, f); (t, Some(o))
    case Renew(token, c, f) => var (t, o) := DoRefresh(cfg, s, token, c, f); (t, Some(o))
    case SignOut(token, c, f) => (DoLogout(s, token, c, f).0, None)
  }

  function Run(cfg: Settings, s: Server, ops: seq<Op>): Server
    decreases |ops|
  {
    if ops == [] then s else Run(cfg, Do(cfg, s, ops[0]).0, ops[1..])
  }

  const EMPTY := Server(map[], 0)
}
