/** What rotation keeps: each family is one chain of tokens, a dead family stays dead,
    and no access token outlives its family's window. */
module Families {
  import opened Ledger
  import opened Rotation

  // ----- the shape of a family -------------------------------------------------------------

  ghost predicate Link(rows: map<Id, Row>, c: seq<Id>, i: nat) {
    && i < |c| && c[0] in rows && c[i] in rows
    && rows[c[i]].parent == (if i == 0 then None else Some(c[i - 1]))
    && (i + 1 < |c| ==> rows[c[i]].usedAt.Some?)
    && rows[c[i]].user == rows[c[0]].user
    && rows[c[i]].origin == rows[c[0]].origin
  }

  /** c lists the tokens of family f from its first to its latest; each is the parent of
      the next, all but the latest are used, and user and origin never change. */
  ghost predicate Chain(rows: map<Id, Row>, f: Id, c: seq<Id>) {
    && (forall j :: j in c <==> j in rows && rows[j].family == f)
    && (forall i, k | 0 <= i < k < |c| :: c[i] < c[k])
    && (forall i: nat | i < |c| :: Link(rows, c, i))
  }

  ghost predicate HasChain(rows: map<Id, Row>, f: Id) {
    exists c :: Chain(rows, f, c)
  }

  ghost predicate Shape(s: Server) {
    && (forall j | j in s.rows :: j < s.next && s.rows[j].family < s.next)
    && (forall f: Id :: HasChain(s.rows, f))
  }

  // ----- rows only age ---------------------------------------------------------------------

  ghost predicate AgedRow(a: Row, b: Row) {
    && b == a.(usedAt := b.usedAt, revokedAt := b.revokedAt)
    && (a.usedAt.Some? ==> b.usedAt == a.usedAt)
    && (a.revokedAt.Some? ==> b.revokedAt == a.revokedAt)
  }

  ghost predicate Aged(rows: map<Id, Row>, rows': map<Id, Row>) {
    forall j | j in rows :: j in rows' && AgedRow(rows[j], rows'[j])
  }

  lemma {:induction false} AgedTrans(a: map<Id, Row>, b: map<Id, Row>, c: map<Id, Row>)
    requires Aged(a, b) && Aged(b, c)
    ensures Aged(a, c)
  {
    forall j | j in a ensures j in c && AgedRow(a[j], c[j]) {
      assert AgedRow(a[j], b[j]) && AgedRow(b[j], c[j]);
    }
  }

  lemma AgedKeepsChain(rows: map<Id, Row>, rows': map<Id, Row>, f: Id, c: seq<Id>)
    requires Aged(rows, rows') && rows.Keys == rows'.Keys && Chain(rows, f, c)
    ensures Chain(rows', f, c)
  {
    forall j ensures j in c <==> j in rows' && rows'[j].family == f {
      if j in rows { assert AgedRow(rows[j], rows'[j]); }
    }
    forall i: nat | i < |c| ensures Link(rows', c, i) {
      assert Link(rows, c, i);
      assert AgedRow(rows[c[i]], rows'[c[i]]) && AgedRow(rows[c[0]], rows'[c[0]]);
    }
  }

  lemma AgedKeepsShape(s: Server, t: Server)
    requires Shape(s) && Aged(s.rows, t.rows) && s.rows.Keys == t.rows.Keys && s.next <= t.next
    ensures Shape(t)
  {
    forall j | j in t.rows ensures j < t.next && t.rows[j].family < t.next {
      assert AgedRow(s.rows[j], t.rows[j]);
    }
    forall f: Id ensures HasChain(t.rows, f) {
      assert HasChain(s.rows, f);
      var c :| Chain(s.rows, f, c);
      AgedKeepsChain(s.rows, t.rows, f, c);
    }
  }

  // ----- insertions ------------------------------------------------------------------------

  lemma OtherChain(rows: map<Id, Row>, jti: Id, row: Row, f: Id, c: seq<Id>)
    requires Chain(rows, f, c) && jti !in rows && row.family != f
    ensures Chain(rows[jti := row], f, c)
  {
    var rows' := rows[jti := row];
    forall i: nat | i < |c| ensures Link(rows', c, i) {
      assert Link(rows, c, i);
    }
  }

  lemma RootChain(rows: map<Id, Row>, jti: Id, row: Row)
    requires (forall j | j in rows :: rows[j].family != row.family) && row.parent.None?
    ensures Chain(rows[jti := row], row.family, [jti])
  {
    assert Link(rows[jti := row], [jti], 0);
  }

  lemma ChildChain(rows: map<Id, Row>, jti: Id, row: Row, p: Id, c: seq<Id>)
    requires Chain(rows, row.family, c) && p in c && p == c[|c| - 1] && rows[p].usedAt.Some?
    requires jti !in rows && forall j | j in rows :: j < jti
    requires row.parent == Some(p) && row.user == rows[p].user && row.origin == rows[p].origin
    ensures Chain(rows[jti := row], row.family, c + [jti])
  {
    var rows', d := rows[jti := row], c + [jti];
    assert Link(rows, c, |c| - 1);
    forall i: nat | i < |d| ensures Link(rows', d, i) {
      if i < |c| { assert Link(rows, c, i); }
    }
  }

  /** The one unused token of a family is its latest. */
  lemma UnusedIsLast(rows: map<Id, Row>, f: Id, c: seq<Id>, p: Id)
    requires Chain(rows, f, c) && p in rows && rows[p].family == f && rows[p].usedAt.None?
    ensures p in c && p == c[|c| - 1]
  {
    var i: nat :| i < |c| && c[i] == p;
    assert Link(rows, c, i);
  }

  lemma InsertRootKeepsShape(s: Server, jti: Id, row: Row, next: Id)
    requires Shape(s) && row.parent.None?
    requires s.next <= jti < next && s.next <= row.family < next
    ensures Shape(Server(s.rows[jti := row], next))
  {
    var rows' := s.rows[jti := row];
    forall f: Id ensures HasChain(rows', f) {
      if f == row.family {
        RootChain(s.rows, jti, row);
        assert Chain(rows', f, [jti]);
      } else {
        assert HasChain(s.rows, f);
        var c :| Chain(s.rows, f, c);
        OtherChain(s.rows, jti, row, f, c);
      }
    }
  }

  lemma InsertChildKeepsShape(s: Server, p: Id, at: int, jti: Id, row: Row, next: Id)
    requires Shape(s) && p in s.rows && s.rows[p].usedAt.None? && s.next <= jti < next
    requires row.parent == Some(p) && row.family == s.rows[p].family
    requires row.user == s.rows[p].user && row.origin == s.rows[p].origin
    ensures Shape(Server(Marked(s.rows, p, at)[jti := row], next))
  {
    var rows := Marked(s.rows, p, at);
    var rows' := rows[jti := row];
    forall f: Id ensures HasChain(rows', f) {
      assert HasChain(s.rows, f);
      var c :| Chain(s.rows, f, c);
      AgedKeepsChain(s.rows, rows, f, c);
      if f == row.family {
        UnusedIsLast(s.rows, f, c, p);
        ChildChain(rows, jti, row, p, c);
        assert Chain(rows', f, c + [jti]);
      } else {
        OtherChain(rows, jti, row, f, c);
      }
    }
  }

  // ----- every operation -------------------------------------------------------------------

  lemma RenewKeepsShape(cfg: Settings, s: Server, token: Token, c: Clock, f: Faults)
    requires Shape(s)
    ensures Shape(DoRefresh(cfg, s, token, c, f).0)
  {
    var t := DoRefresh(cfg, s, token, c, f).0;
    if t.rows.Keys == s.rows.Keys {
      AgedKeepsShape(s, t);
    } else {
      var r := s.rows[token.jti];
      InsertChildKeepsShape(s, token.jti, c.check, s.next + 1,
        Row(r.user, r.family, Some(token.jti), c.stored, r.origin, None, None), s.next + 2);
    }
  }

  lemma SignInKeepsShape(cfg: Settings, s: Server, user: string, c: Clock, f: Faults)
    requires Shape(s)
    ensures Shape(DoMint(cfg, s, user, c, f).0)
  {
    var t := DoMint(cfg, s, user, c, f).0;
    if t.rows == s.rows {
      AgedKeepsShape(s, t);
    } else {
      InsertRootKeepsShape(s, s.next + 2, Row(user, s.next, None, c.stored, c.check, None, None), s.next + 3);
    }
  }

  lemma OpKeepsShape(cfg: Settings, s: Server, op: Op)
    requires Shape(s)
    ensures Shape(Do(cfg, s, op).0)
  {
    match op
    case SignIn(user, c, f) => SignInKeepsShape(cfg, s, user, c, f);
    case Renew(token, c, f) => RenewKeepsShape(cfg, s, token, c, f);
    case SignOut(token, c, f) => AgedKeepsShape(s, DoLogout(s, token, c, f).0);
  }

  lemma {:induction false} RunKeepsShape(cfg: Settings, s: Server, ops: seq<Op>)
    requires Shape(s)
    ensures Shape(Run(cfg, s, ops))
    decreases |ops|
  {
    if ops != [] {
      OpKeepsShape(cfg, s, ops[0]);
      RunKeepsShape(cfg, Do(cfg, s, ops[0]).0, ops[1..]);
    }
  }

  lemma EmptyShape()
    ensures Shape(EMPTY)
  {
    forall f: Id ensures HasChain(EMPTY.rows, f) {
      assert Chain(EMPTY.rows, f, []);
    }
  }

  // ----- family shape ----------------------------------------------------------------------

  /** What a chain says about two of its tokens. */
  lemma ChainPair(rows: map<Id, Row>, f: Id, c: seq<Id>, a: Id, b: Id)
    requires Chain(rows, f, c) && a in c && b in c
    ensures a in rows && b in rows
    ensures rows[a].user == rows[b].user && rows[a].origin == rows[b].origin
    ensures rows[a].parent == rows[b].parent ==> a == b
    ensures rows[a].usedAt.None? && rows[b].usedAt.None? ==> a == b
    ensures rows[b].parent == Some(a) ==> a < b && rows[a].usedAt.Some?
  {
    var i: nat :| i < |c| && c[i] == a;
    var k: nat :| k < |c| && c[k] == b;
    assert Link(rows, c, i) && Link(rows, c, k);
  }

  /** Over every run of sign-ins, refreshes and sign-outs, whatever fails in them, the
      tokens of a family form one chain: they share user and origin, no two have the same
      parent (so there is one root, and a token has at most one child), a token with a
      child is marked used, and at most one is unused. */
  lemma FamilyShape(cfg: Settings, ops: seq<Op>, a: Id, b: Id)
    requires var rows := Run(cfg, EMPTY, ops).rows;
      a in rows && b in rows && rows[a].family == rows[b].family
    ensures var rows := Run(cfg, EMPTY, ops).rows;
      && HasChain(rows, rows[a].family)
      && rows[a].user == rows[b].user && rows[a].origin == rows[b].origin
      && (rows[a].parent == rows[b].parent ==> a == b)
      && (rows[b].parent == Some(a) ==> a < b && rows[a].usedAt.Some?)
      && (rows[a].usedAt.None? && rows[b].usedAt.None? ==> a == b)
  {
    EmptyShape();
    RunKeepsShape(cfg, EMPTY, ops);
    var rows := Run(cfg, EMPTY, ops).rows;
    var f := rows[a].family;
    assert HasChain(rows, f);
    var c :| Chain(rows, f, c);
    ChainPair(rows, f, c, a, b);
  }

  /** MarkRefreshUsed ignores how many rows it changed: two refreshes that both read the
      token before either marked it both succeed, and the token has two children. */
  lemma OverlapForks(cfg: Settings, s: Server, jti: Id, c: Clock, f: Faults)
    requires Shape(s) && jti in s.rows && RefreshRow(cfg, s, jti, s.rows[jti], c, f).1.Ok?
    ensures var (t, _) := RefreshRow(cfg, s, jti, s.rows[jti], c, f);
      var (u, o) := RefreshRow(cfg, t, jti, s.rows[jti], c, f);
      && o.Ok? && !Shape(u)
      && exists a, b :: a != b && a in u.rows && b in u.rows
                        && u.rows[a].parent == u.rows[b].parent == Some(jti)
  {
    var t := RefreshRow(cfg, s, jti, s.rows[jti], c, f).0;
    var u := RefreshRow(cfg, t, jti, s.rows[jti], c, f).0;
    var a, b, g := s.next + 1, s.next + 3, s.rows[jti].family;
    assert u.rows[a].parent == u.rows[b].parent == Some(jti);
    if Shape(u) {
      assert HasChain(u.rows, g);
      var ch :| Chain(u.rows, g, ch);
      ChainPair(u.rows, g, ch, a, b);
    }
  }

  // ----- dead families ---------------------------------------------------------------------

  function FamilyRows(rows: map<Id, Row>, f: Id): map<Id, Row> {
    map j | j in rows && rows[j].family == f :: rows[j]
  }

  ghost predicate Dead(s: Server, f: Id) {
    f < s.next && forall j | j in s.rows && s.rows[j].family == f :: s.rows[j].revokedAt.Some?
  }

  /** The family an operation works on: the one it draws, or its token's. */
  ghost predicate Touches(s: Server, op: Op, f: Id) {
    match op
    case SignIn(_, _, _) => f == s.next
    case Renew(token, _, _) => token.jti in s.rows && s.rows[token.jti].family == f
    case SignOut(token, _, _) => token.jti in s.rows && s.rows[token.jti].family == f
  }

  lemma RevokeTouchesOne(rows: map<Id, Row>, g: Id, at: int, f: Id)
    requires f != g
    ensures FamilyRows(Revoked(rows, g, at), f) == FamilyRows(rows, f)
  {
  }

  lemma RenewTouchesOne(cfg: Settings, s: Server, token: Token, c: Clock, f: Faults, g: Id)
    requires Shape(s) && token.jti in s.rows && s.rows[token.jti].family != g
    ensures FamilyRows(DoRefresh(cfg, s, token, c, f).0.rows, g) == FamilyRows(s.rows, g)
  {
    RevokeTouchesOne(s.rows, s.rows[token.jti].family, c.check, g);
  }

  /** Every other family is left as it was. */
  lemma OthersUntouched(cfg: Settings, s: Server, op: Op, f: Id)
    requires Shape(s) && !Touches(s, op, f)
    ensures FamilyRows(Do(cfg, s, op).0.rows, f) == FamilyRows(s.rows, f)
  {
    if op.Renew? && op.token.jti in s.rows {
      RenewTouchesOne(cfg, s, op.token, op.clock, op.faults, f);
    } else if op.SignOut? && op.token.jti in s.rows {
      RevokeTouchesOne(s.rows, s.rows[op.token.jti].family, op.clock.check, f);
    }
  }

  /** In a dead family nothing happens any more: no row is added or changed, and no
      session is granted. */
  lemma OpOnDead(cfg: Settings, s: Server, op: Op, f: Id)
    requires Shape(s) && Dead(s, f)
    ensures FamilyRows(Do(cfg, s, op).0.rows, f) == FamilyRows(s.rows, f) && Dead(Do(cfg, s, op).0, f)
    ensures Touches(s, op, f) && op.Renew? ==> Do(cfg, s, op).1.value.Err? && Do(cfg, s, op).0.rows == s.rows
  {
    if !Touches(s, op, f) { OthersUntouched(cfg, s, op, f); }
    SameFamilyDead(s, Do(cfg, s, op).0, f);
  }

  lemma SameFamilyDead(s: Server, t: Server, f: Id)
    ensures FamilyRows(t.rows, f) == FamilyRows(s.rows, f) && Dead(s, f) && s.next <= t.next ==> Dead(t, f)
  {
    if FamilyRows(t.rows, f) == FamilyRows(s.rows, f) && Dead(s, f) && s.next <= t.next {
      forall j | j in t.rows && t.rows[j].family == f ensures t.rows[j].revokedAt.Some? {
        assert j in FamilyRows(t.rows, f);
        assert j in FamilyRows(s.rows, f);
      }
    }
  }

  lemma {:induction false} DeadStaysDead(cfg: Settings, s: Server, ops: seq<Op>, f: Id)
    requires Shape(s) && Dead(s, f)
    ensures FamilyRows(Run(cfg, s, ops).rows, f) == FamilyRows(s.rows, f)
    decreases |ops|
  {
    if ops != [] {
      OpOnDead(cfg, s, ops[0], f);
      OpKeepsShape(cfg, s, ops[0]);
      DeadStaysDead(cfg, Do(cfg, s, ops[0]).0, ops[1..], f);
    }
  }

  /** The family a granted session belongs to. */
  ghost predicate GrantsIn(cfg: Settings, s: Server, op: Op, f: Id) {
    var (t, o) := Do(cfg, s, op);
    && o.Some? && o.value.Ok? && o.value.session.refresh.jti in t.rows
    && t.rows[o.value.session.refresh.jti].family == f
  }

  /** No later step of any run mints from a dead family. */
  lemma {:induction false} DeadGrantsNothing(cfg: Settings, s: Server, ops: seq<Op>, f: Id, i: nat)
    requires Shape(s) && Dead(s, f) && i < |ops|
    ensures !GrantsIn(cfg, Run(cfg, s, ops[..i]), ops[i], f)
    decreases i
  {
    OpOnDead(cfg, s, ops[0], f);
    if i > 0 {
      OpKeepsShape(cfg, s, ops[0]);
      DeadGrantsNothing(cfg, Do(cfg, s, ops[0]).0, ops[1..], f, i - 1);
      assert ops[..i][1..] == ops[1..][..i - 1];
    }
  }

  /** Reuse and expiry kill the family exactly when the revocation reached the store;
      its error is ignored. */
  lemma RefusalKillsIff(cfg: Settings, s: Server, token: Token, c: Clock, f: Faults)
    requires Shape(s)
    requires DoRefresh(cfg, s, token, c, f).1 in {Err(TokenReuse), Err(SessionExpired)}
    ensures token.jti in s.rows
    ensures Dead(DoRefresh(cfg, s, token, c, f).0, s.rows[token.jti].family) <==> !f.revoke.Lost?
  {
    var t := DoRefresh(cfg, s, token, c, f).0;
    if f.revoke.Lost? { assert t.rows[token.jti].revokedAt.None?; }
  }

  lemma LogoutKills(s: Server, token: Token, c: Clock, f: Faults)
    requires Shape(s) && Parses(token, Kind.Refresh, c.parse) && f.get && token.jti in s.rows && !f.revoke.Lost?
    ensures Dead(DoLogout(s, token, c, f).0, s.rows[token.jti].family)
  {
  }

  // ----- session windows -------------------------------------------------------------------

  /** Refreshing succeeds exactly for a live token inside both windows whose request meets
      no failure; the new token is the child of the old one in the same family. */
  lemma RenewsIff(cfg: Settings, s: Server, token: Token, c: Clock, f: Faults)
    ensures DoRefresh(cfg, s, token, c, f).1.Ok? <==>
      && Parses(token, Kind.Refresh, c.parse) && token.jti in s.rows
      && s.rows[token.jti].usedAt.None? && s.rows[token.jti].revokedAt.None?
      && c.check <= s.rows[token.jti].origin + cfg.refreshTTL
      && c.check <= s.rows[token.jti].issuedAt + cfg.idleTimeout
      && f.get && f.mark.Done? && f.user.Found? && f.signAccess && f.signRefresh && f.insert.Done?
  {
  }

  /** Reuse is reported exactly for a live family's used token, expiry exactly for its
      unused token past one of the windows. */
  lemma RefusedIff(cfg: Settings, s: Server, token: Token, c: Clock, f: Faults)
    ensures var live := Parses(token, Kind.Refresh, c.parse) && f.get
                        && token.jti in s.rows && s.rows[token.jti].revokedAt.None?;
      && (DoRefresh(cfg, s, token, c, f).1 == Err(TokenReuse) <==> live && s.rows[token.jti].usedAt.Some?)
      && (DoRefresh(cfg, s, token, c, f).1 == Err(SessionExpired) <==>
            && live && s.rows[token.jti].usedAt.None?
            && (c.check > s.rows[token.jti].origin + cfg.refreshTTL
                || c.check > s.rows[token.jti].issuedAt + cfg.idleTimeout))
  {
  }

  /** What a successful refresh hands out: a new unused child of the presented token in
      the same family, and two tokens for the same user of the two kinds, good for their
      lifetimes up to the second. */
  lemma GrantedTokens(cfg: Settings, s: Server, token: Token, c: Clock, f: Faults)
    requires Shape(s) && DoRefresh(cfg, s, token, c, f).1.Ok?
    ensures var (t, o) := DoRefresh(cfg, s, token, c, f);
      var a, r, was := o.session.access, o.session.refresh, s.rows[token.jti];
      && r.jti !in s.rows && r.jti in t.rows
      && t.rows[r.jti] == Row(was.user, was.family, Some(token.jti), c.stored, was.origin, None, None)
      && t.rows[token.jti].usedAt == Some(c.check)
      && a.kind == Access && r.kind == Kind.Refresh && a.subject == r.subject == was.user
      && c.access + cfg.accessTTL - SECOND < a.expiresAt <= c.access + cfg.accessTTL
      && c.refresh + cfg.refreshTTL - SECOND < r.expiresAt <= c.refresh + cfg.refreshTTL
  {
  }

  /** Every answer of a refresh, in terms of the token, its row and the failures: what each
      error means. */
  lemma RefreshAnswers(cfg: Settings, s: Server, token: Token, c: Clock, f: Faults)
    ensures var o := DoRefresh(cfg, s, token, c, f).1;
      var parsed := token.kind == Kind.Refresh && c.parse < token.expiresAt;
      var known := parsed && f.get && token.jti in s.rows;
      var live := known && s.rows[token.jti].revokedAt.None? && s.rows[token.jti].usedAt.None?
                  && c.check <= s.rows[token.jti].origin + cfg.refreshTTL
                  && c.check <= s.rows[token.jti].issuedAt + cfg.idleTimeout;
      && (o == Err(InvalidToken) <==>
            !parsed || (f.get && token.jti !in s.rows) || (known && s.rows[token.jti].revokedAt.Some?))
      && (o == Err(UserNotFound) <==> live && f.mark.Done? && f.user.Missing?)
      && (o == Err(Internal) <==>
            || (parsed && !f.get)
            || (live && (!f.mark.Done? || f.user.Failed?
                         || (f.user.Found? && !(f.signAccess && f.signRefresh && f.insert.Done?)))))
  {
  }

  /** What a refresh that failed on a statement past the checks leaves: the token marked,
      unless the mark was lost, and its child if only the insert's report was. */
  lemma FailedRows(cfg: Settings, s: Server, token: Token, c: Clock, f: Faults)
    requires Shape(s) && DoRefresh(cfg, s, token, c, f).1 == Err(Internal) && f.get
    ensures var t, row := DoRefresh(cfg, s, token, c, f).0, s.rows[token.jti];
      var marked := if f.mark.Lost? then s.rows else s.rows[token.jti := row.(usedAt := Some(c.check))];
      token.jti in s.rows
      && if f.mark.Done? && f.user.Found? && f.signAccess && f.signRefresh && f.insert.DoneButErrored?
         then
           var child := Row(row.user, row.family, Some(token.jti), c.stored, row.origin, None, None);
           exists k :: k !in s.rows && t.rows == marked[k := child]
         else t.rows == marked
  {
    assert s.next + 1 !in s.rows;
  }

  /** What each refused refresh does to the table. */
  lemma RefusedRows(cfg: Settings, s: Server, token: Token, c: Clock, f: Faults)
    ensures var (t, o) := DoRefresh(cfg, s, token, c, f);
      && (o == Err(InvalidToken) ==> t == s)
      && (o == Err(Internal) && !f.get ==> t == s)
      && (o == Err(UserNotFound) ==>
            t.rows == s.rows[token.jti := s.rows[token.jti].(usedAt := Some(c.check))])
      && (o in {Err(TokenReuse), Err(SessionExpired)} ==>
            && token.jti in s.rows && t.rows.Keys == s.rows.Keys
            && forall j | j in s.rows ::
                 t.rows[j] ==
                   if s.rows[j].family == s.rows[token.jti].family && s.rows[j].revokedAt.None? && !f.revoke.Lost?
                   then s.rows[j].(revokedAt := Some(c.check)) else s.rows[j])
  {
  }

  /** A sign-in succeeds exactly when both signings and the insert do. Then it adds one
      row: a family and an id never used, no parent, this user, origin now, neither used
      nor revoked; and hands out two tokens for this user, the refresh token naming that
      row. Otherwise it adds nothing, or that row when the insert took effect unreported. */
  lemma SignedIn(cfg: Settings, s: Server, user: string, c: Clock, f: Faults)
    requires Shape(s)
    ensures var (t, o) := DoMint(cfg, s, user, c, f);
      && (o.Ok? <==> f.signAccess && f.signRefresh && f.insert.Done?)
      && (o.Err? ==> o.error == Internal)
      && (t.rows == s.rows || RootAdded(s, t, user, c))
      && (t.rows == s.rows <==> !f.signAccess || !f.signRefresh || f.insert.Lost?)
  {
    if f.signAccess && f.signRefresh && !f.insert.Lost? {
      var t, jti := DoMint(cfg, s, user, c, f).0, s.next + 2;
      assert jti !in s.rows;
      assert t.rows == s.rows[jti := Row(user, s.next, None, c.stored, c.check, None, None)];
      assert RootRow(s, t, user, c, jti);
    }
  }

  ghost predicate RootRow(s: Server, t: Server, user: string, c: Clock, jti: Id) {
    && jti !in s.rows && jti in t.rows && t.rows == s.rows[jti := t.rows[jti]]
    && (forall j | j in s.rows :: s.rows[j].family != t.rows[jti].family)
    && t.rows[jti].user == user && t.rows[jti].parent.None?
    && t.rows[jti].origin == c.check && t.rows[jti].issuedAt == c.stored
    && t.rows[jti].usedAt.None? && t.rows[jti].revokedAt.None?
  }

  ghost predicate RootAdded(s: Server, t: Server, user: string, c: Clock) {
    exists jti :: RootRow(s, t, user, c, jti)
  }

  lemma SignInTokens(cfg: Settings, s: Server, user: string, c: Clock, f: Faults)
    requires Shape(s) && DoMint(cfg, s, user, c, f).1.Ok?
    ensures var (t, o) := DoMint(cfg, s, user, c, f);
      var a, r := o.session.access, o.session.refresh;
      && RootRow(s, t, user, c, r.jti)
      && a.kind == Access && r.kind == Kind.Refresh && a.subject == r.subject == user
      && c.access + cfg.accessTTL - SECOND < a.expiresAt <= c.access + cfg.accessTTL
      && c.refresh + cfg.refreshTTL - SECOND < r.expiresAt <= c.refresh + cfg.refreshTTL
  {
  }

  /** Signing out: an unusable or unknown token is no error, and nothing but the named
      family's revocation happens. */
  lemma LogoutAnswers(s: Server, token: Token, c: Clock, f: Faults)
    ensures var (t, ok) := DoLogout(s, token, c, f);
      var parsed := token.kind == Kind.Refresh && c.parse < token.expiresAt;
      && (ok <==> !parsed || (f.get && (token.jti !in s.rows || f.revoke.Done?)))
      && t.rows.Keys == s.rows.Keys
      && forall j | j in s.rows ::
           t.rows[j] ==
             if parsed && f.get && token.jti in s.rows && !f.revoke.Lost?
                && s.rows[j].family == s.rows[token.jti].family && s.rows[j].revokedAt.None?
             then s.rows[j].(revokedAt := Some(c.check)) else s.rows[j]
  {
  }

  lemma RevokedAges(rows: map<Id, Row>, family: Id, at: int)
    ensures Aged(rows, Revoked(rows, family, at))
  {
  }

  lemma MarkedAges(rows: map<Id, Row>, jti: Id, at: int)
    ensures Aged(rows, Marked(rows, jti, at))
  {
  }

  lemma InsertAges(rows: map<Id, Row>, jti: Id, row: Row)
    requires jti !in rows
    ensures Aged(rows, rows[jti := row])
  {
  }

  lemma RotateAges(cfg: Settings, s: Server, user: string, family: Id, parent: Option<Id>, origin: int, c: Clock,
                   f: Faults)
    requires forall j | j in s.rows :: j < s.next
    ensures Aged(s.rows, DoRotate(cfg, s, user, family, parent, origin, c, f).0.rows)
  {
    InsertAges(s.rows, s.next + 1, Row(user, family, parent, c.stored, origin, None, None));
  }

  lemma RenewAges(cfg: Settings, s: Server, token: Token, c: Clock, f: Faults)
    requires Shape(s)
    ensures Aged(s.rows, DoRefresh(cfg, s, token, c, f).0.rows)
  {
    if token.jti in s.rows {
      var r := s.rows[token.jti];
      var marked := Marked(s.rows, token.jti, c.check);
      RevokedAges(s.rows, r.family, c.check);
      MarkedAges(s.rows, token.jti, c.check);
      RotateAges(cfg, s.(rows := marked), r.user, r.family, Some(token.jti), r.origin, c, f);
      AgedTrans(s.rows, marked,
        DoRotate(cfg, s.(rows := marked), r.user, r.family, Some(token.jti), r.origin, c, f).0.rows);
    }
  }

  lemma OpAges(cfg: Settings, s: Server, op: Op)
    requires Shape(s)
    ensures Aged(s.rows, Do(cfg, s, op).0.rows)
  {
    if op.Renew? { RenewAges(cfg, s, op.token, op.clock, op.faults); }
  }

  lemma {:induction false} RunAges(cfg: Settings, s: Server, ops: seq<Op>)
    requires Shape(s)
    ensures Aged(s.rows, Run(cfg, s, ops).rows)
    decreases |ops|
  {
    if ops != [] {
      var t := Do(cfg, s, ops[0]).0;
      OpKeepsShape(cfg, s, ops[0]);
      OpAges(cfg, s, ops[0]);
      RunAges(cfg, t, ops[1..]);
      AgedTrans(s.rows, t.rows, Run(cfg, s, ops).rows);
    }
  }

  lemma {:induction false} RunSplits(cfg: Settings, s: Server, ops: seq<Op>, i: nat)
    requires i < |ops|
    ensures Run(cfg, s, ops) == Run(cfg, Do(cfg, Run(cfg, s, ops[..i]), ops[i]).0, ops[i + 1..])
    decreases i
  {
    if i > 0 {
      RunSplits(cfg, Do(cfg, s, ops[0]).0, ops[1..], i - 1);
      assert ops[..i][1..] == ops[1..][..i - 1];
      assert ops[1..][i..] == ops[i + 1..];
    }
  }

  /** At the moment it is granted. */
  lemma GrantWithinWindow(cfg: Settings, s: Server, op: Op)
    requires Do(cfg, s, op).1.Some? && Do(cfg, s, op).1.value.Ok?
    ensures var (t, o) := Do(cfg, s, op); var granted := o.value.session;
      && granted.refresh.jti in t.rows
      && granted.access.expiresAt
           <= t.rows[granted.refresh.jti].origin + cfg.refreshTTL + cfg.accessTTL + (op.clock.access - op.clock.check)
  {
  }

  /** However many rotations a family goes through, no access token granted in it lives
      past its origin + refreshTTL + accessTTL, plus the time the granting request spent
      between checking the window and signing. */
  lemma AccessBounded(cfg: Settings, ops: seq<Op>, i: nat)
    requires i < |ops|
    requires var o := Do(cfg, Run(cfg, EMPTY, ops[..i]), ops[i]).1; o.Some? && o.value.Ok?
    ensures var granted := Do(cfg, Run(cfg, EMPTY, ops[..i]), ops[i]).1.value.session;
      var rows := Run(cfg, EMPTY, ops).rows;
      && granted.refresh.jti in rows
      && granted.access.expiresAt
           <= rows[granted.refresh.jti].origin + cfg.refreshTTL + cfg.accessTTL
              + (ops[i].clock.access - ops[i].clock.check)
  {
    var s := Run(cfg, EMPTY, ops[..i]);
    var (t, o) := Do(cfg, s, ops[i]);
    EmptyShape();
    RunKeepsShape(cfg, EMPTY, ops[..i]);
    OpKeepsShape(cfg, s, ops[i]);
    GrantWithinWindow(cfg, s, ops[i]);
    RunSplits(cfg, EMPTY, ops, i);
    RunAges(cfg, t, ops[i + 1..]);
    assert AgedRow(t.rows[o.value.session.refresh.jti], Run(cfg, EMPTY, ops).rows[o.value.session.refresh.jti]);
  }
}
