/** What the steps of a run leave alone that belongs to one app and user. */
module ConnectedAppCalm {
  import opened ConnectedAppStore
  import opened ConnectedAppRuns
  import opened ConnectedAppSessions
  import opened Text

  ghost predicate Of(d: Device, app: nat, user: nat) {
    d.app == app && d.user == user
  }

  ghost predicate ActiveAccess(s: Store, a: nat, app: nat, user: nat) {
    a in s.accessTokens && s.accessTokens[a].active && Of(s.accessTokens[a].device, app, user)
  }

  /** The grant stays, and is not authorised anew. */
  ghost predicate CalmGrant(s: Store, t: Store, app: nat, user: nat) {
    (app, user) in s.grants ==>
      && (app, user) in t.grants && t.grants[(app, user)].id == s.grants[(app, user)].id
      && (t.grants[(app, user)].authorized ==> s.grants[(app, user)].authorized)
  }

  /** Nothing of (app, user) is bound or enabled anew. */
  ghost predicate CalmKeys(s: Store, t: Store, app: nat, user: nat) {
    && (forall d | d in t.bindings && Of(d, app, user) && t.bindings[d].active :: s.HasActive(d))
    && (forall i | i in t.issued && Of(t.issued[i], app, user) && Live(t, i) ::
          i in s.issued && s.issued[i] == t.issued[i] && Live(s, i))
  }

  /** No session becomes one that (app, user) has authorised, and no code of theirs becomes a pending one. */
  ghost predicate CalmApprovals(s: Store, t: Store, app: nat, user: nat) {
    && (forall i | i in t.sessions && t.sessions[i].status == Authorized
                   && t.sessions[i].app == app && t.sessions[i].user == user ::
          i in s.sessions && s.sessions[i] == t.sessions[i])
    && (forall c | c in t.codes && t.codes[c].pending && t.codes[c].app == app && t.codes[c].user == user ::
          c in s.codes && s.codes[c] == t.codes[c])
  }

  ghost predicate CalmAccess(s: Store, t: Store, app: nat, user: nat) {
    forall a | a in t.accessTokens && ActiveAccess(t, a, app, user) :: ActiveAccess(s, a, app, user)
  }

  ghost predicate Calm(s: Store, t: Store, app: nat, user: nat) {
    CalmGrant(s, t, app, user) && CalmKeys(s, t, app, user) && CalmApprovals(s, t, app, user)
  }

  ghost predicate Quiet(s: Store, t: Store, app: nat, user: nat) {
    Calm(s, t, app, user) && CalmAccess(s, t, app, user)
  }

  lemma QuietSame(s: Store, app: nat, user: nat)
    ensures Quiet(s, s, app, user)
  {
  }

  lemma KeysTransitive(s: Store, t: Store, u: Store, app: nat, user: nat)
    requires CalmKeys(s, t, app, user) && CalmKeys(t, u, app, user)
    ensures CalmKeys(s, u, app, user)
  {
  }

  lemma ApprovalsTransitive(s: Store, t: Store, u: Store, app: nat, user: nat)
    requires CalmApprovals(s, t, app, user) && CalmApprovals(t, u, app, user)
    ensures CalmApprovals(s, u, app, user)
  {
  }

  lemma AccessTransitive(s: Store, t: Store, u: Store, app: nat, user: nat)
    requires CalmAccess(s, t, app, user) && CalmAccess(t, u, app, user)
    ensures CalmAccess(s, u, app, user)
  {
    forall a | a in u.accessTokens && ActiveAccess(u, a, app, user) ensures ActiveAccess(s, a, app, user) {
      assert ActiveAccess(t, a, app, user);
    }
  }

  lemma CalmTransitive(s: Store, t: Store, u: Store, app: nat, user: nat)
    requires Calm(s, t, app, user) && Calm(t, u, app, user) && (app, user) in s.grants
    ensures Calm(s, u, app, user)
  {
    KeysTransitive(s, t, u, app, user);
    ApprovalsTransitive(s, t, u, app, user);
    hide CalmKeys, CalmApprovals;
  }

  lemma QuietTransitive(s: Store, t: Store, u: Store, app: nat, user: nat)
    requires Quiet(s, t, app, user) && Quiet(t, u, app, user) && (app, user) in s.grants
    ensures Quiet(s, u, app, user)
  {
    CalmTransitive(s, t, u, app, user);
    AccessTransitive(s, t, u, app, user);
    hide Calm, CalmAccess;
  }

  // ----- the pieces of a transaction -----

  lemma GrantQuiet(s: Store, a: nat, u: nat, scopes: set<string>, app: nat, user: nat)
    requires (a, u) != (app, user)
    ensures Quiet(s, s.UpsertGrant(a, u, scopes), app, user)
  {
  }

  lemma WorseTokensQuiet(s: Store, tokens: map<nat, Token>, app: nat, user: nat)
    requires forall i | i in tokens && tokens[i].enabled :: Live(s, i)
    ensures Quiet(s, s.(tokens := tokens), app, user)
  {
  }

  lemma BindQuiet(s: Store, d: Device, grantId: nat, group: string, app: nat, user: nat)
    requires TokenInv(s) && !Of(d, app, user)
    ensures Quiet(s, s.Bind(d, grantId, group), app, user)
  {
    BindEffect(s, d, grantId, group);
    hide *;
    BoundQuiet(s, s.Bind(d, grantId, group), d, app, user);
  }

  lemma BoundQuiet(s: Store, t: Store, d: Device, app: nat, user: nat)
    requires !Of(d, app, user) && s.nextId in t.tokens && d in t.bindings
    requires t == s.(tokens := s.tokens[s.nextId := t.tokens[s.nextId]], issued := s.issued[s.nextId := d],
                     bindings := s.bindings[d := t.bindings[d]], attributions := t.attributions, nextId := t.nextId)
    ensures Quiet(s, t, app, user)
  {
  }

  lemma RetireQuiet(s: Store, d: Device, app: nat, user: nat)
    ensures Quiet(s, s.RetireCurrent(d), app, user)
  {
  }

  lemma IssueQuiet(s: Store, d: Device, grantId: nat, group: string, app: nat, user: nat)
    requires TokenInv(s) && !Of(d, app, user) && (app, user) in s.grants
    ensures Quiet(s, s.Issue(d, grantId, group), app, user)
  {
    hide TokenInv, Quiet;
    RetireKeepsTokenInv(s, d);
    RetireQuiet(s, d, app, user);
    BindQuiet(s.RetireCurrent(d), d, grantId, group, app, user);
    QuietTransitive(s, s.RetireCurrent(d), s.Issue(d, grantId, group), app, user);
  }

  lemma WithdrawQuiet(s: Store, d: Device, app: nat, user: nat)
    requires d in s.bindings
    ensures Quiet(s, s.Withdraw(d), app, user)
  {
  }

  lemma RevokeAccessQuiet(s: Store, a: nat, u: nat, fingerprint: string, app: nat, user: nat)
    ensures Quiet(s, s.RevokeAccessTokens(a, u, fingerprint), app, user)
  {
    hide TrimSpace;
  }

  /** One session changes, and not to one that (app, user) has authorised. */
  lemma SessionQuiet(s: Store, id: nat, session: Session, app: nat, user: nat)
    requires session.status == Authorized ==> session.app != app || session.user != user
    ensures Quiet(s, s.(sessions := s.sessions[id := session]), app, user)
  {
  }

  // ----- the steps -----

  lemma EnsureQuiet(s: Store, a: App, u: nat, fingerprint: string, rotate: bool, now: int, app: nat, user: nat)
    requires TokenInv(s) && (a.id, u) != (app, user) && (app, user) in s.grants
    ensures Quiet(s, EnsureForDevice(s, a, u, fingerprint, rotate, now).0, app, user)
  {
    hide TokenInv, Quiet;
    QuietSame(s, app, user);
    var t := s.UpsertGrant(a.id, u, a.defaultScopes);
    UpsertGrantKeepsTokenInv(s, a.id, u, a.defaultScopes);
    GrantQuiet(s, a.id, u, a.defaultScopes, app, user);
    var d, group := Device(a.id, u, fingerprint), TrimSpace(a.tokenGroup);
    var grantId := t.grants[(a.id, u)].id;
    IssueQuiet(t, d, grantId, group, app, user);
    QuietTransitive(s, t, t.Issue(d, grantId, group), app, user);
    if t.HasActive(d) && t.HasToken(t.bindings[d].tokenId, u) {
      GroupQuiet(t, t.bindings[d].tokenId, group, app, user);
      QuietTransitive(s, t, t.SetTokenGroup(t.bindings[d].tokenId, group), app, user);
    }
  }

  lemma GroupQuiet(s: Store, id: nat, group: string, app: nat, user: nat)
    requires id in s.tokens
    ensures Quiet(s, s.SetTokenGroup(id, group), app, user)
  {
    WorseTokensQuiet(s, s.SetTokenGroup(id, group).tokens, app, user);
  }

  lemma DisableThenBindQuiet(s: Store, d: Device, grantId: nat, app: nat, user: nat)
    requires TokenInv(s) && !Of(d, app, user) && (app, user) in s.grants
    ensures Quiet(s, s.DisableCurrent(d).Bind(d, grantId, ""), app, user)
  {
    var disabled := s.DisableCurrent(d);
    DisableCurrentKeepsTokenInv(s, d);
    hide TokenInv, Quiet, Store.Bind;
    WorseTokensQuiet(s, disabled.tokens, app, user);
    BindQuiet(disabled, d, grantId, "", app, user);
    QuietTransitive(s, disabled, disabled.Bind(d, grantId, ""), app, user);
  }

  lemma OAuthQuiet(s: Store, a: App, u: nat, scopes: set<string>, fingerprint: string, app: nat, user: nat)
    requires TokenInv(s) && (a.id, u) != (app, user) && (app, user) in s.grants
    ensures Quiet(s, IssueForOAuth(s, a, u, scopes, fingerprint).0, app, user)
  {
    hide TokenInv, Quiet;
    QuietSame(s, app, user);
    var granted := if scopes == {} then a.defaultScopes else scopes;
    var t := s.UpsertGrant(a.id, u, granted);
    UpsertGrantKeepsTokenInv(s, a.id, u, granted);
    GrantQuiet(s, a.id, u, granted, app, user);
    var d := Device(a.id, u, if fingerprint == "" then "oauth-web" else fingerprint);
    DisableThenBindQuiet(t, d, t.grants[(a.id, u)].id, app, user);
    QuietTransitive(s, t, t.DisableCurrent(d).Bind(d, t.grants[(a.id, u)].id, ""), app, user);
    hide Store.Bind, Store.DisableCurrent;
  }

  lemma ClientEnsureQuiet(s: Store, c: Client, requested: string, users: set<nat>, usable: set<string>,
                          rotate: bool, now: int, app: nat, user: nat)
    requires TokenInv(s) && !Of(c.device, app, user) && (app, user) in s.grants
    ensures Quiet(s, ClientEnsure(s, c, requested, users, usable, rotate, now).0, app, user)
  {
    hide TokenInv, EnsureGroup, Quiet;
    QuietSame(s, app, user);
    var checked := EnsureGroup(s, c, TrimSpace(requested), rotate);
    if checked.Ok? {
      var d, group := c.device, checked.value;
      IssueQuiet(s, d, c.grantId, group, app, user);
      if s.HasActive(d) && s.HasToken(s.bindings[d].tokenId, d.user) {
        var t := s.SetTokenGroup(s.bindings[d].tokenId, group);
        GroupKeepsTokenInv(s, s.bindings[d].tokenId, group);
        GroupQuiet(s, s.bindings[d].tokenId, group, app, user);
        IssueQuiet(t, d, c.grantId, group, app, user);
        QuietTransitive(s, t, t.Issue(d, c.grantId, group), app, user);
      }
    }
  }

  lemma ClientStepsQuiet(s: Store, c: Client, tokenId: nat, users: set<nat>, app: nat, user: nat)
    requires TokenInv(s) && !Of(c.device, app, user) && (app, user) in s.grants
    ensures Quiet(s, ClientRotate(s, c, tokenId, users).0, app, user)
    ensures Quiet(s, ClientRevoke(s, c, tokenId).0, app, user)
  {
    hide TokenInv, Quiet;
    QuietSame(s, app, user);
    if Owned(s, c.device, tokenId).Ok? {
      WithdrawQuiet(s, c.device, app, user);
      IssueQuiet(s, c.device, c.grantId, TrimSpace(s.tokens[tokenId].group), app, user);
    }
  }

  lemma DeviceRevokeQuiet(s: Store, d: Device, revokeToken: bool, app: nat, user: nat)
    requires (app, user) in s.grants
    ensures Quiet(s, DeviceRevoke(s, d, revokeToken), app, user)
  {
    hide Quiet;
    var t := s.RevokeAccessTokens(d.app, d.user, d.fingerprint);
    RevokeAccessQuiet(s, d.app, d.user, d.fingerprint, app, user);
    if revokeToken && t.HasActive(d) {
      WithdrawQuiet(t, d, app, user);
      QuietTransitive(s, t, t.Withdraw(d), app, user);
    }
  }

  lemma BindingsQuiet(s: Store, a: nat, u: nat, app: nat, user: nat)
    ensures Quiet(s, RevokeBindings(s, a, u), app, user)
  {
  }

  lemma LessGrantQuiet(s: Store, a: nat, u: nat, app: nat, user: nat)
    requires (a, u) in s.grants
    ensures Quiet(s, s.(grants := s.grants[(a, u) := s.grants[(a, u)].(authorized := false)]), app, user)
  {
  }

  lemma GrantRevokeQuiet(s: Store, a: nat, u: nat, app: nat, user: nat)
    requires (app, user) in s.grants
    ensures Quiet(s, RevokeGrant(s, a, u).0, app, user)
  {
    hide Quiet;
    QuietSame(s, app, user);
    if RevokeGrant(s, a, u).1.Ok? {
      var t := RevokeBindings(s, a, u);
      var v := t.RevokeAccessTokens(a, u, "");
      BindingsQuiet(s, a, u, app, user);
      RevokeAccessQuiet(t, a, u, "", app, user);
      QuietTransitive(s, t, v, app, user);
      LessGrantQuiet(v, a, u, app, user);
      QuietTransitive(s, v, RevokeGrant(s, a, u).0, app, user);
    }
  }

  lemma ExpireQuiet(s: Store, id: nat, app: nat, user: nat)
    ensures Quiet(s, ExpireSession(s, id), app, user)
  {
  }

  lemma StartQuiet(s: Store, a: App, fingerprint: string, taken: nat, now: int, app: nat, user: nat)
    ensures Quiet(s, StartSession(s, a, fingerprint, taken, now).0, app, user)
  {
    var t := StartSession(s, a, fingerprint, taken, now).0;
    QuietSame(s, app, user);
    hide Quiet;
    if t != s {
      SessionQuiet(s, s.nextId, t.sessions[s.nextId], app, user);
      OtherTablesQuiet(s, s.(sessions := t.sessions), t, app, user);
    }
  }

  /** The counter does not matter. */
  lemma OtherTablesQuiet(s: Store, t: Store, u: Store, app: nat, user: nat)
    requires Quiet(s, t, app, user) && u == t.(nextId := u.nextId)
    ensures Quiet(s, u, app, user)
  {
  }

  lemma AnswerQuiet(s: Store, a: App, id: nat, u: nat, approve: bool, now: int, app: nat, user: nat)
    requires TokenInv(s) && (app, user) in s.grants && (approve ==> (a.id, u) != (app, user))
    ensures Quiet(s, Authorize(s, a, id, u, approve, now).0, app, user)
  {
    hide TokenInv, Quiet, EnsureForDevice;
    QuietSame(s, app, user);
    var (r, reply) := Authorize(s, a, id, u, approve, now);
    if reply.Ok? {
      if !approve {
        SessionQuiet(s, id, r.sessions[id], app, user);
      } else if UsesManagementFlow(a) {
        var t := s.UpsertGrant(a.id, u, a.defaultScopes);
        GrantQuiet(s, a.id, u, a.defaultScopes, app, user);
        SessionQuiet(t, id, r.sessions[id], app, user);
        QuietTransitive(s, t, r, app, user);
      } else {
        var t := EnsureForDevice(s, a, u, s.sessions[id].fingerprint, false, now).0;
        EnsureQuiet(s, a, u, s.sessions[id].fingerprint, false, now, app, user);
        SessionQuiet(t, id, r.sessions[id], app, user);
        QuietTransitive(s, t, r, app, user);
      }
    }
  }

  /** The step that hands out a management token of (app, user). */
  ghost predicate HandsOut(s: Store, step: Step, app: nat, user: nat) {
    && step.Polls? && UsesManagementFlow(step.app) && step.row.status == Authorized
    && step.row.app == app == step.app.id && step.row.user == user && TrimSpace(step.row.fingerprint) != ""
    && Consumable(s, step.session)
  }

  lemma AddAccessQuiet(s: Store, d: Device, grant: Grant, now: int, app: nat, user: nat)
    ensures var t := AddAccessToken(s, d, grant, now);
            && Calm(s, t, app, user)
            && (!Of(d, app, user) ==> CalmAccess(s, t, app, user))
  {
  }

  lemma ReleaseQuiet(s: Store, id: nat, credential: Credential, app: nat, user: nat)
    requires id in s.sessions
    ensures Quiet(s, Release(s, id, credential), app, user)
  {
  }

  lemma CalmThenQuiet(s: Store, t: Store, u: Store, app: nat, user: nat)
    requires (app, user) in s.grants
    requires Calm(s, t, app, user) && Quiet(t, u, app, user)
    ensures Calm(s, u, app, user)
    ensures CalmAccess(s, t, app, user) ==> CalmAccess(s, u, app, user)
  {
    CalmTransitive(s, t, u, app, user);
    if CalmAccess(s, t, app, user) {
      AccessTransitive(s, t, u, app, user);
    }
    hide Calm, CalmAccess;
  }

  lemma ManagementPollCalm(s: Store, id: nat, row: Session, users: set<nat>, now: int, app: nat, user: nat)
    requires (row.app, row.user) in s.grants && (app, user) in s.grants
    ensures var t := PollManagement(s, id, row, users, now).0;
            && Calm(s, t, app, user)
            && ((row.app, row.user) != (app, user) || TrimSpace(row.fingerprint) == "" || !Consumable(s, id) ==>
                  CalmAccess(s, t, app, user))
  {
    var d, grant := SessionDevice(row), s.grants[(row.app, row.user)];
    var t := AddAccessToken(s, d, grant, now);
    QuietSame(s, app, user);
    AddAccessQuiet(s, d, grant, now, app, user);
    AddAccessTokenKeepsSessions(s, d, grant, now);
    hide Calm, CalmAccess, AddAccessToken, Release, TrimSpace;
    if Consumable(s, id) {
      ReleaseQuiet(t, id, ManagementToken(s.nextId), app, user);
      CalmThenQuiet(s, t, Release(t, id, ManagementToken(s.nextId)), app, user);
    }
  }

  lemma KeyPollQuiet(s: Store, id: nat, row: Session, users: set<nat>, app: nat, user: nat)
    ensures Quiet(s, PollKey(s, id, row, users).0, app, user)
  {
    QuietSame(s, app, user);
    hide Quiet, Release;
    if Consumable(s, id) {
      ReleaseQuiet(s, id, ApiKey(row.tokenId), app, user);
    }
  }

  lemma PollCalm(s: Store, step: Step, app: nat, user: nat)
    requires step.Polls? && (app, user) in s.grants
    ensures Calm(s, Next(s, step), app, user)
    ensures !HandsOut(s, step, app, user) ==> CalmAccess(s, Next(s, step), app, user)
  {
    var row := step.row;
    QuietSame(s, app, user);
    ExpireQuiet(s, step.session, app, user);
    KeyPollQuiet(s, step.session, row, step.users, app, user);
    if (row.app, row.user) in s.grants {
      ManagementPollCalm(s, step.session, row, step.users, step.now, app, user);
    }
    assert Next(s, step) == Poll(s, step.app, step.session, row, step.users, step.now).0;
    PollIsOneOf(s, step.app, step.session, row, step.users, step.now);
    hide Next, Poll, Calm, CalmAccess, ExpireSession, PollKey, PollManagement, TrimSpace, Consumable,
         UsesManagementFlow;
  }

  lemma PollIsOneOf(s: Store, a: App, id: nat, row: Session, users: set<nat>, now: int)
    ensures var t := Poll(s, a, id, row, users, now).0;
            || t == s || t == ExpireSession(s, id) || t == PollKey(s, id, row, users).0
            || (row.app == a.id && row.status == Authorized && UsesManagementFlow(a) && (row.app, row.user) in s.grants
                && t == PollManagement(s, id, row, users, now).0)
  {
    hide ExpireSession, PollKey, PollManagement, UsesManagementFlow;
  }

  // ----- codes -----

  lemma CodeQuiet(s: Store, t: Store, app: nat, user: nat)
    requires t == s.(codes := t.codes, nextId := t.nextId)
    requires forall c | c in t.codes && t.codes[c].pending && t.codes[c].app == app && t.codes[c].user == user ::
               c in s.codes && s.codes[c] == t.codes[c]
    ensures Quiet(s, t, app, user)
  {
  }

  lemma ConsentQuiet(s: Store, a: App, u: nat, redirect: string, requested: set<string>, challenged: bool, now: int,
                     app: nat, user: nat)
    requires (app, user) in s.grants && (a.id, u) != (app, user)
    ensures Quiet(s, Consent(s, a, u, redirect, requested, challenged, now).0, app, user)
  {
    var (r, reply) := Consent(s, a, u, redirect, requested, challenged, now);
    var scopes := ConsentScopes(a, requested);
    var t := s.UpsertGrant(a.id, u, scopes);
    QuietSame(s, app, user);
    GrantQuiet(s, a.id, u, scopes, app, user);
    hide Quiet, ConsentScopes, RedirectAllowed;
    if reply.Ok? {
      CodeQuiet(t, r, app, user);
      QuietTransitive(s, t, r, app, user);
    }
  }

  /** The exchange trades in a code of (app, user). */
  ghost predicate Redeems(s: Store, step: Step, app: nat, user: nat) {
    && step.Exchanges?
    && Exchange(s, step.app, step.code, step.redirect, step.proven, step.users, step.now).1.Ok?
    && s.codes[step.code].app == app && s.codes[step.code].user == user
  }

  lemma UsedQuiet(s: Store, id: nat, app: nat, user: nat)
    requires id in s.codes
    ensures Quiet(s, Used(s, id), app, user)
  {
    CodeQuiet(s, Used(s, id), app, user);
  }

  /** What a successful exchange consists of. */
  lemma ExchangeIs(s: Store, a: App, id: nat, redirect: string, proven: bool, users: set<nat>, now: int)
    ensures var (t, r) := Exchange(s, a, id, redirect, proven, users, now);
            if r.Ok? then
              && Open(s, id, now) && s.codes[id].app == a.id && s.codes[id].redirect == TrimSpace(redirect) != ""
              && (t, r) == IssueForOAuth(Used(s, id), a, s.codes[id].user, s.codes[id].scopes, "oauth-web")
            else t == s
  {
    hide IssueForOAuth, TrimSpace, Used;
  }

  lemma ExchangeQuiet(s: Store, step: Step, app: nat, user: nat)
    requires TokenInv(s) && (app, user) in s.grants && step.Exchanges? && !Redeems(s, step, app, user)
    ensures Quiet(s, Next(s, step), app, user)
  {
    var id := step.code;
    ExchangeIs(s, step.app, id, step.redirect, step.proven, step.users, step.now);
    QuietSame(s, app, user);
    hide TokenInv, Quiet, IssueForOAuth, Exchange, TrimSpace;
    if Exchange(s, step.app, id, step.redirect, step.proven, step.users, step.now).1.Ok? {
      var code, t := s.codes[id], Used(s, id);
      UsedKeepsTokenInv(s, id);
      UsedQuiet(s, id, app, user);
      OAuthQuiet(t, step.app, code.user, code.scopes, "oauth-web", app, user);
      QuietTransitive(s, t, Next(s, step), app, user);
    }
  }

  /** A redemption hands out a key, and neither approves anything else nor touches the management tokens. */
  lemma RedemptionCalm(s: Store, step: Step, app: nat, user: nat)
    requires Redeems(s, step, app, user)
    ensures CalmApprovals(s, Next(s, step), app, user) && CalmAccess(s, Next(s, step), app, user)
    ensures s.grants.Keys <= Next(s, step).grants.Keys
  {
    var id := step.code;
    ExchangeIs(s, step.app, id, step.redirect, step.proven, step.users, step.now);
    var code, t := s.codes[id], Used(s, id);
    OAuthElsewhere(t, step.app, code.user, code.scopes, "oauth-web");
    OAuthKeepsGrants(t, step.app, code.user, code.scopes, "oauth-web");
    hide IssueForOAuth, Exchange, TrimSpace, SameElsewhere, CalmApprovals, CalmAccess;
    UsedThenSame(s, id, Next(s, step), app, user);
  }

  lemma UsedThenSame(s: Store, id: nat, t: Store, app: nat, user: nat)
    requires id in s.codes && SameElsewhere(Used(s, id), t)
    ensures CalmApprovals(s, t, app, user) && CalmAccess(s, t, app, user)
  {
  }

  lemma OAuthKeepsGrants(s: Store, a: App, u: nat, scopes: set<string>, fingerprint: string)
    ensures s.grants.Keys <= IssueForOAuth(s, a, u, scopes, fingerprint).0.grants.Keys
  {
    hide Store.Bind;
    var t := s.UpsertGrant(a.id, u, if scopes == {} then a.defaultScopes else scopes);
    var d := Device(a.id, u, if fingerprint == "" then "oauth-web" else fingerprint);
    IssueElsewhere(t.DisableCurrent(d), d, t.grants[(a.id, u)].id, "");
  }

  // ----- clients -----

  /** Clients write keys only. */
  predicate OnlyKeys(s: Store, t: Store) {
    SameElsewhere(s, t) && t.grants == s.grants
  }

  lemma IssueOnlyKeys(s: Store, d: Device, grantId: nat, group: string)
    ensures OnlyKeys(s, s.Issue(d, grantId, group))
  {
    IssueElsewhere(s, d, grantId, group);
    hide Store.Issue, SameElsewhere;
  }

  lemma GroupOnlyKeys(s: Store, id: nat, group: string)
    requires id in s.tokens
    ensures OnlyKeys(s, s.SetTokenGroup(id, group))
  {
  }

  lemma OnlyKeysTransitive(s: Store, t: Store, u: Store)
    requires OnlyKeys(s, t) && OnlyKeys(t, u)
    ensures OnlyKeys(s, u)
  {
  }

  lemma ClientEnsureOnlyKeys(s: Store, c: Client, requested: string, users: set<nat>, usable: set<string>,
                             rotate: bool, now: int)
    ensures OnlyKeys(s, ClientEnsure(s, c, requested, users, usable, rotate, now).0)
  {
    assert OnlyKeys(s, s);
    var checked := EnsureGroup(s, c, TrimSpace(requested), rotate);
    hide EnsureGroup, Store.Issue, Token.Reusable, TrimSpace, OnlyKeys, Store.SetTokenGroup;
    if checked.Ok? {
      var d, group := c.device, checked.value;
      IssueOnlyKeys(s, d, c.grantId, group);
      if s.HasActive(d) && s.HasToken(s.bindings[d].tokenId, d.user) {
        var t := s.SetTokenGroup(s.bindings[d].tokenId, group);
        GroupOnlyKeys(s, s.bindings[d].tokenId, group);
        IssueOnlyKeys(t, d, c.grantId, group);
        OnlyKeysTransitive(s, t, t.Issue(d, c.grantId, group));
      }
    }
  }

  lemma ClientStepsOnlyKeys(s: Store, c: Client, tokenId: nat, users: set<nat>)
    ensures OnlyKeys(s, ClientRotate(s, c, tokenId, users).0) && OnlyKeys(s, ClientRevoke(s, c, tokenId).0)
  {
    hide Store.Issue, TrimSpace;
    if Owned(s, c.device, tokenId).Ok? {
      IssueElsewhere(s, c.device, c.grantId, TrimSpace(s.tokens[tokenId].group));
    }
  }

  predicate IsClient(step: Step) {
    step.ClientEnsures? || step.ClientRotates? || step.ClientRevokes?
  }

  lemma ClientOnlyKeys(s: Store, step: Step)
    requires IsClient(step)
    ensures OnlyKeys(s, Next(s, step))
  {
    hide OnlyKeys;
    match step {
      case ClientEnsures(c, group, users, usable, rotate, now) =>
        ClientEnsureOnlyKeys(s, c, group, users, usable, rotate, now);
      case ClientRotates(c, tokenId, users) => ClientStepsOnlyKeys(s, c, tokenId, users);
      case ClientRevokes(c, tokenId) => ClientStepsOnlyKeys(s, c, tokenId, {});
    }
  }

  lemma OnlyKeysCalm(s: Store, t: Store, app: nat, user: nat)
    requires OnlyKeys(s, t)
    ensures CalmGrant(s, t, app, user) && CalmApprovals(s, t, app, user) && CalmAccess(s, t, app, user)
  {
  }

  // ----- every step -----

  /** The user lets the app in: an answer or a consent, or a request of the user's own. */
  ghost predicate Approves(step: Step, app: nat, user: nat) {
    match step
    case Ensure(a, u, _, _, _) => a.id == app && u == user
    case Consents(a, u, _, _, _, _) => a.id == app && u == user
    case Answer(a, _, u, approve, _) => approve && a.id == app && u == user
    case _ => false
  }

  /** A client of (app, user) writes its keys. */
  ghost predicate SpeaksFor(step: Step, app: nat, user: nat) {
    IsClient(step) && Of(step.client.device, app, user)
  }

  /** Only an approval, a client, a redeemed code or a poll of (app, user) can bring anything of theirs back. */
  lemma NextCalm(s: Store, step: Step, app: nat, user: nat)
    requires TokenInv(s) && (app, user) in s.grants
    requires !Approves(step, app, user) && !SpeaksFor(step, app, user) && !Redeems(s, step, app, user)
    ensures Calm(s, Next(s, step), app, user)
    ensures !HandsOut(s, step, app, user) ==> CalmAccess(s, Next(s, step), app, user)
  {
    hide TokenInv, Calm, CalmAccess, HandsOut, Redeems;
    match step
    case Ensure(a, u, fingerprint, rotate, now) => EnsureQuiet(s, a, u, fingerprint, rotate, now, app, user);
    case Consents(a, u, redirect, requested, challenged, now) =>
      ConsentQuiet(s, a, u, redirect, requested, challenged, now, app, user);
    case Exchanges(_, _, _, _, _, _) => ExchangeQuiet(s, step, app, user);
    case ClientEnsures(c, group, users, usable, rotate, now) =>
      ClientEnsureQuiet(s, c, group, users, usable, rotate, now, app, user);
    case ClientRotates(c, tokenId, users) => ClientStepsQuiet(s, c, tokenId, users, app, user);
    case ClientRevokes(c, tokenId) => ClientStepsQuiet(s, c, tokenId, {}, app, user);
    case DeviceRevokes(d, revokeToken) => DeviceRevokeQuiet(s, d, revokeToken, app, user);
    case GrantRevokes(a, u) => GrantRevokeQuiet(s, a, u, app, user);
    case Start(a, fingerprint, taken, now) => StartQuiet(s, a, fingerprint, taken, now, app, user);
    case Look(a, id, u, now) =>
      QuietSame(s, app, user);
      ExpireQuiet(s, id, app, user);
    case Answer(a, id, u, approve, now) => AnswerQuiet(s, a, id, u, approve, now, app, user);
    case Polls(_, _, _, _, _) => PollCalm(s, step, app, user);
    case TokenWorsens(id, token) => WorseTokensQuiet(s, Next(s, step).tokens, app, user);
    case TokenDeleted(id) => WorseTokensQuiet(s, Next(s, step).tokens, app, user);
  }

  /** Without an approval no grant is authorised but by redeeming a code, no session or code becomes an approved one,
      and no management token is handed out but by a poll. */
  lemma NextCalmButKeys(s: Store, step: Step, app: nat, user: nat)
    requires TokenInv(s) && (app, user) in s.grants && !Approves(step, app, user)
    ensures (app, user) in Next(s, step).grants && CalmApprovals(s, Next(s, step), app, user)
    ensures !Redeems(s, step, app, user) ==> CalmGrant(s, Next(s, step), app, user)
    ensures !HandsOut(s, step, app, user) ==> CalmAccess(s, Next(s, step), app, user)
  {
    if Redeems(s, step, app, user) {
      RedemptionCalm(s, step, app, user);
    } else if SpeaksFor(step, app, user) {
      ClientOnlyKeys(s, step);
      OnlyKeysCalm(s, Next(s, step), app, user);
    } else {
      NextCalm(s, step, app, user);
    }
    hide Next, TokenInv, CalmKeys, CalmApprovals, CalmAccess, Redeems, HandsOut, OnlyKeys;
  }
}
