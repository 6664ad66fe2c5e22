/** Whole logins: what a device, a browser or a client has in its hands at the end. */
module ConnectedAppLogin {
  import opened ConnectedAppStore
  import opened ConnectedAppRuns
  import opened ConnectedAppSessions
  import opened ConnectedAppReleases
  import opened ConnectedAppDevices
  import opened ConnectedAppCalm
  import opened Text

  // ----- the device flow -----

  /** A start makes one pending session of ten minutes, unless five pairs of codes in a row are taken. */
  lemma StartOutcome(s: Store, app: App, fingerprint: string, taken: nat, now: int)
    ensures var (t, r) := StartSession(s, app, fingerprint, taken, now);
            && (r.Ok? <==> app.id > 0 && fingerprint != "" && taken < 5)
            && (r.Fail? ==> t == s)
            && (r.Ok? ==>
                  t == s.(sessions := s.sessions[r.value :=
                            Session(app.id, fingerprint, Pending, 0, 0, false, now + 600)], nextId := t.nextId))
            && (r.Ok? && RowsKnown(s) ==> r.value !in s.sessions && r.value > 0)
  {
  }

  /** A session that can be answered now. */
  ghost predicate Answerable(s: Store, app: App, id: nat, now: int) {
    && id in s.sessions && s.sessions[id].app == app.id
    && s.sessions[id].status == Pending && now < s.sessions[id].expiresAt
  }

  /** What an answer that is accepted makes of the session. */
  ghost predicate AnsweredBy(s: Store, t: Store, id: nat, user: nat, status: Status)
    requires id in s.sessions
  {
    && id in t.sessions && t.sessions == s.sessions[id := t.sessions[id]]
    && t.sessions[id].user == user && t.sessions[id].status == status
    && t.sessions[id] == s.sessions[id].(user := user, status := status, tokenId := t.sessions[id].tokenId,
                                         tokenCreated := t.sessions[id].tokenCreated)
  }

  /** A denial of an open session is always accepted, and changes nothing else. */
  lemma DenialOutcome(s: Store, app: App, id: nat, user: nat, now: int)
    ensures var (t, r) := Authorize(s, app, id, user, false, now);
            && (r.Ok? <==> Answerable(s, app, id, now))
            && (r.Fail? ==> t == s)
            && (r.Ok? ==> t == s.(sessions := s.sessions[id := s.sessions[id].(user := user, status := Denied)]))
  {
  }

  /** An approval of the management flow authorises the grant with the app's default scopes; it makes no token. */
  lemma ManagementApproval(s: Store, app: App, id: nat, user: nat, now: int)
    requires UsesManagementFlow(app)
    ensures var (t, r) := Authorize(s, app, id, user, true, now);
            && (r.Ok? <==> Answerable(s, app, id, now) && app.id > 0 && user > 0)
            && (r.Fail? ==> t == s)
            && (r.Ok? ==>
                  && AnsweredBy(s, t, id, user, Authorized)
                  && t.sessions[id].tokenId == 0 && !t.sessions[id].tokenCreated
                  && (app.id, user) in t.grants && t.grants[(app.id, user)].authorized
                  && t.grants[(app.id, user)].scopes == app.defaultScopes
                  && t.tokens == s.tokens && t.bindings == s.bindings && t.issued == s.issued)
  {
    hide UsesManagementFlow;
  }

  /** An approval of the key flow gives the session the token of its device, one that works. */
  lemma KeyApproval(s: Store, app: App, id: nat, user: nat, now: int)
    requires TokenInv(s) && !UsesManagementFlow(app)
    ensures var (t, r) := Authorize(s, app, id, user, true, now);
            && (r.Fail? ==> t == s)
            && (r.Ok? ==>
                  var d := Device(app.id, user, s.sessions[id].fingerprint);
                  && AnsweredBy(s, t, id, user, Authorized)
                  && (app.id, user) in t.grants && t.grants[(app.id, user)].authorized
                  && HasWorking(t, d, now) && t.sessions[id].tokenId == t.bindings[d].tokenId
                  && (t.sessions[id].tokenCreated <==> !HasWorking(s, d, now)))
            && (r.Ok? <==>
                  && Answerable(s, app, id, now) && app.enabled && app.id > 0 && user > 0
                  && (s.sessions[id].fingerprint != ""
                      || HasWorking(s, Device(app.id, user, s.sessions[id].fingerprint), now)))
  {
    KeyAnswerIs(s, app, id, user, now);
    if Answerable(s, app, id, now) {
      var fingerprint := s.sessions[id].fingerprint;
      var (t, r) := EnsureForDevice(s, app, user, fingerprint, false, now);
      EnsureEffect(s, app, user, fingerprint, false, now);
      EnsureElsewhere(s, app, user, fingerprint, false, now);
      hide TokenInv, EnsureForDevice, UsesManagementFlow, Authorize, HasWorking, MadeNew;
      if r.Ok? {
        hide AnsweredBy;
        KeyApproved(s, app, id, user, now, t, r.value);
      }
    } else {
      hide TokenInv, EnsureForDevice, UsesManagementFlow, Authorize, HasWorking;
    }
  }

  lemma KeyAnswerIs(s: Store, app: App, id: nat, user: nat, now: int)
    requires !UsesManagementFlow(app)
    ensures var (t, r) := Authorize(s, app, id, user, true, now);
            if !Answerable(s, app, id, now) then t == s && r.Fail?
            else match EnsureForDevice(s, app, user, s.sessions[id].fingerprint, false, now)
                 case (_, Fail(error)) => t == s && r == Fail(error)
                 case (u, Ok(issued)) =>
                   && r == Ok(Authorized)
                   && t == u.(sessions := u.sessions[id :=
                        s.sessions[id].(user := user, tokenId := issued.tokenId, tokenCreated := issued.created,
                                        status := Authorized)])
  {
    hide EnsureForDevice, UsesManagementFlow;
  }

  lemma KeyApproved(s: Store, app: App, id: nat, user: nat, now: int, u: Store, issued: Issued)
    requires id in s.sessions
    requires (u, Ok(issued)) == EnsureForDevice(s, app, user, s.sessions[id].fingerprint, false, now)
    requires u.sessions == s.sessions
    ensures var t := u.(sessions := u.sessions[id :=
                       s.sessions[id].(user := user, tokenId := issued.tokenId, tokenCreated := issued.created,
                                       status := Authorized)]);
            && AnsweredBy(s, t, id, user, Authorized)
            && (app.id, user) in t.grants && t.grants[(app.id, user)].authorized
            && (forall d :: HasWorking(t, d, now) <==> HasWorking(u, d, now))
  {
    EnsureGrants(s, app, user, s.sessions[id].fingerprint, false, now);
    hide EnsureForDevice;
  }

  lemma StartKeepsInv(s: Store, flows: Flows, app: App, fingerprint: string, taken: nat, now: int)
    requires Inv(s, flows) && UsesManagementFlow(app) == flows(app.id)
    ensures Inv(StartSession(s, app, fingerprint, taken, now).0, flows)
  {
    hide Inv, StartSession, UsesManagementFlow;
    var step := Start(app, fingerprint, taken, now);
    assert Next(s, step) == StartSession(s, app, fingerprint, taken, now).0;
    hide Next;
    NextKeepsInv(s, step, flows);
  }

  lemma ApprovalKeepsInv(s: Store, flows: Flows, app: App, id: nat, user: nat, now: int)
    requires Inv(s, flows) && UsesManagementFlow(app) == flows(app.id)
    ensures Inv(Authorize(s, app, id, user, true, now).0, flows)
  {
    hide Inv, Authorize, UsesManagementFlow;
    var step := Answer(app, id, user, true, now);
    assert Next(s, step) == Authorize(s, app, id, user, true, now).0;
    hide Next;
    NextKeepsInv(s, step, flows);
  }

  /** A device starts a session, the user approves it, and the device polls: it gets its credential if and only if the
      user exists and approved within ten minutes (and, in the management flow, its name is not blank). In the key flow
      that is the token of the device, and it works; in the management flow an active token of the device with the
      app's default scopes, under the grant as it is authorised now. */
  lemma DeviceLogin(s: Store, flows: Flows, app: App, fingerprint: string, taken: nat, started: int, user: nat,
                    answered: int, users: set<nat>, polled: int)
    requires Inv(s, flows) && UsesManagementFlow(app) == flows(app.id)
    requires app.enabled && app.id > 0 && user > 0 && fingerprint != "" && taken < 5
    ensures var (t, r) := StartSession(s, app, fingerprint, taken, started);
            r.Ok?
            && var u := Authorize(t, app, r.value, user, true, answered).0;
               r.value in u.sessions
               && var (v, reply) := Poll(u, app, r.value, u.sessions[r.value], users, polled);
                  var d := Device(app.id, user, fingerprint);
                  && (reply.Released? <==>
                        && answered < started + 600 && user in users
                        && (flows(app.id) ==> TrimSpace(fingerprint) != ""))
                  && (reply.Released? && !flows(app.id) ==>
                        HasWorking(v, d, answered) && reply == Released(ApiKey(v.bindings[d].tokenId)))
                  && (reply.Released? && flows(app.id) ==> HoldsManagement(v, d, reply.credential, app.defaultScopes))
                  && (answered >= started + 600 ==>
                        reply == Waiting(if polled < started + 600 then Pending else Expired))
  {
    var (t, r) := StartSession(s, app, fingerprint, taken, started);
    var id := r.value;
    var (u, a) := Authorize(t, app, id, user, true, answered);
    StartOutcome(s, app, fingerprint, taken, started);
    StartKeepsInv(s, flows, app, fingerprint, taken, started);
    ApprovalKeepsInv(t, flows, app, id, user, answered);
    assert TokenInv(t) && t.sessions[id] == Session(app.id, fingerprint, Pending, 0, 0, false, started + 600);
    hide Inv, StartSession, TrimSpace, TokenInv;
    if flows(app.id) {
      ManagementApproval(t, app, id, user, answered);
    } else {
      KeyApproval(t, app, id, user, answered);
    }
    hide Authorize, UsesManagementFlow;
    PollReleases(u, flows, app, id, users, polled);
    PollAnswers(u, flows, app, id, users, polled);
    if a.Ok? {
      ApprovedIsPolled(t, u, flows, app, id, user, users, answered, polled);
    }
  }

  /** A management token that is active, names the device and these scopes, and belongs to the authorised grant. */
  ghost predicate HoldsManagement(s: Store, d: Device, credential: Credential, scopes: set<string>) {
    && credential.ManagementToken? && credential.accessTokenId in s.accessTokens
    && var token := s.accessTokens[credential.accessTokenId];
       && token.active && token.device == d && token.scopes == scopes
       && (d.app, d.user) in s.grants && s.grants[(d.app, d.user)].authorized
       && s.grants[(d.app, d.user)].id == token.grantId
  }

  lemma ApprovedIsPolled(t: Store, u: Store, flows: Flows, app: App, id: nat, user: nat, users: set<nat>, answered: int,
                         polled: int)
    requires Inv(u, flows) && UsesManagementFlow(app) == flows(app.id) && id in t.sessions
    requires AnsweredBy(t, u, id, user, Authorized) && u.sessions[id].app == app.id
    requires (app.id, user) in u.grants && u.grants[(app.id, user)].authorized
    requires flows(app.id) ==> u.grants[(app.id, user)].scopes == app.defaultScopes
    requires var d := Device(app.id, user, u.sessions[id].fingerprint);
             !flows(app.id) ==> HasWorking(u, d, answered) && u.sessions[id].tokenId == u.bindings[d].tokenId
    ensures var (v, reply) := Poll(u, app, id, u.sessions[id], users, polled);
            var d := Device(app.id, user, u.sessions[id].fingerprint);
            && (reply.Released? <==> user in users && (flows(app.id) ==> TrimSpace(d.fingerprint) != ""))
            && (reply.Released? && !flows(app.id) ==>
                  HasWorking(v, d, answered) && reply == Released(ApiKey(v.bindings[d].tokenId)))
            && (reply.Released? && flows(app.id) ==> HoldsManagement(v, d, reply.credential, app.defaultScopes))
  {
    var (v, reply) := Poll(u, app, id, u.sessions[id], users, polled);
    PollReleases(u, flows, app, id, users, polled);
    PollKeepsDevices(u, app, id, u.sessions[id], users, polled);
    if flows(app.id) && reply.Released? {
      ReleasedManagementToken(u, flows, app, id, users, polled);
    }
    hide Poll, Inv, TrimSpace, UsesManagementFlow;
  }

  ghost predicate SameDevices(s: Store, t: Store) {
    t.bindings == s.bindings && t.tokens == s.tokens && t.issued == s.issued && t.grants == s.grants
  }

  lemma PollKeepsDevices(s: Store, app: App, id: nat, row: Session, users: set<nat>, now: int)
    ensures SameDevices(s, Poll(s, app, id, row, users, now).0)
  {
    PollIsOneOf(s, app, id, row, users, now);
    assert SameDevices(s, s) && SameDevices(s, ExpireSession(s, id)) && SameDevices(s, PollKey(s, id, row, users).0);
    if (row.app, row.user) in s.grants {
      ManagementPollKeepsDevices(s, id, row, users, now);
    }
    hide Poll, ExpireSession, PollKey, PollManagement, UsesManagementFlow, SameDevices;
  }

  lemma ManagementPollKeepsDevices(s: Store, id: nat, row: Session, users: set<nat>, now: int)
    requires (row.app, row.user) in s.grants
    ensures SameDevices(s, PollManagement(s, id, row, users, now).0)
  {
    hide TrimSpace;
  }

  // ----- the browser flow -----

  /** The rows of a key issue: the device's old token is disabled, the new one has no group of its own. */
  lemma OAuthOutcome(s: Store, app: App, user: nat, scopes: set<string>)
    requires TokenInv(s)
    ensures var (t, r) := IssueForOAuth(s, app, user, scopes, "oauth-web");
            var d := Device(app.id, user, "oauth-web");
            && (r.Ok? <==> app.id > 0 && user > 0)
            && (r.Ok? ==>
                  && (app.id, user) in t.grants && t.grants[(app.id, user)].authorized
                  && t.grants[(app.id, user)].scopes == (if scopes == {} then app.defaultScopes else scopes)
                  && Replaced(s.(nextId := s.nextId + 1), t, d, t.grants[(app.id, user)].id, "")
                  && r.value.tokenId == s.nextId + 1 && (r.value.rotated <==> s.HasActive(d)))
  {
    var granted := if scopes == {} then app.defaultScopes else scopes;
    var u, d := s.UpsertGrant(app.id, user, granted), Device(app.id, user, "oauth-web");
    var grantId := u.grants[(app.id, user)].id;
    GrantRow(s, app.id, user, granted);
    BindReplaces(u, d, grantId, "");
    IssueElsewhere(u.DisableCurrent(d), d, grantId, "");
    DisabledRows(u, d);
    OAuthIs(s, app, user, scopes);
    hide IssueForOAuth, TokenInv, Store.Bind, Replaced, Store.UpsertGrant, Store.DisableCurrent;
    SameTables(u, s.(nextId := s.nextId + 1), u.DisableCurrent(d).Bind(d, grantId, ""), d, grantId);
  }

  lemma DisabledRows(s: Store, d: Device)
    ensures var t := s.DisableCurrent(d); t.nextId == s.nextId && t.grants == s.grants
  {
  }

  lemma OAuthIs(s: Store, app: App, user: nat, scopes: set<string>)
    requires RowsKnown(s)
    ensures var granted := if scopes == {} then app.defaultScopes else scopes;
            var u, d := s.UpsertGrant(app.id, user, granted), Device(app.id, user, "oauth-web");
            var (t, r) := IssueForOAuth(s, app, user, scopes, "oauth-web");
            if app.id == 0 || user == 0 then r.Fail?
            else && r == Ok(Issued(u.nextId, true, u.HasActive(d)))
                 && t == u.DisableCurrent(d).Bind(d, u.grants[(app.id, user)].id, "")
  {
    hide Store.Bind, Store.DisableCurrent;
  }

  lemma GrantRow(s: Store, app: nat, user: nat, scopes: set<string>)
    requires TokenInv(s)
    ensures var u := s.UpsertGrant(app, user, scopes);
            && TokenInv(u) && u.tokens == s.tokens && u.bindings == s.bindings && u.issued == s.issued
            && u.nextId == s.nextId + 1 && u.grants[(app, user)].id > 0
            && u.grants[(app, user)].authorized && u.grants[(app, user)].scopes == scopes
  {
    UpsertGrantKeepsTokenInv(s, app, user, scopes);
  }

  lemma BindReplaces(s: Store, d: Device, grantId: nat, group: string)
    requires TokenInv(s)
    ensures Replaced(s, s.DisableCurrent(d).Bind(d, grantId, group), d, grantId, group)
  {
    DisableCurrentKeepsTokenInv(s, d);
    BindEffect(s.DisableCurrent(d), d, grantId, group);
    assert Rewrites(s, s.DisableCurrent(d).Bind(d, grantId, group), d, grantId, group);
    hide BindingIdsDistinct, OnlyCurrentEnabled, NoneEnabled, Store.Bind, Rewrites, Replaced, RowsKnown,
         IssuedAttributed, BindingsAttributed;
    RewriteReplaces(s, s.DisableCurrent(d).Bind(d, grantId, group), d, grantId, group);
  }

  lemma SameTables(s: Store, t: Store, u: Store, d: Device, grantId: nat)
    requires t.tokens == s.tokens && t.bindings == s.bindings && t.issued == s.issued && t.nextId == s.nextId
    requires Replaced(s, u, d, grantId, "")
    ensures Replaced(t, u, d, grantId, "")
  {
  }

  /** The scopes of a consent: those asked for that the app may have, all that it may have if it asked for none, and
      its defaults if that leaves nothing. Asking for an identity is not asking for a scope. */
  lemma ConsentScopesAre(app: App, requested: set<string>)
    ensures var granted := ConsentScopes(app, requested);
            var asked := requested - {"openid", "profile", "email"};
            if asked == {} && app.scopes != {} then granted == app.scopes
            else if exists x :: x in asked && x in app.scopes then granted == asked * app.scopes
            else granted == app.defaultScopes
  {
    var asked := requested - {"openid", "profile", "email"};
    if x :| x in asked && x in app.scopes {
      assert x in asked * app.scopes;
    } else {
      assert asked * app.scopes == {};
    }
  }

  /** A consent of an app that may use codes, for one of its addresses, authorises the grant and makes one code of ten
      minutes. */
  lemma ConsentOutcome(s: Store, app: App, user: nat, redirect: string, requested: set<string>, challenged: bool,
                       now: int)
    requires TokenInv(s)
    ensures var (t, r) := Consent(s, app, user, redirect, requested, challenged, now);
            && (r.Ok? <==>
                  && user > 0 && app.id > 0 && app.enabled && app.codeFlow && challenged
                  && TrimSpace(redirect) != "" && TrimSpace(redirect) in app.redirects)
            && (r.Fail? ==> t == s)
            && (r.Ok? ==>
                  var scopes := ConsentScopes(app, requested);
                  && (app.id, user) in t.grants && t.grants[(app.id, user)].authorized
                  && t.grants[(app.id, user)].scopes == scopes
                  && t.grants == s.grants[(app.id, user) := t.grants[(app.id, user)]]
                  && r.value !in s.codes && t.codes == s.codes[r.value := t.codes[r.value]]
                  && t.codes[r.value]
                  == Code(app.id, user, t.grants[(app.id, user)].id, redirect, scopes, true, now + 600)
                  && t == s.(grants := t.grants, codes := t.codes, nextId := t.nextId))
  {
    hide IssuedAttributed, BindingIdsDistinct, BindingsAttributed, OnlyCurrentEnabled, ConsentScopes, TrimSpace;
  }

  /** The user consents, and the app exchanges the code: it gets a key that works if and only if it does so within ten
      minutes, with its secret and verifier, for the address that the consent was sent with, and the user exists. The
      grant then has the scopes of the consent, or the app's defaults if it had none. */
  lemma BrowserLogin(s: Store, app: App, user: nat, redirect: string, requested: set<string>, consented: int,
                     later: App, address: string, proven: bool, users: set<nat>, exchanged: int)
    requires TokenInv(s) && user > 0 && app.id > 0 && app.enabled && app.codeFlow
    requires TrimSpace(redirect) != "" && TrimSpace(redirect) in app.redirects
    ensures var (t, r) := Consent(s, app, user, redirect, requested, true, consented);
            r.Ok?
            && var (u, key) := Exchange(t, later, r.value, address, proven, users, exchanged);
               var d := Device(app.id, user, "oauth-web");
               && (key.Ok? <==>
                     && later.enabled && later.codeFlow && later.id == app.id && TrimSpace(address) in later.redirects
                     && TrimSpace(address) == redirect && proven && user in users && exchanged < consented + 600)
               && (key.Fail? ==> u == t)
               && (key.Ok? ==>
                     && (forall now :: HasWorking(u, d, now)) && key.value.tokenId == u.bindings[d].tokenId
                     && u.grants[(app.id, user)].authorized
                     && u.grants[(app.id, user)].scopes
                        == if ConsentScopes(app, requested) != {} then ConsentScopes(app, requested)
                           else later.defaultScopes)
  {
    var (t, r) := Consent(s, app, user, redirect, requested, true, consented);
    ConsentOutcome(s, app, user, redirect, requested, true, consented);
    ConsentKeepsTokenInv(s, app, user, redirect, requested, true, consented);
    var id := r.value;
    UsedKeepsTokenInv(t, id);
    OAuthOutcome(Used(t, id), later, user, t.codes[id].scopes);
    hide TokenInv, Consent, ConsentScopes, IssueForOAuth, TrimSpace, Replaced;
    var (u, key) := Exchange(t, later, id, address, proven, users, exchanged);
    ExchangeIs(t, later, id, address, proven, users, exchanged);
    if key.Ok? {
      var d := Device(app.id, user, "oauth-web");
      var before := Used(t, id).(nextId := Used(t, id).nextId + 1);
      forall now ensures HasWorking(u, d, now) && u.bindings[d].tokenId == before.nextId {
        ReplacedWorks(before, u, d, u.grants[(app.id, user)].id, "", now);
      }
      hide HasWorking;
    }
  }

  // ----- looking and revoking -----

  /** A look tells the status to the user who answered the session, and to any user while nobody has; it expires an
      overdue session in any case. */
  lemma LookOutcome(s: Store, app: App, id: nat, user: nat, now: int)
    ensures var (t, r) := SessionStatus(s, app, id, user, now);
            var known := id in s.sessions && s.sessions[id].app == app.id;
            var overdue := known && s.sessions[id].status == Pending && s.sessions[id].expiresAt <= now;
            && (r.Ok? <==> known && (s.sessions[id].user == 0 || s.sessions[id].user == user))
            && (r.Ok? ==> r.value == if overdue then Expired else s.sessions[id].status)
            && t == if overdue then s.(sessions := s.sessions[id := s.sessions[id].(status := Expired)]) else s
  {
  }

  /** A user can revoke exactly what is authorised. */
  lemma RevocationAccepted(s: Store, app: nat, user: nat)
    ensures var (t, r) := RevokeGrant(s, app, user);
            && (r.Ok? <==> app > 0 && user > 0 && (app, user) in s.grants && s.grants[(app, user)].authorized)
            && (r.Fail? ==> t == s)
            && (r.Ok? ==> t.grants == s.grants[(app, user) := s.grants[(app, user)].(authorized := false)])
  {
  }

  // ----- refusals -----

  /** Apps of the management flow may create tokens, but not manage them. */
  lemma ManagementFlowIs(app: App)
    ensures UsesManagementFlow(app) <==> "token.create" in app.scopes && "token.manage" !in app.scopes
  {
  }

  /** Why an answer is refused: the session is not there, of another app, not pending any more or overdue, or the
      ensure of the key flow is refused. */
  lemma AnswerRefusals(s: Store, app: App, id: nat, user: nat, approve: bool, now: int)
    ensures var r := Authorize(s, app, id, user, approve, now).1;
            r.Fail? ==>
              r.error == if id !in s.sessions then NotFound
                         else if s.sessions[id].app != app.id then WrongApp
                         else if !Answerable(s, app, id, now)
                         then NotPending(if s.sessions[id].status == Pending then Expired else s.sessions[id].status)
                         else if !UsesManagementFlow(app) && !app.enabled then AppDisabled else Invalid
  {
    if id in s.sessions {
      EnsureRefusals(s, app, user, s.sessions[id].fingerprint, false, now);
    }
    hide EnsureForDevice, UsesManagementFlow;
  }

  /** Why a start, a look or a revocation is refused. */
  lemma OtherRefusals(s: Store, app: App, fingerprint: string, taken: nat, id: nat, user: nat, now: int)
    ensures var r := StartSession(s, app, fingerprint, taken, now).1;
            r.Fail? ==> r.error == if app.id == 0 || fingerprint == "" then Invalid else CodeTaken
    ensures var r := SessionStatus(s, app, id, user, now).1;
            r.Fail? ==> r.error == if id !in s.sessions then NotFound
                                   else if s.sessions[id].app != app.id then WrongApp else AnsweredByOther
    ensures var r := RevokeGrant(s, app.id, user).1;
            r.Fail? ==> r.error == if app.id == 0 || user == 0 then Invalid
                                   else if (app.id, user) !in s.grants then NotFound else NotAuthorized
  {
  }

  /** Why a consent or an exchange is refused. */
  lemma CodeRefusals(s: Store, app: App, user: nat, redirect: string, requested: set<string>, challenged: bool, id: nat,
                     proven: bool, users: set<nat>, now: int)
    ensures var r := Consent(s, app, user, redirect, requested, challenged, now).1;
            r.Fail? ==>
              r.error == if user > 0 && !app.enabled then AppDisabled
                         else if user > 0 && !app.codeFlow then WrongFlow
                         else if user > 0 && !RedirectAllowed(app, redirect) then WrongRedirect else Invalid
    ensures var r := Exchange(s, app, id, redirect, proven, users, now).1;
            r.Fail? ==>
              r.error == if !app.enabled then AppDisabled else if !app.codeFlow then WrongFlow
                         else if !RedirectAllowed(app, redirect) then WrongRedirect
                         else if !Open(s, id, now) then NotFound
                         else if s.codes[id].app != app.id || s.codes[id].redirect != TrimSpace(redirect) || !proven
                         then InvalidGrant
                         else if app.id > 0 && s.codes[id].user > 0 && BindsOAuth(s, id, app) then NotFound else Invalid
  {
    hide TrimSpace, ConsentScopes, RedirectAllowed, Store.Bind, Store.DisableCurrent, Used;
  }

  /** The key issue of this code would succeed. */
  ghost predicate BindsOAuth(s: Store, id: nat, app: App)
    requires id in s.codes
  {
    IssueForOAuth(Used(s, id), app, s.codes[id].user, s.codes[id].scopes, "oauth-web").1.Ok?
  }
}
