/** Device sessions, credentials and grant revocation over whole runs. */
module ConnectedAppSessions {
  import opened ConnectedAppStore
  import opened ConnectedAppRuns
  import opened Text

  // ----- steps that leave the sessions alone -----

  lemma BindFrames(s: Store, d: Device, grantId: nat, group: string)
    requires TokenInv(s)
    ensures SessionFrame(s, s.Bind(d, grantId, group))
  {
    BindEffect(s, d, grantId, group);
  }

  lemma IssueFrames(s: Store, d: Device, grantId: nat, group: string)
    requires TokenInv(s)
    ensures SessionFrame(s, s.Issue(d, grantId, group))
  {
    RetireKeepsTokenInv(s, d);
    BindFrames(s.RetireCurrent(d), d, grantId, group);
  }

  lemma FrameTransitive(s: Store, t: Store, u: Store)
    requires SessionFrame(s, t) && SessionFrame(t, u)
    ensures SessionFrame(s, u)
  {
  }

  lemma GrantFrames(s: Store, app: nat, user: nat, scopes: set<string>)
    ensures SessionFrame(s, s.UpsertGrant(app, user, scopes))
  {
  }

  lemma TokenFrames(s: Store, tokens: map<nat, Token>)
    ensures SessionFrame(s, s.(tokens := tokens))
  {
  }

  lemma WithdrawFrames(s: Store, d: Device)
    requires d in s.bindings
    ensures SessionFrame(s, s.Withdraw(d))
  {
  }

  lemma RevokeAccessFrames(s: Store, app: nat, user: nat, fingerprint: string)
    ensures SessionFrame(s, s.RevokeAccessTokens(app, user, fingerprint))
  {
  }

  lemma EnsureFrames(s: Store, app: App, user: nat, fingerprint: string, rotate: bool, now: int)
    requires TokenInv(s)
    ensures SessionFrame(s, EnsureForDevice(s, app, user, fingerprint, rotate, now).0)
  {
    hide TokenInv, SessionFrame;
    var t := s.UpsertGrant(app.id, user, app.defaultScopes);
    UpsertGrantKeepsTokenInv(s, app.id, user, app.defaultScopes);
    GrantFrames(s, app.id, user, app.defaultScopes);
    TokenFrames(s, s.tokens);
    var d, group := Device(app.id, user, fingerprint), TrimSpace(app.tokenGroup);
    var grantId := t.grants[(app.id, user)].id;
    IssueFrames(t, d, grantId, group);
    FrameTransitive(s, t, t.Issue(d, grantId, group));
    if t.HasActive(d) && t.HasToken(t.bindings[d].tokenId, user) {
      TokenFrames(t, t.SetTokenGroup(t.bindings[d].tokenId, group).tokens);
      FrameTransitive(s, t, t.SetTokenGroup(t.bindings[d].tokenId, group));
    }
  }

  lemma OAuthFrames(s: Store, app: App, user: nat, scopes: set<string>, fingerprint: string)
    requires TokenInv(s)
    ensures SessionFrame(s, IssueForOAuth(s, app, user, scopes, fingerprint).0)
  {
    hide TokenInv, SessionFrame;
    var granted := if scopes == {} then app.defaultScopes else scopes;
    var t := s.UpsertGrant(app.id, user, granted);
    UpsertGrantKeepsTokenInv(s, app.id, user, granted);
    var d := Device(app.id, user, if fingerprint == "" then "oauth-web" else fingerprint);
    DisableThenBindFrames(t, d, t.grants[(app.id, user)].id);
    GrantFrames(s, app.id, user, granted);
    TokenFrames(s, s.tokens);
    FrameTransitive(s, t, t.DisableCurrent(d).Bind(d, t.grants[(app.id, user)].id, ""));
    hide Store.Bind, Store.DisableCurrent;
  }

  lemma DisableThenBindFrames(s: Store, d: Device, grantId: nat)
    requires TokenInv(s)
    ensures SessionFrame(s, s.DisableCurrent(d).Bind(d, grantId, ""))
  {
    var disabled := s.DisableCurrent(d);
    DisableCurrentKeepsTokenInv(s, d);
    hide TokenInv, SessionFrame, Store.Bind;
    TokenFrames(s, disabled.tokens);
    BindFrames(disabled, d, grantId, "");
    FrameTransitive(s, disabled, disabled.Bind(d, grantId, ""));
  }

  lemma ConsentFrames(s: Store, app: App, user: nat, redirect: string, requested: set<string>, challenged: bool,
                      now: int)
    ensures SessionFrame(s, Consent(s, app, user, redirect, requested, challenged, now).0)
  {
    var r := Consent(s, app, user, redirect, requested, challenged, now);
    var t := s.UpsertGrant(app.id, user, ConsentScopes(app, requested));
    TokenFrames(s, s.tokens);
    GrantFrames(s, app.id, user, ConsentScopes(app, requested));
    if r.1.Ok? {
      CodeFrames(t, r.0);
    }
    hide ConsentScopes, RedirectAllowed, SessionFrame, Store.UpsertGrant;
    if r.1.Ok? {
      FrameTransitive(s, t, r.0);
    }
  }

  lemma CodeFrames(s: Store, t: Store)
    requires t == s.(codes := t.codes, nextId := t.nextId)
    ensures SessionFrame(s, t)
  {
  }

  lemma ExchangeFrames(s: Store, app: App, id: nat, redirect: string, proven: bool, users: set<nat>, now: int)
    requires TokenInv(s)
    ensures SessionFrame(s, Exchange(s, app, id, redirect, proven, users, now).0)
  {
    hide TokenInv, SessionFrame, RedirectAllowed, IssueForOAuth, TrimSpace;
    TokenFrames(s, s.tokens);
    if Open(s, id, now) {
      var code := s.codes[id];
      UsedKeepsTokenInv(s, id);
      CodeFrames(s, Used(s, id));
      OAuthFrames(Used(s, id), app, code.user, code.scopes, "oauth-web");
      FrameTransitive(s, Used(s, id), IssueForOAuth(Used(s, id), app, code.user, code.scopes, "oauth-web").0);
    }
  }

  lemma ClientEnsureFrames(s: Store, c: Client, requested: string, users: set<nat>, usable: set<string>, rotate: bool,
                           now: int)
    requires TokenInv(s)
    ensures SessionFrame(s, ClientEnsure(s, c, requested, users, usable, rotate, now).0)
  {
    hide TokenInv, EnsureGroup, SessionFrame;
    TokenFrames(s, s.tokens);
    var checked := EnsureGroup(s, c, TrimSpace(requested), rotate);
    if checked.Ok? {
      var d, group := c.device, checked.value;
      IssueFrames(s, d, c.grantId, group);
      if s.HasActive(d) && s.HasToken(s.bindings[d].tokenId, d.user) {
        var t := s.SetTokenGroup(s.bindings[d].tokenId, group);
        GroupKeepsTokenInv(s, s.bindings[d].tokenId, group);
        TokenFrames(s, t.tokens);
        IssueFrames(t, d, c.grantId, group);
        FrameTransitive(s, t, t.Issue(d, c.grantId, group));
      }
    }
  }

  lemma ClientStepsFrame(s: Store, c: Client, tokenId: nat, users: set<nat>)
    requires TokenInv(s)
    ensures SessionFrame(s, ClientRotate(s, c, tokenId, users).0)
    ensures SessionFrame(s, ClientRevoke(s, c, tokenId).0)
  {
    hide TokenInv, SessionFrame;
    TokenFrames(s, s.tokens);
    if Owned(s, c.device, tokenId).Ok? {
      WithdrawFrames(s, c.device);
      IssueFrames(s, c.device, c.grantId, TrimSpace(s.tokens[tokenId].group));
    }
  }

  lemma DeviceRevokeFrames(s: Store, d: Device, revokeToken: bool)
    ensures SessionFrame(s, DeviceRevoke(s, d, revokeToken))
  {
    hide SessionFrame;
    var t := s.RevokeAccessTokens(d.app, d.user, d.fingerprint);
    RevokeAccessFrames(s, d.app, d.user, d.fingerprint);
    if revokeToken && t.HasActive(d) {
      WithdrawFrames(t, d);
      FrameTransitive(s, t, t.Withdraw(d));
    }
  }

  lemma GrantRevokeFrames(s: Store, app: nat, user: nat)
    ensures SessionFrame(s, RevokeGrant(s, app, user).0)
  {
    if (app, user) in s.grants {
      var t := RevokeBindings(s, app, user);
      RevokeAccessFrames(t, app, user, "");
    }
  }

  /** Steps other than those of the device sessions. */
  predicate LeavesSessions(step: Step) {
    !step.Start? && !step.Look? && !step.Answer? && !step.Polls?
  }

  lemma NextFrames(s: Store, step: Step)
    requires TokenInv(s) && LeavesSessions(step)
    ensures SessionFrame(s, Next(s, step))
  {
    hide TokenInv;
    match step
    case Ensure(app, user, fingerprint, rotate, now) => EnsureFrames(s, app, user, fingerprint, rotate, now);
    case Consents(app, user, redirect, requested, challenged, now) =>
      ConsentFrames(s, app, user, redirect, requested, challenged, now);
    case Exchanges(app, id, redirect, proven, users, now) =>
      ExchangeFrames(s, app, id, redirect, proven, users, now);
    case ClientEnsures(c, group, users, usable, rotate, now) =>
      ClientEnsureFrames(s, c, group, users, usable, rotate, now);
    case ClientRotates(c, tokenId, users) => ClientStepsFrame(s, c, tokenId, users);
    case ClientRevokes(c, tokenId) => ClientStepsFrame(s, c, tokenId, {});
    case DeviceRevokes(d, revokeToken) => DeviceRevokeFrames(s, d, revokeToken);
    case GrantRevokes(app, user) => GrantRevokeFrames(s, app, user);
    case TokenWorsens(id, token) =>
    case TokenDeleted(id) =>
  }

  // ----- steps of the sessions -----

  /** Replacing one session that has released nothing by a sound one. */
  lemma UpdateKeepsSessionInv(s: Store, t: Store, flows: Flows, id: nat, session: Session)
    requires SessionInv(s, flows) && t == s.(sessions := s.sessions[id := session])
    requires id in s.sessions ==> s.sessions[id].status != Consumed
    requires SessionSound(s, flows, session)
    ensures SessionInv(t, flows)
  {
    forall i | i in t.sessions ensures SessionSound(t, flows, t.sessions[i]) {
      assert i != id ==> SessionSound(s, flows, s.sessions[i]);
    }
  }

  lemma StartKeepsSessionInv(s: Store, app: App, fingerprint: string, taken: nat, now: int, flows: Flows)
    requires Inv(s, flows)
    ensures SessionInv(StartSession(s, app, fingerprint, taken, now).0, flows)
  {
    if StartSession(s, app, fingerprint, taken, now).1.Ok? {
      var t := s.(nextId := s.nextId + 1);
      FrameKeepsSessionInv(s, t, flows);
      UpdateKeepsSessionInv(t, StartSession(s, app, fingerprint, taken, now).0, flows, s.nextId,
                            Session(app.id, fingerprint, Pending, 0, 0, false, now + DEVICE_CODE_TTL));
    }
  }

  lemma ExpireKeepsSessionInv(s: Store, id: nat, flows: Flows)
    requires SessionInv(s, flows)
    ensures SessionInv(ExpireSession(s, id), flows)
  {
    if id in s.sessions && s.sessions[id].status == Pending {
      UpdateKeepsSessionInv(s, ExpireSession(s, id), flows, id, s.sessions[id].(status := Expired));
    }
  }

  /** What an ensure hands out is a token issued for this very app, user and device. */
  lemma EnsureHandsOutOwnToken(s: Store, app: App, user: nat, fingerprint: string, rotate: bool, now: int)
    requires TokenInv(s)
    ensures var (t, r) := EnsureForDevice(s, app, user, fingerprint, rotate, now);
            r.Ok? ==> && user > 0 && (app.id, user) in t.grants
                      && r.value.tokenId in t.issued && t.issued[r.value.tokenId] == Device(app.id, user, fingerprint)
  {
    var t := s.UpsertGrant(app.id, user, app.defaultScopes);
    UpsertGrantKeepsTokenInv(s, app.id, user, app.defaultScopes);
    IssueHandsOutNext(t, Device(app.id, user, fingerprint), t.grants[(app.id, user)].id, TrimSpace(app.tokenGroup));
    hide RowsKnown, IssuedAttributed, BindingIdsDistinct, OnlyCurrentEnabled, Store.Issue;
  }

  lemma IssueHandsOutNext(s: Store, d: Device, grantId: nat, group: string)
    requires TokenInv(s)
    ensures var t := s.Issue(d, grantId, group);
            && t.issued == s.issued[s.nextId := d] && t.grants == s.grants
            && t.HasActive(d) && t.bindings[d].tokenId == s.nextId
            && s.nextId in t.tokens && t.tokens[s.nextId].group == group
  {
    RetireKeepsTokenInv(s, d);
    BindEffect(s.RetireCurrent(d), d, grantId, group);
  }

  lemma AnswerKeepsSessionInv(s: Store, app: App, id: nat, user: nat, approve: bool, now: int, flows: Flows)
    requires Inv(s, flows) && UsesManagementFlow(app) == flows(app.id)
    ensures SessionInv(Authorize(s, app, id, user, approve, now).0, flows)
  {
    var (r, reply) := Authorize(s, app, id, user, approve, now);
    if reply.Ok? {
      var session := r.sessions[id];
      if !approve {
        UpdateKeepsSessionInv(s, r, flows, id, session);
      } else if UsesManagementFlow(app) {
        var t := s.UpsertGrant(app.id, user, app.defaultScopes);
        FrameKeepsSessionInv(s, t, flows);
        UpdateKeepsSessionInv(t, r, flows, id, session);
      } else {
        KeyAnswerKeepsSessionInv(s, app, id, user, now, flows);
      }
    }
  }

  lemma KeyAnswerKeepsSessionInv(s: Store, app: App, id: nat, user: nat, now: int, flows: Flows)
    requires Inv(s, flows) && UsesManagementFlow(app) == flows(app.id) && !flows(app.id)
    requires Authorize(s, app, id, user, true, now).1.Ok?
    ensures SessionInv(Authorize(s, app, id, user, true, now).0, flows)
  {
    var r := Authorize(s, app, id, user, true, now).0;
    var fingerprint := s.sessions[id].fingerprint;
    EnsureFrames(s, app, user, fingerprint, false, now);
    EnsureHandsOutOwnToken(s, app, user, fingerprint, false, now);
    hide TokenInv;
    var t := EnsureForDevice(s, app, user, fingerprint, false, now).0;
    FrameKeepsSessionInv(s, t, flows);
    hide EnsureForDevice;
    UpdateKeepsSessionInv(t, r, flows, id, r.sessions[id]);
  }

  /** An authorised session is consumed together with its one release. */
  lemma ReleaseKeepsSessionInv(s: Store, id: nat, credential: Credential, flows: Flows)
    requires SessionInv(s, flows) && Consumable(s, id)
    ensures SessionInv(Release(s, id, credential), flows)
  {
    var t := Release(s, id, credential);
    forall i | i in t.sessions ensures SessionSound(t, flows, t.sessions[i]) {
      assert SessionSound(s, flows, s.sessions[i]);
    }
    assert forall i | 0 <= i < |s.released| :: t.released[i] == s.released[i] && t.released[i].0 != id;
  }

  /** Whatever row the poll has read: the stored status guards what it writes. */
  lemma PollKeepsSessionInv(s: Store, app: App, id: nat, session: Session, users: set<nat>, now: int, flows: Flows)
    requires Inv(s, flows)
    ensures SessionInv(Poll(s, app, id, session, users, now).0, flows)
  {
    hide TokenInv, SessionInv, ExpireSession, Release, AddAccessToken;
    ExpireKeepsSessionInv(s, id, flows);
    if Consumable(s, id) {
      ReleaseKeepsSessionInv(s, id, ApiKey(session.tokenId), flows);
      if (session.app, session.user) in s.grants {
        var d, grant := SessionDevice(session), s.grants[(session.app, session.user)];
        AccessTokenFrames(s, d, grant, now);
        AddAccessTokenKeepsSessions(s, d, grant, now);
        FrameKeepsSessionInv(s, AddAccessToken(s, d, grant, now), flows);
        ReleaseKeepsSessionInv(AddAccessToken(s, d, grant, now), id, ManagementToken(s.nextId), flows);
      }
    }
  }

  lemma AccessTokenFrames(s: Store, d: Device, grant: Grant, now: int)
    ensures SessionFrame(s, AddAccessToken(s, d, grant, now))
  {
  }

  // ----- runs -----

  lemma NextKeepsInv(s: Store, step: Step, flows: Flows)
    requires Inv(s, flows) && Fits(step, flows)
    ensures Inv(Next(s, step), flows)
  {
    NextKeepsTokenInv(s, step);
    if LeavesSessions(step) {
      NextFrames(s, step);
      hide TokenInv, SessionInv;
      FrameKeepsSessionInv(s, Next(s, step), flows);
    } else {
      hide TokenInv, SessionInv;
      match step
      case Start(app, fingerprint, taken, now) => StartKeepsSessionInv(s, app, fingerprint, taken, now, flows);
      case Look(app, id, user, now) => ExpireKeepsSessionInv(s, id, flows);
      case Answer(app, id, user, approve, now) => AnswerKeepsSessionInv(s, app, id, user, approve, now, flows);
      case Polls(app, id, row, users, now) => PollKeepsSessionInv(s, app, id, row, users, now, flows);
    }
  }

  ghost predicate FitAll(steps: seq<Step>, flows: Flows) {
    forall i | 0 <= i < |steps| :: Fits(steps[i], flows)
  }

  /** Every run from the empty store keeps the whole invariant. */
  lemma {:induction false} RunKeepsInv(s: Store, steps: seq<Step>, flows: Flows)
    requires Inv(s, flows) && FitAll(steps, flows)
    ensures Inv(Run(s, steps), flows)
    decreases |steps|
  {
    hide Inv;
    if steps != [] {
      assert Fits(steps[0], flows);
      NextKeepsInv(s, steps[0], flows);
      RunKeepsInv(Next(s, steps[0]), steps[1..], flows);
    }
  }

  ghost predicate Reachable(s: Store, flows: Flows) {
    exists steps :: FitAll(steps, flows) && s == Run(EMPTY, steps)
  }

  lemma ReachableInv(s: Store, flows: Flows)
    requires Reachable(s, flows)
    ensures Inv(s, flows)
  {
    var steps :| FitAll(steps, flows) && s == Run(EMPTY, steps);
    assert Inv(EMPTY, flows);
    RunKeepsInv(EMPTY, steps, flows);
  }

  /** In every reachable state two enabled tokens issued for the same app, user and device are the same token,
      and it is the current token of the device's active binding. */
  lemma ReachableTokensAreUnique(s: Store, flows: Flows, t: nat, u: nat)
    requires Reachable(s, flows)
    requires t in s.issued && u in s.issued && s.issued[t] == s.issued[u] && Live(s, t) && Live(s, u)
    ensures t == u && s.HasActive(s.issued[t]) && s.bindings[s.issued[t]].tokenId == t
  {
    ReachableInv(s, flows);
    AtMostOneEnabledToken(s, t, u);
  }

  /** Over every run at most one poll releases a credential of a session, however old the rows are that the
      polls have read. */
  lemma CredentialReleasedOnce(s: Store, flows: Flows, i: nat, j: nat)
    requires Reachable(s, flows) && i < |s.released| && j < |s.released| && s.released[i].0 == s.released[j].0
    ensures i == j
  {
    ReachableInv(s, flows);
    assert ReleasesSound(s);
  }

  /** A reply that releases a credential is logged, so the log counts the replies. */
  lemma PollLogsItsRelease(s: Store, app: App, id: nat, session: Session, users: set<nat>, now: int)
    ensures var (t, reply) := Poll(s, app, id, session, users, now);
            t.released == if reply.Released? then s.released + [(id, reply.credential)] else s.released
  {
  }

  // ----- how a session moves -----

  predicate Moves(from: Status, to: Status) {
    || from == to
    || (from == Pending && (to == Authorized || to == Denied || to == Expired))
    || (from == Authorized && to == Consumed)
  }

  ghost predicate SessionMoves(s: Store, t: Store, id: nat)
    requires id in s.sessions
  {
    && id in t.sessions
    && Moves(s.sessions[id].status, t.sessions[id].status)
    && t.sessions[id].expiresAt == s.sessions[id].expiresAt
    && (Decided(s.sessions[id]) ==> t.sessions[id] == s.sessions[id].(status := t.sessions[id].status))
  }

  /** What an answer does to the sessions: at most one that was open is decided. */
  lemma AnswerEffect(s: Store, app: App, id: nat, user: nat, approve: bool, now: int)
    ensures var t := Authorize(s, app, id, user, approve, now).0;
            t.sessions == s.sessions || AnswersOpen(s, t, id, now)
  {
    hide EnsureForDevice, UsesManagementFlow;
    if id in s.sessions {
      EnsureElsewhere(s, app, user, s.sessions[id].fingerprint, false, now);
      var t := EnsureForDevice(s, app, user, s.sessions[id].fingerprint, false, now).0;
      assert t.sessions == s.sessions;
      hide SameElsewhere;
    }
  }

  ghost predicate AnswersOpen(s: Store, t: Store, id: nat, now: int) {
    && id in s.sessions && id in t.sessions
    && s.sessions[id].status == Pending && now < s.sessions[id].expiresAt
    && t.sessions == s.sessions[id := t.sessions[id]]
    && t.sessions[id].status in {Denied, Authorized} && t.sessions[id].expiresAt == s.sessions[id].expiresAt
  }

  /** What a poll does to the sessions: it expires its own while pending or consumes it while authorised. */
  ghost predicate Polled(before: map<nat, Session>, after: map<nat, Session>, id: nat) {
    || after == before
    || (id in before && before[id].status == Pending && after == before[id := before[id].(status := Expired)])
    || (id in before && before[id].status == Authorized && after == before[id := before[id].(status := Consumed)])
  }

  lemma ManagementPollEffect(s: Store, id: nat, session: Session, users: set<nat>, now: int)
    requires (session.app, session.user) in s.grants
    ensures Polled(s.sessions, PollManagement(s, id, session, users, now).0.sessions, id)
  {
    AddAccessTokenKeepsSessions(s, SessionDevice(session), s.grants[(session.app, session.user)], now);
    hide AddAccessToken;
  }

  lemma PollEffect(s: Store, app: App, id: nat, session: Session, users: set<nat>, now: int)
    ensures Polled(s.sessions, Poll(s, app, id, session, users, now).0.sessions, id)
  {
    assert Polled(s.sessions, s.sessions, id);
    assert Polled(s.sessions, ExpireSession(s, id).sessions, id);
    assert Polled(s.sessions, PollKey(s, id, session, users).0.sessions, id);
    if (session.app, session.user) in s.grants {
      ManagementPollEffect(s, id, session, users, now);
    }
    hide Polled, ExpireSession, PollKey, PollManagement;
  }

  lemma OtherStepMoves(s: Store, step: Step, id: nat)
    requires TokenInv(s) && id in s.sessions && !step.Answer?
    ensures SessionMoves(s, Next(s, step), id)
    ensures s.sessions[id].status == Pending ==> Next(s, step).sessions[id].status in {Pending, Expired}
  {
    if LeavesSessions(step) {
      UntouchedMoves(s, step, id);
      hide Next;
    } else {
      SessionStepMoves(s, step, id);
      hide Next;
    }
  }

  lemma SessionStepMoves(s: Store, step: Step, id: nat)
    requires RowsKnown(s) && id in s.sessions && !step.Answer? && !LeavesSessions(step)
    ensures SessionMoves(s, Next(s, step), id)
    ensures s.sessions[id].status == Pending ==> Next(s, step).sessions[id].status in {Pending, Expired}
  {
    hide StartSession, SessionStatus, Poll, SessionMoves;
    match step {
      case Start(app, fingerprint, taken, now) =>
        assert Next(s, step) == StartSession(s, app, fingerprint, taken, now).0;
        StartEffect(s, app, fingerprint, taken, now);
        hide Next, RowsKnown;
        KeptMoves(s, Next(s, step), id);
      case Look(app, looked, user, now) =>
        assert Next(s, step) == SessionStatus(s, app, looked, user, now).0;
        LookEffect(s, app, looked, user, now);
        LookMoves(s, looked, id);
        hide Next, RowsKnown, ExpireSession;
      case Polls(app, polled, row, users, now) =>
        assert Next(s, step) == Poll(s, app, polled, row, users, now).0;
        hide Next, RowsKnown;
        PollEffect(s, app, polled, row, users, now);
        PolledMoves(s, Next(s, step), polled, id);
    }
  }

  lemma KeptMoves(s: Store, t: Store, id: nat)
    requires id in s.sessions && id in t.sessions && t.sessions[id] == s.sessions[id]
    ensures SessionMoves(s, t, id)
  {
  }

  lemma LookMoves(s: Store, looked: nat, id: nat)
    requires id in s.sessions
    ensures SessionMoves(s, s, id) && SessionMoves(s, ExpireSession(s, looked), id)
    ensures s.sessions[id].status == Pending ==> ExpireSession(s, looked).sessions[id].status in {Pending, Expired}
  {
  }

  lemma PolledMoves(s: Store, t: Store, polled: nat, id: nat)
    requires Polled(s.sessions, t.sessions, polled) && id in s.sessions
    ensures SessionMoves(s, t, id)
    ensures s.sessions[id].status == Pending ==> t.sessions[id].status in {Pending, Expired}
  {
  }

  lemma StartEffect(s: Store, app: App, fingerprint: string, taken: nat, now: int)
    requires RowsKnown(s)
    ensures forall i | i in s.sessions :: i in StartSession(s, app, fingerprint, taken, now).0.sessions
              && StartSession(s, app, fingerprint, taken, now).0.sessions[i] == s.sessions[i]
  {
  }

  lemma LookEffect(s: Store, app: App, id: nat, user: nat, now: int)
    ensures var t := SessionStatus(s, app, id, user, now).0; t == s || t == ExpireSession(s, id)
  {
  }

  lemma UntouchedMoves(s: Store, step: Step, id: nat)
    requires TokenInv(s) && id in s.sessions && LeavesSessions(step)
    ensures SessionMoves(s, Next(s, step), id) && Next(s, step).sessions == s.sessions
  {
    hide TokenInv, Next;
    NextFrames(s, step);
  }

  /** One step moves a session along one arrow at most, and an overdue one only to expiry. */
  lemma NextMoves(s: Store, step: Step, id: nat)
    requires TokenInv(s) && id in s.sessions
    ensures SessionMoves(s, Next(s, step), id)
    ensures (s.sessions[id].status == Pending && (!step.Answer? || s.sessions[id].expiresAt <= step.now)) ==>
              Next(s, step).sessions[id].status in {Pending, Expired}
  {
    if step.Answer? {
      AnswerEffect(s, step.app, step.session, step.user, step.approve, step.now);
      hide Authorize;
    } else {
      OtherStepMoves(s, step, id);
    }
  }

  /** An overdue answer is refused as if the session had expired, but the session stays pending. */
  lemma OverdueAnswerLeavesPending(s: Store, app: App, id: nat, user: nat, approve: bool, now: int)
    requires id in s.sessions && s.sessions[id].app == app.id && Overdue(s.sessions[id], now)
    ensures Authorize(s, app, id, user, approve, now) == (s, Fail(NotPending(Expired)))
    ensures s.sessions[id].status == Pending
    ensures SessionStatus(s, app, id, user, now).0.sessions[id].status == Expired
    ensures Poll(s, app, id, s.sessions[id], {}, now).0.sessions[id].status == Expired
  {
  }

  predicate Reaches(from: Status, to: Status) {
    from == to || from == Pending || (from == Authorized && to == Consumed)
  }

  ghost predicate SessionReaches(s: Store, t: Store, id: nat)
    requires id in s.sessions
  {
    && id in t.sessions
    && Reaches(s.sessions[id].status, t.sessions[id].status)
    && (Decided(s.sessions[id]) ==> t.sessions[id] == s.sessions[id].(status := t.sessions[id].status))
  }

  /** Over a run: nothing leaves denied, expired or consumed, authorised only becomes consumed, and the user and
      token of a decided session stay. */
  lemma {:induction false} RunMoves(s: Store, steps: seq<Step>, id: nat)
    requires TokenInv(s) && id in s.sessions
    ensures SessionReaches(s, Run(s, steps), id)
    decreases |steps|
  {
    if steps != [] {
      NextMoves(s, steps[0], id);
      NextKeepsTokenInv(s, steps[0]);
      hide TokenInv, Next;
      RunMoves(Next(s, steps[0]), steps[1..], id);
    }
  }

  /** Every answer in the run comes at `t` or later. */
  predicate AnswersAfter(steps: seq<Step>, t: int) {
    forall i | 0 <= i < |steps| && steps[i].Answer? :: steps[i].now >= t
  }

  ghost predicate Unanswered(s: Store, id: nat) {
    id in s.sessions && s.sessions[id].status in {Pending, Expired}
  }

  /** A session still pending at its expiry is never authorised, denied or consumed later. */
  lemma {:induction false} OverdueIsNeverAuthorized(s: Store, steps: seq<Step>, id: nat)
    requires TokenInv(s) && Unanswered(s, id)
    requires AnswersAfter(steps, s.sessions[id].expiresAt)
    ensures Unanswered(Run(s, steps), id)
    decreases |steps|
  {
    if steps != [] {
      NextMoves(s, steps[0], id);
      NextKeepsTokenInv(s, steps[0]);
      hide TokenInv, Next;
      OverdueIsNeverAuthorized(Next(s, steps[0]), steps[1..], id);
    }
  }

  /** A poll that read its session before any number of other steps releases a credential of the session's own app,
      user and device, and never finds the session without its user or, in the key flow, its token. */
  lemma StalePollIsSound(s: Store, steps: seq<Step>, flows: Flows, app: App, id: nat, users: set<nat>, now: int)
    requires Inv(s, flows) && FitAll(steps, flows) && id in s.sessions
    requires UsesManagementFlow(app) == flows(app.id)
    ensures var (t, reply) := Poll(Run(s, steps), app, id, s.sessions[id], users, now);
            && reply != MissingUser && reply != MissingToken
            && (reply.Released? ==> id in t.sessions && CredentialFits(t, t.sessions[id], reply.credential))
  {
    RunMoves(s, steps, id);
    RunKeepsInv(s, steps, flows);
    ReadRowIsSound(s, Run(s, steps), flows, app, id, users, now);
  }

  lemma ReadRowIsSound(s: Store, u: Store, flows: Flows, app: App, id: nat, users: set<nat>, now: int)
    requires id in s.sessions && SessionReaches(s, u, id) && SessionSound(s, flows, s.sessions[id])
    requires RowsKnown(s) && SessionInv(u, flows) && UsesManagementFlow(app) == flows(app.id)
    ensures var (t, reply) := Poll(u, app, id, s.sessions[id], users, now);
            && reply != MissingUser && reply != MissingToken
            && (reply.Released? ==> id in t.sessions && CredentialFits(t, t.sessions[id], reply.credential))
  {
    assert SessionSound(u, flows, u.sessions[id]);
  }

  // ----- grant revocation -----

  lemma RevocationEndsAll(s: Store, app: nat, user: nat)
    requires TokenInv(s) && RevokeGrant(s, app, user).1.Ok?
    ensures var t := RevokeGrant(s, app, user).0;
            && !t.grants[(app, user)].authorized
            && (forall d | d in t.bindings && d.app == app && d.user == user ::
                  !t.bindings[d].active && !Live(t, t.bindings[d].tokenId))
            && NoneEnabledFor(t, app, user)
            && (forall a | a in t.accessTokens && t.accessTokens[a].device.app == app
                           && t.accessTokens[a].device.user == user :: !t.accessTokens[a].active)
  {
    RevokeBindingsDisables(s, app, user);
    var t := RevokeGrant(s, app, user).0;
    forall d | d in t.bindings && d.app == app && d.user == user ensures !Live(t, t.bindings[d].tokenId) {
      assert s.issued[s.bindings[d].tokenId] == d;
    }
  }

  lemma RevocationSparesOthers(s: Store, app: nat, user: nat)
    requires TokenInv(s) && RevokeGrant(s, app, user).1.Ok?
    ensures var t := RevokeGrant(s, app, user).0;
            && (forall d | d in s.bindings && !(d.app == app && d.user == user) ::
                  d in t.bindings && t.bindings[d] == s.bindings[d])
            && (forall i | i in s.tokens && !(i in s.issued && s.issued[i].app == app && s.issued[i].user == user) ::
                  i in t.tokens && t.tokens[i] == s.tokens[i])
  {
    var t := RevokeGrant(s, app, user).0;
    forall i | i in s.tokens && !(i in s.issued && s.issued[i].app == app && s.issued[i].user == user)
      ensures i in t.tokens && t.tokens[i] == s.tokens[i]
    {
      forall d | d in s.bindings && d.app == app && d.user == user ensures s.bindings[d].tokenId != i {
      }
    }
  }

  /** After a successful revocation nothing of (app, user) is live, although only the tokens of bindings
      that were still active are disabled; everybody else's rows are untouched. */
  lemma GrantRevocationIsComplete(s: Store, app: nat, user: nat)
    requires TokenInv(s) && RevokeGrant(s, app, user).1.Ok?
    ensures var t := RevokeGrant(s, app, user).0;
            && !t.grants[(app, user)].authorized
            && (forall d | d in t.bindings && d.app == app && d.user == user ::
                  !t.bindings[d].active && !Live(t, t.bindings[d].tokenId))
            && NoneEnabledFor(t, app, user)
            && (forall a | a in t.accessTokens && t.accessTokens[a].device.app == app
                           && t.accessTokens[a].device.user == user :: !t.accessTokens[a].active)
    ensures var t := RevokeGrant(s, app, user).0;
            && (forall d | d in s.bindings && !(d.app == app && d.user == user) ::
                  d in t.bindings && t.bindings[d] == s.bindings[d])
            && (forall i | i in s.tokens && !(i in s.issued && s.issued[i].app == app && s.issued[i].user == user) ::
                  i in t.tokens && t.tokens[i] == s.tokens[i])
  {
    RevocationEndsAll(s, app, user);
    RevocationSparesOthers(s, app, user);
    hide TokenInv, NoneEnabledFor;
  }

  // ----- the group of a dedicated token -----

  function CurrentGroup(s: Store, d: Device): string
    requires s.HasActive(d) && s.bindings[d].tokenId in s.tokens
  {
    TrimSpace(s.tokens[s.bindings[d].tokenId].group)
  }

  /** The group that an ensure without the group scope may use. */
  lemma GroupWithoutScope(s: Store, c: Client, requested: string, rotate: bool)
    requires s.HasActive(c.device) && !c.Has(GROUP_UPDATE) && EnsureGroup(s, c, requested, rotate).Ok?
    ensures s.HasToken(s.bindings[c.device].tokenId, c.device.user)
    ensures EnsureGroup(s, c, requested, rotate).value
         == if requested == "" && !rotate then "" else CurrentGroup(s, c.device)
  {
  }

  lemma ReplacedGroup(s: Store, d: Device, grantId: nat, group: string)
    requires TokenInv(s) && s.HasActive(d) && s.HasToken(s.bindings[d].tokenId, d.user)
    requires group == "" || group == CurrentGroup(s, d)
    ensures s.SetTokenGroup(s.bindings[d].tokenId, group) == s
    ensures var t := s.Issue(d, grantId, group);
            t.HasActive(d) && t.bindings[d].tokenId in t.tokens && CurrentGroup(t, d) == group
  {
    IssueHandsOutNext(s, d, grantId, group);
    hide TokenInv;
  }

  /** Without the group scope an ensure keeps the token's group, but for one case: replacing a token that cannot
      be reused, without asking for a rotation or naming a group, drops its group. */
  lemma EnsureKeepsGroupWithoutScope(s: Store, c: Client, requested: string, users: set<nat>, usable: set<string>,
                                     rotate: bool, now: int)
    requires TokenInv(s) && s.HasActive(c.device) && !c.Has(GROUP_UPDATE)
    requires ClientEnsure(s, c, requested, users, usable, rotate, now).1.Ok?
    ensures var t := ClientEnsure(s, c, requested, users, usable, rotate, now).0;
            && s.bindings[c.device].tokenId in s.tokens
            && t.HasActive(c.device) && t.bindings[c.device].tokenId in t.tokens
            && (CurrentGroup(t, c.device) == CurrentGroup(s, c.device) <==>
                  rotate || TrimSpace(requested) != "" || s.tokens[s.bindings[c.device].tokenId].Reusable(now)
                  || CurrentGroup(s, c.device) == "")
  {
    var d := c.device;
    hide Store.Issue;
    GroupWithoutScope(s, c, TrimSpace(requested), rotate);
    var group := EnsureGroup(s, c, TrimSpace(requested), rotate).value;
    ReplacedGroup(s, d, c.grantId, group);
    hide TokenInv, EnsureGroup;
    var t := ClientEnsure(s, c, requested, users, usable, rotate, now).0;
    var reused := !rotate && s.tokens[s.bindings[d].tokenId].Reusable(now);
    assert t == if reused then s else s.Issue(d, c.grantId, group);
    hide ClientEnsure;
  }
}
