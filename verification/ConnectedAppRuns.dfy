/** What every run of the connected-app transactions keeps. */
module ConnectedAppRuns {
  import opened ConnectedAppStore
  import opened Text

  // ----- the token invariant -----

  /** Ids come from the counter, and a token's history row agrees with its attribution. */
  ghost predicate RowsKnown(s: Store) {
    && s.nextId > 0
    && (forall k | k in s.grants :: 0 < s.grants[k].id < s.nextId)
    && (forall d | d in s.bindings :: 0 < s.bindings[d].id < s.nextId)
    && (forall t | t in s.tokens :: 0 < t < s.nextId)
    && (forall t | t in s.issued :: 0 < t < s.nextId)
    && (forall a | a in s.accessTokens :: 0 < a < s.nextId)
    && (forall i | i in s.sessions :: 0 < i < s.nextId)
    && (forall c | c in s.codes :: 0 < c < s.nextId)
  }

  /** Every issued token is attributed to the device it was issued for, and to no other token. */
  ghost predicate IssuedAttributed(s: Store) {
    && s.attributions.Keys == s.issued.Keys
    && (forall t | t in s.issued :: s.attributions[t].device == s.issued[t])
    && (forall t | t in s.issued && t in s.tokens :: s.tokens[t].user == s.issued[t].user)
  }

  ghost predicate BindingIdsDistinct(s: Store) {
    forall d, e | d in s.bindings && e in s.bindings && d != e :: s.bindings[d].id != s.bindings[e].id
  }

  /** Binding rows and attributions point at each other. */
  ghost predicate BindingsAttributed(s: Store) {
    && (forall d | d in s.bindings :: s.bindings[d].tokenId in s.issued && s.issued[s.bindings[d].tokenId] == d)
    && (forall t | t in s.attributions ::
          var d := s.attributions[t].device; d in s.bindings && s.bindings[d].id == s.attributions[t].bindingId)
  }

  ghost predicate Live(s: Store, t: nat) {
    t in s.tokens && s.tokens[t].enabled
  }

  /** An enabled issued token is the current token of its device's active binding. */
  ghost predicate OnlyCurrentEnabled(s: Store) {
    forall t | t in s.issued && Live(s, t) ::
      s.HasActive(s.issued[t]) && s.bindings[s.issued[t]].tokenId == t
  }

  ghost predicate TokenInv(s: Store) {
    RowsKnown(s) && IssuedAttributed(s) && BindingIdsDistinct(s) && BindingsAttributed(s) && OnlyCurrentEnabled(s)
  }

  /** Each app, user and device has at most one enabled issued token, the current token of an active binding. */
  lemma AtMostOneEnabledToken(s: Store, t: nat, u: nat)
    requires TokenInv(s) && t in s.issued && u in s.issued && s.issued[t] == s.issued[u]
    requires Live(s, t) && Live(s, u)
    ensures t == u
    ensures s.HasActive(s.issued[t]) && s.bindings[s.issued[t]].tokenId == t
  {
  }

  /** A binding that is not active has no enabled token. */
  lemma InactiveBindingIsDisabled(s: Store, d: Device)
    requires TokenInv(s) && d in s.bindings && !s.bindings[d].active
    ensures !Live(s, s.bindings[d].tokenId)
  {
  }

  // ----- what each piece of a transaction keeps -----

  /** Disabling tokens, renaming their groups, deleting them and touching other tables is harmless. */
  ghost predicate OnlyWorse(s: Store, t: Store) {
    && t == s.(grants := t.grants, tokens := t.tokens, accessTokens := t.accessTokens,
               sessions := t.sessions, codes := t.codes, nextId := t.nextId, released := t.released)
    && t.tokens.Keys <= s.tokens.Keys
    && (forall i | i in t.tokens ::
          t.tokens[i].user == s.tokens[i].user && (t.tokens[i].enabled ==> s.tokens[i].enabled))
    && RowsKnown(t)
  }

  lemma WorseKeepsTokenInv(s: Store, t: Store)
    requires TokenInv(s) && OnlyWorse(s, t)
    ensures TokenInv(t)
  {
    forall i | i in t.issued && Live(t, i)
      ensures t.HasActive(t.issued[i]) && t.bindings[t.issued[i]].tokenId == i
    {
      assert Live(s, i);
    }
  }

  lemma UpsertGrantKeepsTokenInv(s: Store, app: nat, user: nat, scopes: set<string>)
    requires TokenInv(s)
    ensures TokenInv(s.UpsertGrant(app, user, scopes))
  {
    WorseKeepsTokenInv(s, s.UpsertGrant(app, user, scopes));
  }

  /** Recording the current token again changes nothing: it is recorded already. */
  lemma CurrentIsRecorded(s: Store, d: Device)
    requires TokenInv(s) && d in s.bindings
    ensures s.RecordAttribution(d) == s
  {
  }

  ghost predicate NoneEnabled(s: Store, d: Device) {
    forall t | t in s.issued && s.issued[t] == d :: !Live(s, t)
  }

  lemma DisableKeepsTokenInv(s: Store, id: nat, user: nat)
    requires TokenInv(s)
    ensures TokenInv(s.DisableToken(id, user))
  {
    WorseKeepsTokenInv(s, s.DisableToken(id, user));
  }

  /** Disabling the current token of a device leaves it without an enabled one. */
  lemma DisableCurrent(s: Store, d: Device)
    requires TokenInv(s) && s.HasActive(d)
    ensures NoneEnabled(s.DisableToken(s.bindings[d].tokenId, d.user), d)
  {
    var current := s.bindings[d].tokenId;
    assert s.issued[current] == d;
    var t := s.DisableToken(current, d.user);
    forall i | i in t.issued && t.issued[i] == d ensures !Live(t, i) {
      if Live(s, i) {
        assert i == current;
      }
    }
  }

  lemma RetireKeepsTokenInv(s: Store, d: Device)
    requires TokenInv(s)
    ensures TokenInv(s.RetireCurrent(d)) && NoneEnabled(s.RetireCurrent(d), d)
    ensures s.RetireCurrent(d).nextId == s.nextId
  {
    if s.HasActive(d) {
      CurrentIsRecorded(s, d);
      DisableKeepsTokenInv(s, s.bindings[d].tokenId, d.user);
      DisableCurrent(s, d);
    }
  }

  /** What binding a new token writes, table by table. */
  lemma BindEffect(s: Store, d: Device, grantId: nat, group: string)
    requires RowsKnown(s) && IssuedAttributed(s)
    ensures var t, n := s.Bind(d, grantId, group), s.nextId;
            var id := if d in s.bindings then s.bindings[d].id else n + 1;
            && t == s.(tokens := s.tokens[n := Token(d.user, true, -1, false, 0, group)],
                       issued := s.issued[n := d],
                       bindings := s.bindings[d := Binding(id, grantId, n, true)],
                       attributions := s.attributions[n := Attribution(id, d)],
                       nextId := n + 2)
            && n !in s.tokens && n !in s.issued && n !in s.attributions && id < n + 2
  {
  }

  lemma BindKeepsRows(s: Store, d: Device, grantId: nat, group: string)
    requires RowsKnown(s) && IssuedAttributed(s)
    ensures RowsKnown(s.Bind(d, grantId, group))
  {
    BindEffect(s, d, grantId, group);
    hide IssuedAttributed;
  }

  lemma BindKeepsAttributed(s: Store, d: Device, grantId: nat, group: string)
    requires RowsKnown(s) && IssuedAttributed(s)
    ensures IssuedAttributed(s.Bind(d, grantId, group))
  {
    BindEffect(s, d, grantId, group);
  }

  lemma BindKeepsIds(s: Store, d: Device, grantId: nat, group: string)
    requires RowsKnown(s) && IssuedAttributed(s) && BindingIdsDistinct(s)
    ensures BindingIdsDistinct(s.Bind(d, grantId, group))
  {
    BindEffect(s, d, grantId, group);
  }

  lemma BindKeepsBindings(s: Store, d: Device, grantId: nat, group: string)
    requires RowsKnown(s) && IssuedAttributed(s) && BindingsAttributed(s)
    ensures BindingsAttributed(s.Bind(d, grantId, group))
  {
    BindEffect(s, d, grantId, group);
    var t := s.Bind(d, grantId, group);
    forall i | i in t.attributions
      ensures var e := t.attributions[i].device; e in t.bindings && t.bindings[e].id == t.attributions[i].bindingId
    {
      if i != s.nextId {
        assert i in s.attributions && t.attributions[i] == s.attributions[i];
      }
    }
  }

  lemma BindKeepsCurrent(s: Store, d: Device, grantId: nat, group: string)
    requires RowsKnown(s) && IssuedAttributed(s) && OnlyCurrentEnabled(s) && NoneEnabled(s, d)
    ensures OnlyCurrentEnabled(s.Bind(d, grantId, group))
  {
    BindEffect(s, d, grantId, group);
    var t := s.Bind(d, grantId, group);
    forall i | i in t.issued && Live(t, i)
      ensures t.HasActive(t.issued[i]) && t.bindings[t.issued[i]].tokenId == i
    {
      if i != s.nextId {
        assert Live(s, i);
      }
    }
  }

  /** A new token replaces the one whose device has none enabled. */
  lemma BindKeepsTokenInv(s: Store, d: Device, grantId: nat, group: string)
    requires TokenInv(s) && NoneEnabled(s, d)
    ensures TokenInv(s.Bind(d, grantId, group))
  {
    hide RowsKnown, IssuedAttributed, BindingIdsDistinct, BindingsAttributed, OnlyCurrentEnabled, NoneEnabled;
    BindKeepsIds(s, d, grantId, group);
    BindKeepsRows(s, d, grantId, group);
    BindKeepsAttributed(s, d, grantId, group);
    BindKeepsBindings(s, d, grantId, group);
    BindKeepsCurrent(s, d, grantId, group);
  }

  lemma IssueKeepsTokenInv(s: Store, d: Device, grantId: nat, group: string)
    requires TokenInv(s)
    ensures TokenInv(s.Issue(d, grantId, group))
  {
    hide TokenInv, NoneEnabled;
    RetireKeepsTokenInv(s, d);
    BindKeepsTokenInv(s.RetireCurrent(d), d, grantId, group);
  }

  /** Revoking changes neither the ids nor the tokens of the bindings, nor whose the tokens are. */
  ghost predicate OnlyRevoked(s: Store, t: Store) {
    && t == s.(bindings := t.bindings, tokens := t.tokens)
    && t.tokens.Keys == s.tokens.Keys && (forall i | i in s.tokens :: t.tokens[i].user == s.tokens[i].user)
    && t.bindings.Keys == s.bindings.Keys
    && (forall d | d in s.bindings :: t.bindings[d] == s.bindings[d].(active := t.bindings[d].active))
  }

  lemma RevokedIdsStay(s: Store, t: Store)
    requires BindingIdsDistinct(s) && OnlyRevoked(s, t)
    ensures BindingIdsDistinct(t)
  {
    forall d, e | d in t.bindings && e in t.bindings && d != e ensures t.bindings[d].id != t.bindings[e].id {
      assert s.bindings[d].id != s.bindings[e].id;
    }
  }

  lemma RevokedRowsStay(s: Store, t: Store)
    requires RowsKnown(s) && IssuedAttributed(s) && BindingsAttributed(s) && OnlyRevoked(s, t)
    ensures RowsKnown(t) && IssuedAttributed(t) && BindingsAttributed(t)
  {
  }

  lemma RevokeKeepsCurrent(s: Store, d: Device)
    requires OnlyCurrentEnabled(s) && d in s.bindings && NoneEnabled(s, d)
    ensures OnlyCurrentEnabled(s.RevokeBinding(d)) && OnlyRevoked(s, s.RevokeBinding(d))
  {
    var t := s.RevokeBinding(d);
    forall i | i in t.issued && Live(t, i)
      ensures t.HasActive(t.issued[i]) && t.bindings[t.issued[i]].tokenId == i
    {
      assert Live(s, i) && s.issued[i] != d;
    }
  }

  /** A binding may be revoked once its device has no enabled token. */
  lemma RevokeKeepsTokenInv(s: Store, d: Device)
    requires TokenInv(s) && d in s.bindings && NoneEnabled(s, d)
    ensures TokenInv(s.RevokeBinding(d))
  {
    hide BindingIdsDistinct, BindingsAttributed, RowsKnown, IssuedAttributed, OnlyCurrentEnabled, OnlyRevoked,
         NoneEnabled;
    RevokeKeepsCurrent(s, d);
    RevokedRowsStay(s, s.RevokeBinding(d));
    RevokedIdsStay(s, s.RevokeBinding(d));
  }

  lemma WithdrawKeepsTokenInv(s: Store, d: Device)
    requires TokenInv(s) && s.HasActive(d)
    ensures TokenInv(s.Withdraw(d))
  {
    var disabled := s.DisableToken(s.bindings[d].tokenId, d.user);
    assert s.Withdraw(d) == disabled.RevokeBinding(d);
    DisableCurrent(s, d);
    hide TokenInv, NoneEnabled;
    DisableKeepsTokenInv(s, s.bindings[d].tokenId, d.user);
    RevokeKeepsTokenInv(disabled, d);
  }

  ghost predicate NoneEnabledFor(s: Store, app: nat, user: nat) {
    forall t | t in s.issued && s.issued[t].app == app && s.issued[t].user == user :: !Live(s, t)
  }

  /** After the bindings of (app, user) are revoked none of its issued tokens is enabled, whatever
      devices were active before. */
  lemma RevokeBindingsDisables(s: Store, app: nat, user: nat)
    requires IssuedAttributed(s) && OnlyCurrentEnabled(s)
    ensures var t := RevokeBindings(s, app, user); OnlyCurrentEnabled(t) && NoneEnabledFor(t, app, user)
  {
    var t := RevokeBindings(s, app, user);
    forall i | i in t.issued && Live(t, i)
      ensures t.HasActive(t.issued[i]) && t.bindings[t.issued[i]].tokenId == i
      ensures !(t.issued[i].app == app && t.issued[i].user == user)
    {
      var d := s.issued[i];
      assert Live(s, i);
      assert s.HasActive(d) && s.bindings[d].tokenId == i;
      assert d.app == app && d.user == user ==> i in BoundTokens(s.bindings, app, user);
    }
  }

  lemma RevokeBindingsKeepsTokenInv(s: Store, app: nat, user: nat)
    requires TokenInv(s)
    ensures TokenInv(RevokeBindings(s, app, user))
  {
    hide BindingIdsDistinct, BindingsAttributed, RowsKnown, IssuedAttributed, OnlyCurrentEnabled;
    var t := RevokeBindings(s, app, user);
    assert OnlyRevoked(s, t);
    hide RevokeBindings, OnlyRevoked;
    RevokeBindingsDisables(s, app, user);
    RevokedRowsStay(s, t);
    RevokedIdsStay(s, t);
  }

  // ----- sessions -----

  /** Which apps hand out management tokens; their scopes do not change. */
  type Flows = nat -> bool

  ghost predicate Decided(session: Session) {
    session.status == Authorized || session.status == Consumed
  }

  ghost predicate SessionSound(s: Store, flows: Flows, session: Session) {
    Decided(session) ==>
      && session.user > 0 && (session.app, session.user) in s.grants
      && (!flows(session.app) ==>
            session.tokenId in s.issued && s.issued[session.tokenId] == SessionDevice(session))
  }

  /** The credential belongs to the app, the device and the user of its session. */
  ghost predicate CredentialFits(s: Store, session: Session, credential: Credential) {
    match credential
    case ApiKey(t) => t in s.issued && s.issued[t] == SessionDevice(session)
    case ManagementToken(a) => a in s.accessTokens && s.accessTokens[a].device == SessionDevice(session)
  }

  /** Each session has released at most one credential, and one that has is consumed. */
  ghost predicate ReleasesSound(s: Store) {
    && (forall i, j | 0 <= i < j < |s.released| :: s.released[i].0 != s.released[j].0)
    && (forall i | 0 <= i < |s.released| ::
          s.released[i].0 in s.sessions && s.sessions[s.released[i].0].status == Consumed)
  }

  ghost predicate SessionInv(s: Store, flows: Flows) {
    && (forall i | i in s.sessions :: SessionSound(s, flows, s.sessions[i]))
    && ReleasesSound(s)
  }

  ghost predicate Inv(s: Store, flows: Flows) {
    TokenInv(s) && SessionInv(s, flows)
  }

  /** Steps that leave the sessions alone: grants, issued tokens and access tokens are never forgotten. */
  ghost predicate SessionFrame(s: Store, t: Store) {
    && t.sessions == s.sessions && t.released == s.released
    && s.grants.Keys <= t.grants.Keys
    && (forall i | i in s.issued :: i in t.issued && t.issued[i] == s.issued[i])
  }

  lemma FrameKeepsSessionInv(s: Store, t: Store, flows: Flows)
    requires SessionInv(s, flows) && SessionFrame(s, t)
    ensures SessionInv(t, flows)
  {
    forall i | i in t.sessions ensures SessionSound(t, flows, t.sessions[i]) {
      assert SessionSound(s, flows, s.sessions[i]);
    }
  }

  // ----- steps and runs -----

  datatype Step =
    | Ensure(app: App, user: nat, fingerprint: string, rotate: bool, now: int)
    | Consents(app: App, user: nat, redirect: string, requested: set<string>, challenged: bool, now: int)
    | Exchanges(app: App, code: nat, redirect: string, proven: bool, users: set<nat>, now: int)
    | ClientEnsures(client: Client, group: string, users: set<nat>, usable: set<string>, rotate: bool, now: int)
    | ClientRotates(client: Client, tokenId: nat, users: set<nat>)
    | ClientRevokes(client: Client, tokenId: nat)
    | DeviceRevokes(device: Device, revokeToken: bool)
    | GrantRevokes(appId: nat, user: nat)
    | Start(app: App, fingerprint: string, taken: nat, now: int)
    | Look(app: App, session: nat, user: nat, now: int)
    | Answer(app: App, session: nat, user: nat, approve: bool, now: int)
    | Polls(app: App, session: nat, row: Session, users: set<nat>, now: int)  // `row` was read some time before
    | TokenWorsens(tokenId: nat, token: Token)   // the owner disables it, it expires or its quota runs out
    | TokenDeleted(tokenId: nat)

  function Next(s: Store, step: Step): Store {
    match step
    case Ensure(app, user, fingerprint, rotate, now) => EnsureForDevice(s, app, user, fingerprint, rotate, now).0
    case Consents(app, user, redirect, requested, challenged, now) =>
      Consent(s, app, user, redirect, requested, challenged, now).0
    case Exchanges(app, id, redirect, proven, users, now) => Exchange(s, app, id, redirect, proven, users, now).0
    case ClientEnsures(c, group, users, usable, rotate, now) => ClientEnsure(s, c, group, users, usable, rotate, now).0
    case ClientRotates(c, tokenId, users) => ClientRotate(s, c, tokenId, users).0
    case ClientRevokes(c, tokenId) => ClientRevoke(s, c, tokenId).0
    case DeviceRevokes(d, revokeToken) => DeviceRevoke(s, d, revokeToken)
    case GrantRevokes(app, user) => RevokeGrant(s, app, user).0
    case Start(app, fingerprint, taken, now) => StartSession(s, app, fingerprint, taken, now).0
    case Look(app, id, user, now) => SessionStatus(s, app, id, user, now).0
    case Answer(app, id, user, approve, now) => Authorize(s, app, id, user, approve, now).0
    case Polls(app, id, row, users, now) => Poll(s, app, id, row, users, now).0
    case TokenWorsens(id, token) =>
      s.(tokens := if id in s.tokens && token.user == s.tokens[id].user && (token.enabled ==> s.tokens[id].enabled)
                   then s.tokens[id := token] else s.tokens)
    case TokenDeleted(id) => s.(tokens := s.tokens - {id})
  }

  /** The step's app is of the flow its id always has. */
  ghost predicate Fits(step: Step, flows: Flows) {
    (step.Start? || step.Look? || step.Answer? || step.Polls?) ==> UsesManagementFlow(step.app) == flows(step.app.id)
  }

  function Run(s: Store, steps: seq<Step>): Store
    decreases |steps|
  {
    if steps == [] then s else Run(Next(s, steps[0]), steps[1..])
  }

  // ----- each step keeps the token invariant -----

  lemma GroupKeepsTokenInv(s: Store, id: nat, group: string)
    requires TokenInv(s) && id in s.tokens
    ensures TokenInv(s.SetTokenGroup(id, group))
  {
    WorseKeepsTokenInv(s, s.SetTokenGroup(id, group));
  }

  lemma EnsureKeepsTokenInv(s: Store, app: App, user: nat, fingerprint: string, rotate: bool, now: int)
    requires TokenInv(s)
    ensures TokenInv(EnsureForDevice(s, app, user, fingerprint, rotate, now).0)
  {
    hide TokenInv;
    var t := s.UpsertGrant(app.id, user, app.defaultScopes);
    UpsertGrantKeepsTokenInv(s, app.id, user, app.defaultScopes);
    var d := Device(app.id, user, fingerprint);
    IssueKeepsTokenInv(t, d, t.grants[(app.id, user)].id, TrimSpace(app.tokenGroup));
    if t.HasActive(d) && t.HasToken(t.bindings[d].tokenId, user) {
      GroupKeepsTokenInv(t, t.bindings[d].tokenId, TrimSpace(app.tokenGroup));
    }
  }

  lemma OAuthKeepsTokenInv(s: Store, app: App, user: nat, scopes: set<string>, fingerprint: string)
    requires TokenInv(s)
    ensures TokenInv(IssueForOAuth(s, app, user, scopes, fingerprint).0)
  {
    hide TokenInv, NoneEnabled;
    var granted := if scopes == {} then app.defaultScopes else scopes;
    var t := s.UpsertGrant(app.id, user, granted);
    UpsertGrantKeepsTokenInv(s, app.id, user, granted);
    var d := Device(app.id, user, if fingerprint == "" then "oauth-web" else fingerprint);
    DisableCurrentKeepsTokenInv(t, d);
    BindKeepsTokenInv(t.DisableCurrent(d), d, t.grants[(app.id, user)].id, "");
  }

  lemma ConsentKeepsTokenInv(s: Store, app: App, user: nat, redirect: string, requested: set<string>,
                             challenged: bool, now: int)
    requires TokenInv(s)
    ensures TokenInv(Consent(s, app, user, redirect, requested, challenged, now).0)
  {
    var t := s.UpsertGrant(app.id, user, ConsentScopes(app, requested));
    UpsertGrantKeepsTokenInv(s, app.id, user, ConsentScopes(app, requested));
    hide ConsentScopes, RedirectAllowed, IssuedAttributed, BindingIdsDistinct, BindingsAttributed, OnlyCurrentEnabled;
    if Consent(s, app, user, redirect, requested, challenged, now).1.Ok? {
      WorseKeepsTokenInv(t, Consent(s, app, user, redirect, requested, challenged, now).0);
    }
  }

  lemma UsedKeepsTokenInv(s: Store, id: nat)
    requires TokenInv(s) && id in s.codes
    ensures TokenInv(Used(s, id))
  {
    hide IssuedAttributed, BindingIdsDistinct, BindingsAttributed, OnlyCurrentEnabled;
    WorseKeepsTokenInv(s, Used(s, id));
  }

  lemma ExchangeKeepsTokenInv(s: Store, app: App, id: nat, redirect: string, proven: bool, users: set<nat>, now: int)
    requires TokenInv(s)
    ensures TokenInv(Exchange(s, app, id, redirect, proven, users, now).0)
  {
    hide TokenInv, RedirectAllowed, IssueForOAuth, Used, TrimSpace;
    if Open(s, id, now) {
      UsedKeepsTokenInv(s, id);
      OAuthKeepsTokenInv(Used(s, id), app, s.codes[id].user, s.codes[id].scopes, "oauth-web");
    }
  }

  lemma DisableCurrentKeepsTokenInv(s: Store, d: Device)
    requires TokenInv(s)
    ensures TokenInv(s.DisableCurrent(d)) && NoneEnabled(s.DisableCurrent(d), d)
  {
    hide TokenInv, NoneEnabled;
    if s.HasActive(d) {
      DisableCurrent(s, d);
      DisableKeepsTokenInv(s, s.bindings[d].tokenId, d.user);
    } else {
      InactiveHasNone(s, d);
      assert s.DisableCurrent(d) == s;
    }
  }

  lemma InactiveHasNone(s: Store, d: Device)
    requires TokenInv(s) && !s.HasActive(d)
    ensures NoneEnabled(s, d)
  {
  }

  lemma ClientEnsureKeepsTokenInv(s: Store, c: Client, requested: string, users: set<nat>, usable: set<string>,
                                  rotate: bool, now: int)
    requires TokenInv(s)
    ensures TokenInv(ClientEnsure(s, c, requested, users, usable, rotate, now).0)
  {
    hide TokenInv, EnsureGroup;
    var checked := EnsureGroup(s, c, TrimSpace(requested), rotate);
    if checked.Ok? {
      var d, group := c.device, checked.value;
      IssueKeepsTokenInv(s, d, c.grantId, group);
      if s.HasActive(d) && s.HasToken(s.bindings[d].tokenId, d.user) {
        var t := s.SetTokenGroup(s.bindings[d].tokenId, group);
        GroupKeepsTokenInv(s, s.bindings[d].tokenId, group);
        IssueKeepsTokenInv(t, d, c.grantId, group);
      }
    }
  }

  lemma ClientStepsKeepTokenInv(s: Store, c: Client, tokenId: nat, users: set<nat>)
    requires TokenInv(s)
    ensures TokenInv(ClientRotate(s, c, tokenId, users).0)
    ensures TokenInv(ClientRevoke(s, c, tokenId).0)
  {
    hide TokenInv;
    if Owned(s, c.device, tokenId).Ok? {
      IssueKeepsTokenInv(s, c.device, c.grantId, TrimSpace(s.tokens[tokenId].group));
      WithdrawKeepsTokenInv(s, c.device);
    }
  }

  lemma DeviceRevokeKeepsTokenInv(s: Store, d: Device, revokeToken: bool)
    requires TokenInv(s)
    ensures TokenInv(DeviceRevoke(s, d, revokeToken))
  {
    var t := s.RevokeAccessTokens(d.app, d.user, d.fingerprint);
    WorseKeepsTokenInv(s, t);
    if revokeToken && t.HasActive(d) {
      WithdrawKeepsTokenInv(t, d);
    }
  }

  lemma RevokeGrantKeepsTokenInv(s: Store, app: nat, user: nat)
    requires TokenInv(s)
    ensures TokenInv(RevokeGrant(s, app, user).0)
  {
    var r := RevokeGrant(s, app, user).0;
    if r != s {
      RevokeBindingsKeepsTokenInv(s, app, user);
      WorseKeepsTokenInv(RevokeBindings(s, app, user), r);
    }
  }

  lemma AnswerKeepsTokenInv(s: Store, app: App, id: nat, user: nat, approve: bool, now: int)
    requires TokenInv(s)
    ensures TokenInv(Authorize(s, app, id, user, approve, now).0)
  {
    var r := Authorize(s, app, id, user, approve, now).0;
    if r == s {
    } else if approve && UsesManagementFlow(app) {
      UpsertGrantKeepsTokenInv(s, app.id, user, app.defaultScopes);
      SessionsDoNotMatter(s.UpsertGrant(app.id, user, app.defaultScopes), r);
    } else if approve {
      EnsureKeepsTokenInv(s, app, user, s.sessions[id].fingerprint, false, now);
      EnsureElsewhere(s, app, user, s.sessions[id].fingerprint, false, now);
      SessionsDoNotMatter(EnsureForDevice(s, app, user, s.sessions[id].fingerprint, false, now).0, r);
    } else {
      SessionsDoNotMatter(s, r);
    }
  }

  /** Only known session ids are written. */
  lemma SessionsDoNotMatter(s: Store, t: Store)
    requires TokenInv(s) && t == s.(sessions := t.sessions) && t.sessions.Keys <= s.sessions.Keys
    ensures TokenInv(t)
  {
    WorseKeepsTokenInv(s, t);
  }

  lemma NextKeepsTokenInv(s: Store, step: Step)
    requires TokenInv(s)
    ensures TokenInv(Next(s, step))
  {
    hide TokenInv;
    match step
    case Ensure(app, user, fingerprint, rotate, now) => EnsureKeepsTokenInv(s, app, user, fingerprint, rotate, now);
    case Consents(app, user, redirect, requested, challenged, now) =>
      ConsentKeepsTokenInv(s, app, user, redirect, requested, challenged, now);
    case Exchanges(app, id, redirect, proven, users, now) =>
      ExchangeKeepsTokenInv(s, app, id, redirect, proven, users, now);
    case ClientEnsures(c, group, users, usable, rotate, now) =>
      ClientEnsureKeepsTokenInv(s, c, group, users, usable, rotate, now);
    case ClientRotates(c, tokenId, users) => ClientStepsKeepTokenInv(s, c, tokenId, users);
    case ClientRevokes(c, tokenId) => ClientStepsKeepTokenInv(s, c, tokenId, {});
    case DeviceRevokes(d, revokeToken) => DeviceRevokeKeepsTokenInv(s, d, revokeToken);
    case GrantRevokes(app, user) => RevokeGrantKeepsTokenInv(s, app, user);
    case Answer(app, id, user, approve, now) => AnswerKeepsTokenInv(s, app, id, user, approve, now);
    case Start(app, fingerprint, taken, now) => StartKeepsTokenInv(s, app, fingerprint, taken, now);
    case Look(app, id, user, now) => ExpireKeepsTokenInv(s, id);
    case Polls(app, id, row, users, now) => PollKeepsTokenInv(s, app, id, row, users, now);
    case TokenWorsens(id, token) => TokenEventsKeepTokenInv(s, step);
    case TokenDeleted(id) => TokenEventsKeepTokenInv(s, step);
  }

  lemma TokenEventsKeepTokenInv(s: Store, step: Step)
    requires TokenInv(s) && (step.TokenWorsens? || step.TokenDeleted?)
    ensures TokenInv(Next(s, step))
  {
    hide IssuedAttributed, BindingIdsDistinct, BindingsAttributed, OnlyCurrentEnabled;
    match step
    case TokenWorsens(id, token) => WorseKeepsTokenInv(s, Next(s, step));
    case TokenDeleted(id) => WorseKeepsTokenInv(s, Next(s, step));
  }

  lemma StartKeepsTokenInv(s: Store, app: App, fingerprint: string, taken: nat, now: int)
    requires TokenInv(s)
    ensures TokenInv(StartSession(s, app, fingerprint, taken, now).0)
  {
    if StartSession(s, app, fingerprint, taken, now).1.Ok? {
      WorseKeepsTokenInv(s, StartSession(s, app, fingerprint, taken, now).0);
    }
  }

  lemma ExpireKeepsTokenInv(s: Store, id: nat)
    requires TokenInv(s)
    ensures TokenInv(ExpireSession(s, id))
  {
    SessionsDoNotMatter(s, ExpireSession(s, id));
  }

  lemma ReleaseKeepsTokenInv(s: Store, id: nat, credential: Credential)
    requires TokenInv(s) && id in s.sessions
    ensures TokenInv(Release(s, id, credential))
  {
    WorseKeepsTokenInv(s, Release(s, id, credential));
  }

  lemma AddAccessTokenKeepsTokenInv(s: Store, d: Device, grant: Grant, now: int)
    requires TokenInv(s)
    ensures TokenInv(AddAccessToken(s, d, grant, now))
  {
    WorseKeepsTokenInv(s, AddAccessToken(s, d, grant, now));
  }

  lemma PollKeepsTokenInv(s: Store, app: App, id: nat, session: Session, users: set<nat>, now: int)
    requires TokenInv(s)
    ensures TokenInv(Poll(s, app, id, session, users, now).0)
  {
    hide TokenInv, ExpireSession, PollManagement, PollKey;
    ExpireKeepsTokenInv(s, id);
    if (session.app, session.user) in s.grants {
      PollManagementKeepsTokenInv(s, id, session, users, now);
    }
    PollKeyKeepsTokenInv(s, id, session, users);
  }

  lemma PollManagementKeepsTokenInv(s: Store, id: nat, session: Session, users: set<nat>, now: int)
    requires TokenInv(s) && (session.app, session.user) in s.grants
    ensures TokenInv(PollManagement(s, id, session, users, now).0)
  {
    hide TokenInv, Release, AddAccessToken;
    var d, grant := SessionDevice(session), s.grants[(session.app, session.user)];
    AddAccessTokenKeepsTokenInv(s, d, grant, now);
    AddAccessTokenKeepsSessions(s, d, grant, now);
    if Consumable(s, id) {
      ReleaseKeepsTokenInv(AddAccessToken(s, d, grant, now), id, ManagementToken(s.nextId));
    }
  }

  lemma AddAccessTokenKeepsSessions(s: Store, d: Device, grant: Grant, now: int)
    ensures AddAccessToken(s, d, grant, now).sessions == s.sessions
  {
  }

  lemma PollKeyKeepsTokenInv(s: Store, id: nat, session: Session, users: set<nat>)
    requires TokenInv(s)
    ensures TokenInv(PollKey(s, id, session, users).0)
  {
    hide TokenInv, Release;
    if Consumable(s, id) {
      ReleaseKeepsTokenInv(s, id, ApiKey(session.tokenId));
    }
  }
}
