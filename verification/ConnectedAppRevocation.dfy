/** How long the revocation of a grant lasts: over every run without a new approval, and up to the next one. */
module ConnectedAppRevocation {
  import opened ConnectedAppStore
  import opened ConnectedAppRuns
  import opened ConnectedAppSessions
  import opened ConnectedAppCalm
  import opened Text

  // ----- what works -----

  ghost predicate Authorised(s: Store, app: nat, user: nat) {
    (app, user) in s.grants && s.grants[(app, user)].authorized
  }

  ghost predicate GrantHolds(s: Store, app: nat, user: nat, grantId: nat) {
    Authorised(s, app, user) && s.grants[(app, user)].id == grantId
  }

  /** The routes that look at the grant accept a dedicated token while it is enabled and its binding is active under
      an authorised grant; other routes only ask that it is enabled. */
  ghost predicate Accepted(s: Store, i: nat, app: nat, user: nat) {
    && i in s.issued && Of(s.issued[i], app, user) && Live(s, i)
    && forall d | d in s.bindings && s.bindings[d].tokenId == i ::
         s.bindings[d].active && GrantHolds(s, d.app, d.user, s.bindings[d].grantId)
  }

  /** A management token is accepted while it is active and its own grant is authorised; its expiry is set aside. */
  ghost predicate Usable(s: Store, a: nat, app: nat, user: nat) {
    ActiveAccess(s, a, app, user) && GrantHolds(s, app, user, s.accessTokens[a].grantId)
  }

  ghost predicate Works(s: Store, app: nat, user: nat) {
    || (exists i | i in s.issued :: Accepted(s, i, app, user))
    || (exists a | a in s.accessTokens :: Usable(s, a, app, user))
  }

  lemma WorksNeedsGrant(s: Store, app: nat, user: nat)
    requires TokenInv(s) && Works(s, app, user)
    ensures Authorised(s, app, user)
  {
    if i :| i in s.issued && Accepted(s, i, app, user) {
      assert s.HasActive(s.issued[i]) && s.bindings[s.issued[i]].tokenId == i;
    }
  }

  /** The grant is not authorised, and neither an active binding nor an enabled token of (app, user) is left. */
  ghost predicate Revoked(s: Store, app: nat, user: nat) {
    && (app, user) in s.grants && !Authorised(s, app, user)
    && (forall d | d in s.bindings && Of(d, app, user) :: !s.bindings[d].active)
    && NoneEnabledFor(s, app, user)
  }

  ghost predicate NoAccess(s: Store, app: nat, user: nat) {
    forall a | a in s.accessTokens :: !ActiveAccess(s, a, app, user)
  }

  lemma RevocationRevokes(s: Store, app: nat, user: nat)
    requires TokenInv(s) && RevokeGrant(s, app, user).1.Ok?
    ensures var t := RevokeGrant(s, app, user).0;
            TokenInv(t) && Revoked(t, app, user) && NoAccess(t, app, user)
    ensures app > 0 && user > 0
  {
    GrantRevocationIsComplete(s, app, user);
    RevokeGrantKeepsTokenInv(s, app, user);
    assert app > 0 && user > 0 && (app, user) in RevokeGrant(s, app, user).0.grants;
    hide TokenInv, RevokeGrant, NoneEnabledFor;
  }

  // ----- runs without a new approval -----

  /** The client has shown a management token that is accepted now, and carries the scopes that were read. */
  ghost predicate LetIn(s: Store, c: Client) {
    var app, user := c.device.app, c.device.user;
    exists a | a in s.accessTokens ::
      && Usable(s, a, app, user)
      && c.grantId == s.accessTokens[a].grantId && c.tokenScopes == s.accessTokens[a].scopes
      && c.grantScopes == s.grants[(app, user)].scopes
  }

  ghost function LetInNow(s: Store): iset<Client> {
    iset c: Client | LetIn(s, c)
  }

  /** A client's transaction runs some time after the client was let in, with the scope that its route asks for; a
      poll has read its session at some time; and the clock of an exchange is not before `now`. */
  ghost predicate Honest(s: Store, admitted: iset<Client>, step: Step, now: int) {
    match step
    case ClientEnsures(c, _, _, _, _, _) => c in admitted && c.Has(TOKEN_CREATE)
    case ClientRotates(c, _, _) => c in admitted && c.Has(ROTATE_OWN)
    case ClientRevokes(c, _) => c in admitted && c.Has(REVOKE_OWN)
    case Polls(_, id, row, _, _) =>
      row.status == Authorized ==> id in s.sessions && row == s.sessions[id].(status := Authorized)
    case Exchanges(_, _, _, _, _, at) => now <= at
    case _ => true
  }

  /** A run without a new approval; the clients `admitted` were let in before it. */
  ghost predicate QuietRun(s: Store, admitted: iset<Client>, steps: seq<Step>, app: nat, user: nat, now: int)
    decreases |steps|
  {
    steps != [] ==>
      var admittedNow := admitted + LetInNow(s);
      && Honest(s, admittedNow, steps[0], now) && !Approves(steps[0], app, user)
      && QuietRun(Next(s, steps[0]), admittedNow, steps[1..], app, user, now)
  }

  lemma OneStep(s: Store, admitted: iset<Client>, step: Step, app: nat, user: nat, now: int)
    requires !Approves(step, app, user)
    requires Honest(s, iset{}, step, now) || (IsClient(step) && Honest(s, admitted, step, now))
    ensures QuietRun(s, admitted, [step], app, user, now) && Run(s, [step]) == Next(s, step)
  {
    var admittedNow := admitted + LetInNow(s);
    assert Honest(s, admittedNow, step, now);
    assert [step][1..] == [];
    hide Next, Honest, Approves, LetInNow;
    assert QuietRun(Next(s, step), admittedNow, [], app, user, now);
    assert Run(Next(s, step), []) == Next(s, step);
  }

  // ----- codes that were handed out before -----

  /** The exchange trims the address that it is given, so that it must have been stored trimmed. */
  ghost predicate Redeemable(code: Code, now: int) {
    code.pending && now < code.expiresAt && code.redirect != "" && TrimSpace(code.redirect) == code.redirect
  }

  ghost predicate PendingCodeAt(s: Store, id: nat, app: nat, user: nat, now: int) {
    id in s.codes && s.codes[id].app == app && s.codes[id].user == user && Redeemable(s.codes[id], now)
  }

  /** (app, user) has consented to a code that has been neither exchanged nor expired at `now`. */
  ghost predicate PendingCode(s: Store, app: nat, user: nat, now: int) {
    exists id | id in s.codes :: PendingCodeAt(s, id, app, user, now)
  }

  lemma RedeemedIsPending(s: Store, admitted: iset<Client>, step: Step, app: nat, user: nat, now: int)
    requires Redeems(s, step, app, user) && Honest(s, admitted, step, now)
    ensures PendingCode(s, app, user, now)
  {
    ExchangeIs(s, step.app, step.code, step.redirect, step.proven, step.users, step.now);
    hide Exchange;
    assert PendingCodeAt(s, step.code, app, user, now);
  }

  lemma CalmConsentsNothing(s: Store, t: Store, app: nat, user: nat, now: int)
    requires CalmApprovals(s, t, app, user) && PendingCode(t, app, user, now)
    ensures PendingCode(s, app, user, now)
  {
    var id :| id in t.codes && PendingCodeAt(t, id, app, user, now);
    assert PendingCodeAt(s, id, app, user, now);
  }

  // ----- nothing works until the next approval, but for pending codes -----

  lemma NextKeepsUnauthorised(s: Store, admitted: iset<Client>, step: Step, app: nat, user: nat, now: int)
    requires TokenInv(s) && (app, user) in s.grants && !Authorised(s, app, user) && !PendingCode(s, app, user, now)
    requires Honest(s, admitted, step, now) && !Approves(step, app, user)
    ensures var t := Next(s, step);
            TokenInv(t) && (app, user) in t.grants && !Authorised(t, app, user) && !PendingCode(t, app, user, now)
  {
    NextKeepsTokenInv(s, step);
    NextCalmButKeys(s, step, app, user);
    hide Next, TokenInv, Honest, Approves, PendingCode, Redeems, HandsOut, CalmApprovals, CalmAccess;
    if Redeems(s, step, app, user) {
      RedeemedIsPending(s, admitted, step, app, user, now);
    }
    if PendingCode(Next(s, step), app, user, now) {
      CalmConsentsNothing(s, Next(s, step), app, user, now);
    }
  }

  lemma {:induction false} RunKeepsUnauthorised(s: Store, admitted: iset<Client>, steps: seq<Step>, app: nat, user: nat,
                                                now: int)
    requires TokenInv(s) && (app, user) in s.grants && !Authorised(s, app, user) && !PendingCode(s, app, user, now)
    requires QuietRun(s, admitted, steps, app, user, now)
    ensures TokenInv(Run(s, steps)) && !Authorised(Run(s, steps), app, user)
    decreases |steps|
  {
    hide TokenInv, Next, Honest, Approves, PendingCode, Authorised, LetInNow;
    if steps != [] {
      var admittedNow := admitted + LetInNow(s);
      NextKeepsUnauthorised(s, admittedNow, steps[0], app, user, now);
      RunKeepsUnauthorised(Next(s, steps[0]), admittedNow, steps[1..], app, user, now);
    }
  }

  lemma BindHandsOut(s: Store, d: Device, grantId: nat, group: string)
    requires TokenInv(s)
    ensures var t, i := s.Bind(d, grantId, group), s.nextId;
            && t.grants == s.grants && i in t.issued && t.issued[i] == d && Live(t, i)
            && t.HasActive(d) && t.bindings[d].tokenId == i && t.bindings[d].grantId == grantId
  {
    BindEffect(s, d, grantId, group);
    hide TokenInv, Store.Bind;
  }

  /** What a key issue leaves. */
  lemma OAuthIssues(s: Store, a: App, user: nat, scopes: set<string>)
    requires TokenInv(s) && a.id > 0 && user > 0
    ensures var (t, r) := IssueForOAuth(s, a, user, scopes, "oauth-web");
            var d := Device(a.id, user, "oauth-web");
            && r.Ok? && Authorised(t, a.id, user)
            && r.value.tokenId in t.issued && t.issued[r.value.tokenId] == d && Live(t, r.value.tokenId)
            && t.HasActive(d) && t.bindings[d].grantId == t.grants[(a.id, user)].id
  {
    hide TokenInv, NoneEnabled, Store.Bind;
    var granted := if scopes == {} then a.defaultScopes else scopes;
    var u := s.UpsertGrant(a.id, user, granted);
    var d := Device(a.id, user, "oauth-web");
    UpsertedGrant(s, a.id, user, granted);
    DisableCurrentKeepsTokenInv(u, d);
    BindHandsOut(u.DisableCurrent(d), d, u.grants[(a.id, user)].id, "");
    assert u.DisableCurrent(d).nextId == u.nextId && u.DisableCurrent(d).grants == u.grants;
    hide Store.DisableCurrent, Store.UpsertGrant, Live, Store.HasActive;
  }

  lemma UpsertedGrant(s: Store, app: nat, user: nat, scopes: set<string>)
    requires TokenInv(s)
    ensures var u := s.UpsertGrant(app, user, scopes);
            TokenInv(u) && u.grants[(app, user)].id > 0 && Authorised(u, app, user)
  {
    UpsertGrantKeepsTokenInv(s, app, user, scopes);
  }

  lemma OnlyBinding(t: Store, i: nat, app: nat, user: nat)
    requires TokenInv(t) && i in t.issued && Of(t.issued[i], app, user) && Live(t, i)
    requires GrantHolds(t, app, user, t.bindings[t.issued[i]].grantId)
    ensures Accepted(t, i, app, user)
  {
    forall d | d in t.bindings && t.bindings[d].tokenId == i
      ensures t.bindings[d].active && GrantHolds(t, d.app, d.user, t.bindings[d].grantId)
    {
      assert t.issued[i] == d;
    }
  }

  function LateExchange(s: Store, id: nat, now: int): Step
    requires id in s.codes
  {
    var code := s.codes[id];
    Exchanges(App(code.app, true, {}, {}, "", true, {code.redirect}), id, code.redirect, true, {code.user}, now)
  }

  lemma LateExchangeIs(s: Store, id: nat, now: int)
    requires id in s.codes && Redeemable(s.codes[id], now)
    ensures var code, step := s.codes[id], LateExchange(s, id, now);
            var (t, r) := IssueForOAuth(Used(s, id), step.app, code.user, code.scopes, "oauth-web");
            r.Ok? ==> Next(s, step) == t
  {
    hide IssueForOAuth;
  }

  /** The run that shows it: the app exchanges a code that the user consented to before the revocation. */
  lemma LateExchangeWorks(s: Store, id: nat, app: nat, user: nat, now: int)
    requires TokenInv(s) && PendingCodeAt(s, id, app, user, now) && app > 0 && user > 0
    ensures var step := LateExchange(s, id, now);
            Honest(s, iset{}, step, now) && !Approves(step, app, user) && Works(Next(s, step), app, user)
  {
    var step := LateExchange(s, id, now);
    var t := Next(s, step);
    LateExchangeIs(s, id, now);
    UsedKeepsTokenInv(s, id);
    NextKeepsTokenInv(s, step);
    hide TokenInv, Next, IssueForOAuth, Redeemable;
    OAuthIssues(Used(s, id), step.app, user, s.codes[id].scopes);
    var i := IssueForOAuth(Used(s, id), step.app, user, s.codes[id].scopes, "oauth-web").1.value.tokenId;
    OnlyBinding(t, i, app, user);
  }

  ghost predicate ExchangesIt(s: Store, step: Step, id: nat, now: int) {
    && step.Exchanges? && step.code == id && now <= step.now
    && Exchange(s, step.app, id, step.redirect, step.proven, step.users, step.now).1.Ok?
  }

  /** A code can be exchanged at `now` or later if and only if it is pending, has not expired and was stored with a
      trimmed address; one that was sent with blanks around it fits no exchange. */
  lemma RedeemableIsExact(s: Store, id: nat, now: int)
    requires TokenInv(s) && id in s.codes && s.codes[id].app > 0 && s.codes[id].user > 0
    ensures (exists step :: ExchangesIt(s, step, id, now)) <==> Redeemable(s.codes[id], now)
  {
    if step :| ExchangesIt(s, step, id, now) {
      ExchangeIs(s, step.app, id, step.redirect, step.proven, step.users, step.now);
      hide Exchange, TokenInv;
    } else if Redeemable(s.codes[id], now) {
      LateExchangeSucceeds(s, id, now);
      assert ExchangesIt(s, LateExchange(s, id, now), id, now);
    }
  }

  lemma LateExchangeSucceeds(s: Store, id: nat, now: int)
    requires TokenInv(s) && id in s.codes && s.codes[id].app > 0 && s.codes[id].user > 0
    requires Redeemable(s.codes[id], now)
    ensures ExchangesIt(s, LateExchange(s, id, now), id, now)
  {
    var code, step := s.codes[id], LateExchange(s, id, now);
    UsedKeepsTokenInv(s, id);
    OAuthIssues(Used(s, id), step.app, code.user, code.scopes);
    hide TokenInv, IssueForOAuth, TrimSpace;
  }

  ghost predicate WorksAfter(s: Store, admitted: iset<Client>, steps: seq<Step>, app: nat, user: nat, now: int) {
    QuietRun(s, admitted, steps, app, user, now) && Works(Run(s, steps), app, user)
  }

  /** After a revocation something of (app, user) is accepted under its grant again in a run without a new approval,
      if and only if a code that the user consented to before is still pending. Requests that were let in before make
      no difference to that. */
  lemma RevocationHolds(s: Store, admitted: iset<Client>, app: nat, user: nat, now: int)
    requires TokenInv(s) && RevokeGrant(s, app, user).1.Ok?
    ensures var t := RevokeGrant(s, app, user).0;
            (exists steps :: WorksAfter(t, admitted, steps, app, user, now)) <==> PendingCode(t, app, user, now)
  {
    var t := RevokeGrant(s, app, user).0;
    RevocationRevokes(s, app, user);
    assert (app, user) in t.grants && !Authorised(t, app, user);
    hide *;
    if PendingCode(t, app, user, now) {
      PendingCodeWorks(t, admitted, app, user, now);
    } else if steps :| WorksAfter(t, admitted, steps, app, user, now) {
      NothingElseWorks(t, admitted, steps, app, user, now);
    }
  }

  lemma PendingCodeWorks(s: Store, admitted: iset<Client>, app: nat, user: nat, now: int)
    requires TokenInv(s) && app > 0 && user > 0 && PendingCode(s, app, user, now)
    ensures exists steps :: WorksAfter(s, admitted, steps, app, user, now)
  {
    var id :| id in s.codes && PendingCodeAt(s, id, app, user, now);
    LateExchangeWorks(s, id, app, user, now);
    hide TokenInv, LateExchange, Next, Honest, Approves, Works, QuietRun, Run;
    OneStep(s, admitted, LateExchange(s, id, now), app, user, now);
    assert WorksAfter(s, admitted, [LateExchange(s, id, now)], app, user, now);
  }

  lemma NothingElseWorks(s: Store, admitted: iset<Client>, steps: seq<Step>, app: nat, user: nat, now: int)
    requires TokenInv(s) && (app, user) in s.grants && !Authorised(s, app, user)
    requires WorksAfter(s, admitted, steps, app, user, now)
    ensures PendingCode(s, app, user, now)
  {
    hide TokenInv, Works, Authorised, PendingCode, QuietRun, Run;
    WorksAfterIs(s, admitted, steps, app, user, now);
    if !PendingCode(s, app, user, now) {
      RunKeepsUnauthorised(s, admitted, steps, app, user, now);
      WorksNeedsGrant(Run(s, steps), app, user);
    }
  }

  lemma WorksAfterIs(s: Store, admitted: iset<Client>, steps: seq<Step>, app: nat, user: nat, now: int)
    requires WorksAfter(s, admitted, steps, app, user, now)
    ensures QuietRun(s, admitted, steps, app, user, now) && Works(Run(s, steps), app, user)
  {
  }

  // ----- rows that come back -----

  /** A client that may ask for a dedicated token of (app, user). */
  ghost predicate MayEnsure(c: Client, app: nat, user: nat) {
    Of(c.device, app, user) && c.Has(TOKEN_CREATE) && BindingComplete(c.device, c.grantId)
  }

  /** A request of such a client was let in before and has not run yet. */
  ghost predicate Waiting(admitted: iset<Client>, app: nat, user: nat) {
    exists c | c in admitted :: MayEnsure(c, app, user)
  }

  /** Without an authorised grant no further client of (app, user) is let in. */
  lemma NobodyElseIsLetIn(s: Store, admitted: iset<Client>, app: nat, user: nat)
    requires !Authorised(s, app, user) && !Waiting(admitted, app, user)
    ensures !Waiting(admitted + LetInNow(s), app, user)
  {
  }

  /** With no binding left, all that a client can do is to ask for a new token. */
  lemma ClientFindsNothing(s: Store, admitted: iset<Client>, step: Step, app: nat, user: nat, now: int)
    requires Revoked(s, app, user) && SpeaksFor(step, app, user) && Honest(s, admitted, step, now)
    requires !Waiting(admitted, app, user)
    ensures Next(s, step) == s
  {
    var c := step.client;
    assert !s.HasActive(c.device);
    assert !MayEnsure(c, app, user);
    hide Store.Issue, TrimSpace, NoneEnabledFor;
  }

  lemma NextKeepsRevoked(s: Store, admitted: iset<Client>, step: Step, app: nat, user: nat, now: int)
    requires TokenInv(s) && Revoked(s, app, user) && !PendingCode(s, app, user, now)
    requires !Waiting(admitted, app, user)
    requires Honest(s, admitted, step, now) && !Approves(step, app, user)
    ensures var t := Next(s, step); Revoked(t, app, user) && !PendingCode(t, app, user, now)
  {
    assert (app, user) in s.grants;
    if SpeaksFor(step, app, user) {
      ClientFindsNothing(s, admitted, step, app, user, now);
      hide Next, TokenInv, Revoked, PendingCode;
    } else {
      hide Next, TokenInv, Honest, Approves, PendingCode, Redeems, HandsOut, CalmAccess, SpeaksFor, Waiting;
      if Redeems(s, step, app, user) {
        RedeemedIsPending(s, admitted, step, app, user, now);
      }
      NextCalm(s, step, app, user);
      CalmKeepsRevoked(s, Next(s, step), app, user);
      if PendingCode(Next(s, step), app, user, now) {
        CalmConsentsNothing(s, Next(s, step), app, user, now);
      }
    }
  }

  lemma CalmKeepsRevoked(s: Store, t: Store, app: nat, user: nat)
    requires Revoked(s, app, user) && Calm(s, t, app, user)
    ensures Revoked(t, app, user)
  {
    hide CalmApprovals;
  }

  lemma {:induction false} RunKeepsRevoked(s: Store, admitted: iset<Client>, steps: seq<Step>, app: nat, user: nat,
                                           now: int)
    requires TokenInv(s) && Revoked(s, app, user) && !PendingCode(s, app, user, now)
    requires !Waiting(admitted, app, user) && QuietRun(s, admitted, steps, app, user, now)
    ensures Revoked(Run(s, steps), app, user)
    decreases |steps|
  {
    assert !Authorised(s, app, user);
    hide TokenInv, Next, Honest, Approves, PendingCode, Revoked, LetInNow, Waiting, Authorised;
    if steps != [] {
      var admittedNow := admitted + LetInNow(s);
      NobodyElseIsLetIn(s, admitted, app, user);
      NextKeepsTokenInv(s, steps[0]);
      NextKeepsRevoked(s, admittedNow, steps[0], app, user, now);
      RunKeepsRevoked(Next(s, steps[0]), admittedNow, steps[1..], app, user, now);
    }
  }

  function LateEnsure(c: Client): Step {
    ClientEnsures(c, "", {c.device.user}, {}, false, 0)
  }

  /** The run that shows it: a request that was let in before the revocation leaves an enabled token and an active
      binding behind it, while the grant stays as it is. */
  lemma LateEnsureBinds(s: Store, c: Client, app: nat, user: nat)
    requires TokenInv(s) && Revoked(s, app, user) && MayEnsure(c, app, user)
    ensures var step := LateEnsure(c);
            var t := Next(s, step);
            && Honest(s, iset{c}, step, 0) && !Approves(step, app, user)
            && t.grants == s.grants && t.HasActive(c.device) && t.bindings[c.device].grantId == c.grantId
            && var i := t.bindings[c.device].tokenId; i in t.issued && t.issued[i] == c.device && Live(t, i)
  {
    var step := LateEnsure(c);
    var d := c.device;
    LateEnsureIs(s, c, app, user);
    RetireKeepsTokenInv(s, d);
    BindHandsOut(s.RetireCurrent(d), d, c.grantId, "");
    assert s.RetireCurrent(d).grants == s.grants;
    hide Revoked, TokenInv, NoneEnabled, Store.Bind, Store.RetireCurrent, Next, Live, Store.HasActive;
  }

  lemma LateEnsureIs(s: Store, c: Client, app: nat, user: nat)
    requires Revoked(s, app, user) && MayEnsure(c, app, user)
    ensures Next(s, LateEnsure(c)) == s.Issue(c.device, c.grantId, "")
  {
    assert !s.HasActive(c.device);
    assert TrimSpace("") == "";
    hide Store.Issue, TrimSpace, NoneEnabledFor;
  }

  ghost predicate ComesBack(s: Store, admitted: iset<Client>, steps: seq<Step>, app: nat, user: nat, now: int) {
    QuietRun(s, admitted, steps, app, user, now) && !Revoked(Run(s, steps), app, user)
  }

  /** After a revocation the grant is authorised, a token enabled or a binding active again in a run without a new
      approval, if and only if such a code is pending or such a request was let in before. */
  lemma RowsComeBack(s: Store, admitted: iset<Client>, app: nat, user: nat, now: int)
    requires TokenInv(s) && RevokeGrant(s, app, user).1.Ok?
    ensures var t := RevokeGrant(s, app, user).0;
            (exists steps :: ComesBack(t, admitted, steps, app, user, now))
            <==> PendingCode(t, app, user, now) || Waiting(admitted, app, user)
  {
    var t := RevokeGrant(s, app, user).0;
    RevocationRevokes(s, app, user);
    hide *;
    if PendingCode(t, app, user, now) {
      PendingCodeWorks(t, admitted, app, user, now);
      var steps :| WorksAfter(t, admitted, steps, app, user, now);
      WorkingIsBack(t, admitted, steps, app, user, now);
    } else if Waiting(admitted, app, user) {
      WaitingComesBack(t, admitted, app, user, now);
    } else if steps :| ComesBack(t, admitted, steps, app, user, now) {
      NothingElseComesBack(t, admitted, steps, app, user, now);
    }
  }

  lemma {:induction false} RunKeepsTokenInv(s: Store, steps: seq<Step>)
    requires TokenInv(s)
    ensures TokenInv(Run(s, steps))
    decreases |steps|
  {
    hide TokenInv, Next;
    if steps != [] {
      NextKeepsTokenInv(s, steps[0]);
      RunKeepsTokenInv(Next(s, steps[0]), steps[1..]);
    }
  }

  lemma WorkingIsBack(s: Store, admitted: iset<Client>, steps: seq<Step>, app: nat, user: nat, now: int)
    requires TokenInv(s) && WorksAfter(s, admitted, steps, app, user, now)
    ensures ComesBack(s, admitted, steps, app, user, now)
  {
    RunKeepsTokenInv(s, steps);
    WorksNeedsGrant(Run(s, steps), app, user);
    hide TokenInv, Works, QuietRun, Run;
  }

  lemma WaitingComesBack(s: Store, admitted: iset<Client>, app: nat, user: nat, now: int)
    requires TokenInv(s) && Revoked(s, app, user) && Waiting(admitted, app, user)
    ensures exists steps :: ComesBack(s, admitted, steps, app, user, now)
  {
    var c :| c in admitted && MayEnsure(c, app, user);
    LateEnsureBinds(s, c, app, user);
    assert Honest(s, admitted, LateEnsure(c), now);
    assert !Revoked(Next(s, LateEnsure(c)), app, user);
    hide TokenInv, Next, Honest, Approves, Revoked, QuietRun, Run;
    OneStep(s, admitted, LateEnsure(c), app, user, now);
    assert ComesBack(s, admitted, [LateEnsure(c)], app, user, now);
  }

  lemma NothingElseComesBack(s: Store, admitted: iset<Client>, steps: seq<Step>, app: nat, user: nat, now: int)
    requires TokenInv(s) && Revoked(s, app, user) && ComesBack(s, admitted, steps, app, user, now)
    ensures PendingCode(s, app, user, now) || Waiting(admitted, app, user)
  {
    hide TokenInv, Revoked, PendingCode, Waiting, QuietRun, Run;
    if !PendingCode(s, app, user, now) && !Waiting(admitted, app, user) {
      RunKeepsRevoked(s, admitted, steps, app, user, now);
    }
  }

  // ----- management tokens that come back -----

  ghost predicate OpenSession(s: Store, id: nat, app: nat, user: nat) {
    && id in s.sessions && s.sessions[id].status == Authorized
    && s.sessions[id].app == app && s.sessions[id].user == user
    && TrimSpace(s.sessions[id].fingerprint) != ""
  }

  /** (app, user) has authorised a session of the management flow that no poll has consumed. */
  ghost predicate AnyOpen(s: Store, flows: Flows, app: nat, user: nat) {
    flows(app) && exists id | id in s.sessions :: OpenSession(s, id, app, user)
  }

  lemma OnlyOpenHandsOut(s: Store, admitted: iset<Client>, step: Step, flows: Flows, app: nat, user: nat, now: int)
    requires HandsOut(s, step, app, user) && Honest(s, admitted, step, now) && Fits(step, flows)
    ensures AnyOpen(s, flows, app, user)
  {
    assert OpenSession(s, step.session, app, user);
  }

  lemma CalmOpensNothing(s: Store, t: Store, flows: Flows, app: nat, user: nat)
    requires CalmApprovals(s, t, app, user) && AnyOpen(t, flows, app, user)
    ensures AnyOpen(s, flows, app, user)
  {
    var id :| id in t.sessions && OpenSession(t, id, app, user);
    assert OpenSession(s, id, app, user);
  }

  lemma CalmKeepsNoAccess(s: Store, t: Store, app: nat, user: nat)
    requires NoAccess(s, app, user) && CalmAccess(s, t, app, user)
    ensures NoAccess(t, app, user)
  {
  }

  lemma NextKeepsClosed(s: Store, admitted: iset<Client>, step: Step, flows: Flows, app: nat, user: nat, now: int)
    requires TokenInv(s) && (app, user) in s.grants && Fits(step, flows)
    requires Honest(s, admitted, step, now) && !Approves(step, app, user)
    requires !AnyOpen(s, flows, app, user) && NoAccess(s, app, user)
    ensures (app, user) in Next(s, step).grants
    ensures !AnyOpen(Next(s, step), flows, app, user) && NoAccess(Next(s, step), app, user)
  {
    NextCalmButKeys(s, step, app, user);
    hide Next, TokenInv, Honest, Approves, HandsOut, Redeems, AnyOpen, NoAccess, CalmGrant, CalmApprovals, CalmAccess,
         Fits;
    if HandsOut(s, step, app, user) {
      OnlyOpenHandsOut(s, admitted, step, flows, app, user, now);
    } else {
      CalmKeepsNoAccess(s, Next(s, step), app, user);
      if AnyOpen(Next(s, step), flows, app, user) {
        CalmOpensNothing(s, Next(s, step), flows, app, user);
      }
    }
  }

  lemma {:induction false} RunKeepsClosed(s: Store, admitted: iset<Client>, steps: seq<Step>, flows: Flows, app: nat,
                                          user: nat, now: int)
    requires TokenInv(s) && (app, user) in s.grants && FitAll(steps, flows)
    requires QuietRun(s, admitted, steps, app, user, now)
    requires !AnyOpen(s, flows, app, user) && NoAccess(s, app, user)
    ensures NoAccess(Run(s, steps), app, user)
    decreases |steps|
  {
    hide TokenInv, Next, Honest, Approves, AnyOpen, NoAccess, LetInNow;
    if steps != [] {
      assert Fits(steps[0], flows);
      var admittedNow := admitted + LetInNow(s);
      NextKeepsClosed(s, admittedNow, steps[0], flows, app, user, now);
      NextKeepsTokenInv(s, steps[0]);
      RunKeepsClosed(Next(s, steps[0]), admittedNow, steps[1..], flows, app, user, now);
    }
  }

  function ManagementApp(app: nat): App {
    App(app, true, {TOKEN_CREATE}, {}, "", true, {"/"})
  }

  function LatePoll(s: Store, id: nat): Step
    requires id in s.sessions
  {
    Polls(ManagementApp(s.sessions[id].app), id, s.sessions[id], {s.sessions[id].user}, 0)
  }

  /** The poll of an open session finds the grant's row, although it is not authorised, and releases a token. */
  lemma OpenSessionReleases(s: Store, id: nat, flows: Flows, app: nat, user: nat, now: int)
    requires Inv(s, flows) && OpenSession(s, id, app, user) && flows(app)
    ensures var step, t := LatePoll(s, id), Next(s, LatePoll(s, id));
            && Honest(s, iset{}, step, now) && !Approves(step, app, user) && FitAll([step], flows)
            && (app, user) in s.grants && t.grants == s.grants
            && ActiveAccess(t, s.nextId, app, user)
            && t.accessTokens[s.nextId].device == SessionDevice(s.sessions[id])
            && t.accessTokens[s.nextId].grantId == s.grants[(app, user)].id
  {
    assert SessionSound(s, flows, s.sessions[id]);
    assert UsesManagementFlow(ManagementApp(app));
    hide TokenInv, TrimSpace, Inv;
  }

  ghost predicate LateRelease(s: Store, admitted: iset<Client>, steps: seq<Step>, flows: Flows, app: nat, user: nat,
                              now: int) {
    && FitAll(steps, flows) && QuietRun(s, admitted, steps, app, user, now)
    && !NoAccess(Run(s, steps), app, user)
  }

  lemma RevocationKeepsInv(s: Store, flows: Flows, app: nat, user: nat)
    requires Inv(s, flows)
    ensures Inv(RevokeGrant(s, app, user).0, flows)
  {
    assert Next(s, GrantRevokes(app, user)) == RevokeGrant(s, app, user).0;
    hide Next, Inv, RevokeGrant;
    NextKeepsInv(s, GrantRevokes(app, user), flows);
  }

  /** After a revocation a run without a new approval can release an active management token of (app, user), if and
      only if an authorised session of its management flow has not been polled. */
  lemma LateReleaseIfOpen(s: Store, admitted: iset<Client>, flows: Flows, app: nat, user: nat, now: int)
    requires Inv(s, flows) && RevokeGrant(s, app, user).1.Ok?
    ensures var t := RevokeGrant(s, app, user).0;
            (exists steps :: LateRelease(t, admitted, steps, flows, app, user, now)) <==> AnyOpen(t, flows, app, user)
  {
    var t := RevokeGrant(s, app, user).0;
    assert TokenInv(s);
    RevocationRevokes(s, app, user);
    assert (app, user) in t.grants;
    hide *;
    RevocationKeepsInv(s, flows, app, user);
    if AnyOpen(t, flows, app, user) {
      OpenIsReleased(t, admitted, flows, app, user, now);
    } else if steps :| LateRelease(t, admitted, steps, flows, app, user, now) {
      ReleaseNeedsOpen(t, admitted, steps, flows, app, user, now);
    }
  }

  lemma OpenIsReleased(s: Store, admitted: iset<Client>, flows: Flows, app: nat, user: nat, now: int)
    requires Inv(s, flows) && AnyOpen(s, flows, app, user)
    ensures exists steps :: LateRelease(s, admitted, steps, flows, app, user, now)
  {
    var id :| id in s.sessions && OpenSession(s, id, app, user);
    hide *;
    OneLatePoll(s, admitted, id, flows, app, user, now);
  }

  lemma ReleaseNeedsOpen(s: Store, admitted: iset<Client>, steps: seq<Step>, flows: Flows, app: nat, user: nat,
                         now: int)
    requires TokenInv(s) && (app, user) in s.grants && NoAccess(s, app, user)
    requires LateRelease(s, admitted, steps, flows, app, user, now)
    ensures AnyOpen(s, flows, app, user)
  {
    hide TokenInv, NoAccess, AnyOpen, Run, QuietRun, FitAll;
    if !AnyOpen(s, flows, app, user) {
      RunKeepsClosed(s, admitted, steps, flows, app, user, now);
    }
  }

  /** The run that shows it: one poll of an open session. */
  lemma OneLatePoll(s: Store, admitted: iset<Client>, id: nat, flows: Flows, app: nat, user: nat, now: int)
    requires Inv(s, flows) && OpenSession(s, id, app, user) && flows(app)
    ensures LateRelease(s, admitted, [LatePoll(s, id)], flows, app, user, now)
  {
    OpenSessionReleases(s, id, flows, app, user, now);
    hide Inv, OpenSession, LatePoll, Next, Honest, Approves, FitAll, QuietRun, Run, ActiveAccess;
    OneStep(s, admitted, LatePoll(s, id), app, user, now);
  }

  // ----- and the next approval -----

  /** No approval hands out a management token or takes one back. */
  lemma ApprovalKeepsAccess(s: Store, step: Step, app: nat, user: nat)
    requires Approves(step, app, user)
    ensures Next(s, step).accessTokens == s.accessTokens
  {
    hide EnsureForDevice, UsesManagementFlow, ConsentScopes, RedirectAllowed;
    match step
    case Ensure(a, u, fingerprint, rotate, now) => EnsureElsewhere(s, a, u, fingerprint, rotate, now);
    case Consents(a, u, redirect, requested, challenged, now) =>
    case Answer(a, id, u, approve, now) =>
      if id in s.sessions {
        EnsureElsewhere(s, a, u, s.sessions[id].fingerprint, false, now);
      }
  }

  ghost predicate Revived(s: Store, admitted: iset<Client>, steps: seq<Step>, approval: Step, flows: Flows, app: nat,
                          user: nat, now: int) {
    && FitAll(steps, flows) && QuietRun(s, admitted, steps, app, user, now)
    && Approves(approval, app, user)
    && var t := Next(Run(s, steps), approval); exists a | a in t.accessTokens :: Usable(t, a, app, user)
  }

  /** The user consents in the browser. */
  function WebConsent(app: nat, user: nat): Step {
    Consents(ManagementApp(app), user, "/", {}, true, 0)
  }

  lemma ConsentAuthorises(s: Store, app: nat, user: nat)
    requires (app, user) in s.grants && app > 0 && user > 0
    ensures var t := Next(s, WebConsent(app, user));
            && GrantHolds(t, app, user, s.grants[(app, user)].id)
            && t.accessTokens == s.accessTokens && t.tokens == s.tokens
            && t.bindings == s.bindings && t.issued == s.issued
    ensures Approves(WebConsent(app, user), app, user)
  {
    assert TrimSpace("/") == "/";
    hide TrimSpace;
  }

  /** A management token from before the revocation is accepted after the next approval, if and only if such a
      session was left; nobody has approved its device again. */
  lemma RevivedIfOpen(s: Store, admitted: iset<Client>, flows: Flows, app: nat, user: nat, now: int)
    requires Inv(s, flows) && RevokeGrant(s, app, user).1.Ok?
    ensures var t := RevokeGrant(s, app, user).0;
            (exists steps, approval :: Revived(t, admitted, steps, approval, flows, app, user, now))
            <==> AnyOpen(t, flows, app, user)
  {
    assert TokenInv(s);
    RevocationRevokes(s, app, user);
    hide *;
    var t := RevokeGrant(s, app, user).0;
    LateReleaseIfOpen(s, admitted, flows, app, user, now);
    RevocationKeepsInv(s, flows, app, user);
    if AnyOpen(t, flows, app, user) {
      OpenIsRevived(t, admitted, flows, app, user, now);
    } else if steps, approval :| Revived(t, admitted, steps, approval, flows, app, user, now) {
      RevivedIsReleased(t, admitted, steps, approval, flows, app, user, now);
    }
  }

  lemma OpenIsRevived(s: Store, admitted: iset<Client>, flows: Flows, app: nat, user: nat, now: int)
    requires Inv(s, flows) && AnyOpen(s, flows, app, user) && app > 0
    ensures exists steps, approval :: Revived(s, admitted, steps, approval, flows, app, user, now)
  {
    var id :| id in s.sessions && OpenSession(s, id, app, user);
    hide *;
    LatePollRevived(s, admitted, id, flows, app, user, now);
  }

  lemma RevivedIsReleased(s: Store, admitted: iset<Client>, steps: seq<Step>, approval: Step, flows: Flows, app: nat,
                          user: nat, now: int)
    requires Revived(s, admitted, steps, approval, flows, app, user, now)
    ensures LateRelease(s, admitted, steps, flows, app, user, now)
  {
    hide Next, Run, QuietRun, FitAll, Approves;
    var u := Run(s, steps);
    ApprovalKeepsAccess(u, approval, app, user);
    var a :| a in Next(u, approval).accessTokens && Usable(Next(u, approval), a, app, user);
    assert ActiveAccess(u, a, app, user);
  }

  /** The run that shows it: one poll, and a consent in the browser. */
  lemma LatePollRevived(s: Store, admitted: iset<Client>, id: nat, flows: Flows, app: nat, user: nat, now: int)
    requires Inv(s, flows) && OpenSession(s, id, app, user) && flows(app) && app > 0
    ensures Revived(s, admitted, [LatePoll(s, id)], WebConsent(app, user), flows, app, user, now)
  {
    var t := Next(s, LatePoll(s, id));
    assert SessionSound(s, flows, s.sessions[id]);
    OpenSessionReleases(s, id, flows, app, user, now);
    hide Inv, TokenInv, SessionInv, OpenSession, LatePoll, Next, Honest, FitAll, Run, QuietRun, Approves;
    OneStep(s, admitted, LatePoll(s, id), app, user, now);
    ConsentAuthorises(t, app, user);
    assert Usable(Next(t, WebConsent(app, user)), s.nextId, app, user);
  }

  /** The routes that look at the grant do not accept that token at first, but after the next consent, without its
      having been asked for again. */
  lemma LateEnsureRevived(s: Store, c: Client, app: nat, user: nat)
    requires TokenInv(s) && RevokeGrant(s, app, user).1.Ok? && LetIn(s, c) && MayEnsure(c, app, user)
    ensures var t := RevokeGrant(s, app, user).0;
            var u := Next(t, LateEnsure(c));
            && QuietRun(t, iset{c}, [LateEnsure(c)], app, user, 0)
            && u.HasActive(c.device)
            && var i := u.bindings[c.device].tokenId;
               && Live(u, i) && !Accepted(u, i, app, user)
               && Accepted(Next(u, WebConsent(app, user)), i, app, user)
  {
    var t := RevokeGrant(s, app, user).0;
    var u := Next(t, LateEnsure(c));
    RevocationRevokes(s, app, user);
    assert t.grants[(app, user)].id == c.grantId;
    assert !Authorised(t, app, user);
    LateEnsureBinds(t, c, app, user);
    NextKeepsTokenInv(t, LateEnsure(c));
    NextKeepsTokenInv(u, WebConsent(app, user));
    var i := u.bindings[c.device].tokenId;
    hide TokenInv, RevokeGrant, Revoked, Next, Honest, Approves, QuietRun, Run, Accepted;
    OneStep(t, iset{c}, LateEnsure(c), app, user, 0);
    ConsentAuthorises(u, app, user);
    OnlyBinding(Next(u, WebConsent(app, user)), i, app, user);
    if Accepted(u, i, app, user) {
      AcceptedNeedsGrant(u, i, app, user);
    }
  }

  lemma AcceptedNeedsGrant(s: Store, i: nat, app: nat, user: nat)
    requires TokenInv(s) && Accepted(s, i, app, user)
    ensures Authorised(s, app, user)
  {
    assert Works(s, app, user);
    WorksNeedsGrant(s, app, user);
  }
}
