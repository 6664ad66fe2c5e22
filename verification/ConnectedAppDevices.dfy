/** What the transactions on dedicated tokens mean for a device, in the columns of its rows. */
module ConnectedAppDevices {
  import opened ConnectedAppStore
  import opened ConnectedAppRuns
  import opened ConnectedAppSessions
  import opened Text

  /** The device can work with this token now: enabled, neither expired nor out of quota. */
  ghost predicate Works(token: Token, now: int) {
    && token.enabled
    && (token.expiredTime == -1 || now <= token.expiredTime)
    && (token.quotaLimited ==> token.remainQuota > 0)
  }

  /** The device's active binding has a token of the user that works. */
  ghost predicate HasWorking(s: Store, d: Device, now: int) {
    && s.HasActive(d) && s.bindings[d].tokenId in s.tokens
    && s.tokens[s.bindings[d].tokenId].user == d.user && Works(s.tokens[s.bindings[d].tokenId], now)
  }

  /** Everybody else's bindings and tokens. */
  ghost predicate SparesOthers(s: Store, t: Store, d: Device) {
    && (forall e | e in s.bindings && e != d :: e in t.bindings && t.bindings[e] == s.bindings[e])
    && (forall i | i in s.tokens && !(d in s.bindings && s.bindings[d].tokenId == i) ::
          i in t.tokens && t.tokens[i] == s.tokens[i])
  }

  // ----- handing out a new token -----

  /** The device has this new token, and its old one, if any, is disabled. */
  ghost predicate Replaced(s: Store, t: Store, d: Device, grantId: nat, group: string) {
    var i := s.nextId;
    && i !in s.tokens && i !in s.issued
    && t.HasActive(d) && t.bindings[d].tokenId == i && t.bindings[d].grantId == grantId
    && t.issued == s.issued[i := d] && i in t.tokens
    && t.tokens[i] == Token(d.user, true, -1, false, 0, group)
    && (s.HasActive(d) && s.bindings[d].tokenId in s.tokens ==>
          s.bindings[d].tokenId in t.tokens && !t.tokens[s.bindings[d].tokenId].enabled)
    && SparesOthers(s, t, d)
  }

  /** The rows that a replacement writes. */
  ghost predicate Rewrites(s: Store, t: Store, d: Device, grantId: nat, group: string) {
    var i := s.nextId;
    && t.issued == s.issued[i := d]
    && t.tokens == s.DisableCurrent(d).tokens[i := Token(d.user, true, -1, false, 0, group)]
    && d in t.bindings && t.bindings == s.bindings[d := t.bindings[d]]
    && t.bindings[d].active && t.bindings[d].tokenId == i && t.bindings[d].grantId == grantId
  }

  lemma IssueRewrites(s: Store, d: Device, grantId: nat, group: string)
    requires TokenInv(s)
    ensures Rewrites(s, s.Issue(d, grantId, group), d, grantId, group)
  {
    RetireKeepsTokenInv(s, d);
    BindEffect(s.RetireCurrent(d), d, grantId, group);
    hide TokenInv, NoneEnabled, Store.Bind;
  }

  lemma RewriteReplaces(s: Store, t: Store, d: Device, grantId: nat, group: string)
    requires RowsKnown(s) && IssuedAttributed(s) && BindingsAttributed(s) && Rewrites(s, t, d, grantId, group)
    ensures Replaced(s, t, d, grantId, group)
  {
    assert s.nextId !in s.tokens && s.nextId !in s.issued;
    if s.HasActive(d) && s.bindings[d].tokenId in s.tokens {
      assert s.issued[s.bindings[d].tokenId] == d;
      assert s.tokens[s.bindings[d].tokenId].user == d.user;
    }
    hide RowsKnown, BindingsAttributed, IssuedAttributed, SparesOthers;
    RewriteSpares(s, t, d, grantId, group);
  }

  lemma RewriteSpares(s: Store, t: Store, d: Device, grantId: nat, group: string)
    requires s.nextId !in s.tokens && Rewrites(s, t, d, grantId, group)
    ensures SparesOthers(s, t, d)
  {
  }

  lemma IssueReplaces(s: Store, d: Device, grantId: nat, group: string)
    requires TokenInv(s)
    ensures Replaced(s, s.Issue(d, grantId, group), d, grantId, group)
  {
    IssueRewrites(s, d, grantId, group);
    hide RowsKnown, IssuedAttributed, BindingsAttributed, Rewrites, Replaced, BindingIdsDistinct, OnlyCurrentEnabled,
         Store.Issue;
    RewriteReplaces(s, s.Issue(d, grantId, group), d, grantId, group);
  }

  /** What the device has after a replacement. */
  lemma ReplacedWorks(s: Store, t: Store, d: Device, grantId: nat, group: string, now: int)
    requires Replaced(s, t, d, grantId, group)
    ensures HasWorking(t, d, now) && t.bindings[d].tokenId == s.nextId
    ensures s.nextId !in s.tokens && s.nextId !in s.issued
  {
  }

  // ----- the user's own ensure -----

  ghost predicate Kept(s: Store, t: Store, d: Device, reply: Issued) {
    && s.HasActive(d) && reply == Issued(s.bindings[d].tokenId, false, false)
    && t.bindings == s.bindings && t.issued == s.issued
  }

  ghost predicate MadeNew(s: Store, t: Store, reply: Issued) {
    reply.tokenId in t.tokens && reply.tokenId !in s.tokens && reply.tokenId !in s.issued
  }

  lemma GrantKeepsDevices(s: Store, app: nat, user: nat, scopes: set<string>, d: Device, now: int)
    ensures var t := s.UpsertGrant(app, user, scopes);
            && t.bindings == s.bindings && t.tokens == s.tokens && t.issued == s.issued
            && (HasWorking(t, d, now) <==> HasWorking(s, d, now))
  {
  }

  lemma NamingKeepsWorking(s: Store, d: Device, group: string, now: int)
    requires HasWorking(s, d, now)
    ensures var t := s.SetTokenGroup(s.bindings[d].tokenId, group);
            HasWorking(t, d, now) && t.bindings == s.bindings && t.issued == s.issued
  {
    hide TrimSpace;
  }

  /** The cases of an ensure, in the columns of the token. */
  lemma EnsureCases(s: Store, app: App, user: nat, fingerprint: string, rotate: bool, now: int)
    ensures var d, t := Device(app.id, user, fingerprint), s.UpsertGrant(app.id, user, app.defaultScopes);
            var group := TrimSpace(app.tokenGroup);
            var r := EnsureForDevice(s, app, user, fingerprint, rotate, now);
            if !app.enabled || app.id == 0 || user == 0 then r.0 == s && r.1.Fail?
            else if HasWorking(t, d, now) && !rotate
            then r == (t.SetTokenGroup(t.bindings[d].tokenId, group), Ok(Issued(t.bindings[d].tokenId, false, false)))
            else r == IssueChecked(s, t, d, t.grants[(app.id, user)].id, group,
                                   Issued(t.nextId, true, rotate && t.HasActive(d)))
  {
    hide TrimSpace, IssueChecked, Store.SetTokenGroup;
  }

  /** An ensure succeeds for an enabled app, unless it has to make a token for a device without a name; a token that
      works is kept unless a rotation is asked for, and any other is replaced. */
  lemma EnsureEffect(s: Store, app: App, user: nat, fingerprint: string, rotate: bool, now: int)
    requires TokenInv(s)
    ensures var (t, r) := EnsureForDevice(s, app, user, fingerprint, rotate, now);
            var d := Device(app.id, user, fingerprint);
            var kept := HasWorking(s, d, now) && !rotate;
            && (r.Ok? <==> app.enabled && app.id > 0 && user > 0 && (fingerprint != "" || kept))
            && (r.Fail? ==> t == s)
            && (r.Ok? ==>
                  && HasWorking(t, d, now) && r.value.tokenId == t.bindings[d].tokenId
                  && (if kept then Kept(s, t, d, r.value) else MadeNew(s, t, r.value) && r.value.created)
                  && (r.value.rotated <==> rotate && s.HasActive(d)))
  {
    var t := s.UpsertGrant(app.id, user, app.defaultScopes);
    var d, group := Device(app.id, user, fingerprint), TrimSpace(app.tokenGroup);
    UpsertGrantKeepsTokenInv(s, app.id, user, app.defaultScopes);
    EnsureCases(s, app, user, fingerprint, rotate, now);
    assert t.grants[(app.id, user)].id > 0;
    hide TokenInv, Replaced, TrimSpace, EnsureForDevice, Works;
    GrantKeepsDevices(s, app.id, user, app.defaultScopes, d, now);
    IssueReplaces(t, d, t.grants[(app.id, user)].id, group);
    ReplacedWorks(t, t.Issue(d, t.grants[(app.id, user)].id, group), d, t.grants[(app.id, user)].id, group, now);
    hide Store.Issue, Store.UpsertGrant, Store.SetTokenGroup;
    if HasWorking(t, d, now) {
      NamingKeepsWorking(t, d, group, now);
    }
  }

  /** The app's group is given to the token, new or kept; without one a kept token keeps its own. */
  lemma EnsureNamesGroup(s: Store, app: App, user: nat, fingerprint: string, rotate: bool, now: int)
    requires TokenInv(s) && EnsureForDevice(s, app, user, fingerprint, rotate, now).1.Ok?
    ensures var t, d := EnsureForDevice(s, app, user, fingerprint, rotate, now).0, Device(app.id, user, fingerprint);
            var group := TrimSpace(app.tokenGroup);
            && t.HasActive(d) && t.bindings[d].tokenId in t.tokens
            && (HasWorking(s, d, now) && !rotate && group == "" ==>
                  OldGroup(t, d) == TrimSpace(s.tokens[s.bindings[d].tokenId].group))
            && (group != "" || !HasWorking(s, d, now) || rotate ==> OldGroup(t, d) == group)
  {
    var u := s.UpsertGrant(app.id, user, app.defaultScopes);
    var d, group := Device(app.id, user, fingerprint), TrimSpace(app.tokenGroup);
    UpsertGrantKeepsTokenInv(s, app.id, user, app.defaultScopes);
    EnsureCases(s, app, user, fingerprint, rotate, now);
    hide TokenInv, TrimSpace, EnsureForDevice, Works;
    GrantKeepsDevices(s, app.id, user, app.defaultScopes, d, now);
    IssueHere(u, d, u.grants[(app.id, user)].id, group, now);
    hide Store.Issue, Store.UpsertGrant, HasWorking, Live;
    if HasWorking(u, d, now) && !rotate {
      NamedGroup(u, d, group, now);
    }
  }

  lemma NamedGroup(s: Store, d: Device, group: string, now: int)
    requires HasWorking(s, d, now) && TrimSpace(group) == group
    ensures var t := s.SetTokenGroup(s.bindings[d].tokenId, group);
            && t.bindings == s.bindings && t.HasActive(d) && t.bindings[d].tokenId in t.tokens
            && OldGroup(t, d) == if group == "" then TrimSpace(s.tokens[s.bindings[d].tokenId].group) else group
  {
    hide TrimSpace;
  }

  /** The grant is authorised with the app's default scopes; nobody else's grant changes. */
  lemma EnsureGrants(s: Store, app: App, user: nat, fingerprint: string, rotate: bool, now: int)
    requires EnsureForDevice(s, app, user, fingerprint, rotate, now).1.Ok?
    ensures var t := EnsureForDevice(s, app, user, fingerprint, rotate, now).0;
            && (app.id, user) in t.grants
            && t.grants == s.grants[(app.id, user) := t.grants[(app.id, user)]]
            && t.grants[(app.id, user)].authorized && t.grants[(app.id, user)].scopes == app.defaultScopes
            && ((app.id, user) in s.grants ==> t.grants[(app.id, user)].id == s.grants[(app.id, user)].id)
  {
    var u := s.UpsertGrant(app.id, user, app.defaultScopes);
    EnsureCases(s, app, user, fingerprint, rotate, now);
    IssueElsewhere(u, Device(app.id, user, fingerprint), u.grants[(app.id, user)].id, TrimSpace(app.tokenGroup));
    hide TrimSpace, EnsureForDevice, HasWorking, Store.Issue;
  }

  // ----- a client's ensure -----

  function OldGroup(s: Store, d: Device): string
    requires s.HasActive(d) && s.bindings[d].tokenId in s.tokens
  {
    TrimSpace(s.tokens[s.bindings[d].tokenId].group)
  }

  /** The group that an ensure asks for: a rotation without a group keeps the old one. */
  function Wanted(s: Store, d: Device, requested: string, rotate: bool): string
    requires s.HasActive(d) ==> s.bindings[d].tokenId in s.tokens
  {
    if s.HasActive(d) && rotate && TrimSpace(requested) == "" then OldGroup(s, d) else TrimSpace(requested)
  }

  /** The rights that an ensure needs: a rotation has its scope, and so has a change of the token's group; the group
      must be open to the user. */
  ghost predicate MayEnsureToken(s: Store, c: Client, requested: string, usable: set<string>, rotate: bool) {
    var d := c.device;
    && (s.HasActive(d) ==>
          && s.bindings[d].tokenId in s.tokens && s.tokens[s.bindings[d].tokenId].user == d.user
          && (rotate ==> "token.rotate.own" in c.tokenScopes && "token.rotate.own" in c.grantScopes)
          && (TrimSpace(requested) != "" && TrimSpace(requested) != OldGroup(s, d) ==>
                "token.group.update" in c.tokenScopes && "token.group.update" in c.grantScopes))
    && (Wanted(s, d, requested, rotate) != "" ==> Wanted(s, d, requested, rotate) in usable)
  }

  lemma GroupAllowed(s: Store, c: Client, requested: string, usable: set<string>, rotate: bool)
    ensures var r := EnsureGroup(s, c, TrimSpace(requested), rotate);
            && (r.Ok? && (r.value == "" || r.value in usable) <==> MayEnsureToken(s, c, requested, usable, rotate))
            && (r.Ok? ==>
                  && (s.HasActive(c.device) ==> s.HasToken(s.bindings[c.device].tokenId, c.device.user))
                  && r.value == Wanted(s, c.device, requested, rotate))
  {
    hide TrimSpace;
  }

  lemma ClientEnsureCases(s: Store, c: Client, requested: string, users: set<nat>, usable: set<string>, rotate: bool,
                          now: int)
    requires c.device.user in users && MayEnsureToken(s, c, requested, usable, rotate)
    ensures var d, group := c.device, Wanted(s, c.device, requested, rotate);
            var r := ClientEnsure(s, c, requested, users, usable, rotate, now);
            && (s.HasActive(d) ==> s.HasToken(s.bindings[d].tokenId, d.user))
            && if HasWorking(s, d, now) && !rotate
            then r == (s.SetTokenGroup(s.bindings[d].tokenId, group), Ok(Issued(s.bindings[d].tokenId, false, false)))
            else
              var t := if s.HasActive(d) && !rotate then s.SetTokenGroup(s.bindings[d].tokenId, group) else s;
              r == IssueChecked(s, t, d, c.grantId, group, Issued(s.nextId, !s.HasActive(d), s.HasActive(d)))
  {
    GroupAllowed(s, c, requested, usable, rotate);
    hide TrimSpace, IssueChecked, EnsureGroup, MayEnsureToken, Wanted;
  }

  lemma NamedRows(s: Store, id: nat, group: string)
    requires TokenInv(s) && id in s.tokens
    ensures var t := s.SetTokenGroup(id, group);
            && TokenInv(t) && t.bindings == s.bindings && t.issued == s.issued && t.nextId == s.nextId
            && t.tokens.Keys == s.tokens.Keys
  {
    GroupKeepsTokenInv(s, id, group);
    hide TokenInv, TrimSpace;
  }

  /** A client's ensure succeeds if and only if the user exists, the client has the rights, and there is a token to
      keep or a complete device and grant to make one for. Then the device has a token that works: the old one, if
      that works and no rotation is asked for, and a new one otherwise. */
  lemma ClientEnsureEffect(s: Store, c: Client, requested: string, users: set<nat>, usable: set<string>, rotate: bool,
                           now: int)
    requires TokenInv(s)
    ensures var (t, r) := ClientEnsure(s, c, requested, users, usable, rotate, now);
            var d := c.device;
            var kept := HasWorking(s, d, now) && !rotate;
            && (r.Ok? <==>
                  && d.user in users && MayEnsureToken(s, c, requested, usable, rotate)
                  && (kept || (d.app > 0 && d.user > 0 && c.grantId > 0 && d.fingerprint != "")))
            && (r.Fail? ==> t == s)
            && (r.Ok? ==>
                  && HasWorking(t, d, now) && r.value.tokenId == t.bindings[d].tokenId
                  && if kept then Kept(s, t, d, r.value)
                     else && MadeNew(s, t, r.value)
                          && t.tokens[r.value.tokenId].group == Wanted(s, d, requested, rotate)
                          && (r.value.created <==> !s.HasActive(d)) && (r.value.rotated <==> s.HasActive(d)))
  {
    var d := c.device;
    if d.user in users && MayEnsureToken(s, c, requested, usable, rotate) {
      GroupAllowed(s, c, requested, usable, rotate);
      ClientEnsureCases(s, c, requested, users, usable, rotate, now);
      hide TokenInv, Replaced, TrimSpace, ClientEnsure, Works, MayEnsureToken, Wanted, EnsureGroup, Store.SetTokenGroup;
      var group := Wanted(s, d, requested, rotate);
      IssueHere(s, d, c.grantId, group, now);
      if s.HasActive(d) {
        NamedRows(s, s.bindings[d].tokenId, group);
        IssueHere(s.SetTokenGroup(s.bindings[d].tokenId, group), d, c.grantId, group, now);
        if HasWorking(s, d, now) {
          NamingKeepsWorking(s, d, group, now);
        }
      }
    } else {
      ClientEnsureRefused(s, c, requested, users, usable, rotate, now);
      hide ClientEnsure, TokenInv, MayEnsureToken;
    }
  }

  lemma IssueHere(s: Store, d: Device, grantId: nat, group: string, now: int)
    requires TokenInv(s)
    ensures var t := s.Issue(d, grantId, group);
            && HasWorking(t, d, now) && t.bindings[d].tokenId == s.nextId && t.tokens[s.nextId].group == group
            && s.nextId !in s.tokens && s.nextId !in s.issued
  {
    IssueReplaces(s, d, grantId, group);
    ReplacedWorks(s, s.Issue(d, grantId, group), d, grantId, group, now);
    hide TokenInv, Store.Issue, HasWorking;
  }

  lemma ClientEnsureRefused(s: Store, c: Client, requested: string, users: set<nat>, usable: set<string>, rotate: bool,
                            now: int)
    requires !(c.device.user in users && MayEnsureToken(s, c, requested, usable, rotate))
    ensures var (t, r) := ClientEnsure(s, c, requested, users, usable, rotate, now); r.Fail? && t == s
  {
    GroupAllowed(s, c, requested, usable, rotate);
    hide TrimSpace, IssueChecked, EnsureGroup, MayEnsureToken, Wanted, Store.SetTokenGroup;
  }

  // ----- rotating and revoking -----

  /** The device's own current token, which exists. */
  ghost predicate Owns(s: Store, d: Device, tokenId: nat) {
    && d in s.bindings && s.bindings[d].active && s.bindings[d].tokenId == tokenId
    && tokenId in s.tokens && s.tokens[tokenId].user == d.user
  }

  /** A rotation succeeds for the device's own token: that one is disabled, and a new one of the same group is the
      device's from now on. */
  lemma ClientRotateEffect(s: Store, c: Client, tokenId: nat, users: set<nat>)
    requires TokenInv(s)
    ensures var (t, r) := ClientRotate(s, c, tokenId, users);
            var d := c.device;
            && (r.Ok? <==>
                  && d.user in users && Owns(s, d, tokenId)
                  && d.app > 0 && d.user > 0 && c.grantId > 0 && d.fingerprint != "")
            && (r.Fail? ==> t == s)
            && (r.Ok? ==> Replaced(s, t, d, c.grantId, TrimSpace(s.tokens[tokenId].group))
                          && r.value == Issued(s.nextId, false, true))
  {
    hide TokenInv, TrimSpace, Store.Issue, Replaced;
    if Owns(s, c.device, tokenId) {
      IssueReplaces(s, c.device, c.grantId, TrimSpace(s.tokens[tokenId].group));
    }
  }

  /** A client revokes its own token: the token is disabled, its binding inactive, and nothing else changes. */
  lemma ClientRevokeEffect(s: Store, c: Client, tokenId: nat)
    ensures var (t, r) := ClientRevoke(s, c, tokenId);
            && (r.Ok? <==> Owns(s, c.device, tokenId))
            && (r.Fail? ==> t == s)
            && (r.Ok? ==>
                  && r.value == Issued(tokenId, false, false)
                  && t == s.(bindings := s.bindings[c.device := s.bindings[c.device].(active := false)],
                             tokens := s.tokens[tokenId := s.tokens[tokenId].(enabled := false)]))
  {
  }

  /** A device revocation ends exactly the management tokens of the app and user that name the device as it is
      written without blanks around it, or all of theirs if that is empty; the dedicated token goes with its binding
      if that is asked for. Everything else stays. */
  lemma DeviceRevokeEffect(s: Store, d: Device, revokeToken: bool)
    ensures var t := DeviceRevoke(s, d, revokeToken);
            && t.accessTokens.Keys == s.accessTokens.Keys
            && (forall a | a in s.accessTokens ::
                  var row := s.accessTokens[a];
                  t.accessTokens[a] ==
                    if row.device.app == d.app && row.device.user == d.user
                       && (TrimSpace(d.fingerprint) == "" || row.device.fingerprint == TrimSpace(d.fingerprint))
                    then row.(active := false) else row)
            && t == s.(accessTokens := t.accessTokens, bindings := t.bindings, tokens := t.tokens)
            && (if revokeToken && s.HasActive(d)
                then && t.bindings == s.bindings[d := s.bindings[d].(active := false)]
                     && (Owns(s, d, s.bindings[d].tokenId) ==> !t.tokens[s.bindings[d].tokenId].enabled)
                     && t.tokens.Keys == s.tokens.Keys
                     && forall i | i in s.tokens && i != s.bindings[d].tokenId :: t.tokens[i] == s.tokens[i]
                else t.bindings == s.bindings && t.tokens == s.tokens)
  {
    var t := s.RevokeAccessTokens(d.app, d.user, d.fingerprint);
    AccessRevoked(s, d);
    assert s.HasActive(d) == t.HasActive(d);
    hide TrimSpace, Store.RevokeAccessTokens, Store.Withdraw;
    if t.HasActive(d) {
      WithdrawRows(t, d);
    }
  }

  lemma WithdrawRows(s: Store, d: Device)
    requires s.HasActive(d)
    ensures var t := s.Withdraw(d);
            && t == s.(bindings := t.bindings, tokens := t.tokens)
            && t.bindings == s.bindings[d := s.bindings[d].(active := false)]
            && (Owns(s, d, s.bindings[d].tokenId) ==> !t.tokens[s.bindings[d].tokenId].enabled)
            && t.tokens.Keys == s.tokens.Keys
            && forall i | i in s.tokens && i != s.bindings[d].tokenId :: t.tokens[i] == s.tokens[i]
  {
  }

  lemma AccessRevoked(s: Store, d: Device)
    ensures var t := s.RevokeAccessTokens(d.app, d.user, d.fingerprint);
            && t == s.(accessTokens := t.accessTokens) && t.accessTokens.Keys == s.accessTokens.Keys
            && forall a | a in s.accessTokens ::
                 var row := s.accessTokens[a];
                 t.accessTokens[a] ==
                   if row.device.app == d.app && row.device.user == d.user
                      && (TrimSpace(d.fingerprint) == "" || row.device.fingerprint == TrimSpace(d.fingerprint))
                   then row.(active := false) else row
  {
    hide TrimSpace;
  }

  /** Afterwards the device has no active management token, if and only if none of them names the device with blanks
      around it. */
  lemma DeviceHasNone(s: Store, d: Device, revokeToken: bool)
    ensures var t := DeviceRevoke(s, d, revokeToken);
            (forall a | a in t.accessTokens && t.accessTokens[a].device == d :: !t.accessTokens[a].active)
            <==> || TrimSpace(d.fingerprint) == "" || TrimSpace(d.fingerprint) == d.fingerprint
                 || forall a | a in s.accessTokens && s.accessTokens[a].device == d :: !s.accessTokens[a].active
  {
    DeviceRevokeEffect(s, d, revokeToken);
    hide TrimSpace, DeviceRevoke;
  }

  // ----- refusals -----

  /** Why a client's rotation or revocation is refused. */
  lemma ClientRefusals(s: Store, c: Client, tokenId: nat, users: set<nat>)
    ensures var d := c.device;
            var revoked, rotated := ClientRevoke(s, c, tokenId).1, ClientRotate(s, c, tokenId, users).1;
            && (revoked.Fail? ==>
                  revoked.error == if s.HasActive(d) && s.bindings[d].tokenId != tokenId then NotOwned else NotFound)
            && (rotated.Fail? ==>
                  rotated.error == if d.user !in users then NotFound
                                   else if s.HasActive(d) && s.bindings[d].tokenId != tokenId then NotOwned
                                   else if Owns(s, d, tokenId) then Invalid else NotFound)
  {
    hide TrimSpace, Store.Issue;
  }

  /** Why a client's ensure is refused: its user or the token's row is gone, it lacks a scope, the group is not open to
      it, or the device or grant is incomplete. */
  lemma ClientEnsureRefusals(s: Store, c: Client, requested: string, users: set<nat>, usable: set<string>, rotate: bool,
                             now: int)
    ensures var r, d := ClientEnsure(s, c, requested, users, usable, rotate, now).1, c.device;
            var hasRow := s.HasActive(d) ==> s.HasToken(s.bindings[d].tokenId, d.user);
            r.Fail? ==>
              && (r.error == NotFound <==> d.user !in users || !hasRow)
              && (d.user in users && hasRow && r.error == GroupUnavailable ==>
                    Wanted(s, d, requested, rotate) != "" && Wanted(s, d, requested, rotate) !in usable)
              && (r.error == InsufficientScope ==>
                    s.HasActive(d) && ((rotate && !c.Has("token.rotate.own")) || !c.Has("token.group.update")))
              && (r.error == Invalid ==>
                    !BindingComplete(d, c.grantId) && MayEnsureToken(s, c, requested, usable, rotate))
              && r.error in {NotFound, InsufficientScope, GroupUnavailable, Invalid}
  {
    GroupAllowed(s, c, requested, usable, rotate);
    hide TrimSpace, Store.Issue, Token.Reusable, MayEnsureToken, Wanted, Store.SetTokenGroup;
  }

  /** Why the user's own ensure is refused. */
  lemma EnsureRefusals(s: Store, app: App, user: nat, fingerprint: string, rotate: bool, now: int)
    ensures var r := EnsureForDevice(s, app, user, fingerprint, rotate, now).1;
            r.Fail? ==> r.error == if !app.enabled then AppDisabled else Invalid
  {
    hide TrimSpace, Store.Issue, Store.SetTokenGroup, Token.Reusable;
  }
}
