/** The transactions as the program runs them: row by row on mutable tables, undone when they fail.
    Each is proved equal to its function in ConnectedAppStore. */
module ConnectedAppDb {
  import opened ConnectedAppStore
  import opened Text

  class Database {
    var grants: map<(nat, nat), Grant>
    var bindings: map<Device, Binding>
    var tokens: map<nat, Token>
    var attributions: map<nat, Attribution>
    var accessTokens: map<nat, AccessToken>
    var sessions: map<nat, Session>
    var codes: map<nat, Code>
    var nextId: nat
    var issued: map<nat, Device>
    var released: seq<(nat, Credential)>

    function Snapshot(): Store
      reads this
    {
      Store(grants, bindings, tokens, attributions, accessTokens, sessions, codes, nextId, issued, released)
    }

    constructor ()
      ensures Snapshot() == EMPTY
    {
      grants, bindings, tokens, attributions := map[], map[], map[], map[];
      accessTokens, sessions, codes, issued, released := map[], map[], map[], map[], [];
      nextId := 1;
    }

    /** What the database does when a transaction fails. */
    method Rollback(s: Store)
      modifies this
      ensures Snapshot() == s
    {
      grants, bindings, tokens, attributions := s.grants, s.bindings, s.tokens, s.attributions;
      accessTokens, sessions, codes, nextId := s.accessTokens, s.sessions, s.codes, s.nextId;
      issued, released := s.issued, s.released;
    }

    // ----- rows -----

    method UpsertGrant(app: nat, user: nat, scopes: set<string>) returns (grant: Grant)
      modifies this`grants, this`nextId
      ensures Snapshot() == old(Snapshot()).UpsertGrant(app, user, scopes)
      ensures (app, user) in grants && grant == grants[(app, user)]
    {
      var id := nextId;
      if (app, user) in grants {
        id := grants[(app, user)].id;
      }
      grant := Grant(id, true, scopes);
      grants := grants[(app, user) := grant];
      nextId := nextId + 1;
    }

    method FindActive(d: Device) returns (found: Option<Binding>)
      ensures found == if Snapshot().HasActive(d) then Some(bindings[d]) else None
    {
      if d in bindings && bindings[d].active {
        return Some(bindings[d]);
      }
      return None;
    }

    method FindToken(id: nat, user: nat) returns (found: Option<Token>)
      ensures found == if Snapshot().HasToken(id, user) then Some(tokens[id]) else None
    {
      if id in tokens && tokens[id].user == user {
        return Some(tokens[id]);
      }
      return None;
    }

    /** Refuses incomplete rows. */
    method UpsertBinding(d: Device, grantId: nat, tokenId: nat) returns (ok: bool)
      modifies this`bindings, this`nextId
      ensures ok == BindingComplete(d, grantId)
      ensures Snapshot() == if ok then old(Snapshot()).UpsertBinding(d, grantId, tokenId) else old(Snapshot())
    {
      if d.app == 0 || grantId == 0 || d.user == 0 || d.fingerprint == "" {
        return false;
      }
      var id := nextId;
      if d in bindings {
        id := bindings[d].id;
      }
      bindings := bindings[d := Binding(id, grantId, tokenId, true)];
      nextId := nextId + 1;
      return true;
    }

    method RecordAttribution(d: Device)
      requires d in bindings
      modifies this`attributions
      ensures Snapshot() == old(Snapshot()).RecordAttribution(d)
    {
      var id := bindings[d].tokenId;
      if id !in attributions {
        attributions := attributions[id := Attribution(bindings[d].id, d)];
      }
    }

    method DisableToken(id: nat, user: nat)
      modifies this`tokens
      ensures Snapshot() == old(Snapshot()).DisableToken(id, user)
    {
      if id in tokens && tokens[id].user == user {
        tokens := tokens[id := tokens[id].(enabled := false)];
      }
    }

    method CreateToken(d: Device, group: string) returns (id: nat)
      modifies this`tokens, this`issued, this`nextId
      ensures id == old(nextId)
      ensures Snapshot() == old(Snapshot()).CreateToken(d, group)
    {
      id := nextId;
      tokens := tokens[id := Token(d.user, true, -1, false, 0, group)];
      issued := issued[id := d];
      nextId := nextId + 1;
    }

    method SetTokenGroup(id: nat, group: string)
      requires id in tokens
      modifies this`tokens
      ensures Snapshot() == old(Snapshot()).SetTokenGroup(id, group)
    {
      if group != "" && TrimSpace(tokens[id].group) != group {
        tokens := tokens[id := tokens[id].(group := group)];
      }
    }

    method RevokeBinding(d: Device)
      requires d in bindings
      modifies this`bindings
      ensures Snapshot() == old(Snapshot()).RevokeBinding(d)
    {
      bindings := bindings[d := bindings[d].(active := false)];
    }

    method RevokeAccessTokens(app: nat, user: nat, fingerprint: string)
      modifies this`accessTokens
      ensures Snapshot() == old(Snapshot()).RevokeAccessTokens(app, user, fingerprint)
    {
      hide TrimSpace;
      ghost var before := accessTokens;
      var device := TrimSpace(fingerprint);
      var ids := accessTokens.Keys;
      while ids != {}
        invariant ids <= accessTokens.Keys == before.Keys
        invariant forall id | id in ids :: accessTokens[id] == before[id]
        invariant forall id | id in before && id !in ids ::
                    accessTokens[id] == RevokedAccess(before, app, user, fingerprint)[id]
        decreases |ids|
      {
        var id :| id in ids;
        var row := accessTokens[id];
        if && row.active && row.device.app == app && row.device.user == user
           && (device == "" || row.device.fingerprint == device) {
          accessTokens := accessTokens[id := row.(active := false)];
        }
        ids := ids - {id};
      }
      assert accessTokens == RevokedAccess(before, app, user, fingerprint);
    }

    // ----- dedicated tokens -----

    /** Replaces the device's current token, if it has one, by a new one. */
    method Replace(before: Store, existing: Option<Binding>, d: Device, grantId: nat, group: string, outcome: Issued)
      returns (r: Result<Issued>)
      requires existing.Some? <==> Snapshot().HasActive(d)
      requires existing.Some? ==> existing.value == bindings[d]
      modifies this
      ensures (Snapshot(), r) == IssueChecked(before, old(Snapshot()), d, grantId, group, outcome)
    {
      if existing.Some? {
        RecordAttribution(d);
        DisableToken(existing.value.tokenId, d.user);
      }
      assert Snapshot() == old(Snapshot()).RetireCurrent(d);
      var id := CreateToken(d, group);
      var ok := UpsertBinding(d, grantId, id);
      if !ok {
        Rollback(before);
        return Fail(Invalid);
      }
      RecordAttribution(d);
      return Ok(outcome);
    }

    method EnsureTokenForDevice(app: App, user: nat, fingerprint: string, rotate: bool, now: int)
      returns (r: Result<Issued>)
      modifies this
      ensures (Snapshot(), r) == EnsureForDevice(old(Snapshot()), app, user, fingerprint, rotate, now)
    {
      if !app.enabled {
        return Fail(AppDisabled);
      }
      var before := Snapshot();
      if app.id == 0 || user == 0 {
        return Fail(Invalid);
      }
      var grant := UpsertGrant(app.id, user, app.defaultScopes);
      var d := Device(app.id, user, fingerprint);
      var existing := FindActive(d);
      if existing.Some? && !rotate {
        var token := FindToken(existing.value.tokenId, user);
        if token.Some? && token.value.Reusable(now) {
          SetTokenGroup(existing.value.tokenId, TrimSpace(app.tokenGroup));
          return Ok(Issued(existing.value.tokenId, false, false));
        }
      }
      r := Replace(before, existing, d, grant.id, TrimSpace(app.tokenGroup),
                   Issued(nextId, true, rotate && existing.Some?));
    }

    method IssueOAuthKey(app: App, user: nat, scopes: set<string>, fingerprint: string) returns (r: Result<Issued>)
      modifies this
      ensures (Snapshot(), r) == IssueForOAuth(old(Snapshot()), app, user, scopes, fingerprint)
    {
      if app.id == 0 || user == 0 {
        return Fail(Invalid);
      }
      var before := Snapshot();
      var d := Device(app.id, user, if fingerprint == "" then "oauth-web" else fingerprint);
      var grant := UpsertGrant(app.id, user, if scopes == {} then app.defaultScopes else scopes);
      var existing := FindActive(d);
      ghost var granted := Snapshot();
      if existing.Some? {
        DisableToken(existing.value.tokenId, user);
      }
      assert Snapshot() == granted.DisableCurrent(d);
      var id := CreateToken(d, "");
      var ok := UpsertBinding(d, grant.id, id);
      if !ok {
        Rollback(before);
        return Fail(Invalid);
      }
      RecordAttribution(d);
      return Ok(Issued(id, true, existing.Some?));
    }

    method CheckEnsureGroup(c: Client, requested: string, rotate: bool) returns (r: Result<string>)
      ensures r == EnsureGroup(Snapshot(), c, requested, rotate)
    {
      var group := requested;
      var binding := FindActive(c.device);
      if binding.None? {
        return Ok(group);
      }
      var token := FindToken(binding.value.tokenId, c.device.user);
      if token.None? {
        return Fail(NotFound);
      }
      if rotate {
        if ROTATE_OWN !in c.tokenScopes || ROTATE_OWN !in c.grantScopes {
          return Fail(InsufficientScope);
        }
        if group == "" {
          group := TrimSpace(token.value.group);
        }
      }
      if group == "" || TrimSpace(token.value.group) == group {
        return Ok(group);
      }
      if GROUP_UPDATE in c.tokenScopes && GROUP_UPDATE in c.grantScopes {
        return Ok(group);
      }
      return Fail(InsufficientScope);
    }

    method EnsureClientToken(c: Client, requested: string, users: set<nat>, usable: set<string>, rotate: bool, now: int)
      returns (r: Result<Issued>)
      modifies this
      ensures (Snapshot(), r) == ClientEnsure(old(Snapshot()), c, requested, users, usable, rotate, now)
    {
      if c.device.user !in users {
        return Fail(NotFound);
      }
      var before := Snapshot();
      var checked := CheckEnsureGroup(c, TrimSpace(requested), rotate);
      if checked.Fail? {
        return Fail(checked.error);
      }
      var group := checked.value;
      if group != "" && group !in usable {
        return Fail(GroupUnavailable);
      }
      var existing := FindActive(c.device);
      if existing.Some? && !rotate {
        var token := FindToken(existing.value.tokenId, c.device.user);
        if token.None? {
          return Fail(NotFound);
        }
        SetTokenGroup(existing.value.tokenId, group);
        if token.value.Reusable(now) {
          return Ok(Issued(existing.value.tokenId, false, false));
        }
      }
      r := Replace(before, existing, c.device, c.grantId, group, Issued(nextId, existing.None?, existing.Some?));
    }

    method OwnedToken(d: Device, tokenId: nat) returns (r: Result<nat>)
      ensures r == Owned(Snapshot(), d, tokenId)
    {
      var binding := FindActive(d);
      if binding.None? {
        return Fail(NotFound);
      }
      if binding.value.tokenId != tokenId {
        return Fail(NotOwned);
      }
      var token := FindToken(tokenId, d.user);
      if token.None? {
        return Fail(NotFound);
      }
      return Ok(tokenId);
    }

    method RotateClientToken(c: Client, tokenId: nat, users: set<nat>) returns (r: Result<Issued>)
      modifies this
      ensures (Snapshot(), r) == ClientRotate(old(Snapshot()), c, tokenId, users)
    {
      if c.device.user !in users {
        return Fail(NotFound);
      }
      var owned := OwnedToken(c.device, tokenId);
      if owned.Fail? {
        return Fail(owned.error);
      }
      var group := TrimSpace(tokens[tokenId].group);
      var existing := FindActive(c.device);
      r := Replace(Snapshot(), existing, c.device, c.grantId, group, Issued(nextId, false, true));
    }

    method RevokeClientToken(c: Client, tokenId: nat) returns (r: Result<Issued>)
      modifies this
      ensures (Snapshot(), r) == ClientRevoke(old(Snapshot()), c, tokenId)
    {
      var owned := OwnedToken(c.device, tokenId);
      if owned.Fail? {
        return Fail(owned.error);
      }
      RevokeBinding(c.device);
      DisableToken(tokenId, c.device.user);
      return Ok(Issued(tokenId, false, false));
    }

    method RevokeDevice(d: Device, revokeToken: bool) returns (tokenRevoked: bool)
      modifies this
      ensures Snapshot() == DeviceRevoke(old(Snapshot()), d, revokeToken)
      ensures tokenRevoked == (revokeToken && old(Snapshot()).HasActive(d))
    {
      RevokeAccessTokens(d.app, d.user, d.fingerprint);
      tokenRevoked := false;
      if revokeToken {
        var binding := FindActive(d);
        if binding.Some? {
          RevokeBinding(d);
          DisableToken(binding.value.tokenId, d.user);
          tokenRevoked := true;
        }
      }
    }

    // ----- grant revocation -----

    /** Walks the bindings of (app, user) and ends the active ones one by one. */
    method RevokeActiveBindings(app: nat, user: nat)
      modifies this`bindings, this`tokens
      ensures Snapshot() == RevokeBindings(old(Snapshot()), app, user)
    {
      ghost var rows, before := bindings, tokens;
      var devices := set d | d in bindings && d.app == app && d.user == user;
      ghost var done := {};
      NothingDone(rows, before, devices, app, user);
      while devices != {}
        invariant devices <= rows.Keys && forall d | d in devices :: d.app == app && d.user == user
        invariant bindings == PartlyRevoked(rows, devices, app, user)
        invariant done == DoneTokens(rows, devices, app, user)
        invariant tokens == AllDisabled(before, done, user)
        decreases |devices|
      {
        var d :| d in devices;
        OneMoreDone(rows, before, devices, d, app, user);
        if bindings[d].active {
          var id := bindings[d].tokenId;
          bindings := bindings[d := bindings[d].(active := false)];
          DisableOneMore(before, done, id, user);
          DisableToken(id, user);
          done := done + {id};
        }
        devices := devices - {d};
      }
      AllDone(rows, app, user);
    }

    method RevokeSelfGrant(app: nat, user: nat) returns (r: Result<()>)
      modifies this
      ensures (Snapshot(), r) == RevokeGrant(old(Snapshot()), app, user)
    {
      if app == 0 || user == 0 {
        return Fail(Invalid);
      }
      if (app, user) !in grants {
        return Fail(NotFound);
      }
      if !grants[(app, user)].authorized {
        return Fail(NotAuthorized);
      }
      RevokeActiveBindings(app, user);
      RevokeAccessTokens(app, user, "");
      grants := grants[(app, user) := grants[(app, user)].(authorized := false)];
      return Ok(());
    }

    // ----- authorization codes -----

    method ConsentToApp(app: App, user: nat, redirect: string, requested: set<string>, challenged: bool, now: int)
      returns (r: Result<nat>)
      modifies this
      ensures (Snapshot(), r) == Consent(old(Snapshot()), app, user, redirect, requested, challenged, now)
    {
      hide TrimSpace;
      if user == 0 {
        return Fail(Invalid);
      }
      if !app.enabled {
        return Fail(AppDisabled);
      }
      if !app.codeFlow {
        return Fail(WrongFlow);
      }
      if TrimSpace(redirect) == "" || TrimSpace(redirect) !in app.redirects {
        return Fail(WrongRedirect);
      }
      if !challenged || app.id == 0 {
        return Fail(Invalid);
      }
      var granted := app.scopes;
      if requested - IDENTITY_SCOPES != {} {
        granted := (requested - IDENTITY_SCOPES) * app.scopes;
      }
      if granted == {} {
        granted := app.defaultScopes;
      }
      var grant := UpsertGrant(app.id, user, granted);
      var id := nextId;
      codes := codes[id := Code(app.id, user, grant.id, redirect, granted, true, now + AUTH_CODE_TTL)];
      nextId := nextId + 1;
      return Ok(id);
    }

    /** Uses up a code that is pending and has not expired. */
    method ConsumeCode(id: nat, now: int) returns (found: Option<Code>)
      modifies this`codes
      ensures found == if Open(old(Snapshot()), id, now) then Some(old(codes)[id].(pending := false)) else None
      ensures Snapshot() == if found.Some? then Used(old(Snapshot()), id) else old(Snapshot())
    {
      if id !in codes || !codes[id].pending || codes[id].expiresAt <= now {
        return None;
      }
      codes := codes[id := codes[id].(pending := false)];
      return Some(codes[id]);
    }

    method ExchangeCode(app: App, id: nat, redirect: string, proven: bool, users: set<nat>, now: int)
      returns (r: Result<Issued>)
      modifies this
      ensures (Snapshot(), r) == Exchange(old(Snapshot()), app, id, redirect, proven, users, now)
    {
      hide TrimSpace, IssueForOAuth;
      if !app.enabled {
        return Fail(AppDisabled);
      }
      if !app.codeFlow {
        return Fail(WrongFlow);
      }
      if TrimSpace(redirect) == "" || TrimSpace(redirect) !in app.redirects {
        return Fail(WrongRedirect);
      }
      var before := Snapshot();
      var consumed := ConsumeCode(id, now);
      if consumed.None? {
        return Fail(NotFound);
      }
      var code := consumed.value;
      if code.app != app.id || code.redirect != TrimSpace(redirect) || !proven {
        Rollback(before);
        return Fail(InvalidGrant);
      }
      r := IssueOAuthKey(app, code.user, code.scopes, "oauth-web");
      if r.Fail? || code.user !in users {
        Rollback(before);
        return if r.Fail? then r else Fail(NotFound);
      }
    }

    // ----- device sessions -----

    /** Inserts a session under the next pair of codes, which is refused when one of them is taken. */
    method CreateSession(app: App, fingerprint: string, taken: bool, now: int) returns (r: Result<nat>)
      modifies this
      ensures (Snapshot(), r)
           == if taken && app.id > 0 && fingerprint != "" then (old(Snapshot()), Fail(CodeTaken))
              else StartSession(old(Snapshot()), app, fingerprint, 0, now)
    {
      if app.id == 0 || fingerprint == "" {
        return Fail(Invalid);
      }
      if taken {
        return Fail(CodeTaken);
      }
      var id := nextId;
      sessions := sessions[id := Session(app.id, fingerprint, Pending, 0, 0, false, now + DEVICE_CODE_TTL)];
      nextId := nextId + 1;
      return Ok(id);
    }

    method StartDeviceFlow(app: App, fingerprint: string, taken: nat, now: int) returns (r: Result<nat>)
      modifies this
      ensures (Snapshot(), r) == StartSession(old(Snapshot()), app, fingerprint, taken, now)
    {
      r := Fail(CodeTaken);
      for attempt := 0 to START_ATTEMPTS
        invariant Snapshot() == old(Snapshot()) && attempt <= START_ATTEMPTS
        invariant attempt > 0 ==> r == Fail(if app.id == 0 || fingerprint == "" then Invalid else CodeTaken)
        invariant app.id > 0 && fingerprint != "" ==> attempt <= taken
      {
        r := CreateSession(app, fingerprint, attempt < taken, now);
        if r.Ok? {
          return;
        }
      }
    }

    method ExpireDeviceSession(id: nat)
      modifies this`sessions
      ensures Snapshot() == ExpireSession(old(Snapshot()), id)
    {
      if id in sessions && sessions[id].status == Pending {
        sessions := sessions[id := sessions[id].(status := Expired)];
      }
    }

    method GetDeviceStatus(app: App, id: nat, user: nat, now: int) returns (r: Result<Status>)
      modifies this
      ensures (Snapshot(), r) == SessionStatus(old(Snapshot()), app, id, user, now)
    {
      if id !in sessions {
        return Fail(NotFound);
      }
      var session := sessions[id];
      if session.app != app.id {
        return Fail(WrongApp);
      }
      if session.status == Pending && session.expiresAt <= now {
        ExpireDeviceSession(id);
        session := session.(status := Expired);
      }
      if session.user > 0 && session.user != user {
        return Fail(AnsweredByOther);
      }
      return Ok(session.status);
    }

    /** A guarded update: no row changes unless the stored session is still pending. */
    method UpdatePending(id: nat, session: Session) returns (rowsAffected: nat)
      modifies this`sessions
      ensures rowsAffected == if id in old(sessions) && old(sessions)[id].status == Pending then 1 else 0
      ensures sessions == if rowsAffected == 1 then old(sessions)[id := session] else old(sessions)
    {
      if id in sessions && sessions[id].status == Pending {
        sessions := sessions[id := session];
        return 1;
      }
      return 0;
    }

    /** What an approval grants: the authorisation alone, or a dedicated token as well. */
    method GrantAccess(app: App, user: nat, fingerprint: string, now: int) returns (r: Result<Issued>)
      modifies this
      ensures UsesManagementFlow(app) ==>
                if app.id == 0 || user == 0 then Snapshot() == old(Snapshot()) && r == Fail(Invalid)
                else && Snapshot() == old(Snapshot()).UpsertGrant(app.id, user, app.defaultScopes)
                     && r == Ok(Issued(0, false, false))
      ensures sessions == old(sessions)
      ensures !UsesManagementFlow(app) ==>
                (Snapshot(), r) == EnsureForDevice(old(Snapshot()), app, user, fingerprint, false, now)
    {
      if UsesManagementFlow(app) {
        if app.id == 0 || user == 0 {
          return Fail(Invalid);
        }
        var _ := UpsertGrant(app.id, user, app.defaultScopes);
        return Ok(Issued(0, false, false));
      }
      EnsureElsewhere(Snapshot(), app, user, fingerprint, false, now);
      hide EnsureForDevice;
      r := EnsureTokenForDevice(app, user, fingerprint, false, now);
    }

    method AuthorizeDevice(app: App, id: nat, user: nat, approve: bool, now: int) returns (r: Result<Status>)
      modifies this
      ensures (Snapshot(), r) == Authorize(old(Snapshot()), app, id, user, approve, now)
    {
      hide EnsureForDevice;
      var before := Snapshot();
      if id !in sessions {
        return Fail(NotFound);
      }
      var session := sessions[id];
      if session.app != app.id {
        return Fail(WrongApp);
      }
      if session.status == Pending && session.expiresAt <= now {
        ExpireDeviceSession(id);
        session := session.(status := Expired);
      }
      if session.status != Pending {
        Rollback(before);
        return Fail(NotPending(session.status));
      }
      if !approve {
        var denied := UpdatePending(id, session.(user := user, status := Denied));
        assert denied == 1;  // the row was locked when it was read
        return Ok(Denied);
      }
      var granted := GrantAccess(app, user, session.fingerprint, now);
      if granted.Fail? {
        Rollback(before);
        return Fail(granted.error);
      }
      var updated := UpdatePending(id, session.(user := user, tokenId := granted.value.tokenId,
                                                tokenCreated := granted.value.created, status := Authorized));
      assert updated == 1;
      return Ok(Authorized);
    }

    /** The guarded update: no row changes unless the stored status is still authorised. */
    method ConsumeSession(id: nat) returns (rowsAffected: nat)
      modifies this`sessions
      ensures rowsAffected == if Consumable(old(Snapshot()), id) then 1 else 0
      ensures sessions == if rowsAffected == 0 then old(sessions)
                          else old(sessions)[id := old(sessions)[id].(status := Consumed)]
    {
      if id in sessions && sessions[id].status == Authorized {
        sessions := sessions[id := sessions[id].(status := Consumed)];
        return 1;
      }
      return 0;
    }

    method IssueManagementToken(d: Device, grant: Grant, now: int) returns (id: nat)
      modifies this`accessTokens, this`nextId
      ensures id == old(nextId) && Snapshot() == AddAccessToken(old(Snapshot()), d, grant, now)
    {
      id := nextId;
      accessTokens := accessTokens[id := AccessToken(d, grant.id, grant.scopes, true, now + MANAGEMENT_TOKEN_TTL)];
      nextId := nextId + 1;
    }

    method FinishManagementPoll(id: nat, session: Session, users: set<nat>, now: int) returns (reply: PollReply)
      requires (session.app, session.user) in grants
      modifies this
      ensures (Snapshot(), reply) == PollManagement(old(Snapshot()), id, session, users, now)
    {
      hide TrimSpace;
      var before := Snapshot();
      var grant := grants[(session.app, session.user)];
      if session.user !in users {
        return NoRecord;
      }
      var rowsAffected := ConsumeSession(id);
      if rowsAffected == 0 {
        return Waiting(Consumed);
      }
      if TrimSpace(session.fingerprint) == "" {
        Rollback(before);
        return Refused;
      }
      var accessTokenId := IssueManagementToken(SessionDevice(session), grant, now);
      released := released + [(id, ManagementToken(accessTokenId))];
      return Released(ManagementToken(accessTokenId));
    }

    method FinishKeyPoll(id: nat, session: Session, users: set<nat>) returns (reply: PollReply)
      modifies this
      ensures (Snapshot(), reply) == PollKey(old(Snapshot()), id, session, users)
    {
      if session.tokenId == 0 {
        return MissingToken;
      }
      var token := FindToken(session.tokenId, session.user);
      if token.None? {
        return NoRecord;
      }
      if !(exists d :: d in bindings && bindings[d].tokenId == session.tokenId) {
        return NoRecord;
      }
      if session.user !in users {
        return NoRecord;
      }
      var rowsAffected := ConsumeSession(id);
      if rowsAffected == 0 {
        return Waiting(Consumed);
      }
      released := released + [(id, ApiKey(session.tokenId))];
      return Released(ApiKey(session.tokenId));
    }

    /** The rest of a poll, with the session as it was read. */
    method FinishPoll(app: App, id: nat, row: Session, users: set<nat>, now: int) returns (reply: PollReply)
      modifies this
      ensures (Snapshot(), reply) == Poll(old(Snapshot()), app, id, row, users, now)
    {
      hide PollManagement, PollKey;
      var session := row;
      if session.app != app.id {
        return InvalidApp;
      }
      if session.status == Pending && session.expiresAt <= now {
        ExpireDeviceSession(id);
        session := session.(status := Expired);
      }
      if session.status != Authorized {
        return Waiting(session.status);
      }
      if session.user == 0 {
        return MissingUser;
      }
      if (app.id, session.user) !in grants {
        return NoRecord;
      }
      if UsesManagementFlow(app) {
        reply := FinishManagementPoll(id, session, users, now);
      } else {
        reply := FinishKeyPoll(id, session, users);
      }
    }

    method PollDeviceFlow(app: App, id: nat, users: set<nat>, now: int) returns (reply: PollReply)
      modifies this
      ensures id !in old(sessions) ==> Snapshot() == old(Snapshot()) && reply == NoRecord
      ensures id in old(sessions) ==>
                (Snapshot(), reply) == Poll(old(Snapshot()), app, id, old(sessions)[id], users, now)
    {
      if id !in sessions {
        return NoRecord;
      }
      reply := FinishPoll(app, id, sessions[id], users, now);
    }
  }

  lemma DisableOneMore(tokens: map<nat, Token>, ids: set<nat>, id: nat, user: nat)
    ensures Disabled(AllDisabled(tokens, ids, user), id, user) == AllDisabled(tokens, ids + {id}, user)
  {
  }

  /** The rows while the walk still has `devices` to visit. */
  ghost function PartlyRevoked(rows: map<Device, Binding>, devices: set<Device>, app: nat,
                               user: nat): map<Device, Binding> {
    map d | d in rows :: if d in devices then rows[d] else RevokedBindings(rows, app, user)[d]
  }

  ghost function DoneTokens(rows: map<Device, Binding>, devices: set<Device>, app: nat, user: nat): set<nat> {
    set d | d in rows && d !in devices && rows[d].active && d.app == app && d.user == user :: rows[d].tokenId
  }

  lemma NothingDone(rows: map<Device, Binding>, tokens: map<nat, Token>, devices: set<Device>, app: nat, user: nat)
    requires devices == set d | d in rows && d.app == app && d.user == user
    ensures PartlyRevoked(rows, devices, app, user) == rows
    ensures DoneTokens(rows, devices, app, user) == {} && AllDisabled(tokens, {}, user) == tokens
  {
  }

  lemma AllDone(rows: map<Device, Binding>, app: nat, user: nat)
    ensures PartlyRevoked(rows, {}, app, user) == RevokedBindings(rows, app, user)
    ensures DoneTokens(rows, {}, app, user) == BoundTokens(rows, app, user)
  {
  }

  lemma OneMoreDone(rows: map<Device, Binding>, tokens: map<nat, Token>, devices: set<Device>, d: Device, app: nat,
                    user: nat)
    requires d in rows && d in devices && d.app == app && d.user == user
    ensures PartlyRevoked(rows, devices - {d}, app, user)
         == if rows[d].active then PartlyRevoked(rows, devices, app, user)[d := rows[d].(active := false)]
            else PartlyRevoked(rows, devices, app, user)
    ensures DoneTokens(rows, devices - {d}, app, user)
         == if rows[d].active then DoneTokens(rows, devices, app, user) + {rows[d].tokenId}
            else DoneTokens(rows, devices, app, user)
  {
    DoneGrows(rows, devices, d, app, user);
  }

  lemma DoneGrows(rows: map<Device, Binding>, devices: set<Device>, d: Device, app: nat, user: nat)
    requires d in rows && d in devices && d.app == app && d.user == user
    ensures DoneTokens(rows, devices - {d}, app, user)
         == if rows[d].active then DoneTokens(rows, devices, app, user) + {rows[d].tokenId}
            else DoneTokens(rows, devices, app, user)
  {
    var before, after := DoneTokens(rows, devices, app, user), DoneTokens(rows, devices - {d}, app, user);
    forall t | t in after ensures t in before || (rows[d].active && t == rows[d].tokenId) {
    }
    forall t | t in before ensures t in after {
    }
  }
}
