/** The tables behind connected apps, the row operations of the model layer and the transactions on them.

    A transaction is a function from one store to the next; one that fails leaves the store as it was. */
module ConnectedAppStore {
  import opened Text

  /** What identifies a dedicated token's binding: one per app, user and device. */
  datatype Device = Device(app: nat, user: nat, fingerprint: string)

  /** `codeFlow` says whether the app may use authorization codes. */
  datatype App = App(id: nat, enabled: bool, scopes: set<string>, defaultScopes: set<string>, tokenGroup: string,
                     codeFlow: bool, redirects: set<string>)

  datatype Grant = Grant(id: nat, authorized: bool, scopes: set<string>)

  datatype Token = Token(user: nat, enabled: bool, expiredTime: int, quotaLimited: bool, remainQuota: int,
                         group: string)
  {
    predicate Reusable(now: int) {
      && enabled
      && !(expiredTime != -1 && expiredTime < now)
      && !(quotaLimited && remainQuota <= 0)
    }
  }

  datatype Binding = Binding(id: nat, grantId: nat, tokenId: nat, active: bool)

  datatype Attribution = Attribution(bindingId: nat, device: Device)

  datatype AccessToken = AccessToken(device: Device, grantId: nat, scopes: set<string>, active: bool, expiresAt: int)

  datatype Status = Pending | Authorized | Consumed | Expired | Denied

  datatype Session = Session(app: nat, fingerprint: string, status: Status, user: nat, tokenId: nat,
                             tokenCreated: bool, expiresAt: int)

  /** An authorization code; the codes that have been used stay in their table. */
  datatype Code = Code(app: nat, user: nat, grantId: nat, redirect: string, scopes: set<string>, pending: bool,
                       expiresAt: int)

  /** What a successful poll hands to the device. */
  datatype Credential = ApiKey(tokenId: nat) | ManagementToken(accessTokenId: nat)

  datatype Option<T> = None | Some(value: T)

  datatype Error = NotFound | AppDisabled | Invalid | WrongApp | NotPending(status: Status)
                 | InsufficientScope | GroupUnavailable | NotOwned | NotAuthorized
                 | CodeTaken | AnsweredByOther | WrongFlow | WrongRedirect | InvalidGrant

  datatype Result<T> = Ok(value: T) | Fail(error: Error)

  /** The first attribution of a token stays. */
  function Recorded(attributions: map<nat, Attribution>, id: nat, a: Attribution): map<nat, Attribution> {
    if id in attributions then attributions else attributions[id := a]
  }

  function Disabled(tokens: map<nat, Token>, id: nat, user: nat): map<nat, Token> {
    if id in tokens && tokens[id].user == user then tokens[id := tokens[id].(enabled := false)] else tokens
  }

  /** A live access token of (app, user), on one device or, for a blank fingerprint, on any. */
  predicate Covers(a: AccessToken, app: nat, user: nat, fingerprint: string) {
    && a.active && a.device.app == app && a.device.user == user
    && (TrimSpace(fingerprint) == "" || a.device.fingerprint == TrimSpace(fingerprint))
  }

  function RevokedAccess(accessTokens: map<nat, AccessToken>, app: nat, user: nat,
                         fingerprint: string): map<nat, AccessToken> {
    map id | id in accessTokens ::
      if Covers(accessTokens[id], app, user, fingerprint) then accessTokens[id].(active := false) else accessTokens[id]
  }

  /** The row id counter is shared by the tables. `issued` and `released` are history: the device each dedicated
      token was made for, and the credentials that polls have handed out, by session. */
  datatype Store = Store(
    grants: map<(nat, nat), Grant>,
    bindings: map<Device, Binding>,
    tokens: map<nat, Token>,
    attributions: map<nat, Attribution>,
    accessTokens: map<nat, AccessToken>,
    sessions: map<nat, Session>,
    codes: map<nat, Code>,
    nextId: nat,
    issued: map<nat, Device>,
    released: seq<(nat, Credential)>)
  {
    // ----- row operations -----

    /** Authorises (app, user) again; an existing row keeps its id. */
    function UpsertGrant(app: nat, user: nat, scopes: set<string>): Store {
      var id := if (app, user) in grants then grants[(app, user)].id else nextId;
      this.(grants := grants[(app, user) := Grant(id, true, scopes)], nextId := nextId + 1)
    }

    predicate HasActive(d: Device) {
      d in bindings && bindings[d].active
    }

    predicate HasToken(id: nat, user: nat) {
      id in tokens && tokens[id].user == user
    }

    /** Keyed by the device triple; an existing row keeps its id and becomes active again. */
    function UpsertBinding(d: Device, grantId: nat, tokenId: nat): Store {
      var id := if d in bindings then bindings[d].id else nextId;
      this.(bindings := bindings[d := Binding(id, grantId, tokenId, true)], nextId := nextId + 1)
    }

    /** Remembers which binding a token was issued for; the first record of a token stays. */
    function RecordAttribution(d: Device): Store
      requires d in bindings
    {
      this.(attributions := Recorded(attributions, bindings[d].tokenId, Attribution(bindings[d].id, d)))
    }

    /** Disables one token of the user; a missing token is not an error for any caller. */
    function DisableToken(id: nat, user: nat): Store {
      this.(tokens := Disabled(tokens, id, user))
    }

    function CreateToken(d: Device, group: string): Store {
      this.(tokens := tokens[nextId := Token(d.user, true, -1, false, 0, group)],
            issued := issued[nextId := d],
            nextId := nextId + 1)
    }

    function SetTokenGroup(id: nat, group: string): Store
      requires id in tokens
    {
      this.(tokens := if group == "" || TrimSpace(tokens[id].group) == group then tokens
                      else tokens[id := tokens[id].(group := group)])
    }

    function RevokeBinding(d: Device): Store
      requires d in bindings
    {
      this.(bindings := bindings[d := bindings[d].(active := false)])
    }

    function RevokeAccessTokens(app: nat, user: nat, fingerprint: string): Store {
      this.(accessTokens := RevokedAccess(accessTokens, app, user, fingerprint))
    }

    // ----- compositions of row operations -----

    /** Before a token is replaced: record and disable the one the device has now. */
    function RetireCurrent(d: Device): Store {
      this.(attributions := if HasActive(d) then RecordAttribution(d).attributions else attributions,
            tokens := if HasActive(d) then Disabled(tokens, bindings[d].tokenId, d.user) else tokens)
    }

    function DisableCurrent(d: Device): Store {
      this.(tokens := if HasActive(d) then Disabled(tokens, bindings[d].tokenId, d.user) else tokens)
    }

    /** A new dedicated token, whose id is this store's `nextId`, becomes the device's current one. */
    function Bind(d: Device, grantId: nat, group: string): Store {
      CreateToken(d, group).UpsertBinding(d, grantId, nextId).RecordAttribution(d)
    }

    function Issue(d: Device, grantId: nat, group: string): Store {
      RetireCurrent(d).Bind(d, grantId, group)
    }

    /** Ends a device's binding together with its token. */
    function Withdraw(d: Device): Store
      requires d in bindings
    {
      RevokeBinding(d).DisableToken(bindings[d].tokenId, d.user)
    }
  }

  const EMPTY := Store(map[], map[], map[], map[], map[], map[], map[], 1, map[], [])

  // ----- transactions: dedicated tokens -----

  /** The token a device ends up with, and whether it was made just now. */
  datatype Issued = Issued(tokenId: nat, created: bool, rotated: bool)

  /** The columns a binding row refuses to leave empty. */
  predicate BindingComplete(d: Device, grantId: nat) {
    d.app > 0 && d.user > 0 && grantId > 0 && d.fingerprint != ""
  }

  function IssueChecked(s: Store, t: Store, d: Device, grantId: nat, group: string,
                        outcome: Issued): (Store, Result<Issued>) {
    if BindingComplete(d, grantId) then (t.Issue(d, grantId, group), Ok(outcome)) else (s, Fail(Invalid))
  }

  function EnsureForDevice(s: Store, app: App, user: nat, fingerprint: string, rotate: bool,
                           now: int): (Store, Result<Issued>) {
    if !app.enabled then (s, Fail(AppDisabled))
    else if app.id == 0 || user == 0 then (s, Fail(Invalid))
    else
      var d := Device(app.id, user, fingerprint);
      var t := s.UpsertGrant(app.id, user, app.defaultScopes);
      var current := if t.HasActive(d) then t.bindings[d].tokenId else 0;
      if t.HasActive(d) && !rotate && t.HasToken(current, user) && t.tokens[current].Reusable(now) then
        (t.SetTokenGroup(current, TrimSpace(app.tokenGroup)), Ok(Issued(current, false, false)))
      else
        IssueChecked(s, t, d, t.grants[(app.id, user)].id, TrimSpace(app.tokenGroup),
                     Issued(t.nextId, true, rotate && t.HasActive(d)))
  }

  /** The tables that handing out a dedicated token leaves alone. */
  predicate SameElsewhere(s: Store, t: Store) {
    && t.sessions == s.sessions && t.codes == s.codes && t.accessTokens == s.accessTokens
    && t.released == s.released
  }

  lemma IssueElsewhere(s: Store, d: Device, grantId: nat, group: string)
    ensures SameElsewhere(s, s.Issue(d, grantId, group)) && s.Issue(d, grantId, group).grants == s.grants
    ensures SameElsewhere(s, s.Bind(d, grantId, group)) && s.Bind(d, grantId, group).grants == s.grants
  {
  }

  lemma UpsertElsewhere(s: Store, app: nat, user: nat, scopes: set<string>)
    ensures SameElsewhere(s, s.UpsertGrant(app, user, scopes))
  {
  }

  lemma TokensElsewhere(s: Store, tokens: map<nat, Token>)
    ensures SameElsewhere(s, s.(tokens := tokens))
  {
  }

  lemma ElsewhereTransitive(s: Store, t: Store, u: Store)
    requires SameElsewhere(s, t) && SameElsewhere(t, u)
    ensures SameElsewhere(s, u)
  {
  }

  lemma EnsureElsewhere(s: Store, app: App, user: nat, fingerprint: string, rotate: bool, now: int)
    ensures SameElsewhere(s, EnsureForDevice(s, app, user, fingerprint, rotate, now).0)
  {
    hide Store.Issue, Token.Reusable, TrimSpace, SameElsewhere;
    var t := s.UpsertGrant(app.id, user, app.defaultScopes);
    var d, group := Device(app.id, user, fingerprint), TrimSpace(app.tokenGroup);
    var grantId := t.grants[(app.id, user)].id;
    TokensElsewhere(s, s.tokens);
    UpsertElsewhere(s, app.id, user, app.defaultScopes);
    IssueElsewhere(t, d, grantId, group);
    ElsewhereTransitive(s, t, t.Issue(d, grantId, group));
    if t.HasActive(d) && t.HasToken(t.bindings[d].tokenId, user) {
      var named := t.SetTokenGroup(t.bindings[d].tokenId, group);
      TokensElsewhere(t, named.tokens);
      ElsewhereTransitive(s, t, named);
    }
  }

  /** The key issue of the authorization-code flow, which records the new token only. */
  function IssueForOAuth(s: Store, app: App, user: nat, scopes: set<string>,
                         fingerprint: string): (Store, Result<Issued>) {
    if app.id == 0 || user == 0 then (s, Fail(Invalid))
    else
      var d := Device(app.id, user, if fingerprint == "" then "oauth-web" else fingerprint);
      var t := s.UpsertGrant(app.id, user, if scopes == {} then app.defaultScopes else scopes);
      var disabled := t.DisableCurrent(d);
      var grantId := t.grants[(app.id, user)].id;
      if BindingComplete(d, grantId)
      then (disabled.Bind(d, grantId, ""), Ok(Issued(t.nextId, true, t.HasActive(d))))
      else (s, Fail(Invalid))
  }

  lemma OAuthElsewhere(s: Store, app: App, user: nat, scopes: set<string>, fingerprint: string)
    ensures SameElsewhere(s, IssueForOAuth(s, app, user, scopes, fingerprint).0)
  {
    hide Store.Bind;
    var t := s.UpsertGrant(app.id, user, if scopes == {} then app.defaultScopes else scopes);
    var d := Device(app.id, user, if fingerprint == "" then "oauth-web" else fingerprint);
    IssueElsewhere(t.DisableCurrent(d), d, t.grants[(app.id, user)].id, "");
  }

  const ROTATE_OWN := "token.rotate.own"
  const REVOKE_OWN := "token.revoke.own"
  const GROUP_UPDATE := "token.group.update"
  const TOKEN_CREATE := "token.create"
  const TOKEN_MANAGE := "token.manage"

  /** Whom a management token speaks for, as its request was authenticated. */
  datatype Client = Client(device: Device, grantId: nat, grantScopes: set<string>, tokenScopes: set<string>)
  {
    predicate Has(scope: string) {
      scope in tokenScopes && scope in grantScopes
    }
  }

  /** The group an ensure may use: changing the group of an existing token needs its own scope. */
  function EnsureGroup(s: Store, c: Client, requested: string, rotate: bool): Result<string> {
    var d := c.device;
    if !s.HasActive(d) then Ok(requested)
    else if !s.HasToken(s.bindings[d].tokenId, d.user) then Fail(NotFound)
    else
      var current := TrimSpace(s.tokens[s.bindings[d].tokenId].group);
      if rotate && !c.Has(ROTATE_OWN) then Fail(InsufficientScope)
      else
        var group := if rotate && requested == "" then current else requested;
        if group == "" || current == group || c.Has(GROUP_UPDATE) then Ok(group) else Fail(InsufficientScope)
  }

  /** `users` are the accounts that exist, `usable` the groups open to this one. */
  function ClientEnsure(s: Store, c: Client, requested: string, users: set<nat>, usable: set<string>, rotate: bool,
                        now: int): (Store, Result<Issued>) {
    if c.device.user !in users then (s, Fail(NotFound))
    else match EnsureGroup(s, c, TrimSpace(requested), rotate)
    case Fail(error) => (s, Fail(error))
    case Ok(group) =>
      if group != "" && group !in usable then (s, Fail(GroupUnavailable))
      else
        var d := c.device;
        if s.HasActive(d) && !rotate then
          var current := s.bindings[d].tokenId;
          if !s.HasToken(current, d.user) then (s, Fail(NotFound))
          else
            var t := s.SetTokenGroup(current, group);
            if t.tokens[current].Reusable(now) then (t, Ok(Issued(current, false, false)))
            else IssueChecked(s, t, d, c.grantId, group, Issued(s.nextId, false, true))
        else
          IssueChecked(s, s, d, c.grantId, group, Issued(s.nextId, !s.HasActive(d), s.HasActive(d)))
  }

  /** The device's own current token. */
  function Owned(s: Store, d: Device, tokenId: nat): Result<nat> {
    if !s.HasActive(d) then Fail(NotFound)
    else if s.bindings[d].tokenId != tokenId then Fail(NotOwned)
    else if !s.HasToken(tokenId, d.user) then Fail(NotFound)
    else Ok(tokenId)
  }

  function ClientRotate(s: Store, c: Client, tokenId: nat, users: set<nat>): (Store, Result<Issued>) {
    if c.device.user !in users then (s, Fail(NotFound))
    else match Owned(s, c.device, tokenId)
    case Fail(error) => (s, Fail(error))
    case Ok(_) =>
      IssueChecked(s, s, c.device, c.grantId, TrimSpace(s.tokens[tokenId].group), Issued(s.nextId, false, true))
  }

  function ClientRevoke(s: Store, c: Client, tokenId: nat): (Store, Result<Issued>) {
    match Owned(s, c.device, tokenId)
    case Fail(error) => (s, Fail(error))
    case Ok(_) => (s.Withdraw(c.device), Ok(Issued(tokenId, false, false)))
  }

  function DeviceRevoke(s: Store, d: Device, revokeToken: bool): Store {
    var t := s.RevokeAccessTokens(d.app, d.user, d.fingerprint);
    if revokeToken && t.HasActive(d) then t.Withdraw(d) else t
  }

  // ----- transactions: grant revocation -----

  /** The tokens of the active bindings of (app, user). */
  function BoundTokens(bindings: map<Device, Binding>, app: nat, user: nat): set<nat> {
    set d | d in bindings && bindings[d].active && d.app == app && d.user == user :: bindings[d].tokenId
  }

  function RevokedBindings(bindings: map<Device, Binding>, app: nat, user: nat): map<Device, Binding> {
    map d | d in bindings :: if d.app == app && d.user == user then bindings[d].(active := false) else bindings[d]
  }

  function AllDisabled(tokens: map<nat, Token>, ids: set<nat>, user: nat): map<nat, Token> {
    map t | t in tokens :: if t in ids && tokens[t].user == user then tokens[t].(enabled := false) else tokens[t]
  }

  /** Revokes every active binding of (app, user) and disables its token, all at once. */
  function RevokeBindings(s: Store, app: nat, user: nat): Store {
    s.(bindings := RevokedBindings(s.bindings, app, user),
       tokens := AllDisabled(s.tokens, BoundTokens(s.bindings, app, user), user))
  }

  function RevokeGrant(s: Store, app: nat, user: nat): (Store, Result<()>) {
    if app == 0 || user == 0 then (s, Fail(Invalid))
    else if (app, user) !in s.grants then (s, Fail(NotFound))
    else if !s.grants[(app, user)].authorized then (s, Fail(NotAuthorized))
    else
      var t := RevokeBindings(s, app, user).RevokeAccessTokens(app, user, "");
      (t.(grants := t.grants[(app, user) := t.grants[(app, user)].(authorized := false)]), Ok(()))
  }

  // ----- transactions: authorization codes -----

  const AUTH_CODE_TTL := 600

  predicate RedirectAllowed(app: App, redirect: string) {
    TrimSpace(redirect) != "" && TrimSpace(redirect) in app.redirects
  }

  const IDENTITY_SCOPES := {"openid", "profile", "email"}

  /** The scopes a consent grants: the allowed ones among those asked for, all of them if none was, and the app's
      defaults if nothing is left. */
  function ConsentScopes(app: App, requested: set<string>): set<string> {
    var api := requested - IDENTITY_SCOPES;
    var granted := if api == {} then app.scopes else api * app.scopes;
    if granted == {} then app.defaultScopes else granted
  }

  /** The user lets the app in: the grant is authorised and a code is handed out. The consent must come with a
      challenge for the exchange. */
  function Consent(s: Store, app: App, user: nat, redirect: string, requested: set<string>, challenged: bool,
                   now: int): (Store, Result<nat>) {
    if user == 0 then (s, Fail(Invalid))
    else if !app.enabled then (s, Fail(AppDisabled))
    else if !app.codeFlow then (s, Fail(WrongFlow))
    else if !RedirectAllowed(app, redirect) then (s, Fail(WrongRedirect))
    else if !challenged || app.id == 0 then (s, Fail(Invalid))
    else
      var scopes := ConsentScopes(app, requested);
      var t := s.UpsertGrant(app.id, user, scopes);
      var code := Code(app.id, user, t.grants[(app.id, user)].id, redirect, scopes, true, now + AUTH_CODE_TTL);
      (t.(codes := t.codes[t.nextId := code], nextId := t.nextId + 1), Ok(t.nextId))
  }

  /** A code that can still be used. */
  predicate Open(s: Store, id: nat, now: int) {
    id in s.codes && s.codes[id].pending && now < s.codes[id].expiresAt
  }

  /** The app trades a code for a key of the device "oauth-web". `proven` says that its secret and its verifier are
      right. The code's grant is not looked at. */
  function Exchange(s: Store, app: App, id: nat, redirect: string, proven: bool, users: set<nat>,
                    now: int): (Store, Result<Issued>) {
    if !app.enabled then (s, Fail(AppDisabled))
    else if !app.codeFlow then (s, Fail(WrongFlow))
    else if !RedirectAllowed(app, redirect) then (s, Fail(WrongRedirect))
    else if !Open(s, id, now) then (s, Fail(NotFound))
    else
      var code := s.codes[id];
      if code.app != app.id || code.redirect != TrimSpace(redirect) || !proven then (s, Fail(InvalidGrant))
      else
        match IssueForOAuth(Used(s, id), app, code.user, code.scopes, "oauth-web")
        case (_, Fail(error)) => (s, Fail(error))
        case (t, Ok(issued)) => if code.user in users then (t, Ok(issued)) else (s, Fail(NotFound))
  }

  function Used(s: Store, id: nat): Store
    requires id in s.codes
  {
    s.(codes := s.codes[id := s.codes[id].(pending := false)])
  }

  // ----- transactions: device sessions -----

  const DEVICE_CODE_TTL := 600
  const MANAGEMENT_TOKEN_TTL := 90 * 24 * 60 * 60

  predicate UsesManagementFlow(app: App) {
    TOKEN_CREATE in app.scopes && TOKEN_MANAGE !in app.scopes
  }

  const START_ATTEMPTS := 5

  /** A new session, pending; its id stands for the device code and the user code. So many pairs of codes drawn in a
      row are taken already. */
  function StartSession(s: Store, app: App, fingerprint: string, taken: nat, now: int): (Store, Result<nat>) {
    if app.id == 0 || fingerprint == "" then (s, Fail(Invalid))
    else if taken >= START_ATTEMPTS then (s, Fail(CodeTaken))
    else
      (s.(sessions := s.sessions[s.nextId := Session(app.id, fingerprint, Pending, 0, 0, false, now + DEVICE_CODE_TTL)],
          nextId := s.nextId + 1),
       Ok(s.nextId))
  }

  predicate Overdue(session: Session, now: int) {
    session.status == Pending && session.expiresAt <= now
  }

  /** Moves only a pending row. */
  function ExpireSession(s: Store, id: nat): Store {
    s.(sessions := if id in s.sessions && s.sessions[id].status == Pending
                   then s.sessions[id := s.sessions[id].(status := Expired)]
                   else s.sessions)
  }

  /** Looking at a session expires it when it is overdue. Its status is for the user who answered it, or for any user
      while nobody has. */
  function SessionStatus(s: Store, app: App, id: nat, user: nat, now: int): (Store, Result<Status>) {
    if id !in s.sessions then (s, Fail(NotFound))
    else if s.sessions[id].app != app.id then (s, Fail(WrongApp))
    else
      var session := s.sessions[id];
      var overdue := Overdue(session, now);
      (if overdue then ExpireSession(s, id) else s,
       if session.user > 0 && session.user != user then Fail(AnsweredByOther)
       else Ok(if overdue then Expired else session.status))
  }

  /** The user's answer. An overdue session is refused, and the refusal undoes its expiry with the rest. */
  function Authorize(s: Store, app: App, id: nat, user: nat, approve: bool, now: int): (Store, Result<Status>) {
    if id !in s.sessions then (s, Fail(NotFound))
    else if s.sessions[id].app != app.id then (s, Fail(WrongApp))
    else if Overdue(s.sessions[id], now) then (s, Fail(NotPending(Expired)))
    else if s.sessions[id].status != Pending then (s, Fail(NotPending(s.sessions[id].status)))
    else if !approve then
      (s.(sessions := s.sessions[id := s.sessions[id].(user := user, status := Denied)]), Ok(Denied))
    else if UsesManagementFlow(app) then
      if app.id == 0 || user == 0 then (s, Fail(Invalid))
      else
        var t := s.UpsertGrant(app.id, user, app.defaultScopes);
        (t.(sessions := t.sessions[id := t.sessions[id].(user := user, tokenId := 0, tokenCreated := false,
                                                         status := Authorized)]),
         Ok(Authorized))
    else
      match EnsureForDevice(s, app, user, s.sessions[id].fingerprint, false, now)
      case (_, Fail(error)) => (s, Fail(error))
      case (t, Ok(issued)) =>
        (t.(sessions := t.sessions[id := s.sessions[id].(user := user, tokenId := issued.tokenId,
                                                         tokenCreated := issued.created, status := Authorized)]),
         Ok(Authorized))
  }

  /** What a poll answers. */
  datatype PollReply = Waiting(status: Status) | InvalidApp | MissingUser | MissingToken | NoRecord | Refused
                     | Released(credential: Credential)

  /** A management token for the device, with the scopes of the grant as they are now; its id is `nextId`. */
  function AddAccessToken(s: Store, d: Device, grant: Grant, now: int): Store {
    s.(accessTokens := s.accessTokens[s.nextId :=
         AccessToken(d, grant.id, grant.scopes, true, now + MANAGEMENT_TOKEN_TTL)],
       nextId := s.nextId + 1)
  }

  function Release(s: Store, id: nat, credential: Credential): Store
    requires id in s.sessions
  {
    s.(sessions := s.sessions[id := s.sessions[id].(status := Consumed)], released := s.released + [(id, credential)])
  }

  /** The guarded update of a poll: it takes effect only while the stored session is still authorised. */
  predicate Consumable(s: Store, id: nat) {
    id in s.sessions && s.sessions[id].status == Authorized
  }

  /** The device's poll, once it has read its session. The row may have changed since it was read; what the poll
      writes is guarded by the stored status. */
  function Poll(s: Store, app: App, id: nat, session: Session, users: set<nat>, now: int): (Store, PollReply) {
    if session.app != app.id then (s, InvalidApp)
    else if Overdue(session, now) then (ExpireSession(s, id), Waiting(Expired))
    else if session.status != Authorized then (s, Waiting(session.status))
    else if session.user == 0 then (s, MissingUser)
    else if (app.id, session.user) !in s.grants then (s, NoRecord)
    else if UsesManagementFlow(app) then PollManagement(s, id, session, users, now)
    else PollKey(s, id, session, users)
  }

  function SessionDevice(session: Session): Device {
    Device(session.app, session.user, session.fingerprint)
  }

  /** An authorised session of the management flow. */
  function PollManagement(s: Store, id: nat, session: Session, users: set<nat>, now: int): (Store, PollReply)
    requires (session.app, session.user) in s.grants
  {
    if session.user !in users then (s, NoRecord)
    else if !Consumable(s, id) then (s, Waiting(Consumed))
    else if TrimSpace(session.fingerprint) == "" then (s, Refused)
    else
      (Release(AddAccessToken(s, SessionDevice(session), s.grants[(session.app, session.user)], now), id,
               ManagementToken(s.nextId)),
       Released(ManagementToken(s.nextId)))
  }

  /** An authorised session of the key flow. Its token may have been deleted, or replaced in its binding. */
  function PollKey(s: Store, id: nat, session: Session, users: set<nat>): (Store, PollReply) {
    if session.tokenId == 0 then (s, MissingToken)
    else if !s.HasToken(session.tokenId, session.user) then (s, NoRecord)
    else if !(exists d :: d in s.bindings && s.bindings[d].tokenId == session.tokenId) then (s, NoRecord)
    else if session.user !in users then (s, NoRecord)
    else if !Consumable(s, id) then (s, Waiting(Consumed))
    else (Release(s, id, ApiKey(session.tokenId)), Released(ApiKey(session.tokenId)))
  }
}
