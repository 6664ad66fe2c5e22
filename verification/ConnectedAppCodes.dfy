/** Authorization codes over whole runs (section 4.1.2 of RFC 6749). */
module ConnectedAppCodes {
  import opened ConnectedAppStore
  import opened ConnectedAppRuns
  import opened ConnectedAppSessions
  import opened ConnectedAppCalm
  import opened Text

  /** A code that is known stays as it was, or has been used up. */
  ghost predicate CodesStay(s: Store, t: Store) {
    forall id | id in s.codes ::
      id in t.codes && (t.codes[id] == s.codes[id] || t.codes[id] == s.codes[id].(pending := false))
  }

  lemma ConsentStays(s: Store, a: App, u: nat, redirect: string, requested: set<string>, challenged: bool, now: int)
    requires RowsKnown(s)
    ensures CodesStay(s, Consent(s, a, u, redirect, requested, challenged, now).0)
  {
    hide ConsentScopes, RedirectAllowed;
  }

  lemma ExchangeStays(s: Store, step: Step)
    requires step.Exchanges?
    ensures CodesStay(s, Next(s, step))
    ensures Exchange(s, step.app, step.code, step.redirect, step.proven, step.users, step.now).1.Ok? ==>
              step.code in Next(s, step).codes && !Next(s, step).codes[step.code].pending
  {
    var id := step.code;
    ExchangeIs(s, step.app, id, step.redirect, step.proven, step.users, step.now);
    hide IssueForOAuth, Exchange, TrimSpace;
    if Exchange(s, step.app, id, step.redirect, step.proven, step.users, step.now).1.Ok? {
      OAuthElsewhere(Used(s, id), step.app, s.codes[id].user, s.codes[id].scopes, "oauth-web");
    }
  }

  lemma RevocationsKeepCodes(s: Store, step: Step)
    requires step.DeviceRevokes? || step.GrantRevokes? || step.TokenWorsens? || step.TokenDeleted?
    ensures Next(s, step).codes == s.codes
  {
    hide DeviceRevoke, RevokeGrant;
    match step {
      case DeviceRevokes(d, revokeToken) => DeviceRevokeKeepsCodes(s, d, revokeToken);
      case GrantRevokes(a, u) => GrantRevokeKeepsCodes(s, a, u);
      case _ =>
    }
  }

  lemma DeviceRevokeKeepsCodes(s: Store, d: Device, revokeToken: bool)
    ensures DeviceRevoke(s, d, revokeToken).codes == s.codes
  {
    hide RevokedAccess, Disabled;
  }

  lemma GrantRevokeKeepsCodes(s: Store, a: nat, u: nat)
    ensures RevokeGrant(s, a, u).0.codes == s.codes
  {
    hide RevokedAccess, RevokedBindings, AllDisabled;
  }

  lemma AnswerKeepsCodes(s: Store, a: App, id: nat, u: nat, approve: bool, now: int)
    ensures Authorize(s, a, id, u, approve, now).0.codes == s.codes
  {
    hide EnsureForDevice, UsesManagementFlow;
    if id in s.sessions {
      EnsureElsewhere(s, a, u, s.sessions[id].fingerprint, false, now);
    }
  }

  lemma PollKeepsCodes(s: Store, step: Step)
    requires step.Polls? || step.Start? || step.Look?
    ensures Next(s, step).codes == s.codes
  {
    hide Poll, StartSession, SessionStatus;
    match step {
      case Polls(a, id, row, users, now) =>
        PollIsOneOf(s, a, id, row, users, now);
        PollPartsKeepCodes(s, id, row, users, now);
        hide ExpireSession, PollKey, PollManagement, UsesManagementFlow;
      case Start(a, fingerprint, taken, now) => StartKeepsCodes(s, a, fingerprint, taken, now);
      case Look(a, id, u, now) => LookEffect(s, a, id, u, now);
    }
  }

  lemma StartKeepsCodes(s: Store, a: App, fingerprint: string, taken: nat, now: int)
    ensures StartSession(s, a, fingerprint, taken, now).0.codes == s.codes
  {
  }

  lemma PollPartsKeepCodes(s: Store, id: nat, row: Session, users: set<nat>, now: int)
    ensures ExpireSession(s, id).codes == s.codes && PollKey(s, id, row, users).0.codes == s.codes
    ensures (row.app, row.user) in s.grants ==> PollManagement(s, id, row, users, now).0.codes == s.codes
  {
    hide TrimSpace;
  }

  lemma NextKeepsCodes(s: Store, step: Step)
    requires TokenInv(s)
    ensures CodesStay(s, Next(s, step))
  {
    assert CodesStay(s, s) && RowsKnown(s);
    hide TokenInv, OnlyKeys;
    match step {
      case Ensure(a, u, fingerprint, rotate, now) => EnsureElsewhere(s, a, u, fingerprint, rotate, now);
      case Consents(a, u, redirect, requested, challenged, now) =>
        ConsentStays(s, a, u, redirect, requested, challenged, now);
      case Exchanges(_, _, _, _, _, _) => ExchangeStays(s, step);
      case Answer(a, id, u, approve, now) => AnswerKeepsCodes(s, a, id, u, approve, now);
      case _ => OtherKeepsCodes(s, step);
    }
  }

  lemma OtherKeepsCodes(s: Store, step: Step)
    requires !step.Ensure? && !step.Consents? && !step.Exchanges? && !step.Answer?
    ensures Next(s, step).codes == s.codes
  {
    hide Next;
    if IsClient(step) {
      ClientOnlyKeys(s, step);
    } else if step.Polls? || step.Start? || step.Look? {
      PollKeepsCodes(s, step);
    } else {
      RevocationsKeepCodes(s, step);
    }
  }

  /** A code that has been used up is never pending again. */
  lemma {:induction false} RunKeepsUsedUp(s: Store, steps: seq<Step>, id: nat)
    requires TokenInv(s) && id in s.codes && !s.codes[id].pending
    ensures id in Run(s, steps).codes && !Run(s, steps).codes[id].pending
    decreases |steps|
  {
    if steps != [] {
      NextKeepsCodes(s, steps[0]);
      NextKeepsTokenInv(s, steps[0]);
      hide TokenInv, Next;
      RunKeepsUsedUp(Next(s, steps[0]), steps[1..], id);
    }
  }

  /** A code is exchanged once at most: after any run every further exchange of it is refused. */
  lemma CodeExchangedOnce(s: Store, first: Step, steps: seq<Step>, second: Step)
    requires TokenInv(s) && first.Exchanges? && second.Exchanges? && first.code == second.code
    requires Exchange(s, first.app, first.code, first.redirect, first.proven, first.users, first.now).1.Ok?
    ensures var t := Run(Next(s, first), steps);
            && Exchange(t, second.app, second.code, second.redirect, second.proven, second.users, second.now).1.Fail?
            && Next(t, second) == t
  {
    var t := Run(Next(s, first), steps);
    ExchangeStays(s, first);
    NextKeepsTokenInv(s, first);
    RunKeepsUsedUp(Next(s, first), steps, first.code);
    ExchangeIs(t, second.app, second.code, second.redirect, second.proven, second.users, second.now);
    assert Next(t, second)
        == Exchange(t, second.app, second.code, second.redirect, second.proven, second.users, second.now).0;
    hide Exchange, TokenInv, Next, Run, IssueForOAuth, TrimSpace;
  }
}
