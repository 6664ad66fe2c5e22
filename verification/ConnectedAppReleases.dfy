/** When a poll hands out a credential, and that nothing else consumes a session. */
module ConnectedAppReleases {
  import opened ConnectedAppStore
  import opened ConnectedAppRuns
  import opened ConnectedAppSessions
  import opened Text

  // ----- when a poll releases -----

  /** The rows that a poll of the key flow needs: the user's token, and a binding that still has it. */
  ghost predicate KeyIsThere(s: Store, session: Session) {
    && session.tokenId in s.tokens && s.tokens[session.tokenId].user == session.user
    && exists d | d in s.bindings :: s.bindings[d].tokenId == session.tokenId
  }

  /** A poll of the stored session hands out a credential if and only if the session is authorised, its user exists
      and, in the key flow, the key is still there, or, in the management flow, the device has a name. Otherwise it
      leaves everything as it was, but that it expires an overdue session. */
  lemma PollReleases(s: Store, flows: Flows, app: App, id: nat, users: set<nat>, now: int)
    requires Inv(s, flows) && id in s.sessions && s.sessions[id].app == app.id
    requires UsesManagementFlow(app) == flows(app.id)
    ensures var session := s.sessions[id];
            var (t, reply) := Poll(s, app, id, session, users, now);
            && (reply.Released? <==>
                  && session.status == Authorized && session.user in users
                  && if flows(app.id) then TrimSpace(session.fingerprint) != "" else KeyIsThere(s, session))
            && (reply.Released? && !flows(app.id) ==> reply.credential == ApiKey(session.tokenId))
            && (!reply.Released? ==>
                  t == if session.status == Pending && session.expiresAt <= now
                       then s.(sessions := s.sessions[id := session.(status := Expired)]) else s)
  {
    assert SessionSound(s, flows, s.sessions[id]);
    hide TokenInv, TrimSpace, SessionInv, UsesManagementFlow;
  }


  /** What a poll that releases nothing answers: the status, or that a row or, in the management flow, the name of the
      device is missing. */
  lemma PollAnswers(s: Store, flows: Flows, app: App, id: nat, users: set<nat>, now: int)
    requires Inv(s, flows) && id in s.sessions && s.sessions[id].app == app.id
    requires UsesManagementFlow(app) == flows(app.id)
    ensures var session, reply := s.sessions[id], Poll(s, app, id, s.sessions[id], users, now).1;
            && (session.status != Authorized ==>
                  reply == Waiting(if session.status == Pending && session.expiresAt <= now then Expired
                                   else session.status))
            && (session.status == Authorized && !reply.Released? ==>
                  reply == if flows(app.id) && session.user in users then Refused else NoRecord)
  {
    assert SessionSound(s, flows, s.sessions[id]);
    hide TokenInv, TrimSpace, SessionInv, UsesManagementFlow;
  }

  /** What the management flow hands out: a new active token of the session's app, user and device with the scopes of
      the grant, for 90 days. */
  lemma ReleasedManagementToken(s: Store, flows: Flows, app: App, id: nat, users: set<nat>, now: int)
    requires Inv(s, flows) && id in s.sessions && UsesManagementFlow(app) && flows(app.id)
    requires Poll(s, app, id, s.sessions[id], users, now).1.Released?
    ensures var session := s.sessions[id];
            var (t, reply) := Poll(s, app, id, session, users, now);
            && reply.credential.ManagementToken? && (session.app, session.user) in s.grants
            && var a, grant := reply.credential.accessTokenId, s.grants[(session.app, session.user)];
               && a !in s.accessTokens
               && t.accessTokens == s.accessTokens[a :=
                    AccessToken(Device(session.app, session.user, session.fingerprint), grant.id, grant.scopes, true,
                                now + 7776000)]
  {
    hide IssuedAttributed, BindingIdsDistinct, BindingsAttributed, OnlyCurrentEnabled, TrimSpace, SessionInv,
         UsesManagementFlow;
  }

  // ----- what consumes a session -----

  ghost predicate IsConsumed(s: Store, id: nat) {
    id in s.sessions && s.sessions[id].status == Consumed
  }

  ghost predicate SameConsumed(s: Store, t: Store) {
    t.released == s.released && forall id :: IsConsumed(t, id) <==> IsConsumed(s, id)
  }

  /** One more session is consumed, and the log has one more entry for it. */
  ghost predicate OneConsumed(s: Store, t: Store, id: nat, credential: Credential) {
    && t.released == s.released + [(id, credential)]
    && id in s.sessions && !IsConsumed(s, id)
    && forall i :: IsConsumed(t, i) <==> IsConsumed(s, i) || i == id
  }

  ghost predicate Tracks(s: Store, t: Store) {
    SameConsumed(s, t) || exists id, credential :: OneConsumed(s, t, id, credential)
  }

  lemma ReleaseTracks(s: Store, t: Store, id: nat, credential: Credential)
    requires Consumable(s, id) && t.sessions == Release(s, id, credential).sessions
    requires t.released == Release(s, id, credential).released
    ensures Tracks(s, t)
  {
    assert OneConsumed(s, t, id, credential);
  }

  lemma PollTracks(s: Store, app: App, id: nat, row: Session, users: set<nat>, now: int)
    ensures Tracks(s, Poll(s, app, id, row, users, now).0)
  {
    var (t, reply) := Poll(s, app, id, row, users, now);
    PollIs(s, app, id, row, users, now);
    ExpiryTracks(s, id);
    hide Poll, Release, ExpireSession, SameConsumed, Tracks;
    if reply.Released? {
      ReleaseTracks(s, t, id, reply.credential);
    }
  }

  lemma PollIs(s: Store, app: App, id: nat, row: Session, users: set<nat>, now: int)
    ensures var (t, reply) := Poll(s, app, id, row, users, now);
            if reply.Released?
            then && Consumable(s, id) && t.sessions == Release(s, id, reply.credential).sessions
                 && t.released == Release(s, id, reply.credential).released
            else t == s || t == ExpireSession(s, id)
  {
    hide TrimSpace, UsesManagementFlow, Overdue;
  }

  lemma ExpiryTracks(s: Store, id: nat)
    ensures Tracks(s, s) && Tracks(s, ExpireSession(s, id))
  {
    assert SameConsumed(s, s) && SameConsumed(s, ExpireSession(s, id));
  }

  lemma AnswerTracks(s: Store, app: App, id: nat, user: nat, approve: bool, now: int)
    ensures SameConsumed(s, Authorize(s, app, id, user, approve, now).0)
  {
    AnswerEffect(s, app, id, user, approve, now);
    AnswerKeepsLog(s, app, id, user, approve, now);
    hide Authorize;
  }

  lemma AnswerKeepsLog(s: Store, app: App, id: nat, user: nat, approve: bool, now: int)
    ensures Authorize(s, app, id, user, approve, now).0.released == s.released
  {
    hide EnsureForDevice, UsesManagementFlow;
    if id in s.sessions {
      EnsureElsewhere(s, app, user, s.sessions[id].fingerprint, false, now);
    }
  }

  lemma FrameTracks(s: Store, t: Store)
    requires SessionFrame(s, t)
    ensures SameConsumed(s, t)
  {
  }

  lemma StartTracks(s: Store, app: App, fingerprint: string, taken: nat, now: int)
    requires RowsKnown(s)
    ensures SameConsumed(s, StartSession(s, app, fingerprint, taken, now).0)
  {
  }

  lemma LookTracks(s: Store, app: App, id: nat, user: nat, now: int)
    ensures SameConsumed(s, SessionStatus(s, app, id, user, now).0)
  {
  }

  /** Every step consumes a session if and only if it logs a release of it. */
  lemma NextTracks(s: Store, step: Step)
    requires TokenInv(s)
    ensures Tracks(s, Next(s, step))
  {
    assert RowsKnown(s);
    hide TokenInv, SameConsumed;
    if LeavesSessions(step) {
      NextFrames(s, step);
      hide Next;
      FrameTracks(s, Next(s, step));
    } else {
      hide Poll, Authorize, StartSession, SessionStatus, RowsKnown;
      match step {
        case Start(app, fingerprint, taken, now) => StartTracks(s, app, fingerprint, taken, now);
        case Look(app, id, user, now) => LookTracks(s, app, id, user, now);
        case Answer(app, id, user, approve, now) => AnswerTracks(s, app, id, user, approve, now);
        case Polls(app, id, row, users, now) => PollTracks(s, app, id, row, users, now);
      }
    }
  }

  /** A step consumes this session if and only if it logs its release. */
  lemma ConsumedIffLogged(s: Store, step: Step, id: nat)
    requires TokenInv(s) && id in s.sessions && s.sessions[id].status != Consumed
    ensures var t := Next(s, step);
            && id in t.sessions
            && (t.sessions[id].status == Consumed <==>
                  exists credential :: t.released == s.released + [(id, credential)])
  {
    var t := Next(s, step);
    NextTracks(s, step);
    NextMoves(s, step, id);
    hide TokenInv, Next;
    if j, c :| OneConsumed(s, t, j, c) {
      assert (s.released + [(j, c)])[|s.released|] == (j, c);
      assert forall credential :: (s.released + [(id, credential)])[|s.released|] == (id, credential);
      if j == id {
        assert IsConsumed(t, id) && t.released == s.released + [(id, c)];
      } else {
        assert !IsConsumed(t, id);
      }
    } else {
      assert !IsConsumed(s, id);
      assert forall credential :: |s.released + [(id, credential)]| != |s.released|;
    }
  }

  /** The sessions that are consumed are those in the log. */
  ghost predicate AllLogged(s: Store) {
    forall id :: IsConsumed(s, id) <==> exists i :: 0 <= i < |s.released| && s.released[i].0 == id
  }

  lemma TrackingKeepsLogged(s: Store, t: Store)
    requires AllLogged(s) && Tracks(s, t)
    ensures AllLogged(t)
  {
    if id, c :| OneConsumed(s, t, id, c) {
      forall k ensures IsConsumed(t, k) <==> exists i :: 0 <= i < |t.released| && t.released[i].0 == k {
        if i :| 0 <= i < |s.released| && s.released[i].0 == k {
          assert t.released[i].0 == k;
        }
        assert t.released[|s.released|].0 == id;
        if i :| 0 <= i < |t.released| && t.released[i].0 == k {
          assert i < |s.released| ==> s.released[i].0 == k;
        }
      }
    }
  }

  lemma {:induction false} RunKeepsLogged(s: Store, steps: seq<Step>)
    requires TokenInv(s) && AllLogged(s)
    ensures AllLogged(Run(s, steps))
    decreases |steps|
  {
    if steps != [] {
      NextTracks(s, steps[0]);
      NextKeepsTokenInv(s, steps[0]);
      hide TokenInv, Next, Tracks, AllLogged;
      TrackingKeepsLogged(s, Next(s, steps[0]));
      RunKeepsLogged(Next(s, steps[0]), steps[1..]);
    }
  }

  /** In every reachable state a session is consumed if and only if the log has one entry for it, and never two. */
  lemma ReachableConsumedIsReleased(s: Store, flows: Flows, id: nat)
    requires Reachable(s, flows)
    ensures id in s.sessions && s.sessions[id].status == Consumed
       <==> exists i: nat :: i < |s.released| && s.released[i].0 == id
              && forall j: nat | j < |s.released| && j != i :: s.released[j].0 != id
  {
    ReachableIsLogged(s, flows);
    assert (id in s.sessions && s.sessions[id].status == Consumed) <==> IsConsumed(s, id);
    hide *;
    LoggedMeans(s, id);
    if i: nat :| i < |s.released| && s.released[i].0 == id {
      OnlyEntry(s, flows, id, i);
    }
  }

  lemma LoggedMeans(s: Store, id: nat)
    requires AllLogged(s)
    ensures IsConsumed(s, id) <==> exists i: nat :: i < |s.released| && s.released[i].0 == id
  {
  }

  lemma OnlyEntry(s: Store, flows: Flows, id: nat, i: nat)
    requires Reachable(s, flows) && i < |s.released| && s.released[i].0 == id
    ensures forall j: nat | j < |s.released| && j != i :: s.released[j].0 != id
  {
    forall j: nat | j < |s.released| && j != i ensures s.released[j].0 != id {
      if s.released[j].0 == id {
        CredentialReleasedOnce(s, flows, i, j);
      }
    }
  }

  lemma ReachableIsLogged(s: Store, flows: Flows)
    requires Reachable(s, flows)
    ensures AllLogged(s)
  {
    var steps :| FitAll(steps, flows) && s == Run(EMPTY, steps);
    assert TokenInv(EMPTY) && AllLogged(EMPTY);
    hide TokenInv, Run, FitAll;
    RunKeepsLogged(EMPTY, steps);
  }
}
