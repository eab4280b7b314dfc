/** From a recovery code to the user's one passkey, over any run; and what registering answers, said on the rows. */
module AuthRecovery {
  import opened Common
  import opened Text
  import opened TextFacts
  import opened AuthState
  import opened AuthRuns
  import opened AuthOrigins
  import opened Registration

  /** `st` are the states that the calls `es` go through, whatever the first one is. */
  ghost predicate GoesThrough(settings: Settings, es: seq<Event>, st: seq<State>) {
    |st| == |es| + 1 && forall n :: 0 <= n < |es| ==> Follows(settings, st[n], es[n], st[n + 1])
  }

  ghost predicate Follows(settings: Settings, s: State, e: Event, t: State) {
    PickExists(s, e.call) && t == Step(settings, s, e)
  }

  /** Every run goes through states, and ends in its last one. */
  lemma {:induction false} RunGoesThrough(settings: Settings, es: seq<Event>) returns (st: seq<State>)
    requires IsRun(settings, es)
    ensures GoesThrough(settings, es, st) && st[|es|] == After(settings, es)
  {
    if es == [] {
      st := [After(settings, es)];
    } else {
      var n := |es| - 1;
      var before := RunGoesThrough(settings, es[..n]);
      st := before + [After(settings, es)];
      forall m | 0 <= m < |es| ensures Follows(settings, st[m], es[m], st[m + 1]) {
        assert m < n ==> es[m] == es[..n][m] && Follows(settings, before[m], es[..n][m], before[m + 1]);
      }
    }
  }

  /** What a code row was issued with stays. */
  lemma {:induction false} CodeStays(settings: Settings, es: seq<Event>, st: seq<State>, i: nat, n: nat, id: Id)
    requires GoesThrough(settings, es, st) && i <= n <= |es| && id in st[i].codes
    ensures id in st[n].codes && st[n].codes[id].userId == st[i].codes[id].userId
    ensures st[n].codes[id].purpose == st[i].codes[id].purpose
  {
    if i < n {
      CodeStays(settings, es, st, i, n - 1, id);
      assert Follows(settings, st[n - 1], es[n - 1], st[n - 1 + 1]);
      StepKeepsCodes(settings, st[n - 1], es[n - 1], id);
    }
  }

  /** An enrollment session stays until its token is spent. */
  lemma {:induction false} EnrollmentStays(settings: Settings, es: seq<Event>, st: seq<State>, i: nat, n: nat,
                                           h: string)
    requires GoesThrough(settings, es, st) && i <= n <= |es| && h in st[i].enrollments
    requires forall m :: i <= m < n ==> !Ends(settings, es[m], h)
    ensures h in st[n].enrollments && st[n].enrollments[h] == st[i].enrollments[h]
  {
    if i < n {
      EnrollmentStays(settings, es, st, i, n - 1, h);
      assert Follows(settings, st[n - 1], es[n - 1], st[n - 1 + 1]);
      StepEnrolls(settings, st[n - 1], es[n - 1], h);
    }
  }

  /** Event `i` issues code `id` for user `u`, for recovery. */
  predicate IssuesRecovery(es: seq<Event>, st: seq<State>, i: nat, id: Id, u: Id)
    requires |st| == |es| + 1
  {
    && i < |es| && es[i].call.Issue? && es[i].call.codeId == id && es[i].call.userId == u
    && es[i].call.purpose == "recovery" && id !in st[i].codes && u in st[i].users
  }

  /** The call of event `e` accepts a code: `r` is the answer. */
  predicate Accepts(settings: Settings, s: State, e: Event, id: Id, r: VerifyResult) {
    && e.call.Verify? && PickExists(s, e.call) && r.Accepted? && r.codeId == id
    && r == AuthState.Verify(settings, s, e.call.code, e.call.clientIp, e.call.pick, e.now).1
  }

  /** Event `k` opens a session for `token` with the user and the purpose that an acceptance returned. */
  predicate Opens(settings: Settings, es: seq<Event>, st: seq<State>, k: nat, r: VerifyResult, token: string)
    requires |st| == |es| + 1 && r.Accepted?
  {
    && k < |es| && es[k].call == CreateEnrollment(token, r.userId, r.purpose)
    && r.userId in st[k].users && settings.mac(TrimSpace(token)) !in st[k].enrollments
  }

  lemma {:induction false} AcceptsTheRow(settings: Settings, s: State, e: Event, id: Id, r: VerifyResult)
    requires Accepts(settings, s, e, id, r)
    ensures id in s.codes && r.userId == s.codes[id].userId && Shown(s.codes[id].purpose, r.purpose)
  {
    if e.call.pick.Some? { PurposeShown(s.codes[e.call.pick.value].purpose); }
  }

  lemma {:induction false} AcceptedForRecovery(settings: Settings, es: seq<Event>, st: seq<State>, i: nat, j: nat,
                                               id: Id, u: Id, r: VerifyResult)
    requires GoesThrough(settings, es, st) && i < j < |es| && IssuesRecovery(es, st, i, id, u)
    requires Accepts(settings, st[j], es[j], id, r)
    ensures r.userId == u && r.purpose == "recovery"
  {
    assert Follows(settings, st[i], es[i], st[i + 1]);
    StepIssues(settings, st[i], es[i], id);
    CodeStays(settings, es, st, i + 1, j, id);
    AcceptsTheRow(settings, st[j], es[j], id, r);
    assert !White("recovery"[0]);
  }

  lemma {:induction false} OpensRecovery(settings: Settings, s: State, e: Event, u: Id, token: string)
    requires e.call == CreateEnrollment(token, u, "recovery") && u in s.users
    requires settings.mac(TrimSpace(token)) !in s.enrollments
    ensures var rows, h := Step(settings, s, e).enrollments, settings.mac(TrimSpace(token));
            h in rows && IsRecovery(rows[h], u, e.now)
  {
    StepEnrolls(settings, s, e, settings.mac(TrimSpace(token)));
    assert !White("recovery"[0]);
  }

  /** A session for `u` to recover with, opened at `since`. */
  predicate IsRecovery(row: Enrollment, u: Id, since: Time) {
    row == Enrollment(u, since + 15 * 60, "recovery")
  }

  /** The request brings a challenge saved for `u` to register with that has not expired, and the ceremony succeeds. */
  predicate Answers(s: State, req: Request, at: Clocks, u: Id) {
    && req.challengeId != "" && req.challengeId in s.challenges && s.challenges[req.challengeId].kind == "register"
    && at.challenge < s.challenges[req.challengeId].expiresAt && s.challenges[req.challengeId].userId == Some(u)
    && req.ceremony.Some?
  }

  /** End to end: a code issued for recovery to `u` is accepted; a session is opened with the user and the purpose
      returned; while it lasts and is not spent, `u` registers a credential whose id is new or their own. Then that is
      the only credential of `u`, and no other user's changed. */
  lemma {:induction false} RecoveryEndToEnd(settings: Settings, es: seq<Event>, st: seq<State>, i: nat, j: nat, k: nat,
                                            id: Id, u: Id, r: VerifyResult, req: Request, at: Clocks)
    requires GoesThrough(settings, es, st) && i < j < k < |es| && IssuesRecovery(es, st, i, id, u)
    requires Accepts(settings, st[j], es[j], id, r) && Opens(settings, es, st, k, r, req.enrollToken)
    requires forall m :: k < m < |es| ==> !Ends(settings, es[m], settings.mac(TrimSpace(req.enrollToken)))
    requires req.enrollToken != "" && at.Ordered() && at.purge < es[k].now + 15 * 60
    requires u in st[|es|].users && Answers(st[|es|], req, at, u)
    requires var c := req.ceremony.value.credId;
             c in st[|es|].credentials ==> st[|es|].credentials[c].userId == u
    ensures OnlyCredential(st[|es|], Finish(settings, st[|es|], req, at).0, u, req.ceremony.value)
  {
    AcceptedForRecovery(settings, es, st, i, j, id, u, r);
    assert Follows(settings, st[k], es[k], st[k + 1]);
    OpensRecovery(settings, st[k], es[k], u, req.enrollToken);
    EnrollmentStays(settings, es, st, k + 1, |es|, settings.mac(TrimSpace(req.enrollToken)));
    OnlyOneLeft(settings, st[|es|], req, at, u, es[k].now);
  }

  lemma {:induction false} OnlyOneLeft(settings: Settings, s: State, req: Request, at: Clocks, u: Id, since: Time)
    requires var h := settings.mac(TrimSpace(req.enrollToken));
             req.enrollToken != "" && h in s.enrollments && IsRecovery(s.enrollments[h], u, since)
    requires at.Ordered() && at.purge < since + 15 * 60 && u in s.users && Answers(s, req, at, u)
    requires var c := req.ceremony.value.credId; c in s.credentials ==> s.credentials[c].userId == u
    ensures OnlyCredential(s, Finish(settings, s, req, at).0, u, req.ceremony.value)
  {
    TrimSpaceTrimmed(req.enrollToken);
    BlankIff("recovery");
    assert !White("recovery"[0]);
    RecoveryLeavesOneCredential(settings, s, req, at, u);
    var t, c := Finish(settings, s, req, at).0, req.ceremony.value.credId;
    assert c in CredentialsOf(t, u);
    forall x | x in t.credentials && t.credentials[x].userId == u ensures x == c {
      assert x in CredentialsOf(t, u);
    }
  }

  /** `u` has the new credential and no other, and nobody else's changed. */
  ghost predicate OnlyCredential(s: State, t: State, u: Id, made: Ceremony) {
    && made.credId in t.credentials && t.credentials[made.credId].userId == u
    && t.credentials[made.credId].publicKey == made.publicKey
    && (forall x :: x in t.credentials && t.credentials[x].userId == u ==> x == made.credId)
    && (forall x :: x in s.credentials && s.credentials[x].userId != u ==>
          x in t.credentials && t.credentials[x] == s.credentials[x])
  }

  /** The user a request speaks for: the one of a session that lasts, while that user is known, or else whoever is
      signed in. */
  predicate SpeaksFor(settings: Settings, s: State, req: Request, now: Time, user: Option<Id>) {
    var h := settings.mac(TrimSpace(req.enrollToken));
    if req.enrollToken != "" && h in s.enrollments && now < s.enrollments[h].expiresAt
       && s.enrollments[h].userId in s.users
    then user == Some(s.enrollments[h].userId)
    else user == req.sessionUser
  }

  /** What registering answers: refused without a user, a challenge or a ceremony that fits, and then nothing but the
      challenge is spent; else registered unless a row cannot be stored, and signed in for as long as sessions last. */
  lemma {:induction false} FinishAnswers(settings: Settings, s: State, req: Request, at: Clocks, user: Option<Id>)
    requires SpeaksFor(settings, s, req, at.identify, user)
    ensures var (t, r) := Finish(settings, s, req, at);
            if user.None? then t == s && r == Unauthorized
            else if req.challengeId == "" then t == s && r == BadRequest
            else if !(Answers(s, req, at, user.value) && user.value in s.users)
            then r == BadRequest && t == s.(challenges := t.challenges)
                 && (t.challenges == s.challenges || t.challenges == s.challenges - {req.challengeId})
            else
              var h := settings.mac(TrimSpace(req.sessionToken));
              if h in s.sessions then r == ServerError && t.sessions == s.sessions
              else r == Registered(user.value)
                   && t.sessions == s.sessions[h := Session(user.value, at.session + settings.sessionTtl)]
  {
    TrimSpaceTrimmed(req.enrollToken);
    UserIs(settings, s, req, at.identify, user);
    if user.Some? && req.challengeId != "" && Answers(s, req, at, user.value) && user.value in s.users {
      Registers(settings, s, req, at, user.value);
    }
  }

  lemma {:induction false} UserIs(settings: Settings, s: State, req: Request, now: Time, user: Option<Id>)
    requires SpeaksFor(settings, s, req, now, user)
    ensures UserOf(settings, s, req, now) == user
  {
    TrimSpaceTrimmed(req.enrollToken);
  }

  lemma {:induction false} Registers(settings: Settings, s: State, req: Request, at: Clocks, u: Id)
    requires UserOf(settings, s, req, at.identify) == Some(u) && u in s.users && Answers(s, req, at, u)
    ensures var (t, r) := Finish(settings, s, req, at);
            var h := settings.mac(TrimSpace(req.sessionToken));
            if h in s.sessions then r == ServerError && t.sessions == s.sessions
            else r == Registered(u) && t.sessions == s.sessions[h := Session(u, at.session + settings.sessionTtl)]
  {
    var cred := req.ceremony.value;
    var s1 := s.(challenges := s.challenges - {req.challengeId});
    assert AuthState.LoadChallenge(s, req.challengeId, CHALLENGE_REGISTER, at.challenge)
        == (s1, Some(s.challenges[req.challengeId]));
    var stored := s1.(credentials := WithNew(s, u, req, at));
    assert AuthState.StoreCredential(s1, u, cred.credId, cred.publicKey, cred.signCount, req.nickname, at.store)
        == Some(stored);
    SpendEffect(settings, stored, u, req.enrollToken, cred.credId, at.purge);
  }
}
