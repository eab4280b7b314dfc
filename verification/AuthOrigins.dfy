/** Where the rows of the service come from, over any run: what a code, an enrollment session or a challenge that counts
    was made with, and when. */
module AuthOrigins {
  import opened Common
  import opened Text
  import opened TextFacts
  import opened AuthState
  import opened AuthRuns

  // ---- Codes ----

  /** Event `i` issued the code row `c`. */
  ghost predicate IssuedAt(settings: Settings, es: seq<Event>, i: nat, id: Id, c: Code) {
    && i < |es| && es[i].call.Issue? && es[i].call.codeId == id
    && c.userId == es[i].call.userId && c.hash == settings.mac(TrimSpace(es[i].call.code))
    && c.purpose == es[i].call.purpose && c.createdAt == es[i].now && c.expiresAt == es[i].now + settings.codeTtl
  }

  lemma StepKeepsCodes(settings: Settings, s: State, e: Event, id: Id)
    requires PickExists(s, e.call) && id in s.codes
    ensures var t := Step(settings, s, e);
            && id in t.codes && t.codes[id].userId == s.codes[id].userId && t.codes[id].hash == s.codes[id].hash
            && t.codes[id].purpose == s.codes[id].purpose && t.codes[id].createdAt == s.codes[id].createdAt
            && t.codes[id].expiresAt == s.codes[id].expiresAt
  {
    if e.call.Verify? {
      VerifyCodes(settings, s, e);
    } else if !e.call.Issue? {
      StepFrame(settings, s, e);
    }
  }

  lemma StepIssues(settings: Settings, s: State, e: Event, id: Id)
    requires PickExists(s, e.call) && id !in s.codes
    ensures id in Step(settings, s, e).codes <==> e.call.Issue? && e.call.codeId == id && e.call.userId in s.users
    ensures id in Step(settings, s, e).codes ==>
              var c := Step(settings, s, e).codes[id];
              IssuedAt(settings, [e], 0, id, c) && c.usedAt.None? && c.attempts == 0
  {
    if e.call.Verify? {
      VerifyCodes(settings, s, e);
    } else if !e.call.Issue? {
      StepFrame(settings, s, e);
    }
  }

  /** Over any run every code row was issued by a call with its user, its code and its purpose. */
  lemma {:induction false} CodeOrigin(settings: Settings, es: seq<Event>, id: Id)
    requires IsRun(settings, es) && id in After(settings, es).codes
    ensures exists i: nat :: IssuedAt(settings, es, i, id, After(settings, es).codes[id])
  {
    var before, e := es[..|es| - 1], es[|es| - 1];
    var s := After(settings, before);
    if id in s.codes {
      CodeOrigin(settings, before, id);
      var i: nat :| IssuedAt(settings, before, i, id, s.codes[id]);
      StepKeepsCodes(settings, s, e, id);
      assert IssuedAt(settings, es, i, id, After(settings, es).codes[id]);
    } else {
      StepIssues(settings, s, e, id);
      assert IssuedAt(settings, es, |es| - 1, id, After(settings, es).codes[id]);
    }
  }

  /** The address is blocked: it has reached the limit in a window that is not over. */
  predicate AddressFull(settings: Settings, s: State, ip: string, now: Time) {
    && ip != "" && ip in s.windows && s.windows[ip].attempts >= settings.maxAttempts
    && now < s.windows[ip].start + settings.window
  }

  /** The windows after one more failure of the address at `now`: counted in the stored window until that is over by
      its length, then in a new one. */
  predicate FailureCounted(settings: Settings, before: map<string, Window>, ip: string, now: Time,
                           after: map<string, Window>) {
    if ip == "" then after == before
    else
      && ip in after && after.Keys == before.Keys + {ip}
      && (forall a :: a in before && a != ip ==> after[a] == before[a])
      && if ip in before && now <= before[ip].start + settings.window
         then after[ip] == Window(before[ip].attempts + 1, before[ip].start)
         else after[ip] == Window(1, now)
  }

  /** The purpose a session or a result shows. */
  predicate Shown(purpose: string, shown: string) {
    if Blank(purpose) then shown == "initial" else shown == purpose
  }

  lemma PurposeShown(purpose: string)
    ensures Shown(purpose, PurposeOr(purpose))
    ensures Shown(PurposeOr(purpose), PurposeOr(purpose))
  {
    BlankIff(purpose);
    BlankIff(PurposeOr(purpose));
    assert !White("initial"[0]);
  }

  lemma FullIff(settings: Settings, s: State, clientIp: string, now: Time)
    ensures Blocked(settings, s.windows, clientIp, now) <==> AddressFull(settings, s, TrimSpace(clientIp), now)
  {
  }

  lemma RecordCounts(settings: Settings, windows: map<string, Window>, clientIp: string, now: Time)
    ensures FailureCounted(settings, windows, TrimSpace(clientIp), now, RecordIp(settings, windows, clientIp, now))
  {
  }

  /** What a call answers and does to the tables when it finds no code that counts. */
  predicate Fails(settings: Settings, s: State, ip: string, pick: Option<Id>, now: Time, t: State, r: VerifyResult)
    requires pick.Some? ==> pick.value in s.codes
  {
    && FailureCounted(settings, s.windows, ip, now, t.windows)
    && match pick
       case None =>
         && t == s.(windows := t.windows)
         && r == if AddressFull(settings, t, ip, now) then TooManyAttempts else InvalidCode
       case Some(id) =>
         var c := s.codes[id];
         && t == s.(windows := t.windows, codes := s.codes[id := c.(attempts := c.attempts + 1)])
         && r == if (c.attempts + 1 >= settings.maxAttempts && now < c.createdAt + settings.window)
                    || AddressFull(settings, t, ip, now) then TooManyAttempts else InvalidCode
  }

  lemma FailAnswers(settings: Settings, s: State, pick: Option<Id>, clientIp: string, now: Time)
    requires pick.Some? ==> pick.value in s.codes
    ensures var (t, r) := Fail(settings, s, pick, clientIp, now);
            Fails(settings, s, TrimSpace(clientIp), pick, now, t, r)
  {
    RecordCounts(settings, s.windows, clientIp, now);
    FullIff(settings, Fail(settings, s, pick, clientIp, now).0, clientIp, now);
  }

  /** What a call answers and does when it finds a code that is neither used nor expired. */
  predicate Settles(s: State, id: Id, now: Time, t: State, r: VerifyResult)
    requires id in s.codes
  {
    var c := s.codes[id];
    if c.userId !in s.users then t == s && r == UserMissing
    else if s.users[c.userId] then t == s && r == UserDisabled
    else
      && t == s.(codes := s.codes[id := c.(usedAt := Some(now), attempts := c.attempts + 1)])
      && r.Accepted? && r.codeId == id && r.userId == c.userId && Shown(c.purpose, r.purpose)
  }

  lemma CodeSettles(settings: Settings, s: State, code: string, clientIp: string, id: Id, now: Time)
    requires id in s.codes && !Spent(s.codes[id], now) && !CodeLocked(settings, s.codes[id], now)
    requires TrimSpace(code) != "" && !Blocked(settings, s.windows, clientIp, now)
    ensures var (t, r) := AuthState.Verify(settings, s, code, clientIp, Some(id), now); Settles(s, id, now, t, r)
  {
    PurposeShown(s.codes[id].purpose);
  }

  /** Every call answers, over any run and said on the rows: too many attempts while the address is full; a counted
      failure for a blank, unknown, used or expired code; a missing or disabled user; or acceptance for the user and
      with the purpose of the code. */
  lemma VerifyAnswers(settings: Settings, es: seq<Event>, now: Time, code: string, clientIp: string, pick: Option<Id>)
    requires settings.Valid() && IsRun(settings, es) && Until(es, now)
    requires Possible(settings, After(settings, es), Verify(code, clientIp, pick))
    ensures var s, ip := After(settings, es), TrimSpace(clientIp);
            var (t, r) := AuthState.Verify(settings, s, code, clientIp, pick, now);
            if AddressFull(settings, s, ip, now) then t == s && r == TooManyAttempts
            else if Blank(code) || pick.None? then Fails(settings, s, ip, None, now, t, r)
            else if s.codes[pick.value].usedAt.Some? || s.codes[pick.value].expiresAt < now
            then Fails(settings, s, ip, pick, now, t, r)
            else Settles(s, pick.value, now, t, r)
  {
    var s := After(settings, es);
    BlankIff(code);
    FullIff(settings, s, clientIp, now);
    if pick.None? || Blank(code) {
      FailAnswers(settings, s, None, clientIp, now);
    } else if Spent(s.codes[pick.value], now) {
      FailAnswers(settings, s, pick, clientIp, now);
    } else if !Blocked(settings, s.windows, clientIp, now) {
      AcceptedExactly(settings, es, now, code, clientIp, pick);
      CodeSettles(settings, s, code, clientIp, pick.value, now);
    }
  }

  /** An accepted code names the row it found, the user and the purpose that row was issued with; it was issued with
      the same keyed hash, no longer ago than codes last, and its user is enabled. */
  lemma AcceptedAsIssued(settings: Settings, es: seq<Event>, now: Time, code: string, clientIp: string,
                         pick: Option<Id>)
    requires settings.Valid() && IsRun(settings, es) && Until(es, now)
    requires Possible(settings, After(settings, es), Verify(code, clientIp, pick))
    requires AuthState.Verify(settings, After(settings, es), code, clientIp, pick, now).1.Accepted?
    ensures var s := After(settings, es);
            var r := AuthState.Verify(settings, s, code, clientIp, pick, now).1;
            && pick == Some(r.codeId) && r.codeId in s.codes
            && exists i: nat :: && IssuedAt(settings, es, i, r.codeId, s.codes[r.codeId])
                           && settings.mac(TrimSpace(es[i].call.code)) == settings.mac(TrimSpace(code))
                           && r.userId == es[i].call.userId && Shown(es[i].call.purpose, r.purpose)
                           && now <= es[i].now + settings.codeTtl && r.userId in s.users && !s.users[r.userId]
  {
    VerifyAnswers(settings, es, now, code, clientIp, pick);
    CodeOrigin(settings, es, pick.value);
    TrimSpaceTrimmed(code);
  }

  // ---- Enrollment sessions ----

  ghost predicate EnrolledAt(settings: Settings, es: seq<Event>, i: nat, h: string, row: Enrollment) {
    && i < |es| && es[i].call.CreateEnrollment? && settings.mac(TrimSpace(es[i].call.token)) == h
    && row.userId == es[i].call.userId && Shown(es[i].call.purpose, row.purpose)
    && row.expiresAt == es[i].now + 15 * 60
  }

  predicate Ends(settings: Settings, e: Event, h: string) {
    e.call.DeleteEnrollment? && settings.mac(TrimSpace(e.call.token)) == h
  }

  lemma StepEnrolls(settings: Settings, s: State, e: Event, h: string)
    requires PickExists(s, e.call)
    ensures var t := Step(settings, s, e);
            if h in s.enrollments && !Ends(settings, e, h)
            then h in t.enrollments && t.enrollments[h] == s.enrollments[h]
            else if h in s.enrollments then h !in t.enrollments
            else h in t.enrollments <==> e.call.CreateEnrollment? && settings.mac(TrimSpace(e.call.token)) == h
                                         && e.call.userId in s.users
    ensures h !in s.enrollments && h in Step(settings, s, e).enrollments ==>
              EnrolledAt(settings, [e], 0, h, Step(settings, s, e).enrollments[h])
  {
    match e.call
    case CreateEnrollment(_, _, _) => OpeningEnrolls(settings, s, e, h);
    case DeleteEnrollment(token) => TrimSpaceTrimmed(token);
    case _ => EnrollmentsKept(settings, s, e);
  }

  lemma OpeningEnrolls(settings: Settings, s: State, e: Event, h: string)
    requires e.call.CreateEnrollment?
    ensures var t := Step(settings, s, e);
            if h in s.enrollments then h in t.enrollments && t.enrollments[h] == s.enrollments[h]
            else h in t.enrollments <==> settings.mac(TrimSpace(e.call.token)) == h && e.call.userId in s.users
    ensures h !in s.enrollments && h in Step(settings, s, e).enrollments ==>
              EnrolledAt(settings, [e], 0, h, Step(settings, s, e).enrollments[h])
  {
    PurposeShown(e.call.purpose);
  }

  lemma EnrollmentsKept(settings: Settings, s: State, e: Event)
    requires PickExists(s, e.call) && !e.call.CreateEnrollment? && !e.call.DeleteEnrollment?
    ensures Step(settings, s, e).enrollments == s.enrollments
  {
    match e.call
    case CreateSession(_, _) => SessionFrame(settings, s, e);
    case DeleteSession(_) => SessionFrame(settings, s, e);
    case SaveChallenge(_, _, _, _) => ChallengeFrame(settings, s, e);
    case LoadChallenge(_, _) => ChallengeFrame(settings, s, e);
    case StoreCredential(_, _, _, _, _) => StoreFrame(settings, s, e);
    case DeleteAllExcept(_, _) => PurgeFrame(settings, s, e);
    case DeleteOne(_, _) => PurgeFrame(settings, s, e);
    case _ =>
  }

  lemma {:induction false} EnrollmentOrigin(settings: Settings, es: seq<Event>, h: string)
    requires IsRun(settings, es) && h in After(settings, es).enrollments
    ensures exists i: nat :: EnrolledAt(settings, es, i, h, After(settings, es).enrollments[h])
  {
    var before, e := es[..|es| - 1], es[|es| - 1];
    var s := After(settings, before);
    StepEnrolls(settings, s, e, h);
    if h in s.enrollments {
      EnrollmentOrigin(settings, before, h);
      var i: nat :| EnrolledAt(settings, before, i, h, s.enrollments[h]);
      assert EnrolledAt(settings, es, i, h, After(settings, es).enrollments[h]);
    } else {
      assert EnrolledAt(settings, es, |es| - 1, h, After(settings, es).enrollments[h]);
    }
  }

  /** Over any run a session is found exactly while its row is there and has not expired; it was opened less than
      fifteen minutes ago with its user, and a blank purpose counts as the initial one. */
  lemma SessionFoundIff(settings: Settings, es: seq<Event>, token: string, now: Time)
    requires IsRun(settings, es)
    ensures var rows, h := After(settings, es).enrollments, settings.mac(TrimSpace(token));
            && (Lookup(settings, After(settings, es), token, now).Some? <==> h in rows && now < rows[h].expiresAt)
            && (Lookup(settings, After(settings, es), token, now).Some? ==>
                  && Lookup(settings, After(settings, es), token, now).value == rows[h]
                  && exists i: nat :: EnrolledAt(settings, es, i, h, rows[h]) && now < es[i].now + 15 * 60)
  {
    TrimSpaceTrimmed(token);
    var rows, h := After(settings, es).enrollments, settings.mac(TrimSpace(token));
    if h in rows {
      EnrollmentPurpose(settings, es, h);
    }
  }

  lemma EnrollmentPurpose(settings: Settings, es: seq<Event>, h: string)
    requires IsRun(settings, es) && h in After(settings, es).enrollments
    ensures var row := After(settings, es).enrollments[h];
            PurposeOr(row.purpose) == row.purpose
            && exists i: nat :: EnrolledAt(settings, es, i, h, row) && row.expiresAt == es[i].now + 15 * 60
  {
    EnrollmentOrigin(settings, es, h);
    var i: nat :| EnrolledAt(settings, es, i, h, After(settings, es).enrollments[h]);
    ShownOnce(es[i].call.purpose, After(settings, es).enrollments[h].purpose);
  }

  lemma ShownOnce(purpose: string, shown: string)
    requires Shown(purpose, shown)
    ensures shown == PurposeOr(purpose) && PurposeOr(shown) == shown
  {
    BlankIff(purpose);
    BlankIff(shown);
    assert !White("initial"[0]);
  }

  // ---- Challenges ----

  ghost predicate SavedAt(es: seq<Event>, i: nat, id: string, row: Challenge) {
    && i < |es| && es[i].call.SaveChallenge? && es[i].call.challengeId == id
    && row.userId == es[i].call.owner && row.kind == es[i].call.kind && row.data == es[i].call.data
    && row.expiresAt == es[i].now + 15 * 60
  }

  lemma StepSaves(settings: Settings, s: State, e: Event, id: string)
    requires PickExists(s, e.call) && id in Step(settings, s, e).challenges
    ensures (id in s.challenges && Step(settings, s, e).challenges[id] == s.challenges[id])
            || SavedAt([e], 0, id, Step(settings, s, e).challenges[id])
  {
    if e.call.SaveChallenge? {
      SaveStores(settings, s, e, id);
    } else if e.call.LoadChallenge? {
      LoadRemoves(settings, s, e, id);
    } else {
      StepFrame(settings, s, e);
    }
  }

  lemma SaveStores(settings: Settings, s: State, e: Event, id: string)
    requires e.call.SaveChallenge? && id in Step(settings, s, e).challenges
    ensures (id in s.challenges && Step(settings, s, e).challenges[id] == s.challenges[id])
            || SavedAt([e], 0, id, Step(settings, s, e).challenges[id])
  {
  }

  lemma LoadRemoves(settings: Settings, s: State, e: Event, id: string)
    requires e.call.LoadChallenge? && id in Step(settings, s, e).challenges
    ensures id in s.challenges && Step(settings, s, e).challenges[id] == s.challenges[id]
  {
  }

  lemma {:induction false} ChallengeOrigin(settings: Settings, es: seq<Event>, id: string)
    requires IsRun(settings, es) && id in After(settings, es).challenges
    ensures exists i: nat :: SavedAt(es, i, id, After(settings, es).challenges[id])
  {
    var before, e := es[..|es| - 1], es[|es| - 1];
    var s, t := After(settings, before), After(settings, es);
    StepSaves(settings, s, e, id);
    if id in s.challenges && t.challenges[id] == s.challenges[id] {
      ChallengeOrigin(settings, before, id);
      var i: nat :| SavedAt(before, i, id, s.challenges[id]);
      assert SavedAt(es, i, id, t.challenges[id]);
    } else {
      assert SavedAt(es, |es| - 1, id, t.challenges[id]);
    }
  }

  /** Over any run a challenge is handed out exactly while its row is there, of the kind asked for and not expired; then
      it is gone, and was saved less than fifteen minutes ago with the owner and data it shows. */
  lemma ChallengeFoundIff(settings: Settings, es: seq<Event>, id: string, kind: string, now: Time)
    requires IsRun(settings, es)
    ensures var s := After(settings, es);
            var (t, r) := AuthState.LoadChallenge(s, id, kind, now);
            && (r.Some? <==> id in s.challenges && s.challenges[id].kind == kind && now < s.challenges[id].expiresAt)
            && (r.None? ==> t == s)
            && (r.Some? ==>
                  && r.value == s.challenges[id] && t == s.(challenges := s.challenges - {id})
                  && exists i: nat :: SavedAt(es, i, id, r.value) && now < es[i].now + 15 * 60)
  {
    if id in After(settings, es).challenges {
      ChallengeOrigin(settings, es, id);
    }
  }

  // ---- Deletions ----

  /** Signing out, ending an enrollment and deleting credentials remove exactly the rows named, whatever white space
      surrounds the token. */
  lemma DeletionsExact(settings: Settings, s: State, token: string, userId: Id, credId: string)
    ensures var h := settings.mac(TrimSpace(token));
            && AuthState.DeleteSession(settings, s, token) == s.(sessions := s.sessions - {h})
            && AuthState.DeleteEnrollment(settings, s, token) == s.(enrollments := s.enrollments - {h})
    ensures var t := AuthState.DeleteOne(s, userId, credId);
            && t == s.(credentials := t.credentials)
            && (forall k :: k in t.credentials <==>
                  k in s.credentials && !(k == credId && s.credentials[k].userId == userId))
            && (forall k :: k in t.credentials ==> t.credentials[k] == s.credentials[k])
    ensures var t := AuthState.DeleteAllExcept(s, userId, credId);
            && t == s.(credentials := t.credentials)
            && (forall k :: k in t.credentials <==>
                  k in s.credentials && (k == credId || s.credentials[k].userId != userId))
            && (forall k :: k in t.credentials ==> t.credentials[k] == s.credentials[k])
  {
    TrimSpaceTrimmed(token);
  }

  /** A passkey of a known user is stored under its id, with a trimmed name; one that is there keeps owner and name and
      takes the new key and count. */
  lemma CredentialStored(s: State, userId: Id, credId: string, publicKey: string, signCount: nat, nickname: string,
                         now: Time)
    ensures var r := AuthState.StoreCredential(s, userId, credId, publicKey, signCount, nickname, now);
            && (r.None? <==> credId !in s.credentials && userId !in s.users)
            && (r.Some? ==>
                  && r.value == s.(credentials := r.value.credentials)
                  && r.value.credentials.Keys == s.credentials.Keys + {credId}
                  && (forall c :: c in s.credentials && c != credId ==> r.value.credentials[c] == s.credentials[c])
                  && var made := r.value.credentials[credId];
                     made.publicKey == publicKey && made.signCount == signCount
                     && if credId in s.credentials
                        then made.userId == s.credentials[credId].userId
                             && made.nickname == s.credentials[credId].nickname && made.lastUsedAt == Some(now)
                        else made.userId == userId && IsTrimmed(nickname, made.nickname) && made.lastUsedAt.None?)
  {
    TrimSpaceIs(nickname, TrimSpace(nickname));
  }
}
