/** The service whose methods read and write the rows, each proved to do what its step in AuthState says. */
module AuthService {
  import opened Common
  import opened Text
  import opened AuthState

  class Service {
    const settings: Settings
    var users: map<Id, bool>
    var codes: map<Id, Code>
    var windows: map<string, Window>
    var enrollments: map<string, Enrollment>
    var challenges: map<string, Challenge>
    var credentials: map<string, Credential>
    var sessions: map<string, Session>

    ghost function State(): State
      reads this
    {
      AuthState.State(users, codes, windows, enrollments, challenges, credentials, sessions)
    }

    constructor (settings: Settings)
      ensures State() == Empty && this.settings == settings
    {
      this.settings := settings;
      users, codes, windows, enrollments := map[], map[], map[], map[];
      challenges, credentials, sessions := map[], map[], map[];
    }

    method IssueEnrollmentCode(id: Id, userId: Id, code: string, purpose: string, now: Time) returns (ok: bool)
      modifies this`codes
      ensures var r := Issue(settings, old(State()), id, userId, code, purpose, now);
              ok == r.Some? && State() == if ok then r.value else old(State())
    {
      ok := id !in codes && userId in users;
      if ok {
        codes := codes[id := Code(userId, settings.HashCode(code), purpose, now, now + settings.codeTtl, None, 0)];
      }
    }

    method CheckEnrollmentIPLimit(clientIp: string, now: Time) returns (blocked: bool)
      ensures blocked == Blocked(settings, windows, clientIp, now)
    {
      var ip := TrimSpace(clientIp);
      if ip == "" || ip !in windows {
        return false;
      }
      var row := windows[ip];
      blocked := row.attempts >= settings.maxAttempts && row.start > now - settings.window;
    }

    method RecordIPFailedAttempt(clientIp: string, now: Time)
      modifies this`windows
      ensures windows == RecordIp(settings, old(windows), clientIp, now)
    {
      var ip := TrimSpace(clientIp);
      if ip == "" {
        return;
      }
      if ip !in windows || windows[ip].start < now - settings.window {
        windows := windows[ip := Window(1, now)];
      } else {
        windows := windows[ip := Window(windows[ip].attempts + 1, windows[ip].start)];
      }
    }

    method FailEnrollmentVerify(codeId: Option<Id>, clientIp: string, now: Time) returns (r: VerifyResult)
      requires codeId.Some? ==> codeId.value in codes
      modifies this`codes, this`windows
      ensures (State(), r) == Fail(settings, old(State()), codeId, clientIp, now)
    {
      if codeId.Some? {
        var row := codes[codeId.value];
        codes := codes[codeId.value := row.(attempts := row.attempts + 1)];
        if row.attempts + 1 >= settings.maxAttempts && row.createdAt > now - settings.window {
          RecordIPFailedAttempt(clientIp, now);
          return TooManyAttempts;
        }
      }
      RecordIPFailedAttempt(clientIp, now);
      var blocked := CheckEnrollmentIPLimit(clientIp, now);
      r := if blocked then TooManyAttempts else InvalidCode;
    }

    /** The newest row with the hash; which of several equally new ones is the database's choice. */
    method FindNewest(hash: string) returns (pick: Option<Id>)
      ensures IsNewest(codes, hash, pick)
    {
      pick := None;
      var rest := codes.Keys;
      while rest != {}
        invariant rest <= codes.Keys
        invariant pick.None? ==> forall id :: id in codes && id !in rest ==> codes[id].hash != hash
        invariant pick.Some? ==> pick.value in codes && codes[pick.value].hash == hash
        invariant pick.Some? ==> forall id :: id in codes && id !in rest && codes[id].hash == hash ==>
                                   codes[id].createdAt <= codes[pick.value].createdAt
        decreases |rest|
      {
        var id :| id in rest;
        rest := rest - {id};
        if codes[id].hash == hash && (pick.None? || codes[pick.value].createdAt < codes[id].createdAt) {
          pick := Some(id);
        }
      }
    }

    method VerifyEnrollmentCode(code: string, clientIp: string, now: Time) returns (r: VerifyResult,
                                ghost pick: Option<Id>)
      modifies this`codes, this`windows
      ensures IsNewest(old(codes), settings.HashCode(TrimSpace(code)), pick)
      ensures (State(), r) == Verify(settings, old(State()), code, clientIp, pick, now)
    {
      pick := NewestExists(codes, settings.HashCode(TrimSpace(code)));
      var blocked := CheckEnrollmentIPLimit(clientIp, now);
      if blocked {
        return TooManyAttempts, pick;
      }
      var normalized := TrimSpace(code);
      if normalized == "" {
        r := FailEnrollmentVerify(None, clientIp, now);
        return;
      }
      var found := FindNewest(settings.HashCode(normalized));
      pick := found;
      if found.None? {
        r := FailEnrollmentVerify(None, clientIp, now);
        return;
      }
      var row := codes[found.value];
      if row.usedAt.Some? || now > row.expiresAt {
        r := FailEnrollmentVerify(found, clientIp, now);
        return;
      }
      if row.attempts >= settings.maxAttempts && row.createdAt > now - settings.window {
        return TooManyAttempts, pick;
      }
      if row.userId !in users {
        return UserMissing, pick;
      }
      if users[row.userId] {
        return UserDisabled, pick;
      }
      codes := codes[found.value := row.(usedAt := Some(now), attempts := row.attempts + 1)];
      r := Accepted(found.value, row.userId, PurposeOr(row.purpose));
    }

    method CreateEnrollmentSession(token: string, userId: Id, purpose: string, now: Time) returns (ok: bool)
      modifies this`enrollments
      ensures var r := CreateEnrollment(settings, old(State()), token, userId, purpose, now);
              ok == r.Some? && State() == if ok then r.value else old(State())
    {
      var h := settings.HashCode(token);
      ok := h !in enrollments && userId in users;
      if ok {
        enrollments := enrollments[h := Enrollment(userId, now + ENROLL_TTL, PurposeOr(purpose))];
      }
    }

    method LookupEnrollmentSession(token: string, now: Time) returns (r: Option<Enrollment>)
      ensures r == Lookup(settings, State(), token, now)
    {
      var h := settings.HashCode(TrimSpace(token));
      if h !in enrollments || enrollments[h].expiresAt <= now {
        return None;
      }
      r := Some(enrollments[h].(purpose := PurposeOr(enrollments[h].purpose)));
    }

    method DeleteEnrollmentSession(token: string)
      modifies this`enrollments
      ensures State() == DeleteEnrollment(settings, old(State()), token)
    {
      enrollments := enrollments - {settings.HashCode(TrimSpace(token))};
    }

    method OpenSession(token: string, userId: Id, now: Time) returns (ok: bool)
      modifies this`sessions
      ensures var r := CreateSession(settings, old(State()), token, userId, now);
              ok == r.Some? && State() == if ok then r.value else old(State())
    {
      var h := settings.HashCode(token);
      ok := h !in sessions && userId in users;
      if ok {
        sessions := sessions[h := Session(userId, now + settings.sessionTtl)];
      }
    }

    method CloseSession(token: string)
      modifies this`sessions
      ensures State() == DeleteSession(settings, old(State()), token)
    {
      sessions := sessions - {settings.HashCode(TrimSpace(token))};
    }

    method Save(id: string, owner: Option<Id>, kind: string, data: string, now: Time) returns (ok: bool)
      modifies this`challenges
      ensures var r := SaveChallenge(old(State()), id, owner, kind, data, now);
              ok == r.Some? && State() == if ok then r.value else old(State())
    {
      ok := id !in challenges && (owner.None? || owner.value in users);
      if ok {
        challenges := challenges[id := Challenge(owner, kind, data, now + ENROLL_TTL)];
      }
    }

    method Load(id: string, kind: string, now: Time) returns (r: Option<Challenge>)
      modifies this`challenges
      ensures (State(), r) == LoadChallenge(old(State()), id, kind, now)
    {
      if id !in challenges || challenges[id].kind != kind || challenges[id].expiresAt <= now {
        return None;
      }
      r := Some(challenges[id]);
      challenges := challenges - {id};
    }

    method Store(userId: Id, credId: string, publicKey: string, signCount: nat, nickname: string, now: Time)
        returns (ok: bool)
      modifies this`credentials
      ensures var r := StoreCredential(old(State()), userId, credId, publicKey, signCount, nickname, now);
              ok == r.Some? && State() == if ok then r.value else old(State())
    {
      if credId in credentials {
        var row := credentials[credId];
        credentials := credentials[credId := row.(publicKey := publicKey, signCount := signCount,
            lastUsedAt := Some(now))];
        return true;
      }
      ok := userId in users;
      if ok {
        credentials := credentials[credId := Credential(userId, publicKey, signCount, TrimSpace(nickname), None)];
      }
    }

    method DeleteAllCredentialsExcept(userId: Id, keep: string)
      modifies this`credentials
      ensures State() == DeleteAllExcept(old(State()), userId, keep)
    {
      credentials := map k | k in credentials && (credentials[k].userId != userId || k == keep) :: credentials[k];
    }

    /** False is the error that there is no such row. */
    method DeleteCredential(userId: Id, credId: string) returns (ok: bool)
      modifies this`credentials
      ensures ok <==> credId in old(credentials) && old(credentials)[credId].userId == userId
      ensures State() == DeleteOne(old(State()), userId, credId)
    {
      ok := credId in credentials && credentials[credId].userId == userId;
      if ok {
        credentials := credentials - {credId};
      }
    }
  }

  /** Some row, or none, is the newest with a hash. */
  lemma {:induction false} NewestExists(codes: map<Id, Code>, hash: string) returns (pick: Option<Id>)
    ensures IsNewest(codes, hash, pick)
    decreases |codes|
  {
    if k :| k in codes && codes[k].hash == hash {
      var rest := codes - {k};
      pick := NewestExists(rest, hash);
      assert forall id :: id in codes ==> id == k || (id in rest && rest[id] == codes[id]);
      if pick.None? || rest[pick.value].createdAt <= codes[k].createdAt {
        pick := Some(k);
      }
    } else {
      pick := None;
    }
  }
}

/** Passkey registration: the handler that sequences the service calls, each at its own instant. */
module Registration {
  import opened Common
  import opened Text
  import opened AuthState
  import opened AuthService

  /** What the WebAuthn library makes of the browser's response, when it accepts it. */
  datatype Ceremony = Ceremony(credId: string, publicKey: string, signCount: nat)

  /** The request: its cookie, the signed-in user if any, and its body. `sessionToken` is drawn at random. */
  datatype Request = Request(enrollToken: string, sessionUser: Option<Id>, challengeId: string, nickname: string,
                             ceremony: Option<Ceremony>, sessionToken: string)

  /** When the five service calls of one request run. */
  datatype Clocks = Clocks(identify: Time, challenge: Time, store: Time, purge: Time, session: Time) {
    predicate Ordered() { identify <= challenge <= store <= purge <= session }
  }

  datatype Reply = Registered(userId: Id) | Unauthorized | BadRequest | ServerError

  /** enrollOrSessionUserID: a live enrollment wins over a session. */
  function UserOf(settings: Settings, s: State, req: Request, now: Time): Option<Id> {
    var e := if req.enrollToken == "" then None else Lookup(settings, s, req.enrollToken, now);
    if e.Some? && e.value.userId in s.users then Some(e.value.userId) else req.sessionUser
  }

  /** FinishRegistration up to the ceremony. */
  predicate ChallengeFits(s: State, c: Option<Challenge>, userId: Id) {
    c.Some? && c.value.userId == Some(userId) && userId in s.users
  }

  /** After the credential is stored: a recovery enrollment purges the user's other credentials, and any
      enrollment cookie is spent. */
  function SpendEnrollment(settings: Settings, s: State, userId: Id, token: string, keep: string, now: Time): State {
    if token == "" then s
    else
      var e := Lookup(settings, s, token, now);
      var purged := if e.Some? && e.value.purpose == PURPOSE_RECOVERY then DeleteAllExcept(s, userId, keep) else s;
      DeleteEnrollment(settings, purged, token)
  }

  function Finish(settings: Settings, s: State, req: Request, at: Clocks): (State, Reply) {
    var user := UserOf(settings, s, req, at.identify);
    if user.None? then (s, Unauthorized)
    else if req.challengeId == "" then (s, BadRequest)
    else
      var u := user.value;
      var (s1, c) := LoadChallenge(s, req.challengeId, CHALLENGE_REGISTER, at.challenge);
      if !ChallengeFits(s1, c, u) || req.ceremony.None? then (s1, BadRequest)
      else
        var cred := req.ceremony.value;
        var stored := StoreCredential(s1, u, cred.credId, cred.publicKey, cred.signCount, req.nickname, at.store);
        if stored.None? then (s1, ServerError)
        else
          var s2 := SpendEnrollment(settings, stored.value, u, req.enrollToken, cred.credId, at.purge);
          var session := CreateSession(settings, s2, req.sessionToken, u, at.session);
          if session.None? then (s2, ServerError) else (session.value, Registered(u))
  }

  method WebauthnRegisterFinish(svc: Service, req: Request, at: Clocks) returns (r: Reply)
    modifies svc
    ensures (svc.State(), r) == Finish(svc.settings, old(svc.State()), req, at)
  {
    var user := req.sessionUser;
    if req.enrollToken != "" {
      var e := svc.LookupEnrollmentSession(req.enrollToken, at.identify);
      if e.Some? && e.value.userId in svc.users {
        user := Some(e.value.userId);
      }
    }
    if user.None? {
      return Unauthorized;
    }
    if req.challengeId == "" {
      return BadRequest;
    }
    var c := svc.Load(req.challengeId, CHALLENGE_REGISTER, at.challenge);
    if c.None? || c.value.userId != user || user.value !in svc.users || req.ceremony.None? {
      return BadRequest;
    }
    r := StoreAndSpend(svc, user.value, req, at);
  }

  /** From StoreCredential to the end of the handler. */
  method StoreAndSpend(svc: Service, userId: Id, req: Request, at: Clocks) returns (r: Reply)
    requires req.ceremony.Some?
    modifies svc
    ensures var cred := req.ceremony.value;
            var stored := StoreCredential(old(svc.State()), userId, cred.credId, cred.publicKey, cred.signCount,
                req.nickname, at.store);
            if stored.None? then svc.State() == old(svc.State()) && r == ServerError
            else
              var s2 := SpendEnrollment(svc.settings, stored.value, userId, req.enrollToken, cred.credId, at.purge);
              var session := CreateSession(svc.settings, s2, req.sessionToken, userId, at.session);
              if session.None? then svc.State() == s2 && r == ServerError
              else svc.State() == session.value && r == Registered(userId)
  {
    var cred := req.ceremony.value;
    var ok := svc.Store(userId, cred.credId, cred.publicKey, cred.signCount, req.nickname, at.store);
    if !ok {
      return ServerError;
    }
    if req.enrollToken != "" {
      var e := svc.LookupEnrollmentSession(req.enrollToken, at.purge);
      if e.Some? && e.value.purpose == PURPOSE_RECOVERY {
        svc.DeleteAllCredentialsExcept(userId, cred.credId);
      }
      svc.DeleteEnrollmentSession(req.enrollToken);
    }
    ok := svc.OpenSession(req.sessionToken, userId, at.session);
    r := if ok then Registered(userId) else ServerError;
  }

  /** The ids of a user's credentials. */
  ghost function CredentialsOf(s: State, userId: Id): set<string> {
    set k | k in s.credentials && s.credentials[k].userId == userId
  }

  /** The request gets as far as storing a credential for `u`. */
  predicate Stores(settings: Settings, s: State, req: Request, at: Clocks, u: Id) {
    && UserOf(settings, s, req, at.identify) == Some(u) && u in s.users
    && req.challengeId != "" && CanLoad(s, req.challengeId, CHALLENGE_REGISTER, at.challenge)
    && s.challenges[req.challengeId].userId == Some(u)
    && req.ceremony.Some?
  }

  /** The credential id is new, or already this user's. */
  predicate OwnOrFresh(s: State, credId: string, u: Id) {
    credId in s.credentials ==> s.credentials[credId].userId == u
  }

  /** The enrollment cookie is a recovery one and still live when the handler looks again. */
  predicate Recovers(settings: Settings, s: State, req: Request, at: Clocks) {
    && req.enrollToken != ""
    && var e := Lookup(settings, s, req.enrollToken, at.purge);
       e.Some? && e.value.purpose == PURPOSE_RECOVERY
  }

  /** The credential table once the new credential is stored. */
  function WithNew(s: State, u: Id, req: Request, at: Clocks): map<string, Credential>
    requires req.ceremony.Some?
  {
    var n := req.ceremony.value;
    s.credentials[n.credId :=
      if n.credId in s.credentials
      then s.credentials[n.credId].(publicKey := n.publicKey, signCount := n.signCount, lastUsedAt := Some(at.store))
      else Credential(u, n.publicKey, n.signCount, TrimSpace(req.nickname), None)]
  }

  lemma SpendEffect(settings: Settings, s: State, u: Id, token: string, keep: string, now: Time)
    ensures var t := SpendEnrollment(settings, s, u, token, keep, now);
            var e := Lookup(settings, s, token, now);
            && t == s.(credentials := t.credentials, enrollments := t.enrollments)
            && t.enrollments
                == (if token == "" then s.enrollments else s.enrollments - {settings.HashCode(TrimSpace(token))})
            && t.credentials == (if token != "" && e.Some? && e.value.purpose == PURPOSE_RECOVERY
                                 then DeleteAllExcept(s, u, keep).credentials else s.credentials)
  {
  }

  /** What one registration does to the credentials, the enrollment and the challenge. */
  lemma FinishEffect(settings: Settings, s: State, req: Request, at: Clocks, u: Id)
    requires Stores(settings, s, req, at, u)
    ensures var t := Finish(settings, s, req, at).0;
            && t.challenges == s.challenges - {req.challengeId}
            && t.enrollments == (if req.enrollToken == "" then s.enrollments
                                 else s.enrollments - {settings.HashCode(TrimSpace(req.enrollToken))})
            && t.credentials == if Recovers(settings, s, req, at)
                                then DeleteAllExcept(s.(credentials := WithNew(s, u, req, at)), u,
                                    req.ceremony.value.credId).credentials
                                else WithNew(s, u, req, at)
  {
    var cred := req.ceremony.value;
    var s1 := s.(challenges := s.challenges - {req.challengeId});
    assert LoadChallenge(s, req.challengeId, CHALLENGE_REGISTER, at.challenge)
        == (s1, Some(s.challenges[req.challengeId]));
    var stored := s1.(credentials := WithNew(s, u, req, at));
    assert StoreCredential(s1, u, cred.credId, cred.publicKey, cred.signCount, req.nickname, at.store) == Some(stored);
    SpendEffect(settings, stored, u, req.enrollToken, cred.credId, at.purge);
    assert Lookup(settings, stored, req.enrollToken, at.purge) == Lookup(settings, s, req.enrollToken, at.purge);
    SessionFrame(settings, SpendEnrollment(settings, stored, u, req.enrollToken, cred.credId, at.purge),
        req.sessionToken, u, at.session);
  }

  lemma SessionFrame(settings: Settings, s: State, token: string, u: Id, now: Time)
    ensures var r := CreateSession(settings, s, token, u, now); r.Some? ==> r.value == s.(sessions := r.value.sessions)
  {
  }

  /** After registering under a live recovery enrollment the user has exactly the new credential and nobody
      else's changed, precisely when the credential id does not belong to another user. */
  lemma RecoveryLeavesOneCredential(settings: Settings, s: State, req: Request, at: Clocks, u: Id)
    requires Stores(settings, s, req, at, u) && Recovers(settings, s, req, at)
    ensures var t := Finish(settings, s, req, at).0;
            var c := req.ceremony.value.credId;
            && (OwnOrFresh(s, c, u) <==> CredentialsOf(t, u) == {c})
            && (OwnOrFresh(s, c, u) ==> t.credentials[c].publicKey == req.ceremony.value.publicKey)
            && (OwnOrFresh(s, c, u) ==>
                  forall k :: k in s.credentials && s.credentials[k].userId != u ==>
                    k in t.credentials && t.credentials[k] == s.credentials[k])
            && (!OwnOrFresh(s, c, u) ==> CredentialsOf(t, u) == {})
            && req.challengeId !in t.challenges
            && settings.HashCode(TrimSpace(req.enrollToken)) !in t.enrollments
  {
    FinishEffect(settings, s, req, at, u);
    var c := req.ceremony.value.credId;
    var t := Finish(settings, s, req, at).0;
    if OwnOrFresh(s, c, u) {
      assert c in CredentialsOf(t, u);
    }
  }

  /** Without a recovery enrollment that is still live, the user keeps every credential. */
  lemma OrdinaryRegistrationAdds(settings: Settings, s: State, req: Request, at: Clocks, u: Id)
    requires Stores(settings, s, req, at, u) && !Recovers(settings, s, req, at)
    ensures var t := Finish(settings, s, req, at).0;
            var c := req.ceremony.value.credId;
            && CredentialsOf(t, u) == CredentialsOf(s, u) + (if OwnOrFresh(s, c, u) then {c} else {})
            && forall k :: k in s.credentials && k != c ==> k in t.credentials && t.credentials[k] == s.credentials[k]
  {
    FinishEffect(settings, s, req, at, u);
  }
}
