/** The rows behind enrollment and passkeys, and what each service call does to them.
    A call is one step that reads one clock; `mac` stands for the keyed hash. */
module AuthState {
  import opened Common
  import opened Text

  type Id = nat
  type Time = int

  const ENROLL_TTL: Time := 15 * 60
  const PURPOSE_INITIAL := "initial"
  const PURPOSE_RECOVERY := "recovery"
  const CHALLENGE_REGISTER := "register"

  datatype Settings = Settings(maxAttempts: int, window: Time, codeTtl: Time, sessionTtl: Time, mac: string -> string) {
    /** What settings.go guarantees. */
    predicate Valid() { maxAttempts >= 1 && window > 0 }

    function HashCode(text: string): string { mac(TrimSpace(text)) }
  }

  datatype Code = Code(userId: Id, hash: string, purpose: string, createdAt: Time, expiresAt: Time,
                       usedAt: Option<Time>, attempts: nat)
  datatype Window = Window(attempts: nat, start: Time)
  datatype Enrollment = Enrollment(userId: Id, expiresAt: Time, purpose: string)
  datatype Challenge = Challenge(userId: Option<Id>, kind: string, data: string, expiresAt: Time)
  datatype Credential = Credential(userId: Id, publicKey: string, signCount: nat, nickname: string,
      lastUsedAt: Option<Time>)
  datatype Session = Session(userId: Id, expiresAt: Time)

  /** `users` maps a user to its disabled flag; the other tables are keyed by id, address, token hash or
      credential id. */
  datatype State = State(users: map<Id, bool>, codes: map<Id, Code>, windows: map<string, Window>,
                         enrollments: map<string, Enrollment>, challenges: map<string, Challenge>,
                         credentials: map<string, Credential>, sessions: map<string, Session>)

  datatype VerifyResult =
    | Accepted(codeId: Id, userId: Id, purpose: string)
    | InvalidCode
    | TooManyAttempts
    | UserDisabled
    | UserMissing

  const Empty := State(map[], map[], map[], map[], map[], map[], map[])

  function PurposeOr(purpose: string): string {
    if TrimSpace(purpose) == "" then PURPOSE_INITIAL else purpose
  }

  /** IssueEnrollmentCode; None when the row would break the primary or the foreign key. */
  function Issue(settings: Settings, s: State, id: Id, userId: Id, code: string, purpose: string,
                 now: Time): Option<State> {
    if id in s.codes || userId !in s.users then None
    else Some(s.(codes := s.codes[id := Code(userId, settings.HashCode(code), purpose, now, now + settings.codeTtl,
        None, 0)]))
  }

  /** checkEnrollmentIPLimit. */
  predicate Blocked(settings: Settings, windows: map<string, Window>, clientIp: string, now: Time) {
    var ip := TrimSpace(clientIp);
    ip != "" && ip in windows && windows[ip].attempts >= settings.maxAttempts
        && windows[ip].start > now - settings.window
  }

  /** recordIPFailedAttempt. */
  function RecordIp(settings: Settings, windows: map<string, Window>, clientIp: string, now: Time)
    : map<string, Window>
  {
    var ip := TrimSpace(clientIp);
    if ip == "" then windows
    else if ip !in windows || windows[ip].start < now - settings.window then windows[ip := Window(1, now)]
    else windows[ip := Window(windows[ip].attempts + 1, windows[ip].start)]
  }

  /** The code row the query finds: a newest one with the hash. */
  ghost predicate IsNewest(codes: map<Id, Code>, hash: string, pick: Option<Id>) {
    match pick
    case None => forall id :: id in codes ==> codes[id].hash != hash
    case Some(p) => p in codes && codes[p].hash == hash &&
                    forall id :: id in codes && codes[id].hash == hash ==> codes[id].createdAt <= codes[p].createdAt
  }

  /** failEnrollmentVerify. */
  function Fail(settings: Settings, s: State, codeId: Option<Id>, clientIp: string,
                now: Time): (r: (State, VerifyResult))
    requires codeId.Some? ==> codeId.value in s.codes
    ensures r.0 == s.(codes := r.0.codes, windows := RecordIp(settings, s.windows, clientIp, now))
    ensures r.1.TooManyAttempts? || r.1.InvalidCode?
  {
    var codes := match codeId
      case None => s.codes
      case Some(id) => s.codes[id := s.codes[id].(attempts := s.codes[id].attempts + 1)];
    var windows := RecordIp(settings, s.windows, clientIp, now);
    var codeLocked := codeId.Some? && codes[codeId.value].attempts >= settings.maxAttempts
                      && codes[codeId.value].createdAt > now - settings.window;
    (s.(codes := codes, windows := windows),
     if codeLocked || Blocked(settings, windows, clientIp, now) then TooManyAttempts else InvalidCode)
  }

  predicate Spent(c: Code, now: Time) {
    c.usedAt.Some? || now > c.expiresAt
  }

  /** The per-code lockout of VerifyEnrollmentCode. */
  predicate CodeLocked(settings: Settings, c: Code, now: Time) {
    c.attempts >= settings.maxAttempts && c.createdAt > now - settings.window
  }

  /** VerifyEnrollmentCode, given the row its query returns. */
  function Verify(settings: Settings, s: State, code: string, clientIp: string, pick: Option<Id>,
                  now: Time): (r: (State, VerifyResult))
    requires pick.Some? ==> pick.value in s.codes
    ensures r.0 == s.(codes := r.0.codes, windows := r.0.windows)
  {
    if Blocked(settings, s.windows, clientIp, now) then (s, TooManyAttempts)
    else if TrimSpace(code) == "" || pick.None? then Fail(settings, s, None, clientIp, now)
    else
      var id := pick.value;
      var c := s.codes[id];
      if Spent(c, now) then Fail(settings, s, Some(id), clientIp, now)
      else if CodeLocked(settings, c, now) then (s, TooManyAttempts)
      else if c.userId !in s.users then (s, UserMissing)
      else if s.users[c.userId] then (s, UserDisabled)
      else
        (s.(codes := s.codes[id := c.(usedAt := Some(now), attempts := c.attempts + 1)]),
         Accepted(id, c.userId, PurposeOr(c.purpose)))
  }

  function CreateEnrollment(settings: Settings, s: State, token: string, userId: Id, purpose: string,
                            now: Time): Option<State> {
    var h := settings.HashCode(token);
    if h in s.enrollments || userId !in s.users then None
    else Some(s.(enrollments := s.enrollments[h := Enrollment(userId, now + ENROLL_TTL, PurposeOr(purpose))]))
  }

  /** LookupEnrollmentSession. */
  function Lookup(settings: Settings, s: State, token: string, now: Time): Option<Enrollment> {
    var h := settings.HashCode(TrimSpace(token));
    if h in s.enrollments && s.enrollments[h].expiresAt > now
    then Some(s.enrollments[h].(purpose := PurposeOr(s.enrollments[h].purpose)))
    else None
  }

  function DeleteEnrollment(settings: Settings, s: State, token: string): State {
    s.(enrollments := s.enrollments - {settings.HashCode(TrimSpace(token))})
  }

  function CreateSession(settings: Settings, s: State, token: string, userId: Id, now: Time): Option<State> {
    var h := settings.HashCode(token);
    if h in s.sessions || userId !in s.users then None
    else Some(s.(sessions := s.sessions[h := Session(userId, now + settings.sessionTtl)]))
  }

  function SaveChallenge(s: State, id: string, userId: Option<Id>, kind: string, data: string,
                         now: Time): Option<State> {
    if id in s.challenges || (userId.Some? && userId.value !in s.users) then None
    else Some(s.(challenges := s.challenges[id := Challenge(userId, kind, data, now + ENROLL_TTL)]))
  }

  function DeleteSession(settings: Settings, s: State, token: string): State {
    s.(sessions := s.sessions - {settings.HashCode(TrimSpace(token))})
  }

  predicate CanLoad(s: State, id: string, kind: string, now: Time) {
    id in s.challenges && s.challenges[id].kind == kind && s.challenges[id].expiresAt > now
  }

  /** LoadChallenge: a challenge found is removed. */
  function LoadChallenge(s: State, id: string, kind: string, now: Time): (State, Option<Challenge>) {
    if CanLoad(s, id, kind, now)
    then (s.(challenges := s.challenges - {id}), Some(s.challenges[id]))
    else (s, None)
  }

  /** StoreCredential: an existing credential id keeps its owner. */
  function StoreCredential(s: State, userId: Id, credId: string, publicKey: string, signCount: nat, nickname: string,
                           now: Time): Option<State> {
    if credId in s.credentials then
      Some(s.(credentials := s.credentials[credId :=
        s.credentials[credId].(publicKey := publicKey, signCount := signCount, lastUsedAt := Some(now))]))
    else if userId !in s.users then None
    else Some(s.(credentials := s.credentials[credId := Credential(userId, publicKey, signCount, TrimSpace(nickname),
        None)]))
  }

  function DeleteAllExcept(s: State, userId: Id, keep: string): State {
    s.(credentials := map k | k in s.credentials && (s.credentials[k].userId != userId || k == keep) ::
        s.credentials[k])
  }

  /** DeleteCredential: one of the user's own. */
  function DeleteOne(s: State, userId: Id, credId: string): State {
    if credId in s.credentials && s.credentials[credId].userId == userId
    then s.(credentials := s.credentials - {credId}) else s
  }
}

/** Runs of the service: any sequence of calls under a clock that never goes back. */
module AuthRuns {
  import opened Common
  import opened Text
  import opened AuthState
  import opened Counting

  /** A call with its arguments and the random values it drew. `SetUser` stands for whatever
      creates users and sets their disabled flag. */
  datatype Call =
    | SetUser(userId: Id, disabled: bool)
    | Issue(codeId: Id, userId: Id, code: string, purpose: string)
    | Verify(code: string, clientIp: string, pick: Option<Id>)
    | CreateEnrollment(token: string, userId: Id, purpose: string)
    | DeleteEnrollment(token: string)
    | CreateSession(token: string, userId: Id)
    | DeleteSession(token: string)
    | SaveChallenge(challengeId: string, owner: Option<Id>, kind: string, data: string)
    | LoadChallenge(challengeId: string, kind: string)
    | StoreCredential(userId: Id, credId: string, publicKey: string, signCount: nat, nickname: string)
    | DeleteAllExcept(userId: Id, keep: string)
    | DeleteOne(userId: Id, credId: string)

  datatype Event = Event(now: Time, call: Call)

  /** The pick of a Verify call is what its query may return. */
  ghost predicate Possible(settings: Settings, s: State, c: Call) {
    c.Verify? ==> IsNewest(s.codes, settings.HashCode(TrimSpace(c.code)), c.pick)
  }

  /** The row picked, if any, is in the table; all that `Step` needs to know. */
  predicate PickExists(s: State, c: Call) {
    c.Verify? && c.pick.Some? ==> c.pick.value in s.codes
  }

  function OrSame(s: State, t: Option<State>): State {
    if t.Some? then t.value else s
  }

  function Step(settings: Settings, s: State, e: Event): State
    requires PickExists(s, e.call)
  {
    match e.call
    case SetUser(u, d) => s.(users := s.users[u := d])
    case Issue(id, u, code, purpose) => OrSame(s, AuthState.Issue(settings, s, id, u, code, purpose, e.now))
    case Verify(code, ip, pick) => AuthState.Verify(settings, s, code, ip, pick, e.now).0
    case CreateEnrollment(token, u, purpose) => OrSame(s,
        AuthState.CreateEnrollment(settings, s, token, u, purpose, e.now))
    case DeleteEnrollment(token) => AuthState.DeleteEnrollment(settings, s, token)
    case CreateSession(token, u) => OrSame(s, AuthState.CreateSession(settings, s, token, u, e.now))
    case DeleteSession(token) => AuthState.DeleteSession(settings, s, token)
    case SaveChallenge(id, u, kind, data) => OrSame(s, AuthState.SaveChallenge(s, id, u, kind, data, e.now))
    case LoadChallenge(id, kind) => AuthState.LoadChallenge(s, id, kind, e.now).0
    case StoreCredential(u, c, key, n, nick) => OrSame(s, AuthState.StoreCredential(s, u, c, key, n, nick, e.now))
    case DeleteAllExcept(u, keep) => AuthState.DeleteAllExcept(s, u, keep)
    case DeleteOne(u, c) => AuthState.DeleteOne(s, u, c)
  }

  /** The state after a run, and whether the run is possible. */
  ghost predicate IsRun(settings: Settings, es: seq<Event>)
    decreases |es|, 0
  {
    es == [] ||
    var before, e := es[..|es| - 1], es[|es| - 1];
    IsRun(settings, before) && Possible(settings, After(settings, before), e.call)
        && (before != [] ==> before[|before| - 1].now <= e.now)
  }

  ghost function After(settings: Settings, es: seq<Event>): State
    requires IsRun(settings, es)
    decreases |es|, 1
  {
    if es == [] then Empty
    else Step(settings, After(settings, es[..|es| - 1]), es[|es| - 1])
  }

  /** No later call comes before `now`. */
  predicate Until(es: seq<Event>, now: Time) {
    es != [] ==> es[|es| - 1].now <= now
  }

  // ---- Codes ----

  /** Wrong attempts are only ever counted against spent codes. */
  ghost predicate CodesInv(s: State, now: Time) {
    forall id :: id in s.codes && s.codes[id].usedAt.None? && s.codes[id].attempts > 0 ==> s.codes[id].expiresAt < now
  }

  /** Only issuing and verifying touch the code table, only verifying the attempt windows, and only
      saving and loading the challenges. */
  lemma StepFrame(settings: Settings, s: State, e: Event)
    requires PickExists(s, e.call)
    ensures var t := Step(settings, s, e);
            && (t.codes == s.codes || e.call.Issue? || e.call.Verify?)
            && (t.windows == s.windows || e.call.Verify?)
            && (t.challenges == s.challenges || e.call.SaveChallenge? || e.call.LoadChallenge?)
  {
    match e.call
    case CreateEnrollment(_, _, _) => EnrollmentFrame(settings, s, e);
    case DeleteEnrollment(_) => EnrollmentFrame(settings, s, e);
    case CreateSession(_, _) => SessionFrame(settings, s, e);
    case DeleteSession(_) => SessionFrame(settings, s, e);
    case SaveChallenge(_, _, _, _) => ChallengeFrame(settings, s, e);
    case LoadChallenge(_, _) => ChallengeFrame(settings, s, e);
    case StoreCredential(_, _, _, _, _) => StoreFrame(settings, s, e);
    case DeleteAllExcept(_, _) => PurgeFrame(settings, s, e);
    case DeleteOne(_, _) => PurgeFrame(settings, s, e);
    case _ =>
  }

  lemma EnrollmentFrame(settings: Settings, s: State, e: Event)
    requires e.call.CreateEnrollment? || e.call.DeleteEnrollment?
    ensures Step(settings, s, e) == s.(enrollments := Step(settings, s, e).enrollments)
  {
  }

  lemma SessionFrame(settings: Settings, s: State, e: Event)
    requires e.call.CreateSession? || e.call.DeleteSession?
    ensures Step(settings, s, e) == s.(sessions := Step(settings, s, e).sessions)
  {
  }

  lemma ChallengeFrame(settings: Settings, s: State, e: Event)
    requires e.call.LoadChallenge? || e.call.SaveChallenge?
    ensures Step(settings, s, e) == s.(challenges := Step(settings, s, e).challenges)
  {
  }

  lemma StoreFrame(settings: Settings, s: State, e: Event)
    requires e.call.StoreCredential?
    ensures Step(settings, s, e) == s.(credentials := Step(settings, s, e).credentials)
  {
  }

  lemma PurgeFrame(settings: Settings, s: State, e: Event)
    requires e.call.DeleteAllExcept? || e.call.DeleteOne?
    ensures Step(settings, s, e) == s.(credentials := Step(settings, s, e).credentials)
  {
  }

  /** Verifying records against the address exactly when it fails. */
  lemma VerifyWindows(settings: Settings, s: State, e: Event)
    requires PickExists(s, e.call) && e.call.Verify?
    ensures Step(settings, s, e).windows ==
            if Fails(settings, s, e) then RecordIp(settings, s.windows, e.call.clientIp, e.now) else s.windows
  {
  }

  /** Verifying changes at most the code row it picked: one more attempt, and used if it was not spent. */
  lemma VerifyCodes(settings: Settings, s: State, e: Event)
    requires PickExists(s, e.call) && e.call.Verify?
    ensures var t := Step(settings, s, e);
            match e.call.pick
            case None => t.codes == s.codes
            case Some(id) =>
              var c := s.codes[id];
              var d := if Spent(c, e.now) then c.(attempts := c.attempts + 1)
                       else c.(attempts := c.attempts + 1, usedAt := Some(e.now));
              t.codes == s.codes || t.codes == s.codes[id := d]
  {
  }

  lemma StepKeepsCodesInv(settings: Settings, s: State, e: Event)
    requires PickExists(s, e.call) && CodesInv(s, e.now)
    ensures CodesInv(Step(settings, s, e), e.now)
  {
    if e.call.Verify? {
      VerifyCodes(settings, s, e);
    } else if !e.call.Issue? {
      StepFrame(settings, s, e);
    }
  }

  lemma {:induction false} CodesInvHolds(settings: Settings, es: seq<Event>, now: Time)
    requires IsRun(settings, es) && Until(es, now)
    ensures CodesInv(After(settings, es), now)
  {
    if es != [] {
      var before, e := es[..|es| - 1], es[|es| - 1];
      CodesInvHolds(settings, before, e.now);
      StepKeepsCodesInv(settings, After(settings, before), e);
    }
  }

  /** A code still unused and unexpired has no attempts counted against it. */
  lemma FreshCodeHasNoAttempts(settings: Settings, es: seq<Event>, now: Time, id: Id)
    requires IsRun(settings, es) && Until(es, now)
    requires id in After(settings, es).codes && !Spent(After(settings, es).codes[id], now)
    ensures After(settings, es).codes[id].attempts == 0
  {
    CodesInvHolds(settings, es, now);
  }

  /** So the per-code lockout never decides, and a code is accepted exactly when its address is not
      blocked and it is a known, unused, unexpired code of an enabled user. */
  lemma AcceptedExactly(settings: Settings, es: seq<Event>, now: Time, code: string, ip: string, pick: Option<Id>)
    requires settings.Valid() && IsRun(settings, es) && Until(es, now)
    requires Possible(settings, After(settings, es), Verify(code, ip, pick))
    ensures var s := After(settings, es);
            var r := AuthState.Verify(settings, s, code, ip, pick, now).1;
            && (r.Accepted? <==>
                  && !Blocked(settings, s.windows, ip, now) && TrimSpace(code) != "" && pick.Some?
                  && !Spent(s.codes[pick.value], now)
                  && s.codes[pick.value].userId in s.users && !s.users[s.codes[pick.value].userId])
            && (pick.Some? && !Spent(s.codes[pick.value], now) ==> !CodeLocked(settings, s.codes[pick.value], now))
  {
    if pick.Some? && !Spent(After(settings, es).codes[pick.value], now) {
      FreshCodeHasNoAttempts(settings, es, now, pick.value);
    }
  }

  predicate AcceptsCode(settings: Settings, s: State, e: Event, id: Id)
    requires PickExists(s, e.call)
  {
    && e.call.Verify?
    && var r := AuthState.Verify(settings, s, e.call.code, e.call.clientIp, e.call.pick, e.now).1;
       r.Accepted? && r.codeId == id
  }

  /** How often a run accepts the code row `id`. */
  ghost function Acceptances(settings: Settings, es: seq<Event>, id: Id): nat
    requires IsRun(settings, es)
  {
    if es == [] then 0
    else
      var before, e := es[..|es| - 1], es[|es| - 1];
      Acceptances(settings, before, id) + if AcceptsCode(settings, After(settings, before), e, id) then 1 else 0
  }

  predicate Used(s: State, id: Id) {
    id in s.codes && s.codes[id].usedAt.Some?
  }

  /** A used code stays used and is not accepted; an accepted one is used. */
  lemma StepUsed(settings: Settings, s: State, e: Event, id: Id)
    requires PickExists(s, e.call)
    ensures Used(s, id) ==> Used(Step(settings, s, e), id) && !AcceptsCode(settings, s, e, id)
    ensures AcceptsCode(settings, s, e, id) ==> Used(Step(settings, s, e), id)
  {
    if e.call.Verify? {
      VerifyCodes(settings, s, e);
    } else if !e.call.Issue? {
      StepFrame(settings, s, e);
    }
  }

  /** Over any run each code row is accepted at most once. */
  lemma {:induction false} AcceptedAtMostOnce(settings: Settings, es: seq<Event>, id: Id)
    requires IsRun(settings, es)
    ensures Acceptances(settings, es, id) <= 1
    ensures Acceptances(settings, es, id) == 1 ==> Used(After(settings, es), id)
  {
    if es != [] {
      var before := es[..|es| - 1];
      AcceptedAtMostOnce(settings, before, id);
      StepUsed(settings, After(settings, before), es[|es| - 1], id);
    }
  }

  // ---- Challenges ----

  predicate SavesChallenge(s: State, e: Event, id: string) {
    && e.call.SaveChallenge? && e.call.challengeId == id
    && AuthState.SaveChallenge(s, id, e.call.owner, e.call.kind, e.call.data, e.now).Some?
  }

  predicate LoadsChallenge(s: State, e: Event, id: string) {
    e.call.LoadChallenge? && e.call.challengeId == id && CanLoad(s, id, e.call.kind, e.now)
  }

  ghost function Saves(settings: Settings, es: seq<Event>, id: string): nat
    requires IsRun(settings, es)
  {
    if es == [] then 0
    else
      var before, e := es[..|es| - 1], es[|es| - 1];
      Saves(settings, before, id) + if SavesChallenge(After(settings, before), e, id) then 1 else 0
  }

  ghost function Loads(settings: Settings, es: seq<Event>, id: string): nat
    requires IsRun(settings, es)
  {
    if es == [] then 0
    else
      var before, e := es[..|es| - 1], es[|es| - 1];
      Loads(settings, before, id) + if LoadsChallenge(After(settings, before), e, id) then 1 else 0
  }

  ghost function Stored(s: State, id: string): nat {
    if id in s.challenges then 1 else 0
  }

  lemma StepStored(settings: Settings, s: State, e: Event, id: string)
    requires PickExists(s, e.call)
    ensures Stored(Step(settings, s, e), id) ==
            Stored(s, id) + (if SavesChallenge(s, e, id) then 1 else 0) - (if LoadsChallenge(s, e, id) then 1 else 0)
  {
    if !e.call.SaveChallenge? && !e.call.LoadChallenge? {
      StepFrame(settings, s, e);
    }
  }

  /** Challenges are conserved: every one saved is loaded once or still stored. So an id drawn once is
      loaded successfully at most once. */
  lemma {:induction false} ChallengesConserved(settings: Settings, es: seq<Event>, id: string)
    requires IsRun(settings, es)
    ensures Loads(settings, es, id) + Stored(After(settings, es), id) == Saves(settings, es, id)
    ensures Saves(settings, es, id) <= 1 ==> Loads(settings, es, id) <= 1
  {
    if es != [] {
      var before := es[..|es| - 1];
      ChallengesConserved(settings, before, id);
      StepStored(settings, After(settings, before), es[|es| - 1], id);
    }
  }

  // ---- Attempt windows ----

  /** A failure recorded against an address: when, and the start of the window it was counted in. */
  datatype Failure = Failure(at: Time, start: Time)

  /** The call reaches failEnrollmentVerify. */
  predicate Fails(settings: Settings, s: State, e: Event)
    requires PickExists(s, e.call)
  {
    && e.call.Verify? && !Blocked(settings, s.windows, e.call.clientIp, e.now)
    && (TrimSpace(e.call.code) == "" || e.call.pick.None? || Spent(s.codes[e.call.pick.value], e.now))
  }

  /** The failures a run records against the address `ip`. */
  ghost function Log(settings: Settings, es: seq<Event>, ip: string): seq<Failure>
    requires IsRun(settings, es)
  {
    if es == [] then []
    else
      var before, e := es[..|es| - 1], es[|es| - 1];
      Log(settings, before, ip) + Recorded(settings, After(settings, before), e, ip)
  }

  /** Failures counted in the window that began at `w`. */
  ghost function In(w: Time): Failure -> bool {
    (f: Failure) => f.start == w
  }

  /** Those before the window's end; at the very end neither the block nor the reset applies. */
  ghost function Inside(settings: Settings, w: Time): Failure -> bool {
    (f: Failure) => f.start == w && f.at < w + settings.window
  }

  /** Failures of [a, a + window) that are not at the very end of their own window. */
  ghost function During(settings: Settings, a: Time): Failure -> bool {
    (f: Failure) => a <= f.at < a + settings.window && f.at != f.start + settings.window
  }

  /** Windows last their length, do not overlap, and hold at most the permitted failures. */
  ghost predicate WindowsInv(settings: Settings, log: seq<Failure>) {
    && (forall i :: 0 <= i < |log| ==> log[i].start <= log[i].at <= log[i].start + settings.window)
    && (forall i, j :: 0 <= i < j < |log| ==>
        log[i].start == log[j].start || log[i].start + settings.window < log[j].start)
    && (forall w {:trigger Inside(settings, w)} :: Count(log, Inside(settings, w)) <= settings.maxAttempts)
  }

  /** The stored window is the log's last one, with its number of failures. */
  ghost predicate StoredInv(log: seq<Failure>, windows: map<string, Window>, ip: string) {
    && (log == [] <==> ip !in windows)
    && (log != [] ==>
        windows[ip].start == log[|log| - 1].start && windows[ip].attempts == Count(log, In(windows[ip].start)))
  }

  /** Where the next failure of `ip` is counted: in the stored window, or in a new one that starts later. */
  lemma NextWindow(settings: Settings, log: seq<Failure>, windows: map<string, Window>, ip: string, clientIp: string,
                   now: Time)
    requires settings.Valid() && TrimSpace(clientIp) == ip != ""
    requires WindowsInv(settings, log) && StoredInv(log, windows, ip)
    requires log != [] ==> log[|log| - 1].at <= now
    ensures ip in RecordIp(settings, windows, clientIp, now)
    ensures var w := RecordIp(settings, windows, clientIp, now)[ip].start;
            && w <= now <= w + settings.window
            && (forall i :: 0 <= i < |log| ==> log[i].start == w || log[i].start + settings.window < w)
  {
    var w := RecordIp(settings, windows, clientIp, now)[ip].start;
    forall i | 0 <= i < |log| ensures log[i].start == w || log[i].start + settings.window < w {
      var last := log[|log| - 1].start;
      assert i == |log| - 1 || log[i].start == last || log[i].start + settings.window < last;
    }
  }

  lemma NextStored(settings: Settings, log: seq<Failure>, windows: map<string, Window>, ip: string, clientIp: string,
                   now: Time)
    requires settings.Valid() && TrimSpace(clientIp) == ip != ""
    requires WindowsInv(settings, log) && StoredInv(log, windows, ip)
    requires log != [] ==> log[|log| - 1].at <= now
    ensures var windows' := RecordIp(settings, windows, clientIp, now);
            ip in windows' && StoredInv(log + [Failure(now, windows'[ip].start)], windows', ip)
  {
    var w := RecordIp(settings, windows, clientIp, now)[ip].start;
    NextWindow(settings, log, windows, ip, clientIp, now);
    if log == [] || w != windows[ip].start {
      CountNone(log, In(w));
    }
    CountOneMore(log, Failure(now, w), In(w));
  }

  /** The count inside any interval stays bounded: a failure at the edge of its window is not inside it. */
  lemma NextCount(settings: Settings, log: seq<Failure>, windows: map<string, Window>, ip: string, clientIp: string,
                  now: Time, v: Time)
    requires settings.Valid() && TrimSpace(clientIp) == ip != ""
    requires WindowsInv(settings, log) && StoredInv(log, windows, ip)
    requires log != [] ==> log[|log| - 1].at <= now
    requires !Blocked(settings, windows, clientIp, now)
    ensures ip in RecordIp(settings, windows, clientIp, now)
    ensures Count(log + [Failure(now, RecordIp(settings, windows, clientIp, now)[ip].start)],
        Inside(settings, v)) <= settings.maxAttempts
  {
    NextWindow(settings, log, windows, ip, clientIp, now);
    var w := RecordIp(settings, windows, clientIp, now)[ip].start;
    CountOneMore(log, Failure(now, w), Inside(settings, v));
    assert Count(log, Inside(settings, v)) <= settings.maxAttempts;
    CountLess(log, Inside(settings, w), In(w));
    if log == [] || w != windows[ip].start {
      CountNone(log, In(w));
    }
  }

  /** One recorded failure keeps both invariants. */
  lemma RecordKeepsWindows(settings: Settings, log: seq<Failure>, windows: map<string, Window>, ip: string,
                           clientIp: string, now: Time)
    requires settings.Valid() && TrimSpace(clientIp) == ip != ""
    requires WindowsInv(settings, log) && StoredInv(log, windows, ip)
    requires log != [] ==> log[|log| - 1].at <= now
    requires !Blocked(settings, windows, clientIp, now)
    ensures var windows' := RecordIp(settings, windows, clientIp, now);
            ip in windows' && var log' := log + [Failure(now, windows'[ip].start)];
            WindowsInv(settings, log') && StoredInv(log', windows', ip)
  {
    NextWindow(settings, log, windows, ip, clientIp, now);
    NextStored(settings, log, windows, ip, clientIp, now);
    var log' := log + [Failure(now, RecordIp(settings, windows, clientIp, now)[ip].start)];
    forall v ensures Count(log', Inside(settings, v)) <= settings.maxAttempts {
      NextCount(settings, log, windows, ip, clientIp, now, v);
    }
  }

  /** What the call `e` adds to the log of `ip`. */
  function Recorded(settings: Settings, s: State, e: Event, ip: string): seq<Failure>
    requires PickExists(s, e.call)
  {
    var t := Step(settings, s, e);
    if Fails(settings, s, e) && TrimSpace(e.call.clientIp) == ip && ip in t.windows
    then [Failure(e.now, t.windows[ip].start)] else []
  }

  lemma StepKeepsWindows(settings: Settings, s: State, e: Event, log: seq<Failure>, ip: string)
    requires settings.Valid() && PickExists(s, e.call) && ip != ""
    requires WindowsInv(settings, log) && StoredInv(log, s.windows, ip)
    requires log != [] ==> log[|log| - 1].at <= e.now
    ensures WindowsInv(settings, log + Recorded(settings, s, e, ip))
    ensures StoredInv(log + Recorded(settings, s, e, ip), Step(settings, s, e).windows, ip)
  {
    if e.call.Verify? {
      VerifyWindows(settings, s, e);
      if Fails(settings, s, e) && TrimSpace(e.call.clientIp) == ip {
        RecordKeepsWindows(settings, log, s.windows, ip, e.call.clientIp, e.now);
      } else {
        assert log + Recorded(settings, s, e, ip) == log;
      }
    } else {
      StepFrame(settings, s, e);
      assert log + Recorded(settings, s, e, ip) == log;
    }
  }

  lemma NoFailures(settings: Settings, ip: string)
    requires settings.Valid()
    ensures WindowsInv(settings, []) && StoredInv([], Empty.windows, ip)
  {
    forall w {:trigger Inside(settings, w)} ensures Count([], Inside(settings, w)) <= settings.maxAttempts {}
  }

  lemma {:induction false} LogInvariants(settings: Settings, es: seq<Event>, ip: string)
    requires settings.Valid() && IsRun(settings, es) && ip != ""
    ensures WindowsInv(settings, Log(settings, es, ip))
        && StoredInv(Log(settings, es, ip), After(settings, es).windows, ip)
    ensures Log(settings, es, ip) != [] ==>
        es != [] && Log(settings, es, ip)[|Log(settings, es, ip)| - 1].at <= es[|es| - 1].now
  {
    if es != [] {
      var before, e := es[..|es| - 1], es[|es| - 1];
      LogInvariants(settings, before, ip);
      StepKeepsWindows(settings, After(settings, before), e, Log(settings, before, ip), ip);
    } else {
      NoFailures(settings, ip);
    }
  }

  lemma ThreeWindowsTooLong(settings: Settings, log: seq<Failure>, a: Time, i: nat, j: nat, k: nat)
    requires settings.Valid() && WindowsInv(settings, log)
    requires i < |log| && j < |log| && k < |log|
    requires During(settings, a)(log[i]) && During(settings, a)(log[j]) && During(settings, a)(log[k])
    ensures log[i].start == log[j].start || log[j].start == log[k].start || log[i].start == log[k].start
  {
    var x, y, z := log[i], log[j], log[k];
    assert i == j || x.start == y.start || x.start + settings.window < y.start || y.start + settings.window < x.start;
    assert j == k || y.start == z.start || y.start + settings.window < z.start || z.start + settings.window < y.start;
    assert i == k || x.start == z.start || x.start + settings.window < z.start || z.start + settings.window < x.start;
  }

  lemma IntervalBound(settings: Settings, log: seq<Failure>, a: Time)
    requires settings.Valid() && WindowsInv(settings, log)
    ensures Count(log, During(settings, a)) <= 2 * settings.maxAttempts
  {
    if i :| 0 <= i < |log| && During(settings, a)(log[i]) {
      var v := log[i].start;
      var w := if j :| 0 <= j < |log| && During(settings, a)(log[j]) && log[j].start != v then log[j].start else v;
      forall k | 0 <= k < |log| && During(settings, a)(log[k])
        ensures Inside(settings, v)(log[k]) || Inside(settings, w)(log[k])
      {
        if w != v {
          var j :| 0 <= j < |log| && During(settings, a)(log[j]) && log[j].start == w;
          ThreeWindowsTooLong(settings, log, a, i, j, k);
        }
      }
      CountSplit(log, During(settings, a), Inside(settings, v), Inside(settings, w));
    } else {
      CountNone(log, During(settings, a));
    }
  }

  /** Over any run, for a non-empty address: at most MaxCodeAttempts failures before the end of one
      window, window starts more than a window apart, and so at most twice that many failures in any
      half-open interval of a window's length, the instants at a window's very end not counted. */
  lemma RateBound(settings: Settings, es: seq<Event>, ip: string, a: Time)
    requires settings.Valid() && IsRun(settings, es) && ip != ""
    ensures Count(Log(settings, es, ip), Inside(settings, a)) <= settings.maxAttempts
    ensures forall i, j :: 0 <= i < j < |Log(settings, es, ip)| ==>
              var f, g := Log(settings, es, ip)[i], Log(settings, es, ip)[j];
              f.start == g.start || f.start + settings.window < g.start
    ensures Count(Log(settings, es, ip), During(settings, a)) <= 2 * settings.maxAttempts
  {
    LogInvariants(settings, es, ip);
    IntervalBound(settings, Log(settings, es, ip), a);
  }

  // ---- The instant at a window's end ----

  /** A failing call against a full window is still counted in it exactly when it comes at the very instant the window
      ends: before it the address is blocked, after it a new window begins. */
  lemma FullWindowCountsIff(settings: Settings, s: State, e: Event, ip: string)
    requires settings.Valid() && PickExists(s, e.call) && Fails(settings, s, e)
        && TrimSpace(e.call.clientIp) == ip != ""
    requires ip in s.windows && s.windows[ip].attempts >= settings.maxAttempts
    ensures Step(settings, s, e).windows[ip] == Window(s.windows[ip].attempts + 1, s.windows[ip].start) <==>
        e.now == s.windows[ip].start + settings.window
    ensures e.now != s.windows[ip].start + settings.window ==>
        Step(settings, s, e).windows[ip] == Window(1, e.now) && e.now > s.windows[ip].start + settings.window
  {
    VerifyWindows(settings, s, e);
  }

  /** A code at time 0 and `m` more exactly one window later, all unknown and from one address. */
  function EdgeRun(settings: Settings, ip: string, code: string, m: nat): seq<Event> {
    seq(m + 1, i requires 0 <= i <= m => Event(if i == 0 then 0 else settings.window, Verify(code, ip, None)))
  }

  /** An unknown code from an address that is not blocked is recorded. */
  lemma UnknownCodeRecorded(settings: Settings, s: State, e: Event, ip: string, code: string)
    requires Trimmed(ip) && ip != "" && e.call == Verify(code, ip, None) && !Blocked(settings, s.windows, ip, e.now)
    ensures Step(settings, s, e) == s.(windows := RecordIp(settings, s.windows, ip, e.now))
    ensures |Recorded(settings, s, e, ip)| == 1
  {
    TrimSpaceTrimmed(ip);
  }

  lemma RunSnoc(settings: Settings, before: seq<Event>, e: Event)
    requires IsRun(settings, before) && Possible(settings, After(settings, before), e.call) && Until(before, e.now)
    ensures IsRun(settings, before + [e])
    ensures After(settings, before + [e]) == Step(settings, After(settings, before), e)
    ensures forall ip ::
        Log(settings, before + [e], ip) == Log(settings, before, ip)
        + Recorded(settings, After(settings, before), e, ip)
  {
    assert (before + [e])[..|before|] == before;
  }

  /** The run is possible, ends at `now`, and has recorded `n` failures, all in the window that began at 0. */
  ghost predicate EdgeReached(settings: Settings, es: seq<Event>, ip: string, n: nat, now: Time) {
    && es != [] && es[|es| - 1].now == now && IsRun(settings, es)
    && |Log(settings, es, ip)| == n && After(settings, es) == Empty.(windows := map[ip := Window(n, 0)])
  }

  lemma EdgeStart(settings: Settings, ip: string, code: string)
    requires settings.Valid() && Trimmed(ip) && ip != ""
    ensures EdgeReached(settings, [Event(0, Verify(code, ip, None))], ip, 1, 0)
  {
    var e := Event(0, Verify(code, ip, None));
    UnknownCodeRecorded(settings, Empty, e, ip, code);
    RunSnoc(settings, [], e);
    assert [] + [e] == [e];
    TrimSpaceTrimmed(ip);
  }

  lemma EdgeMore(settings: Settings, es: seq<Event>, ip: string, code: string, n: nat, now: Time)
    requires settings.Valid() && Trimmed(ip) && ip != "" && now <= settings.window
        && EdgeReached(settings, es, ip, n, now)
    ensures EdgeReached(settings, es + [Event(settings.window, Verify(code, ip, None))], ip, n + 1, settings.window)
  {
    var e := Event(settings.window, Verify(code, ip, None));
    TrimSpaceTrimmed(ip);
    UnknownCodeRecorded(settings, After(settings, es), e, ip, code);
    RunSnoc(settings, es, e);
  }

  lemma {:induction false} EdgeNext(settings: Settings, ip: string, code: string, m: nat, now: Time)
    requires settings.Valid() && Trimmed(ip) && ip != "" && now <= settings.window
    requires EdgeReached(settings, EdgeRun(settings, ip, code, m), ip, m + 1, now)
    ensures EdgeReached(settings, EdgeRun(settings, ip, code, m + 1), ip, m + 2, settings.window)
  {
    var es, e := EdgeRun(settings, ip, code, m), Event(settings.window, Verify(code, ip, None));
    assert EdgeRun(settings, ip, code, m + 1) == es + [e];
    EdgeMore(settings, es, ip, code, m + 1, now);
  }

  /** The end instant has to be left out of the bound: there any number of failures is recorded, whatever text is
      tried. */
  lemma {:induction false} EdgeIsUnbounded(settings: Settings, ip: string, code: string, m: nat)
    requires settings.Valid() && Trimmed(ip) && ip != ""
    ensures EdgeReached(settings, EdgeRun(settings, ip, code, m), ip, m + 1, if m == 0 then 0 else settings.window)
  {
    if m == 0 {
      EdgeStart(settings, ip, code);
      assert EdgeRun(settings, ip, code, 0) == [Event(0, Verify(code, ip, None))];
    } else {
      EdgeIsUnbounded(settings, ip, code, m - 1);
      EdgeNext(settings, ip, code, m - 1, if m == 1 then 0 else settings.window);
    }
  }
}
