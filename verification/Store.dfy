/** The rows the credential protocol works on, and every write of the store as one
    atomic operation on them.  Expiry instants are kept; `created_at` and `updated_at`
    are not, since nothing decides on them. */
module Store {

  type UserId = string
  type Token = string
  type Hash = string
  type Secret = string
  type Time = int

  const ACTIVE := "active"
  const LOCAL := "local"
  const ADMIN := "admin"
  const PENDING := "pending"
  const CONSUMED := "consumed"

  /** users.recovery_codes_hash: the JSON array it holds, or text that is no such array. */
  datatype CodeList = Codes(digests: seq<string>) | Unreadable(text: string)

  datatype User = User(
    username: string,
    email: string,
    displayName: string,
    passwordHash: Hash,
    role: string,
    status: string,
    ssoProvider: string,
    ssoSubject: string,
    totpSecretEnc: string,
    totpEnabled: bool,
    recoveryCodes: CodeList,
    pushDeviceId: string,
    mustChangePassword: bool,
    totpLastCounter: int)

  datatype Session = Session(userId: UserId, userAgent: string, ipAddress: string, expiresAt: Time)

  datatype Challenge = Challenge(userId: UserId, expiresAt: Time, passwordHash: Hash)

  datatype Device = Device(name: string, platform: string, pushToken: string)

  datatype Pairing = Pairing(code: string, userId: UserId, device: Device, status: string, expiresAt: Time)

  datatype AuditRecord = AuditRecord(userId: UserId, action: string, details: string, ipAddress: string)

  datatype Tables = Tables(
    users: map<UserId, User>,
    sessions: map<Token, Session>,
    challenges: map<Token, Challenge>,
    pairings: map<Secret, Pairing>,
    audit: seq<AuditRecord>)

  datatype Outcome = Ok | NotFound | AlreadyExists | Rejected

  /** One write.  `now` is the clock reading the statement carries. */
  datatype StoreOp =
    | CreateUser(id: UserId, user: User)
    | UpdateUser(id: UserId, copy: User)
    | DeleteUser(id: UserId)
    | CompletePasswordChange(id: UserId, oldHash: Hash, newHash: Hash, ip: string)
    | ResetAdminPassword(id: UserId, newHash: Hash)
    | UpdateRecoveryCodes(id: UserId, oldCodes: CodeList, newCodes: CodeList)
    | SpendTotpCounter(id: UserId, counter: int)
    | CreateSession(token: Token, session: Session, expectedHash: Hash)
    | DeleteSession(token: Token)
    | DeleteUserSessions(id: UserId)
    | CleanExpiredSessions(now: Time)
    | CreateMfaChallenge(token: Token, userId: UserId, expiresAt: Time, expectedHash: Hash)
    | DeleteMfaChallenge(token: Token)
    | CreatePairing(secret: Secret, pairing: Pairing)
    | ConsumePairing(secret: Secret, device: Device, now: Time)
    | CleanExpiredPairings(now: Time)

  /** The WHERE clause of the locking update in `withPassword`. */
  predicate PasswordHolds(db: Tables, id: UserId, expected: Hash) {
    id in db.users && db.users[id].passwordHash == expected && db.users[id].status == ACTIVE
  }

  predicate NameTaken(users: map<UserId, User>, name: string, except: UserId) {
    exists id :: id in users && id != except && users[id].username == name
  }

  predicate CodeTaken(pairings: map<Secret, Pairing>, code: string) {
    exists s :: s in pairings && pairings[s].code == code
  }

  function SessionsWithout(m: map<Token, Session>, id: UserId): map<Token, Session> {
    map t | t in m && m[t].userId != id :: m[t]
  }

  function ChallengesWithout(m: map<Token, Challenge>, id: UserId): map<Token, Challenge> {
    map t | t in m && m[t].userId != id :: m[t]
  }

  function PairingsWithout(m: map<Secret, Pairing>, id: UserId): map<Secret, Pairing> {
    map s | s in m && m[s].userId != id :: m[s]
  }

  /** The row a forced replacement leaves behind. */
  function Replaced(u: User, newHash: Hash): User {
    u.(passwordHash := newHash, mustChangePassword := false)
  }

  /** The row an operator reset leaves behind. */
  function Reset(u: User, newHash: Hash): User {
    u.(passwordHash := newHash, mustChangePassword := true, status := ACTIVE, role := ADMIN)
  }

  function RevokeGrants(db: Tables, id: UserId, details: string, ip: string): Tables {
    db.(sessions := SessionsWithout(db.sessions, id),
        challenges := ChallengesWithout(db.challenges, id),
        pairings := PairingsWithout(db.pairings, id),
        audit := db.audit + [AuditRecord(id, "auth.password_changed", details, ip)])
  }

  const FORCED := "forced replacement; sessions revoked"
  const OPERATOR := "operator reset; sessions revoked"

  /** What each write does to the tables, and what it reports. */
  function Exec(db: Tables, op: StoreOp): (Tables, Outcome) {
    match op
    case CreateUser(id, user) =>
      if id in db.users || NameTaken(db.users, user.username, id) then (db, AlreadyExists)
      else
        var codes := if user.recoveryCodes == Unreadable("") then Codes([]) else user.recoveryCodes;
        (db.(users := db.users[id := user.(totpLastCounter := 0, recoveryCodes := codes)]), Ok)
    case UpdateUser(id, copy) =>
      if id !in db.users then (db, NotFound)
      else if NameTaken(db.users, copy.username, id) then (db, Rejected)
      else (db.(users := db.users[id := copy.(totpLastCounter := db.users[id].totpLastCounter)]), Ok)
    case DeleteUser(id) =>
      if id !in db.users then (db, NotFound)
      else
        (db.(users := db.users - {id},
             sessions := SessionsWithout(db.sessions, id),
             challenges := ChallengesWithout(db.challenges, id)), Ok)
    case CompletePasswordChange(id, oldHash, newHash, ip) =>
      if !PasswordHolds(db, id, oldHash) then (db, NotFound)
      else
        var u := db.users[id];
        if !u.mustChangePassword || u.ssoProvider != LOCAL then (db, NotFound)
        else (RevokeGrants(db.(users := db.users[id := Replaced(u, newHash)]), id, FORCED, ip), Ok)
    case ResetAdminPassword(id, newHash) =>
      if id !in db.users || db.users[id].ssoProvider != LOCAL then (db, NotFound)
      else (RevokeGrants(db.(users := db.users[id := Reset(db.users[id], newHash)]), id, OPERATOR, ""), Ok)
    case UpdateRecoveryCodes(id, oldCodes, newCodes) =>
      if id !in db.users || db.users[id].recoveryCodes != oldCodes then (db, AlreadyExists)
      else (db.(users := db.users[id := db.users[id].(recoveryCodes := newCodes)]), Ok)
    case SpendTotpCounter(id, counter) =>
      if id !in db.users || db.users[id].totpLastCounter >= counter then (db, AlreadyExists)
      else (db.(users := db.users[id := db.users[id].(totpLastCounter := counter)]), Ok)
    case CreateSession(token, session, expected) =>
      if !PasswordHolds(db, session.userId, expected) then (db, NotFound)
      else if token in db.sessions then (db, Rejected)
      else (db.(sessions := db.sessions[token := session]), Ok)
    case DeleteSession(token) => (db.(sessions := db.sessions - {token}), Ok)
    case DeleteUserSessions(id) => (db.(sessions := SessionsWithout(db.sessions, id)), Ok)
    case CleanExpiredSessions(now) =>
      (db.(sessions := map t | t in db.sessions && now <= db.sessions[t].expiresAt :: db.sessions[t]), Ok)
    case CreateMfaChallenge(token, userId, expiresAt, expected) =>
      if !PasswordHolds(db, userId, expected) then (db, NotFound)
      else if token in db.challenges then (db, Rejected)
      else (db.(challenges := db.challenges[token := Challenge(userId, expiresAt, expected)]), Ok)
    case DeleteMfaChallenge(token) =>
      if token !in db.challenges then (db, NotFound)
      else (db.(challenges := db.challenges - {token}), Ok)
    case CreatePairing(secret, pairing) =>
      if secret in db.pairings || CodeTaken(db.pairings, pairing.code) then (db, Rejected)
      else (db.(pairings := db.pairings[secret := pairing]), Ok)
    case ConsumePairing(secret, device, now) =>
      if secret !in db.pairings || db.pairings[secret].status != PENDING || db.pairings[secret].expiresAt <= now
      then (db, NotFound)
      else
        (db.(pairings := db.pairings[secret := db.pairings[secret].(status := CONSUMED, device := device)]), Ok)
    case CleanExpiredPairings(now) =>
      (db.(pairings := map s | s in db.pairings && now <= db.pairings[s].expiresAt :: db.pairings[s]), Ok)
  }

  /** The calls that replace a password. */
  predicate Replaces(op: StoreOp) {
    op.CompletePasswordChange? || op.ResetAdminPassword?
  }

  function PairingsLeft(m: map<Secret, Pairing>, id: UserId, late: set<Secret>): map<Secret, Pairing> {
    map s | s in m && (m[s].userId != id || s in late) :: m[s]
  }

  /** The tables after a write that commits among others.  Pairings are inserted without the
      user lock, so a replacement leaves those of its user that came after its delete had
      looked: the ones in `late`. */
  function Apply(db: Tables, op: StoreOp, late: set<Secret>): Tables {
    var after := Exec(db, op).0;
    if Replaces(op) && Exec(db, op).1 == Ok then after.(pairings := PairingsLeft(db.pairings, op.id, late)) else after
  }

  /** Equal but for device pairings. */
  predicate Agree(a: Tables, b: Tables) {
    a.users == b.users && a.sessions == b.sessions && a.challenges == b.challenges && a.audit == b.audit
  }

  lemma LateTouchesPairingsOnly(db: Tables, op: StoreOp, late: set<Secret>)
    ensures Agree(Apply(db, op, late), Exec(db, op).0)
    ensures !Replaces(op) ==> Apply(db, op, late) == Exec(db, op).0
    ensures Apply(db, op, late).pairings.Keys <= Exec(db, op).0.pairings.Keys + (db.pairings.Keys * late)
    ensures forall s :: s in db.pairings && s in Apply(db, op, late).pairings && Replaces(op) ==>
              Apply(db, op, late).pairings[s] == db.pairings[s]
  {
    hide NameTaken, CodeTaken, SessionsWithout, ChallengesWithout;
  }

  function Without(m: map<Secret, Pairing>, late: set<Secret>): map<Secret, Pairing> {
    map s | s in m && s !in late :: m[s]
  }

  function Among(m: map<Secret, Pairing>, late: set<Secret>): map<Secret, Pairing> {
    map s | s in m && s in late :: m[s]
  }

  /** A replacement that misses pairings leaves the tables it would have left had they been
      inserted after it. */
  lemma MissedAsIfInsertedAfter(db: Tables, op: StoreOp, late: set<Secret>)
    requires Replaces(op) && Exec(db, op).1 == Ok
    ensures var (d, r) := Exec(db.(pairings := Without(db.pairings, late)), op);
            r == Ok && Apply(db, op, late) == d.(pairings := d.pairings + Among(db.pairings, late))
  {
    hide NameTaken, CodeTaken, SessionsWithout, ChallengesWithout;
    var d := Exec(db.(pairings := Without(db.pairings, late)), op).0;
    assert d.pairings == PairingsWithout(Without(db.pairings, late), op.id);
    assert PairingsLeft(db.pairings, op.id, late) == d.pairings + Among(db.pairings, late);
  }

  /** A password replacement, by either route, leaves its user with no session, no MFA
      challenge and no device pairing, and leaves the rows of everybody else as they are.  A
      forced replacement, which only a flagged local user can make, changes the hash and clears
      the flag; a reset sets both and leaves an active administrator; no other column moves. */
  lemma ReplacementRevokesEverything(db: Tables, op: StoreOp)
    requires Replaces(op) && Exec(db, op).1 == Ok
    ensures var after := Exec(db, op).0;
            && (forall t :: t in after.sessions <==> t in db.sessions && db.sessions[t].userId != op.id)
            && (forall t :: t in after.challenges <==> t in db.challenges && db.challenges[t].userId != op.id)
            && (forall s :: s in after.pairings <==> s in db.pairings && db.pairings[s].userId != op.id)
            && (forall t :: t in after.sessions ==> after.sessions[t] == db.sessions[t])
            && (forall t :: t in after.challenges ==> after.challenges[t] == db.challenges[t])
            && (forall s :: s in after.pairings ==> after.pairings[s] == db.pairings[s])
    ensures op.id in db.users && db.users[op.id].ssoProvider == LOCAL
    ensures var u := db.users[op.id];
            var v := if op.ResetAdminPassword?
                     then u.(passwordHash := op.newHash, mustChangePassword := true, status := ACTIVE, role := ADMIN)
                     else u.(passwordHash := op.newHash, mustChangePassword := false);
            Exec(db, op).0.users == db.users[op.id := v] && (op.CompletePasswordChange? ==> u.mustChangePassword)
    ensures exists record :: Exec(db, op).0.audit == db.audit + [record] && record.userId == op.id
  {
    var details := if op.ResetAdminPassword? then OPERATOR else FORCED;
    var ip := if op.ResetAdminPassword? then "" else op.ip;
    assert Exec(db, op).0.audit == db.audit + [AuditRecord(op.id, "auth.password_changed", details, ip)];
  }

  predicate UniqueNames(users: map<UserId, User>) {
    forall a, b :: a in users && b in users && a != b ==> users[a].username != users[b].username
  }

  predicate UniqueCodes(pairings: map<Secret, Pairing>) {
    forall a, b :: a in pairings && b in pairings && a != b ==> pairings[a].code != pairings[b].code
  }

  /** No write breaks the uniqueness of user names. */
  lemma NamesStayUnique(db: Tables, op: StoreOp)
    requires UniqueNames(db.users)
    ensures UniqueNames(Exec(db, op).0.users)
  {
    hide SessionsWithout, ChallengesWithout, PairingsWithout, CodeTaken;
  }

  /** No write breaks the uniqueness of pairing codes. */
  lemma CodesStayUnique(db: Tables, op: StoreOp)
    requires UniqueCodes(db.pairings)
    ensures UniqueCodes(Exec(db, op).0.pairings)
  {
    hide SessionsWithout, ChallengesWithout, NameTaken;
  }

  /** The writes that end a session: its own deletion, a deletion of all sessions of its user,
      the deletion or a password replacement of its user, and a cleaning after it expired. */
  predicate EndsSession(db: Tables, op: StoreOp, t: Token)
    requires t in db.sessions
  {
    var id := db.sessions[t].userId;
    match op
    case DeleteSession(token) => token == t
    case DeleteUserSessions(u) => u == id
    case DeleteUser(u) => u == id && id in db.users
    case CompletePasswordChange(u, _, _, _) => u == id && Exec(db, op).1 == Ok
    case ResetAdminPassword(u, _) => u == id && Exec(db, op).1 == Ok
    case CleanExpiredSessions(now) => now > db.sessions[t].expiresAt
    case _ => false
  }

  /** A session is gone after a write exactly when the write is one that ends it, and is
      otherwise unchanged: nobody is signed out by what happens to someone else. */
  lemma SessionsGoOnlyBy(db: Tables, op: StoreOp, t: Token)
    requires t in db.sessions
    ensures t !in Exec(db, op).0.sessions <==> EndsSession(db, op, t)
    ensures t in Exec(db, op).0.sessions ==> Exec(db, op).0.sessions[t] == db.sessions[t]
  {
  }

  // ----- where the rows of a table come from ----------------------------------------------

  lemma SessionRows(db: Tables, op: StoreOp, t: Token)
    requires t in Exec(db, op).0.sessions
    ensures var after := Exec(db, op).0;
            if t in db.sessions then
              && after.sessions[t] == db.sessions[t]
              && (db.sessions[t].userId in db.users ==> db.sessions[t].userId in after.users)
            else
              && op.CreateSession? && op.token == t && after.sessions[t] == op.session
              && PasswordHolds(db, op.session.userId, op.expectedHash) && after.users == db.users
  {
    hide NameTaken, CodeTaken;
  }

  lemma ChallengeRows(db: Tables, op: StoreOp, t: Token)
    requires t in Exec(db, op).0.challenges
    ensures var after := Exec(db, op).0;
            if t in db.challenges then
              && after.challenges[t] == db.challenges[t]
              && (db.challenges[t].userId in db.users ==> db.challenges[t].userId in after.users)
            else
              && op.CreateMfaChallenge? && op.token == t
              && after.challenges[t] == Challenge(op.userId, op.expiresAt, op.expectedHash)
              && PasswordHolds(db, op.userId, op.expectedHash) && after.users == db.users
  {
    hide NameTaken, CodeTaken;
  }

  lemma PairingRows(db: Tables, op: StoreOp, late: set<Secret>, s: Secret)
    requires s in Apply(db, op, late).pairings
    ensures if s in db.pairings then
              Apply(db, op, late).pairings[s].status == PENDING ==> db.pairings[s].status == PENDING
            else op.CreatePairing? && op.secret == s
  {
    hide NameTaken, CodeTaken, SessionsWithout, ChallengesWithout;
  }

  lemma UserRows(db: Tables, op: StoreOp, id: UserId)
    requires id in Exec(db, op).0.users
    ensures var u := Exec(db, op).0.users[id];
            if id in db.users then
              && db.users[id].totpLastCounter <= u.totpLastCounter
              && ((u.passwordHash == db.users[id].passwordHash
                   && u.mustChangePassword == db.users[id].mustChangePassword)
                  || (op.UpdateUser? && op.id == id && Exec(db, op).1 == Ok
                      && u.passwordHash == op.copy.passwordHash && u.mustChangePassword == op.copy.mustChangePassword)
                  || (Replaces(op) && op.id == id && Exec(db, op).1 == Ok && u.passwordHash == op.newHash))
            else op.CreateUser? && op.id == id && u.passwordHash == op.user.passwordHash
  {
    hide NameTaken, CodeTaken, SessionsWithout, ChallengesWithout, PairingsWithout;
  }

  /** While a session survives, nothing but a profile update moves the hash, the flag or the
      status of its user. */
  lemma HeldRows(db: Tables, op: StoreOp, t: Token)
    requires t in db.sessions && t in Exec(db, op).0.sessions
    requires db.sessions[t].userId in db.users && db.sessions[t].userId in Exec(db, op).0.users
    ensures var id := db.sessions[t].userId;
            var u, v := db.users[id], Exec(db, op).0.users[id];
            || (v.passwordHash == u.passwordHash && v.mustChangePassword == u.mustChangePassword
                && v.status == u.status)
            || (op.UpdateUser? && op.id == id && Exec(db, op).1 == Ok)
  {
    hide NameTaken, CodeTaken, PairingsWithout, ChallengesWithout, PasswordHolds;
  }
}
