/** When each write of the store succeeds, and exactly which rows it leaves. */
module StoreLaws {
  import opened Store

  predicate NameFree(db: Tables, name: string, id: UserId) {
    forall u :: u in db.users && u != id ==> db.users[u].username != name
  }

  /** What the WHERE clauses and the UNIQUE constraints ask of the rows that are there. */
  predicate Accepts(db: Tables, op: StoreOp) {
    match op
    case CreateUser(id, user) => id !in db.users && NameFree(db, user.username, id)
    case UpdateUser(id, copy) => id in db.users && NameFree(db, copy.username, id)
    case DeleteUser(id) => id in db.users
    case CompletePasswordChange(id, oldHash, _, _) =>
      && id in db.users
      && var u := db.users[id];
         u.passwordHash == oldHash && u.status == ACTIVE && u.mustChangePassword && u.ssoProvider == LOCAL
    case ResetAdminPassword(id, _) => id in db.users && db.users[id].ssoProvider == LOCAL
    case UpdateRecoveryCodes(id, oldCodes, _) => id in db.users && db.users[id].recoveryCodes == oldCodes
    case SpendTotpCounter(id, counter) => id in db.users && db.users[id].totpLastCounter < counter
    case CreateSession(t, row, hash) =>
      && t !in db.sessions && row.userId in db.users
      && db.users[row.userId].passwordHash == hash && db.users[row.userId].status == ACTIVE
    case CreateMfaChallenge(t, id, _, hash) =>
      && t !in db.challenges && id in db.users
      && db.users[id].passwordHash == hash && db.users[id].status == ACTIVE
    case DeleteMfaChallenge(t) => t in db.challenges
    case CreatePairing(s, row) => s !in db.pairings && forall p :: p in db.pairings ==> db.pairings[p].code != row.code
    case ConsumePairing(s, _, now) =>
      s in db.pairings && db.pairings[s].status == PENDING && now < db.pairings[s].expiresAt
    case _ => true
  }

  /** The error of a write that is refused. */
  function Refusal(db: Tables, op: StoreOp): Outcome {
    match op
    case CreateUser(_, _) => AlreadyExists
    case UpdateUser(id, _) => if id in db.users then Rejected else NotFound
    case UpdateRecoveryCodes(_, _, _) => AlreadyExists
    case SpendTotpCounter(_, _) => AlreadyExists
    case CreateSession(t, row, hash) => if PasswordHolds(db, row.userId, hash) then Rejected else NotFound
    case CreateMfaChallenge(t, id, _, hash) => if PasswordHolds(db, id, hash) then Rejected else NotFound
    case CreatePairing(_, _) => Rejected
    case _ => NotFound
  }

  /** A write succeeds exactly when the rows that are there accept it; else it reports its error and
      nothing changes. */
  lemma SucceedsIffAccepted(db: Tables, op: StoreOp)
    ensures Exec(db, op).1 == Ok <==> Accepts(db, op)
    ensures !Accepts(db, op) ==> Exec(db, op) == (db, Refusal(db, op))
  {
    hide SessionsWithout, ChallengesWithout, PairingsWithout;
  }

  /** The row of `id` after a write that succeeds: one of the user's own writes changes the columns
      it names, and no other write changes any. */
  lemma UserRowAfter(db: Tables, op: StoreOp, id: UserId)
    requires Accepts(db, op)
    ensures var users := Exec(db, op).0.users;
            match op
            case CreateUser(u, user) =>
              if u != id then Same(users, db.users, id)
              else
                var codes := if user.recoveryCodes == Unreadable("") then Codes([]) else user.recoveryCodes;
                id in users && users[id] == user.(totpLastCounter := 0, recoveryCodes := codes)
            case UpdateUser(u, copy) =>
              if u != id then Same(users, db.users, id)
              else id in users && users[id] == copy.(totpLastCounter := db.users[id].totpLastCounter)
            case DeleteUser(u) => if u != id then Same(users, db.users, id) else id !in users
            case CompletePasswordChange(u, _, h, _) =>
              if u != id then Same(users, db.users, id)
              else id in users && users[id] == db.users[id].(passwordHash := h, mustChangePassword := false)
            case ResetAdminPassword(u, h) =>
              if u != id then Same(users, db.users, id)
              else
                && id in users
                && users[id] ==
                   db.users[id].(passwordHash := h, mustChangePassword := true, status := "active", role := "admin")
            case UpdateRecoveryCodes(u, _, codes) =>
              if u != id then Same(users, db.users, id)
              else id in users && users[id] == db.users[id].(recoveryCodes := codes)
            case SpendTotpCounter(u, n) =>
              if u != id then Same(users, db.users, id)
              else id in users && users[id] == db.users[id].(totpLastCounter := n)
            case _ => Same(users, db.users, id)
  {
    SucceedsIffAccepted(db, op);
    hide NameTaken, CodeTaken, SessionsWithout, ChallengesWithout, PairingsWithout, NameFree;
  }

  predicate Same<K(==), V(==)>(m: map<K, V>, n: map<K, V>, k: K) {
    if k in n then k in m && m[k] == n[k] else k !in m
  }

  /** A challenge is gone after a write exactly when it was deleted, or its user was or had the
      password replaced; a new one is the row of the insert; every other is as it was. */
  lemma ChallengeRowAfter(db: Tables, op: StoreOp, t: Token)
    requires Accepts(db, op)
    ensures var m := Exec(db, op).0.challenges;
            if op.CreateMfaChallenge? && op.token == t then
              t in m && m[t] == Challenge(op.userId, op.expiresAt, op.expectedHash)
            else if op.DeleteMfaChallenge? && op.token == t then t !in m
            else if (op.DeleteUser? || Replaces(op)) && t in db.challenges && db.challenges[t].userId == op.id then
              t !in m
            else Same(m, db.challenges, t)
  {
    SucceedsIffAccepted(db, op);
    hide NameTaken, CodeTaken, NameFree, SessionsWithout, PairingsWithout;
  }

  /** A pairing is gone after a write exactly when its user had the password replaced and it was not
      missed, or a cleaning found it expired; a verification marks it consumed and stores the
      device; a new one is the row of the insert; every other is as it was. */
  lemma PairingRowAfter(db: Tables, op: StoreOp, late: set<Secret>, s: Secret)
    requires Accepts(db, op)
    ensures var m := Apply(db, op, late).pairings;
            if op.CreatePairing? && op.secret == s then s in m && m[s] == op.pairing
            else if op.ConsumePairing? && op.secret == s then
              && s in m
              && m[s].status == "consumed" && m[s].device == op.device && m[s].code == db.pairings[s].code
              && m[s].userId == db.pairings[s].userId && m[s].expiresAt == db.pairings[s].expiresAt
            else if Replaces(op) && s in db.pairings && db.pairings[s].userId == op.id && s !in late then s !in m
            else if op.CleanExpiredPairings? && s in db.pairings && db.pairings[s].expiresAt < op.now then s !in m
            else Same(m, db.pairings, s)
  {
    SucceedsIffAccepted(db, op);
    hide NameTaken, CodeTaken, NameFree, SessionsWithout, ChallengesWithout;
  }

  /** Sessions: `SessionsGoOnlyBy` says which go; a new one is the row of the insert, and no other
      write brings one. */
  lemma SessionRowAfter(db: Tables, op: StoreOp, t: Token)
    requires Accepts(db, op) && t !in db.sessions
    ensures var m := Exec(db, op).0.sessions;
            if op.CreateSession? && op.token == t then t in m && m[t] == op.session else t !in m
  {
    SucceedsIffAccepted(db, op);
    hide NameTaken, CodeTaken, NameFree, ChallengesWithout, PairingsWithout;
  }

  /** Only a password replacement writes the audit table: one record, on its user. */
  lemma AuditAfter(db: Tables, op: StoreOp)
    ensures var audit := Exec(db, op).0.audit;
            if Replaces(op) && Accepts(db, op) then
              audit == db.audit + [AuditRecord(op.id, "auth.password_changed",
                                               if op.ResetAdminPassword? then "operator reset; sessions revoked"
                                               else "forced replacement; sessions revoked",
                                               if op.ResetAdminPassword? then "" else op.ip)]
            else audit == db.audit
  {
    SucceedsIffAccepted(db, op);
    hide NameTaken, CodeTaken, NameFree, SessionsWithout, ChallengesWithout, PairingsWithout;
  }
}
