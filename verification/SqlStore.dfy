/** The store as the program writes it: statements that change rows in place, one after the
    other, inside transactions that are rolled back when a statement fails or finds nothing.
    Each call is proved to be the atomic operation of module `Store` on the tables it finds,
    or, if the driver reports an error for any of its statements, to change nothing. */
module SqlStore {
  import opened Store

  datatype Table = Sessions | Challenges | Pairings

  datatype Found<T> = Row(row: T) | Missing | Expired

  /** Which statements of a call, counted from zero, the driver reports an error for. */
  type Faults = nat -> bool

  ghost predicate SomeFault(faulty: Faults, first: nat, end: nat) {
    exists n: nat :: first <= n < end && faulty(n)
  }

  class Database {
    var users: map<UserId, User>
    var sessions: map<Token, Session>
    var challenges: map<Token, Challenge>
    var pairings: map<Secret, Pairing>
    var audit: seq<AuditRecord>

    constructor ()
      ensures View() == Tables(map[], map[], map[], map[], [])
    {
      users, sessions, challenges, pairings, audit := map[], map[], map[], map[], [];
    }

    function View(): Tables
      reads this
    {
      Tables(users, sessions, challenges, pairings, audit)
    }

    /** The end of a transaction that does not commit. */
    method Rollback(before: Tables)
      modifies this
      ensures View() == before
    {
      users, sessions, challenges := before.users, before.sessions, before.challenges;
      pairings, audit := before.pairings, before.audit;
    }

    /** The statement `withPassword` begins with.  It writes nothing new: its use is the lock on
        the user row, and the number of rows it matched. */
    method LockUser(id: UserId, expected: Hash) returns (rows: nat)
      ensures rows == if PasswordHolds(View(), id, expected) then 1 else 0
    {
      rows := if id in users && users[id].passwordHash == expected && users[id].status == ACTIVE then 1 else 0;
    }

    /** Deletes the rows of one user from a table. */
    method DeleteRows(table: Table, id: UserId)
      modifies this
      ensures View() == match table
                        case Sessions => old(View()).(sessions := SessionsWithout(old(sessions), id))
                        case Challenges => old(View()).(challenges := ChallengesWithout(old(challenges), id))
                        case Pairings => old(View()).(pairings := PairingsWithout(old(pairings), id))
    {
      match table
      case Sessions => sessions := map t | t in sessions && sessions[t].userId != id :: sessions[t];
      case Challenges => challenges := map t | t in challenges && challenges[t].userId != id :: challenges[t];
      case Pairings => pairings := map s | s in pairings && pairings[s].userId != id :: pairings[s];
    }

    /** Four statements, the first of them number `first` of the call.  After a fault the tables
        are left half done: it is the caller's rollback that undoes it. */
    method RevokePasswordGrants(id: UserId, details: string, ip: string, faulty: Faults, first: nat)
      returns (fault: bool)
      modifies this
      ensures fault <==> SomeFault(faulty, first, first + 4)
      ensures !fault ==> View() == RevokeGrants(old(View()), id, details, ip)
    {
      var tables := [Sessions, Challenges, Pairings];
      for i := 0 to |tables|
        invariant users == old(users) && audit == old(audit)
        invariant sessions == if i > 0 then SessionsWithout(old(sessions), id) else old(sessions)
        invariant challenges == if i > 1 then ChallengesWithout(old(challenges), id) else old(challenges)
        invariant pairings == if i > 2 then PairingsWithout(old(pairings), id) else old(pairings)
        invariant forall n :: first <= n < first + i ==> !faulty(n)
      {
        if faulty(first + i) {
          return true;
        }
        DeleteRows(tables[i], id);
      }
      if faulty(first + 3) {
        return true;
      }
      audit := audit + [AuditRecord(id, "auth.password_changed", details, ip)];
      fault := false;
    }

    /** Lock, insert, commit. */
    method CreateSession(token: Token, session: Session, expected: Hash, faulty: Faults)
      returns (r: Outcome, fault: bool)
      modifies this
      ensures if fault then View() == old(View())
              else (View(), r) == Exec(old(View()), StoreOp.CreateSession(token, session, expected))
      ensures fault ==> SomeFault(faulty, 0, 3)
      ensures !fault && r == Ok ==> !SomeFault(faulty, 0, 3)
    {
      var before := View();
      if faulty(0) {
        return Rejected, true;
      }
      var rows := LockUser(session.userId, expected);
      if rows != 1 {
        Rollback(before);
        return NotFound, false;
      }
      if faulty(1) {
        Rollback(before);
        return Rejected, true;
      }
      if token in sessions {
        Rollback(before);
        return Rejected, false;
      }
      sessions := sessions[token := session];
      if faulty(2) {
        Rollback(before);
        return Rejected, true;
      }
      r, fault := Ok, false;
    }

    /** Lock, insert, commit. */
    method CreateMfaChallenge(token: Token, userId: UserId, expiresAt: Time, expected: Hash, faulty: Faults)
      returns (r: Outcome, fault: bool)
      modifies this
      ensures if fault then View() == old(View())
              else (View(), r) == Exec(old(View()), StoreOp.CreateMfaChallenge(token, userId, expiresAt, expected))
      ensures fault ==> SomeFault(faulty, 0, 3)
      ensures !fault && r == Ok ==> !SomeFault(faulty, 0, 3)
    {
      var before := View();
      if faulty(0) {
        return Rejected, true;
      }
      var rows := LockUser(userId, expected);
      if rows != 1 {
        Rollback(before);
        return NotFound, false;
      }
      if faulty(1) {
        Rollback(before);
        return Rejected, true;
      }
      if token in challenges {
        Rollback(before);
        return Rejected, false;
      }
      challenges := challenges[token := Challenge(userId, expiresAt, expected)];
      if faulty(2) {
        Rollback(before);
        return Rejected, true;
      }
      r, fault := Ok, false;
    }

    /** Lock, update, three deletes, audit record, commit. */
    method CompletePasswordChange(id: UserId, oldHash: Hash, newHash: Hash, ip: string, faulty: Faults)
      returns (r: Outcome, fault: bool)
      modifies this
      ensures if fault then View() == old(View())
              else (View(), r) == Exec(old(View()), StoreOp.CompletePasswordChange(id, oldHash, newHash, ip))
      ensures fault ==> SomeFault(faulty, 0, 7)
      ensures !fault && r == Ok ==> !SomeFault(faulty, 0, 7)
    {
      var before := View();
      if faulty(0) {
        return Rejected, true;
      }
      var rows := LockUser(id, oldHash);
      if rows != 1 {
        Rollback(before);
        return NotFound, false;
      }
      if faulty(1) {
        Rollback(before);
        return Rejected, true;
      }
      if !users[id].mustChangePassword || users[id].ssoProvider != LOCAL {
        Rollback(before);
        return NotFound, false;
      }
      users := users[id := users[id].(passwordHash := newHash, mustChangePassword := false)];
      fault := RevokePasswordGrants(id, FORCED, ip, faulty, 2);
      if fault || faulty(6) {
        Rollback(before);
        return Rejected, true;
      }
      r := Ok;
    }

    /** Update, three deletes, audit record, commit. */
    method ResetAdminPassword(id: UserId, newHash: Hash, faulty: Faults) returns (r: Outcome, fault: bool)
      modifies this
      ensures if fault then View() == old(View())
              else (View(), r) == Exec(old(View()), StoreOp.ResetAdminPassword(id, newHash))
      ensures fault ==> SomeFault(faulty, 0, 6)
      ensures !fault && r == Ok ==> !SomeFault(faulty, 0, 6)
    {
      var before := View();
      if faulty(0) {
        return Rejected, true;
      }
      if id !in users || users[id].ssoProvider != LOCAL {
        Rollback(before);
        return NotFound, false;
      }
      var u := users[id].(passwordHash := newHash, mustChangePassword := true, status := ACTIVE, role := ADMIN);
      users := users[id := u];
      fault := RevokePasswordGrants(id, OPERATOR, "", faulty, 1);
      if fault || faulty(5) {
        Rollback(before);
        return Rejected, true;
      }
      r := Ok;
    }

    /** An expired row is deleted on the way out. */
    method GetSession(token: Token, now: Time) returns (r: Found<Session>)
      modifies this
      ensures r == (if token !in old(sessions) then Missing
                    else if now > old(sessions)[token].expiresAt then Expired
                    else Row(old(sessions)[token]))
      ensures View() == if r.Expired? then Exec(old(View()), DeleteSession(token)).0 else old(View())
    {
      if token !in sessions {
        return Missing;
      }
      var row := sessions[token];
      if now > row.expiresAt {
        sessions := sessions - {token};
        return Expired;
      }
      r := Row(row);
    }

    method ConsumeMfaChallenge(token: Token, now: Time) returns (r: Found<Challenge>)
      modifies this
      ensures r == (if token !in old(challenges) then Missing
                    else if now >= old(challenges)[token].expiresAt then Expired
                    else Row(old(challenges)[token]))
      ensures View() == if r.Row? then Exec(old(View()), DeleteMfaChallenge(token)).0 else old(View())
      ensures r.Row? ==> token !in challenges
    {
      if token !in challenges {
        return Missing;
      }
      var row := challenges[token];
      if now >= row.expiresAt {
        return Expired;
      }
      challenges := challenges - {token};
      r := Row(row);
    }

    method SpendTotpCounter(id: UserId, counter: int) returns (r: Outcome)
      modifies this
      ensures (View(), r) == Exec(old(View()), StoreOp.SpendTotpCounter(id, counter))
      ensures users.Keys == old(users).Keys
      ensures forall u :: u in users ==> old(users)[u].totpLastCounter <= users[u].totpLastCounter
      ensures r == Ok ==> id in users && users[id].totpLastCounter == counter
    {
      var rows := if id in users && users[id].totpLastCounter < counter then 1 else 0;
      if rows != 1 {
        return AlreadyExists;
      }
      users := users[id := users[id].(totpLastCounter := counter)];
      r := Ok;
    }

    method UpdateRecoveryCodes(id: UserId, oldCodes: CodeList, newCodes: CodeList) returns (r: Outcome)
      modifies this
      ensures (View(), r) == Exec(old(View()), StoreOp.UpdateRecoveryCodes(id, oldCodes, newCodes))
      ensures users.Keys == old(users).Keys && forall u :: u in users && u != id ==> users[u] == old(users)[u]
    {
      var rows := if id in users && users[id].recoveryCodes == oldCodes then 1 else 0;
      if rows != 1 {
        return AlreadyExists;
      }
      users := users[id := users[id].(recoveryCodes := newCodes)];
      r := Ok;
    }

    method ConsumePairing(secret: Secret, device: Device, now: Time) returns (r: Outcome)
      modifies this
      ensures (View(), r) == Exec(old(View()), StoreOp.ConsumePairing(secret, device, now))
    {
      if secret !in pairings || pairings[secret].status != PENDING || !(pairings[secret].expiresAt > now) {
        return NotFound;
      }
      pairings := pairings[secret := pairings[secret].(status := CONSUMED, device := device)];
      r := Ok;
    }

    method UpdateUser(id: UserId, copy: User) returns (r: Outcome)
      modifies this
      ensures (View(), r) == Exec(old(View()), StoreOp.UpdateUser(id, copy))
      ensures forall u :: u in old(users) ==> u in users && users[u].totpLastCounter == old(users)[u].totpLastCounter
    {
      if id !in users {
        return NotFound;
      }
      if exists u :: u in users && u != id && users[u].username == copy.username {
        return Rejected;
      }
      users := users[id := copy.(totpLastCounter := users[id].totpLastCounter)];
      r := Ok;
    }

    /** The sessions and challenges of the user go with its row. */
    method DeleteUser(id: UserId) returns (r: Outcome)
      modifies this
      ensures (View(), r) == Exec(old(View()), StoreOp.DeleteUser(id))
    {
      if id !in users {
        return NotFound;
      }
      users := users - {id};
      DeleteRows(Sessions, id);
      DeleteRows(Challenges, id);
      r := Ok;
    }
  }
}
