/** What a request comes to when nothing interferes: each protocol run from its first step to its
    last goes through exactly when its preconditions hold, and leaves exactly its own rows. */
module Flows {
  import opened Store
  import L = StoreLaws
  import SR = StoreRuns
  import opened Handlers
  import opened Steps
  import RS = RestrictedSessions

  /** The steps can be taken one after the other. */
  ghost predicate CanAll(s: System, acts: seq<Action>)
    decreases |acts|
  {
    acts == [] || (Can(s, acts[0]) && CanAll(Next(s, acts[0]), acts[1..]))
  }

  /** The state they lead to. */
  ghost function End(s: System, acts: seq<Action>): System
    requires CanAll(s, acts)
    decreases |acts|
  {
    if acts == [] then s else End(Next(s, acts[0]), acts[1..])
  }

  lemma One(s: System, x: Action)
    ensures CanAll(s, [x]) <==> Can(s, x)
    ensures CanAll(s, [x]) ==> End(s, [x]) == Next(s, x)
  {
    hide Can, Next;
    assert [x][1..] == [];
    if Can(s, x) {
      assert CanAll(Next(s, x), []);
      assert End(Next(s, x), []) == Next(s, x);
    }
  }

  lemma First(s: System, x: Action, rest: seq<Action>)
    ensures CanAll(s, [x] + rest) <==> Can(s, x) && CanAll(Next(s, x), rest)
    ensures CanAll(s, [x] + rest) ==> End(s, [x] + rest) == End(Next(s, x), rest)
  {
    hide Can, Next;
    assert ([x] + rest)[1..] == rest;
  }

  lemma Two(s: System, x: Action, y: Action)
    ensures CanAll(s, [x, y]) <==> Can(s, x) && Can(Next(s, x), y)
    ensures CanAll(s, [x, y]) ==> End(s, [x, y]) == Next(Next(s, x), y)
  {
    hide Can, Next, CanAll, End;
    First(s, x, [y]);
    assert [x] + [y] == [x, y];
    if Can(s, x) {
      One(Next(s, x), y);
    }
  }

  lemma Then(s: System, x: Action, y: Action, rest: seq<Action>)
    ensures CanAll(s, [x, y] + rest) <==> CanAll(s, [x, y]) && CanAll(End(s, [x, y]), rest)
    ensures CanAll(s, [x, y] + rest) ==> End(s, [x, y] + rest) == End(End(s, [x, y]), rest)
  {
    hide Can, Next, CanAll, End;
    Two(s, x, y);
    First(s, x, [y] + rest);
    assert [x] + ([y] + rest) == [x, y] + rest;
    if Can(s, x) {
      First(Next(s, x), y, rest);
    }
  }

  // ----- what the writes of the protocols leave ------------------------------------------------

  lemma Inserts(db: Tables, t: Token, row: Session, h: Hash)
    requires L.Accepts(db, CreateSession(t, row, h))
    ensures Apply(db, CreateSession(t, row, h), {}) == db.(sessions := db.sessions[t := row])
  {
  }

  lemma InsertsChallenge(db: Tables, t: Token, id: UserId, expiresAt: Time, h: Hash)
    requires L.Accepts(db, CreateMfaChallenge(t, id, expiresAt, h))
    ensures Apply(db, CreateMfaChallenge(t, id, expiresAt, h), {}) ==
            db.(challenges := db.challenges[t := Challenge(id, expiresAt, h)])
  {
  }

  lemma Deletes(db: Tables, t: Token)
    requires t in db.challenges
    ensures Apply(db, DeleteMfaChallenge(t), {}) == db.(challenges := db.challenges - {t})
  {
  }

  lemma Spends(db: Tables, id: UserId, n: int)
    requires L.Accepts(db, SpendTotpCounter(id, n))
    ensures Apply(db, SpendTotpCounter(id, n), {}) ==
            db.(users := db.users[id := db.users[id].(totpLastCounter := n)])
  {
  }

  lemma Swaps(db: Tables, id: UserId, before: CodeList, after: CodeList)
    requires L.Accepts(db, UpdateRecoveryCodes(id, before, after))
    ensures Apply(db, UpdateRecoveryCodes(id, before, after), {}) ==
            db.(users := db.users[id := db.users[id].(recoveryCodes := after)])
  {
  }

  lemma Consumes(db: Tables, p: Secret, device: Device, now: Time)
    requires L.Accepts(db, ConsumePairing(p, device, now))
    ensures Apply(db, ConsumePairing(p, device, now), {}) ==
            db.(pairings := db.pairings[p := db.pairings[p].(status := "consumed", device := device)])
  {
  }

  lemma Patches(db: Tables, id: UserId, copy: User)
    requires L.Accepts(db, UpdateUser(id, copy))
    ensures Apply(db, UpdateUser(id, copy), {}) ==
            db.(users := db.users[id := copy.(totpLastCounter := db.users[id].totpLastCounter)])
  {
    L.SucceedsIffAccepted(db, UpdateUser(id, copy));
  }

  predicate Active(db: Tables, id: UserId) {
    id in db.users && db.users[id].status == "active"
  }

  /** A token not yet drawn has no row. */
  lemma NewToken(c: SR.Core, t: Token)
    requires SR.Recorded(c) && t !in c.tokens
    ensures t !in c.db.sessions && t !in c.db.challenges
  {
  }

  // ----- the protocols -------------------------------------------------------------------------

  /** A password login of an account without second factor: a session, exactly if the user is
      active and has none. */
  lemma PasswordLogin(s: System, a: ActorId, id: UserId, t: Token, row: Session)
    requires SR.Recorded(s.core) && a !in s.actors && t !in s.core.tokens && row.userId == id
    ensures var acts := [LoginRead(a, id), IssueSession(a, t, row)];
            && (CanAll(s, acts) <==> Active(s.core.db, id) && !s.core.db.users[id].totpEnabled)
            && (CanAll(s, acts) ==>
                  End(s, acts).core.db == s.core.db.(sessions := s.core.db.sessions[t := row]))
  {
    hide Can, Next, CanAll, End, Exec, Apply, SR.Recorded;
    Two(s, LoginRead(a, id), IssueSession(a, t, row));
    LoginStep(s, a, id);
    NewToken(s.core, t);
    if Can(s, LoginRead(a, id)) {
      IssueLaw(Next(s, LoginRead(a, id)), a, t, row);
      Issued(s.core.db, t, row, s.core.db.users[id].passwordHash);
    }
  }

  lemma Issued(db: Tables, t: Token, row: Session, h: Hash)
    ensures L.Accepts(db, CreateSession(t, row, h)) ==>
              Apply(db, CreateSession(t, row, h), {}) == db.(sessions := db.sessions[t := row])
  {
    if L.Accepts(db, CreateSession(t, row, h)) {
      Inserts(db, t, row, h);
    }
  }

  /** A password login of an account with one: a challenge under the verified hash. */
  lemma LoginWithSecondFactor(s: System, a: ActorId, id: UserId, t: Token, expiresAt: Time)
    requires SR.Recorded(s.core) && a !in s.actors && t !in s.core.tokens
    ensures var acts := [LoginRead(a, id), LoginChallenge(a, t, expiresAt)];
            && (CanAll(s, acts) <==> Active(s.core.db, id) && s.core.db.users[id].totpEnabled)
            && (CanAll(s, acts) ==>
                  var row := Challenge(id, expiresAt, s.core.db.users[id].passwordHash);
                  End(s, acts).core.db == s.core.db.(challenges := s.core.db.challenges[t := row]))
  {
    hide Can, Next, CanAll, End, Exec, Apply, SR.Recorded;
    Two(s, LoginRead(a, id), LoginChallenge(a, t, expiresAt));
    LoginStep(s, a, id);
    NewToken(s.core, t);
    if Can(s, LoginRead(a, id)) {
      LoginChallengeLaw(Next(s, LoginRead(a, id)), a, t, expiresAt);
      if L.Accepts(s.core.db, CreateMfaChallenge(t, id, expiresAt, s.core.db.users[id].passwordHash)) {
        InsertsChallenge(s.core.db, t, id, expiresAt, s.core.db.users[id].passwordHash);
      }
    }
  }

  /** An SSO login: a session, exactly if the user is active. */
  lemma SsoLogin(s: System, a: ActorId, id: UserId, t: Token, row: Session)
    requires SR.Recorded(s.core) && a !in s.actors && t !in s.core.tokens && row.userId == id
    ensures var acts := [SsoRead(a, id), IssueSession(a, t, row)];
            && (CanAll(s, acts) <==> Active(s.core.db, id))
            && (CanAll(s, acts) ==>
                  End(s, acts).core.db == s.core.db.(sessions := s.core.db.sessions[t := row]))
  {
    hide Can, Next, CanAll, End, Exec, Apply, SR.Recorded;
    Two(s, SsoRead(a, id), IssueSession(a, t, row));
    SsoStep(s, a, id);
    NewToken(s.core, t);
    if Can(s, SsoRead(a, id)) {
      IssueLaw(Next(s, SsoRead(a, id)), a, t, row);
      Issued(s.core.db, t, row, s.core.db.users[id].passwordHash);
    }
  }

  /** ConsumeMFAChallenge, its select and its delete: exactly if the challenge is there and has not
      expired, and then it is gone. */
  lemma ConsumeChallenge(s: System, a: ActorId, t: Token)
    requires a !in s.actors
    ensures var acts := [MfaSelect(a, t), MfaDelete(a)];
            && (CanAll(s, acts) <==> t in s.core.db.challenges && s.core.now < s.core.db.challenges[t].expiresAt)
            && (CanAll(s, acts) ==>
                  var row, d := s.core.db.challenges[t], End(s, acts);
                  && d.core == s.core.(db := s.core.db.(challenges := s.core.db.challenges - {t}))
                  && d.grants == s.grants && a in d.actors && d.actors[a].MfaConsumed?
                  && d.actors[a].challenge == t && d.actors[a].id == row.userId
                  && d.actors[a].verified == row.passwordHash)
  {
    hide Can, Next, CanAll, End, Exec, Apply;
    Two(s, MfaSelect(a, t), MfaDelete(a));
    MfaSelectStep(s, a, t);
    if Can(s, MfaSelect(a, t)) {
      MfaDeleteLaw(Next(s, MfaSelect(a, t)), a);
      Deletes(s.core.db, t);
    }
  }

  predicate MayProve(db: Tables, row: Challenge) {
    Active(db, row.userId) && db.users[row.userId].totpEnabled && db.users[row.userId].passwordHash == row.passwordHash
  }

  predicate Unexpired(s: System, t: Token) {
    t in s.core.db.challenges && s.core.now < s.core.db.challenges[t].expiresAt
  }

  /** The read of the user after it. */
  lemma ReadAfterConsume(s: System, a: ActorId, t: Token)
    requires a !in s.actors
    ensures var acts := [MfaSelect(a, t), MfaDelete(a), MfaRead(a)];
            && (CanAll(s, acts) <==> Unexpired(s, t) && MayProve(s.core.db, s.core.db.challenges[t]))
            && (CanAll(s, acts) ==>
                  var row, d := s.core.db.challenges[t], End(s, acts);
                  && d.core == s.core.(db := s.core.db.(challenges := s.core.db.challenges - {t}))
                  && d.grants == s.grants && a in d.actors && d.actors[a].MfaEligible?
                  && d.actors[a].id == row.userId && d.actors[a].user == s.core.db.users[row.userId])
  {
    hide Can, Next, CanAll, End;
    var x, y, z := MfaSelect(a, t), MfaDelete(a), MfaRead(a);
    Then(s, x, y, [z]);
    assert [x, y] + [z] == [x, y, z];
    ConsumeChallenge(s, a, t);
    if CanAll(s, [x, y]) {
      One(End(s, [x, y]), z);
      MfaReadStep(End(s, [x, y]), a);
    }
  }

  lemma ThenThree(s: System, x: Action, y: Action, z: Action, rest: seq<Action>)
    ensures CanAll(s, [x, y, z] + rest) <==> CanAll(s, [x, y, z]) && CanAll(End(s, [x, y, z]), rest)
    ensures CanAll(s, [x, y, z] + rest) ==> End(s, [x, y, z] + rest) == End(End(s, [x, y, z]), rest)
  {
    hide Can, Next, CanAll, End;
    Then(s, x, y, [z] + rest);
    Then(s, x, y, [z]);
    assert [x, y] + ([z] + rest) == [x, y, z] + rest && [x, y] + [z] == [x, y, z];
    if CanAll(s, [x, y]) {
      First(End(s, [x, y]), z, rest);
      One(End(s, [x, y]), z);
    }
  }

  /** An MFA login with a one-time code: exactly if the challenge is there and unexpired, its user
      active, with a second factor and still under the challenge's hash, and the counter above
      the recorded one. */
  lemma LoginWithCode(s: System, a: ActorId, t: Token, n: int, token: Token, row: Session)
    requires SR.Recorded(s.core) && a !in s.actors && token !in s.core.tokens
    requires t in s.core.db.challenges ==> row.userId == s.core.db.challenges[t].userId
    ensures var db := s.core.db;
            var acts := [MfaSelect(a, t), MfaDelete(a), MfaRead(a), MfaTotp(a, n), IssueSession(a, token, row)];
            && (CanAll(s, acts) <==>
                  && Unexpired(s, t) && MayProve(db, db.challenges[t])
                  && db.users[db.challenges[t].userId].totpLastCounter < n)
            && (CanAll(s, acts) ==>
                  var id := db.challenges[t].userId;
                  End(s, acts).core.db ==
                  db.(challenges := db.challenges - {t}, sessions := db.sessions[token := row],
                      users := db.users[id := db.users[id].(totpLastCounter := n)]))
  {
    hide Can, Next, CanAll, End, Exec, Apply, SR.Recorded;
    var x, y, z, p, q := MfaSelect(a, t), MfaDelete(a), MfaRead(a), MfaTotp(a, n), IssueSession(a, token, row);
    ThenThree(s, x, y, z, [p, q]);
    assert [x, y, z] + [p, q] == [x, y, z, p, q];
    ReadAfterConsume(s, a, t);
    if CanAll(s, [x, y, z]) {
      var s3 := End(s, [x, y, z]);
      Two(s3, p, q);
      MfaTotpLaw(s3, a, n);
      if Can(s3, p) {
        Spends(s3.core.db, s3.actors[a].id, n);
        NewToken(s.core, token);
        IssueLaw(Next(s3, p), a, token, row);
        Issued(Next(s3, p).core.db, token, row, s3.actors[a].user.passwordHash);
      }
    }
  }

  /** An MFA login with a recovery code: the digest of what was typed stands at a slot of the list,
      which is blanked. */
  lemma LoginWithRecoveryCode(s: System, a: ActorId, t: Token, slot: nat, digest: string, token: Token, row: Session)
    requires SR.Recorded(s.core) && a !in s.actors && token !in s.core.tokens
    requires t in s.core.db.challenges ==> row.userId == s.core.db.challenges[t].userId
    ensures var db := s.core.db;
            var acts := [MfaSelect(a, t), MfaDelete(a), MfaRead(a), MfaRecovery(a, slot, digest),
                         IssueSession(a, token, row)];
            && (CanAll(s, acts) <==>
                  && Unexpired(s, t) && MayProve(db, db.challenges[t])
                  && var codes := db.users[db.challenges[t].userId].recoveryCodes;
                     codes.Codes? && slot < |codes.digests| && digest != "" && codes.digests[slot] == digest)
            && (CanAll(s, acts) ==>
                  var id := db.challenges[t].userId;
                  var codes := db.users[id].recoveryCodes;
                  End(s, acts).core.db ==
                  db.(challenges := db.challenges - {t}, sessions := db.sessions[token := row],
                      users := db.users[id := db.users[id].(recoveryCodes := Codes(codes.digests[slot := ""]))]))
  {
    hide Can, Next, CanAll, End, Exec, Apply, SR.Recorded;
    var x, y, z := MfaSelect(a, t), MfaDelete(a), MfaRead(a);
    var p, q := MfaRecovery(a, slot, digest), IssueSession(a, token, row);
    ThenThree(s, x, y, z, [p, q]);
    assert [x, y, z] + [p, q] == [x, y, z, p, q];
    ReadAfterConsume(s, a, t);
    if CanAll(s, [x, y, z]) {
      var s3 := End(s, [x, y, z]);
      Two(s3, p, q);
      MfaRecoveryLaw(s3, a, slot, digest);
      if Can(s3, p) {
        var codes := s3.actors[a].user.recoveryCodes;
        Swaps(s3.core.db, s3.actors[a].id, codes, Codes(codes.digests[slot := ""]));
        NewToken(s.core, token);
        IssueLaw(Next(s3, p), a, token, row);
        Issued(Next(s3, p).core.db, token, row, s3.actors[a].user.passwordHash);
      }
    }
  }

  /** A device verification: exactly if the query names the pairing, which is pending and unexpired,
      and its user is active and not flagged; the pairing keeps the device, and the user gets a
      session if the pairing names one. */
  lemma VerifyDevice(s: System, a: ActorId, query: string, p: Secret, device: Device, token: Token, row: Session)
    requires SR.Recorded(s.core) && a !in s.actors && token !in s.core.tokens
    requires p in s.core.db.pairings ==> row.userId == s.core.db.pairings[p].userId
    ensures var db := s.core.db;
            var acts := [PairFind(a, query, p), PairVet(a), PairConsume(a, device), IssueSession(a, token, row)];
            && (CanAll(s, acts) <==>
                  && p in db.pairings
                  && var found := db.pairings[p];
                     && (if |query| == 6 then query == found.code else query == p)
                     && found.status == "pending" && s.core.now < found.expiresAt
                     && found.userId != "" && Active(db, found.userId) && !db.users[found.userId].mustChangePassword)
            && (CanAll(s, acts) ==>
                  End(s, acts).core.db ==
                  db.(sessions := db.sessions[token := row],
                      pairings := db.pairings[p := db.pairings[p].(status := "consumed", device := device)]))
  {
    hide Can, Next, CanAll, End, Exec, Apply, SR.Recorded;
    var x, y, z, q := PairFind(a, query, p), PairVet(a), PairConsume(a, device), IssueSession(a, token, row);
    Then(s, x, y, [z, q]);
    assert [x, y] + [z, q] == [x, y, z, q];
    Two(s, x, y);
    PairFindStep(s, a, query, p);
    if Can(s, x) {
      var s1 := Next(s, x);
      PairVetStep(s1, a);
      if Can(s1, y) {
        var s2 := Next(s1, y);
        Two(s2, z, q);
        PairConsumeLaw(s2, a, device);
        if Can(s2, z) {
          Consumes(s2.core.db, p, device, s2.core.now);
          NewToken(s.core, token);
          IssueLaw(Next(s2, z), a, token, row);
          Issued(Next(s2, z).core.db, token, row, s2.actors[a].user.passwordHash);
        }
      }
    }
  }

  /** A profile update: exactly if the user is there and nobody else has the name; the columns of the
      request change, and no other. */
  lemma ReadAndWriteProfile(s: System, act: Action, id: UserId)
    requires act.ProfileWrite? && act.a !in s.actors
    ensures var db, acts := s.core.db, [ProfileRead(act.a, id), act];
            && (CanAll(s, acts) <==>
                  id in db.users && forall u :: u in db.users && u != id ==> db.users[u].username != act.name)
            && (CanAll(s, acts) ==>
                  && End(s, acts).actors == s.actors[act.a := ProfileWritten(id)]
                  && End(s, acts).core.db ==
                     db.(users := db.users[id := db.users[id].(username := act.name, email := act.mail,
                                                               displayName := act.shown, role := act.role,
                                                               status := act.status)]))
  {
    hide Can, Next, CanAll, End, Exec, Apply;
    Two(s, ProfileRead(act.a, id), act);
    ProfileReadStep(s, act.a, id);
    if Can(s, ProfileRead(act.a, id)) {
      ProfileWriteLaw(Next(s, ProfileRead(act.a, id)), act);
      var copy := Patched(s.core.db.users[id], act);
      if L.Accepts(s.core.db, UpdateUser(id, copy)) {
        Patches(s.core.db, id, copy);
      }
    }
  }

  /** With the revocation that follows when role or status changed: then the user has no session
      left, and everybody else's are as they were. */
  lemma UpdateProfile(s: System, act: Action, id: UserId)
    requires act.ProfileWrite? && act.a !in s.actors
    ensures var db, acts := s.core.db, [ProfileRead(act.a, id), act, ProfileRevoke(act.a)];
            && (CanAll(s, acts) <==>
                  id in db.users && forall u :: u in db.users && u != id ==> db.users[u].username != act.name)
            && (CanAll(s, acts) ==>
                  var d := End(s, acts).core.db;
                  && d.users == db.users[id := db.users[id].(username := act.name, email := act.mail,
                                                             displayName := act.shown, role := act.role,
                                                             status := act.status)]
                  && (forall t :: t in d.sessions <==> t in db.sessions && db.sessions[t].userId != id)
                  && (forall t :: t in d.sessions ==> d.sessions[t] == db.sessions[t])
                  && d.challenges == db.challenges && d.pairings == db.pairings && d.audit == db.audit)
  {
    hide Can, Next, CanAll, End, Exec, Apply;
    var x, z := ProfileRead(act.a, id), ProfileRevoke(act.a);
    Then(s, x, act, [z]);
    assert [x, act] + [z] == [x, act, z];
    ReadAndWriteProfile(s, act, id);
    if CanAll(s, [x, act]) {
      var s2 := End(s, [x, act]);
      One(s2, z);
      ProfileRevokeLaw(s2, act.a);
      Revokes(s2.core.db, id);
    }
  }

  lemma Revokes(db: Tables, id: UserId)
    ensures var d := Apply(db, DeleteUserSessions(id), {});
            && d == db.(sessions := d.sessions)
            && (forall t :: t in d.sessions <==> t in db.sessions && db.sessions[t].userId != id)
            && (forall t :: t in d.sessions ==> d.sessions[t] == db.sessions[t])
  {
  }

  /** A forced change of password: exactly if the session is there unexpired, and its user active,
      flagged and local. */
  lemma ForcedChange(s: System, a: ActorId, t: Token, h: Hash, ip: string)
    requires a !in s.actors && h !in s.core.hashes
    ensures var db := s.core.db;
            var acts := [AuthSelect(a, t, CHANGE_PASSWORD), AuthRead(a), AuthRecheck(a), ChangePassword(a, h, ip, {})];
            && (CanAll(s, acts) <==>
                  && t in db.sessions && s.core.now <= db.sessions[t].expiresAt && Active(db, db.sessions[t].userId)
                  && var u := db.users[db.sessions[t].userId]; u.mustChangePassword && u.ssoProvider == "local")
            && (CanAll(s, acts) ==>
                  var id := db.sessions[t].userId;
                  && id in End(s, acts).core.db.users
                  && End(s, acts).core.db.users[id] == db.users[id].(passwordHash := h, mustChangePassword := false)
                  && t !in End(s, acts).core.db.sessions)
  {
    hide Can, Next, CanAll, End, Exec, Apply;
    var x, y, z, q := AuthSelect(a, t, CHANGE_PASSWORD), AuthRead(a), AuthRecheck(a), ChangePassword(a, h, ip, {});
    Then(s, x, y, [z, q]);
    assert [x, y] + [z, q] == [x, y, z, q];
    Two(s, x, y);
    RS.FirstRead(s, a, t, CHANGE_PASSWORD);
    if Can(s, x) {
      RS.SecondRead(Next(s, x), a);
      if Can(Next(s, x), y) {
        var s2 := Next(Next(s, x), y);
        Two(s2, z, q);
        RS.ThirdRead(s2, a);
        if Can(s2, z) {
          ChangeLaw(Next(s2, z), a, h, ip, {});
          var op := CompletePasswordChange(s.core.db.sessions[t].userId, s2.actors[a].user.passwordHash, h, ip);
          if L.Accepts(s.core.db, op) {
            Changed(s.core.db, op, t);
          }
        }
      }
    }
  }

  lemma Changed(db: Tables, op: StoreOp, t: Token)
    requires op.CompletePasswordChange? && L.Accepts(db, op) && t in db.sessions && db.sessions[t].userId == op.id
    ensures var d := Apply(db, op, {});
            && op.id in d.users && t !in d.sessions
            && d.users[op.id] == db.users[op.id].(passwordHash := op.newHash, mustChangePassword := false)
  {
    L.SucceedsIffAccepted(db, op);
    L.UserRowAfter(db, op, op.id);
    LateTouchesPairingsOnly(db, op, {});
    SessionsGoOnlyBy(db, op, t);
    hide Exec, Apply;
  }
}
