/** Each handler step: exactly when it can be taken, and what it leaves. */
module Steps {
  import opened Options
  import opened Store
  import L = StoreLaws
  import SR = StoreRuns
  import opened Handlers

  /** The state after a step that reads: one actor moves. */
  function Moved(s: System, a: ActorId, x: Actor): System {
    s.(actors := s.actors[a := x], step := s.step + 1)
  }

  // ----- steps that read -----------------------------------------------------------------

  lemma LoginStep(s: System, a: ActorId, id: UserId)
    ensures var act := LoginRead(a, id);
            && (Can(s, act) <==> a !in s.actors && id in s.core.db.users && s.core.db.users[id].status == "active")
            && (Can(s, act) ==> Next(s, act) == Moved(s, a, LoginVerified(id, s.core.db.users[id], s.step)))
  {
  }

  lemma SsoStep(s: System, a: ActorId, id: UserId)
    ensures var act := SsoRead(a, id);
            && (Can(s, act) <==> a !in s.actors && id in s.core.db.users)
            && (Can(s, act) ==> Next(s, act) == Moved(s, a, SsoIdentified(id, s.core.db.users[id], s.step)))
  {
  }

  lemma ProfileReadStep(s: System, a: ActorId, id: UserId)
    ensures var act := ProfileRead(a, id);
            && (Can(s, act) <==> a !in s.actors && id in s.core.db.users)
            && (Can(s, act) ==> Next(s, act) == Moved(s, a, ProfileLoaded(id, s.core.db.users[id], s.step)))
  {
  }

  lemma MfaSelectStep(s: System, a: ActorId, t: Token)
    ensures var act := MfaSelect(a, t);
            && (Can(s, act) <==>
                  a !in s.actors && t in s.core.db.challenges && s.core.now < s.core.db.challenges[t].expiresAt)
            && (Can(s, act) ==> Next(s, act) == Moved(s, a, MfaSelected(t, s.core.db.challenges[t])))
  {
  }

  /** A six-character query is a code, anything else a secret. */
  lemma PairFindStep(s: System, a: ActorId, query: string, p: Secret)
    ensures var act := PairFind(a, query, p);
            && (Can(s, act) <==>
                  && a !in s.actors && p in s.core.db.pairings
                  && var row := s.core.db.pairings[p];
                     && (|query| == 6 ==> row.code == query) && (|query| != 6 ==> p == query)
                     && s.core.now <= row.expiresAt && row.status == "pending")
            && (Can(s, act) ==> Next(s, act) == Moved(s, a, PairFound(p, s.core.db.pairings[p])))
  {
  }

  lemma MfaReadStep(s: System, a: ActorId)
    ensures var act := MfaRead(a);
            && (Can(s, act) <==>
                  && a in s.actors && s.actors[a].MfaConsumed? && s.actors[a].id in s.core.db.users
                  && var u := s.core.db.users[s.actors[a].id];
                     u.status == "active" && u.totpEnabled && u.passwordHash == s.actors[a].verified)
            && (Can(s, act) ==>
                  var x := s.actors[a];
                  Next(s, act) == Moved(s, a, MfaEligible(x.challenge, x.id, s.core.db.users[x.id], x.login)))
  {
  }

  lemma PairVetStep(s: System, a: ActorId)
    ensures var act := PairVet(a);
            && (Can(s, act) <==>
                  && a in s.actors && s.actors[a].PairFound? && s.actors[a].pairing.userId in s.core.db.users
                  && var u := s.core.db.users[s.actors[a].pairing.userId];
                     u.status == "active" && !u.mustChangePassword)
            && (Can(s, act) ==>
                  var x := s.actors[a];
                  var id := x.pairing.userId;
                  Next(s, act) == Moved(s, a, PairVetted(x.secret, id, s.core.db.users[id], s.step)))
  {
  }

  // ----- steps that write ----------------------------------------------------------------

  /** The store call of a step that writes succeeds, and draws nothing twice. */
  predicate Takes(s: System, op: StoreOp) {
    && L.Accepts(s.core.db, op)
    && (op.CreateSession? || op.CreateMfaChallenge? ==> op.token !in s.core.tokens)
    && (Replaces(op) ==> op.newHash !in s.core.hashes)
  }

  /** The core after it. */
  function CoreAfter(s: System, op: StoreOp, late: set<Secret>): SR.Core {
    s.core.(db := Apply(s.core.db, op, late),
            tokens := s.core.tokens + (if op.CreateSession? || op.CreateMfaChallenge? then {op.token} else {}),
            hashes := s.core.hashes + (if Replaces(op) then {op.newHash}
                                       else if op.UpdateUser? then {op.copy.passwordHash} else {}))
  }

  lemma CoreSteps(s: System, op: StoreOp, late: set<Secret>)
    requires HandlerOnly(op) || op.DeleteUserSessions?
    requires op.ConsumePairing? ==> op.now == s.core.now
    ensures SR.Enabled(s.core, SR.Write(op, late)) && Exec(s.core.db, op).1 == Ok <==> Takes(s, op)
    ensures SR.Next(s.core, SR.Write(op, late)) == CoreAfter(s, op, late)
  {
    L.SucceedsIffAccepted(s.core.db, op);
    hide Exec, Apply, L.Accepts;
  }

  lemma LoginChallengeLaw(s: System, a: ActorId, t: Token, expiresAt: Time)
    ensures var act := LoginChallenge(a, t, expiresAt);
            && (Can(s, act) <==>
                  && a in s.actors && s.actors[a].LoginVerified? && s.actors[a].user.totpEnabled
                  && Takes(s, CreateMfaChallenge(t, s.actors[a].id, expiresAt, s.actors[a].user.passwordHash)))
            && (Can(s, act) ==>
                  var op := CreateMfaChallenge(t, s.actors[a].id, expiresAt, s.actors[a].user.passwordHash);
                  Next(s, act) ==
                  System(CoreAfter(s, op, {}), s.actors - {a}, s.grants[t := NewGrant(s, act)], s.step + 1))
  {
    if a in s.actors && s.actors[a].LoginVerified? {
      CoreSteps(s, CreateMfaChallenge(t, s.actors[a].id, expiresAt, s.actors[a].user.passwordHash), {});
    }
    hide Exec, Apply, L.Accepts, SR.Next, SR.Enabled, CoreAfter, Takes, NewGrant;
  }

  lemma MfaDeleteLaw(s: System, a: ActorId)
    ensures var act := MfaDelete(a);
            && (Can(s, act) <==>
                  a in s.actors && s.actors[a].MfaSelected? && s.actors[a].challenge in s.core.db.challenges)
            && (Can(s, act) ==>
                  var x := s.actors[a];
                  var login := if x.challenge in s.grants then s.grants[x.challenge].seen else 0;
                  Next(s, act) ==
                  s.(core := CoreAfter(s, DeleteMfaChallenge(x.challenge), {}), step := s.step + 1,
                     actors := s.actors[a := MfaConsumed(x.challenge, x.row.userId, x.row.passwordHash, login)]))
  {
    if a in s.actors && s.actors[a].MfaSelected? {
      CoreSteps(s, DeleteMfaChallenge(s.actors[a].challenge), {});
    }
    hide Exec, Apply, SR.Next, SR.Enabled, CoreAfter;
  }

  lemma MfaTotpLaw(s: System, a: ActorId, n: int)
    ensures var act := MfaTotp(a, n);
            && (Can(s, act) <==>
                  && a in s.actors && s.actors[a].MfaEligible? && s.actors[a].id in s.core.db.users
                  && s.core.db.users[s.actors[a].id].totpLastCounter < n)
            && (Can(s, act) ==>
                  var x := s.actors[a];
                  Next(s, act) ==
                  s.(core := CoreAfter(s, SpendTotpCounter(x.id, n), {}), step := s.step + 1,
                     actors := s.actors[a := MfaProved(x.challenge, TotpTicket(x.id, n), x.id, x.user, x.login)]))
  {
    if a in s.actors && s.actors[a].MfaEligible? {
      CoreSteps(s, SpendTotpCounter(s.actors[a].id, n), {});
    }
    hide Exec, Apply, SR.Next, SR.Enabled, CoreAfter;
  }

  /** The list read at MfaRead must hold the digest at the slot, and be the one stored still. */
  lemma MfaRecoveryLaw(s: System, a: ActorId, slot: nat, digest: string)
    ensures var act := MfaRecovery(a, slot, digest);
            && (Can(s, act) <==>
                  && a in s.actors && s.actors[a].MfaEligible?
                  && var codes := s.actors[a].user.recoveryCodes;
                     && codes.Codes? && slot < |codes.digests| && digest != "" && codes.digests[slot] == digest
                     && s.actors[a].id in s.core.db.users && s.core.db.users[s.actors[a].id].recoveryCodes == codes)
            && (Can(s, act) ==>
                  var x := s.actors[a];
                  var codes := x.user.recoveryCodes;
                  Next(s, act) ==
                  s.(core := CoreAfter(s, UpdateRecoveryCodes(x.id, codes, Codes(codes.digests[slot := ""])), {}),
                     actors := s.actors[a := MfaProved(x.challenge, CodeTicket(x.id, slot), x.id, x.user, x.login)],
                     step := s.step + 1))
  {
    if a in s.actors && s.actors[a].MfaEligible? {
      var codes := s.actors[a].user.recoveryCodes;
      if codes.Codes? && slot < |codes.digests| {
        CoreSteps(s, UpdateRecoveryCodes(s.actors[a].id, codes, Codes(codes.digests[slot := ""])), {});
      }
    }
    hide Exec, Apply, SR.Next, SR.Enabled, CoreAfter;
  }

  /** Who may be given a session: a password login without a second factor, an SSO login, a proved
      MFA login, or a device whose pairing names a user. */
  predicate MayHaveSession(x: Actor) {
    match x
    case LoginVerified(_, u, _) => !u.totpEnabled
    case SsoIdentified(_, _, _) => true
    case MfaProved(_, _, _, _, _) => true
    case PairConsumed(_, id, _, _) => id != ""
    case _ => false
  }

  lemma IssueLaw(s: System, a: ActorId, t: Token, row: Session)
    ensures var act := IssueSession(a, t, row);
            && (Can(s, act) <==>
                  && a in s.actors && MayHaveSession(s.actors[a]) && row.userId == s.actors[a].id
                  && Takes(s, CreateSession(t, row, s.actors[a].user.passwordHash)))
            && (Can(s, act) ==>
                  var op := CreateSession(t, row, s.actors[a].user.passwordHash);
                  Next(s, act) ==
                  System(CoreAfter(s, op, {}), s.actors - {a}, s.grants[t := NewGrant(s, act)], s.step + 1))
  {
    if a in s.actors && MayHaveSession(s.actors[a]) {
      CoreSteps(s, CreateSession(t, row, s.actors[a].user.passwordHash), {});
    }
    hide Exec, Apply, L.Accepts, SR.Next, SR.Enabled, CoreAfter, Takes, NewGrant;
  }

  lemma ChangeLaw(s: System, a: ActorId, h: Hash, ip: string, late: set<Secret>)
    ensures var act := ChangePassword(a, h, ip, late);
            && (Can(s, act) <==>
                  && a in s.actors && s.actors[a].Authenticated?
                  && s.actors[a].route == Route("POST", "/api/auth/change-password")
                  && s.actors[a].user.mustChangePassword && s.actors[a].user.ssoProvider == "local"
                  && Takes(s, CompletePasswordChange(s.actors[a].session.userId, s.actors[a].user.passwordHash, h, ip)))
            && (Can(s, act) ==>
                  var op := CompletePasswordChange(s.actors[a].session.userId, s.actors[a].user.passwordHash, h, ip);
                  Next(s, act) == s.(core := CoreAfter(s, op, late), actors := s.actors - {a}, step := s.step + 1))
  {
    if a in s.actors && s.actors[a].Authenticated? {
      CoreSteps(s, CompletePasswordChange(s.actors[a].session.userId, s.actors[a].user.passwordHash, h, ip), late);
    }
    hide Exec, Apply, L.Accepts, SR.Next, SR.Enabled, CoreAfter, Takes;
  }

  lemma PairConsumeLaw(s: System, a: ActorId, device: Device)
    ensures var act := PairConsume(a, device);
            && (Can(s, act) <==>
                  && a in s.actors && s.actors[a].PairVetted? && s.actors[a].secret in s.core.db.pairings
                  && var row := s.core.db.pairings[s.actors[a].secret];
                     row.status == "pending" && s.core.now < row.expiresAt)
            && (Can(s, act) ==>
                  var x := s.actors[a];
                  Next(s, act) ==
                  s.(core := CoreAfter(s, ConsumePairing(x.secret, device, s.core.now), {}), step := s.step + 1,
                     actors := s.actors[a := PairConsumed(x.secret, x.id, x.user, x.seen)]))
  {
    if a in s.actors && s.actors[a].PairVetted? {
      CoreSteps(s, ConsumePairing(s.actors[a].secret, device, s.core.now), {});
    }
    hide Exec, Apply, SR.Next, SR.Enabled, CoreAfter;
  }

  lemma ProfileWriteLaw(s: System, act: Action)
    requires act.ProfileWrite?
    ensures Can(s, act) <==>
            && act.a in s.actors && s.actors[act.a].ProfileLoaded?
            && Takes(s, UpdateUser(s.actors[act.a].id, Patched(s.actors[act.a].user, act)))
    ensures Can(s, act) ==>
              var x := s.actors[act.a];
              Next(s, act) ==
              s.(core := CoreAfter(s, UpdateUser(x.id, Patched(x.user, act)), {}), step := s.step + 1,
                 actors := s.actors[act.a := ProfileWritten(x.id)])
  {
    if act.a in s.actors && s.actors[act.a].ProfileLoaded? {
      CoreSteps(s, UpdateUser(s.actors[act.a].id, Patched(s.actors[act.a].user, act)), {});
    }
    hide Exec, Apply, L.Accepts, SR.Next, SR.Enabled, CoreAfter, Takes;
  }

  /** The row a profile update carries: the copy it read, with five columns from the request. */
  function Patched(u: User, act: Action): User
    requires act.ProfileWrite?
  {
    User(act.name, act.mail, act.shown, u.passwordHash, act.role, act.status, u.ssoProvider, u.ssoSubject,
         u.totpSecretEnc, u.totpEnabled, u.recoveryCodes, u.pushDeviceId, u.mustChangePassword, u.totpLastCounter)
  }

  lemma ProfileRevokeLaw(s: System, a: ActorId)
    ensures var act := ProfileRevoke(a);
            && (Can(s, act) <==> a in s.actors && s.actors[a].ProfileWritten?)
            && (Can(s, act) ==>
                  Next(s, act) == s.(core := CoreAfter(s, DeleteUserSessions(s.actors[a].id), {}),
                                     actors := s.actors - {a}, step := s.step + 1))
  {
    if a in s.actors && s.actors[a].ProfileWritten? {
      CoreSteps(s, DeleteUserSessions(s.actors[a].id), {});
    }
    hide Exec, Apply, SR.Next, SR.Enabled, CoreAfter;
  }

  /** Any other write, with new draws and the clock as it is, may happen at any point, whether the
      store accepts it or not; the clock may go on; and a handler may end. */
  lemma OthersMayStep(s: System, op: StoreOp, late: set<Secret>)
    requires op.CreateUser? || op.DeleteUser? || op.ResetAdminPassword? || op.DeleteSession? || op.DeleteUserSessions?
             || op.CleanExpiredSessions? || op.CreatePairing? || op.CleanExpiredPairings?
    ensures Can(s, Env(SR.Write(op, late))) <==>
            && (op.CreateUser? ==> op.id !in s.core.ids) && (op.ResetAdminPassword? ==> op.newHash !in s.core.hashes)
            && (op.CreatePairing? ==> op.secret !in s.core.secrets)
            && (op.CleanExpiredSessions? || op.CleanExpiredPairings? ==> op.now == s.core.now)
    ensures Can(s, Env(SR.Write(op, late))) ==>
              Next(s, Env(SR.Write(op, late))).core.db == Apply(s.core.db, op, late)
    ensures forall to :: Can(s, Env(SR.Tick(to))) <==> s.core.now <= to
    ensures forall a :: Can(s, Stop(a)) <==> a in s.actors
  {
    hide Exec, Apply;
  }

  // ----- for writing out single runs -----------------------------------------------------

  /** The tables, and what is drawn, after a step that writes. */
  function Written(s: System, db: Tables, tokens: set<Token>, hashes: set<Hash>): System {
    s.(core := s.core.(db := db, tokens := s.core.tokens + tokens, hashes := s.core.hashes + hashes),
       step := s.step + 1)
  }

  lemma OnlyLate(db: Tables, op: StoreOp)
    ensures Apply(db, op, {}) == Exec(db, op).0
  {
    hide NameTaken, CodeTaken, SessionsWithout, ChallengesWithout;
    assert Replaces(op) && Exec(db, op).1 == Ok ==> Apply(db, op, {}).pairings == Exec(db, op).0.pairings;
  }

  lemma ProfileWriteStep(s: System, act: Action, db: Tables)
    requires act.ProfileWrite? && act.a in s.actors && s.actors[act.a].ProfileLoaded?
    requires Exec(s.core.db, UpdateUser(s.actors[act.a].id, Edited(s.actors[act.a].user, act))) == (db, Ok)
    ensures Can(s, act)
    ensures var x := s.actors[act.a];
            Next(s, act) ==
            Written(s, db, {}, {x.user.passwordHash}).(actors := s.actors[act.a := ProfileWritten(x.id)])
  {
    OnlyLate(s.core.db, UpdateUser(s.actors[act.a].id, Edited(s.actors[act.a].user, act)));
    hide Exec, Apply;
  }

  lemma ResetStep(s: System, id: UserId, h: Hash, db: Tables)
    requires h !in s.core.hashes && Exec(s.core.db, ResetAdminPassword(id, h)) == (db, Ok)
    ensures var act := Env(SR.Write(ResetAdminPassword(id, h)));
            Can(s, act) && Next(s, act) == Written(s, db, {}, {h})
  {
    OnlyLate(s.core.db, ResetAdminPassword(id, h));
    hide Exec, Apply;
  }

  lemma ChangeStep(s: System, a: ActorId, h: Hash, ip: string, db: Tables)
    requires a in s.actors && s.actors[a].Authenticated? && s.actors[a].route == CHANGE_PASSWORD
    requires s.actors[a].user.mustChangePassword && s.actors[a].user.ssoProvider == LOCAL && h !in s.core.hashes
    requires var x := s.actors[a];
             Exec(s.core.db, CompletePasswordChange(x.session.userId, x.user.passwordHash, h, ip)) == (db, Ok)
    ensures var act := ChangePassword(a, h, ip, {});
            Can(s, act) && Next(s, act) == Written(s, db, {}, {h}).(actors := s.actors - {a})
  {
    var x := s.actors[a];
    OnlyLate(s.core.db, CompletePasswordChange(x.session.userId, x.user.passwordHash, h, ip));
    hide Exec, Apply;
  }

  lemma ChallengeStep(s: System, a: ActorId, t: Token, expiresAt: Time, db: Tables)
    requires a in s.actors && s.actors[a].LoginVerified? && s.actors[a].user.totpEnabled && t !in s.core.tokens
    requires var x := s.actors[a];
             Exec(s.core.db, CreateMfaChallenge(t, x.id, expiresAt, x.user.passwordHash)) == (db, Ok)
    ensures var act := LoginChallenge(a, t, expiresAt);
            && Can(s, act)
            && Next(s, act) == Written(s, db, {t}, {}).(actors := s.actors - {a},
                                                        grants := s.grants[t := NewGrant(s, act)])
  {
    var x := s.actors[a];
    OnlyLate(s.core.db, CreateMfaChallenge(t, x.id, expiresAt, x.user.passwordHash));
    hide Exec, Apply, NewGrant;
  }

  lemma IssueStep(s: System, a: ActorId, t: Token, row: Session, db: Tables)
    requires a in s.actors && ReadyToIssue(s.actors[a]) && row.userId == s.actors[a].id && t !in s.core.tokens
    requires Exec(s.core.db, CreateSession(t, row, s.actors[a].user.passwordHash)) == (db, Ok)
    ensures var act := IssueSession(a, t, row);
            && Can(s, act)
            && Next(s, act) == Written(s, db, {t}, {}).(actors := s.actors - {a},
                                                        grants := s.grants[t := NewGrant(s, act)])
  {
    OnlyLate(s.core.db, CreateSession(t, row, s.actors[a].user.passwordHash));
    hide Exec, Apply, NewGrant;
  }

  lemma MfaDeleteStep(s: System, a: ActorId, db: Tables)
    requires a in s.actors && s.actors[a].MfaSelected? && s.actors[a].challenge in s.grants
    requires Exec(s.core.db, DeleteMfaChallenge(s.actors[a].challenge)) == (db, Ok)
    ensures var act, x := MfaDelete(a), s.actors[a];
            && Can(s, act)
            && Next(s, act) == Written(s, db, {}, {}).(actors := s.actors[a :=
                 MfaConsumed(x.challenge, x.row.userId, x.row.passwordHash, s.grants[x.challenge].seen)])
  {
    OnlyLate(s.core.db, DeleteMfaChallenge(s.actors[a].challenge));
    hide Exec, Apply;
  }

  lemma MfaRecoveryStep(s: System, a: ActorId, slot: nat, digest: string, db: Tables)
    requires a in s.actors && s.actors[a].MfaEligible? && Matches(s.actors[a].user.recoveryCodes, slot, digest)
    requires var codes := s.actors[a].user.recoveryCodes;
             Exec(s.core.db, UpdateRecoveryCodes(s.actors[a].id, codes, Codes(Blank(codes.digests, slot)))) == (db, Ok)
    ensures var act, x := MfaRecovery(a, slot, digest), s.actors[a];
            && Can(s, act)
            && Next(s, act) == Written(s, db, {}, {}).(actors := s.actors[a :=
                 MfaProved(x.challenge, CodeTicket(x.id, slot), x.id, x.user, x.login)])
  {
    var codes := s.actors[a].user.recoveryCodes;
    OnlyLate(s.core.db, UpdateRecoveryCodes(s.actors[a].id, codes, Codes(Blank(codes.digests, slot))));
    hide Exec, Apply;
  }
}
