/** What every interleaving of the handlers keeps about credentials. */
module Credentials {
  import opened Store
  import SR = StoreRuns
  import opened Handlers

  // ----- what the handlers know is true --------------------------------------------------

  /** In state `seen`, at or before `k`, user `id` held hash `h`. */
  ghost predicate Saw(tr: seq<System>, k: nat, id: UserId, h: Hash, seen: nat)
    requires k < |tr|
  {
    seen <= k && id in tr[seen].core.db.users && tr[seen].core.db.users[id].passwordHash == h
  }

  /** In state `seen` the row of `id` was exactly `u`. */
  ghost predicate Read(tr: seq<System>, k: nat, id: UserId, u: User, seen: nat)
    requires k < |tr|
  {
    seen <= k && id in tr[seen].core.db.users && tr[seen].core.db.users[id] == u
  }

  ghost predicate SessionAt(tr: seq<System>, k: nat, t: Token, row: Session, at: nat)
    requires k < |tr|
  {
    at <= k && t in tr[at].core.db.sessions && tr[at].core.db.sessions[t] == row && tr[at].core.now <= row.expiresAt
  }

  ghost predicate ActorSound(tr: seq<System>, k: nat, x: Actor)
    requires k < |tr|
  {
    match x
    case LoginVerified(id, u, seen) => Read(tr, k, id, u, seen) && u.status == ACTIVE
    case SsoIdentified(id, u, seen) => Read(tr, k, id, u, seen)
    case MfaSelected(t, row) =>
      t in tr[k].grants && tr[k].grants[t].id == row.userId && tr[k].grants[t].hash == row.passwordHash
    case MfaConsumed(_, id, h, login) => Saw(tr, k, id, h, login)
    case MfaEligible(_, id, u, login) => Saw(tr, k, id, u.passwordHash, login)
    case MfaProved(_, proof, id, u, login) => Saw(tr, k, id, u.passwordHash, login) && !proof.PairingTicket?
    case AuthFound(t, _, row, start) => SessionAt(tr, k, t, row, start)
    case AuthLoaded(t, _, row, u, start, seen) =>
      SessionAt(tr, k, t, row, start) && start <= seen && Read(tr, k, row.userId, u, seen) && u.status == ACTIVE
    case Authenticated(t, route, row, u, start, seen) =>
      && start <= seen && SessionAt(tr, k, t, row, seen) && Read(tr, k, row.userId, u, seen)
      && u.status == ACTIVE && (u.mustChangePassword ==> OpenWhileRestricted(route))
    case PairVetted(_, id, u, seen) => Read(tr, k, id, u, seen) && !u.mustChangePassword && u.status == ACTIVE
    case ProfileLoaded(id, u, seen) => Read(tr, k, id, u, seen)
    case PairConsumed(_, id, u, seen) => Read(tr, k, id, u, seen) && !u.mustChangePassword
    case _ => true
  }

  ghost predicate FromPairing(g: Grant) {
    exists s :: PairingTicket(s) in g.tickets
  }

  /** A grant rests on a credential check of the same user and hash, and was inserted in a
      state where that user was active and still held that hash. */
  ghost predicate GrantSound(tr: seq<System>, k: nat, g: Grant)
    requires k < |tr|
  {
    && g.seen <= g.at <= k
    && Saw(tr, k, g.id, g.hash, g.seen)
    && PasswordHolds(tr[g.at].core.db, g.id, g.hash)
    && tr[g.at].core.db.users[g.id].mustChangePassword == g.flagged
    && (FromPairing(g) ==> !tr[g.seen].core.db.users[g.id].mustChangePassword)
  }

  ghost predicate RowsGranted(s: System) {
    && (forall t :: t in s.grants ==> t in s.core.tokens)
    && (forall t :: t in s.core.db.sessions ==> t in s.grants && s.grants[t].id == s.core.db.sessions[t].userId)
    && (forall t :: t in s.core.db.challenges ==>
          && t in s.grants && s.grants[t].id == s.core.db.challenges[t].userId
          && s.grants[t].hash == s.core.db.challenges[t].passwordHash)
  }

  ghost predicate Sound(tr: seq<System>, k: nat)
    requires k < |tr|
  {
    && RowsGranted(tr[k])
    && (forall a :: a in tr[k].actors ==> ActorSound(tr, k, tr[k].actors[a]))
    && (forall t :: t in tr[k].grants ==> GrantSound(tr, k, tr[k].grants[t]))
  }

  // ----- one step ------------------------------------------------------------------------

  /** A handler left alone stays right. */
  lemma StaysSound(tr: seq<System>, k: nat, x: Actor)
    requires k + 1 < |tr| && ActorSound(tr, k, x)
    requires forall t :: t in tr[k].grants ==> t in tr[k + 1].grants && tr[k + 1].grants[t] == tr[k].grants[t]
    ensures ActorSound(tr, k + 1, x)
  {
  }

  /** The recheck of AuthenticateRequest: a session found before the user was read and again
      after it was there, unexpired, when the user was read. */
  lemma RecheckCoversUserRead(tr: seq<System>, acts: seq<Action>, k: nat)
    requires Run(tr, acts) && k < |acts| && acts[k].AuthRecheck?
    requires ActorSound(tr, k, tr[k].actors[acts[k].a])
    ensures var x := tr[k].actors[acts[k].a];
            SessionAt(tr, k, x.token, x.session, x.seen)
  {
    hide SR.Chain, SR.Run, Exec, SR.Next, Handlers.Next;
    var x := tr[k].actors[acts[k].a];
    var cs := Cores(tr);
    StorePart(tr, acts);
    SR.RunIsChain(cs, Events(tr, acts));
    SR.SessionUnbroken(cs, x.start, x.seen, k, x.token);
    SR.UsedOnlyGrows(cs, x.seen, k);
  }

  /** A handler that begins knows only true things, judged where it read them. */
  lemma BeginSound(tr: seq<System>, k: nat, act: Action)
    requires k < |tr| && tr[k].step == k && RowsGranted(tr[k])
    requires Ready(tr[k], act) && Begins(act)
    ensures ActorSound(tr, k, After(tr[k], act).value)
  {
  }

  /** A handler that goes on knows only true things, judged where it read them. */
  lemma ContinueSound(tr: seq<System>, k: nat, act: Action)
    requires k < |tr| && tr[k].step == k
    requires Ready(tr[k], act) && !act.Env? && !Begins(act) && After(tr[k], act).Some?
    requires ActorSound(tr, k, tr[k].actors[act.a])
    requires act.AuthRecheck? ==>
               var x := tr[k].actors[act.a]; SessionAt(tr, k, x.token, x.session, x.seen)
    requires act.MfaDelete? ==>
               var t := tr[k].actors[act.a].challenge; GrantSound(tr, k, tr[k].grants[t])
    ensures ActorSound(tr, k, After(tr[k], act).value)
  {
    hide PasswordHolds, HandlerOnly, Held, Edited, OpenWhileRestricted;
  }

  /** A grant is inserted only past the locking update of `withPassword`. */
  lemma InsertIsGuarded(s: System, act: Action)
    requires Can(s, act) && (act.IssueSession? || act.LoginChallenge?)
    ensures PasswordHolds(s.core.db, s.actors[act.a].id, s.actors[act.a].user.passwordHash)
  {
  }

  lemma NewGrantSound(tr: seq<System>, k: nat, act: Action)
    requires k + 1 < |tr| && tr[k].step == k
    requires Can(tr[k], act) && (act.IssueSession? || act.LoginChallenge?)
    requires ActorSound(tr, k, tr[k].actors[act.a])
    ensures GrantSound(tr, k + 1, NewGrant(tr[k], act))
  {
    InsertIsGuarded(tr[k], act);
    hide Exec, SR.Enabled, SR.Next, HandlerOnly;
  }

  lemma NewRowIsOurs(s: System, act: Action, t: Token)
    requires Can(s, act) && SR.Recorded(s.core) && t !in s.core.tokens
    ensures t in Next(s, act).core.db.sessions ==>
              act.IssueSession? && act.token == t && Next(s, act).core.db.sessions[t] == act.session
    ensures t in Next(s, act).core.db.challenges ==>
              && act.LoginChallenge? && act.token == t
              && var row := Next(s, act).core.db.challenges[t];
                 row.userId == s.actors[act.a].id && row.passwordHash == s.actors[act.a].user.passwordHash
  {
    var e := EventOf(s, act);
    WriterOf(s, act);
    hide Exec, Apply, SR.Recorded, SR.Next, SR.Enabled, Ready, EventOf, After, HandlerOnly;
    if t in Next(s, act).core.db.sessions {
      SR.StepSession(s.core, e, t);
    }
    if t in Next(s, act).core.db.challenges {
      SR.StepChallenge(s.core, e, t);
    }
  }

  /** Which step makes which write. */
  lemma WriterOf(s: System, act: Action)
    requires Ready(s, act)
    ensures var e := EventOf(s, act);
            e.Write? ==>
              && (e.op.CreateSession? ==> act.IssueSession? && e.op.token == act.token && e.op.session == act.session)
              && (e.op.CreateMfaChallenge? ==>
                    && act.LoginChallenge? && e.op.token == act.token && e.op.userId == s.actors[act.a].id
                    && e.op.expectedHash == s.actors[act.a].user.passwordHash)
              && (e.op.UpdateUser? ==>
                    && act.ProfileWrite? && s.actors[act.a].ProfileLoaded? && e.op.id == s.actors[act.a].id
                    && SR.SameCredentials(e.op.copy, s.actors[act.a].user)
                    && e.op.copy.recoveryCodes == s.actors[act.a].user.recoveryCodes)
              && (e.op.UpdateRecoveryCodes? ==>
                    && act.MfaRecovery? && s.actors[act.a].MfaEligible? && e.op.id == s.actors[act.a].id
                    && Matches(e.op.oldCodes, act.slot, act.digest)
                    && e.op.newCodes == Codes(Blank(e.op.oldCodes.digests, act.slot)))
  {
    hide Exec, SR.Next, SR.Enabled, OpenWhileRestricted;
  }

  lemma StepGrows(s: System, act: Action)
    requires Can(s, act) && RowsGranted(s)
    ensures forall t :: t in s.grants ==> t in Next(s, act).grants && Next(s, act).grants[t] == s.grants[t]
    ensures forall t :: t in Next(s, act).grants ==> t in Next(s, act).core.tokens
  {
    hide Exec, NewGrant, After, HandlerOnly;
  }

  lemma SessionStepGranted(s: System, act: Action, t: Token)
    requires Can(s, act) && SR.Recorded(s.core) && RowsGranted(s) && t in Next(s, act).core.db.sessions
    ensures t in Next(s, act).grants && Next(s, act).grants[t].id == Next(s, act).core.db.sessions[t].userId
  {
    var e := EventOf(s, act);
    SR.StepSessions(s.core, e);
    StepGrows(s, act);
    assert act.IssueSession? ==> act.session.userId == s.actors[act.a].id;
    hide Exec, SR.Recorded, SR.Next, SR.Enabled, SR.UsedGrows, Ready, EventOf, After, Held;
    if t !in s.core.tokens {
      NewRowIsOurs(s, act, t);
    }
  }

  lemma ChallengeStepGranted(s: System, act: Action, t: Token)
    requires Can(s, act) && SR.Recorded(s.core) && RowsGranted(s) && t in Next(s, act).core.db.challenges
    ensures t in Next(s, act).grants && Next(s, act).grants[t].id == Next(s, act).core.db.challenges[t].userId
    ensures Next(s, act).grants[t].hash == Next(s, act).core.db.challenges[t].passwordHash
  {
    var e := EventOf(s, act);
    SR.StepChallenges(s.core, e);
    StepGrows(s, act);
    hide Exec, SR.Recorded, SR.Next, SR.Enabled, SR.PairingsFollow, Ready, EventOf, After, Held;
    if t !in s.core.tokens {
      NewRowIsOurs(s, act, t);
    }
  }

  lemma StepRowsGranted(s: System, act: Action)
    requires Can(s, act) && SR.Recorded(s.core) && RowsGranted(s)
    ensures RowsGranted(Next(s, act))
    ensures forall t :: t in s.grants ==> t in Next(s, act).grants && Next(s, act).grants[t] == s.grants[t]
  {
    var d := Next(s, act);
    StepGrows(s, act);
    hide Next, SR.Recorded, Can;
    forall t | t in d.core.db.sessions
      ensures t in d.grants && d.grants[t].id == d.core.db.sessions[t].userId
    {
      SessionStepGranted(s, act, t);
    }
    forall t | t in d.core.db.challenges
      ensures t in d.grants && d.grants[t].id == d.core.db.challenges[t].userId
      ensures d.grants[t].hash == d.core.db.challenges[t].passwordHash
    {
      ChallengeStepGranted(s, act, t);
    }
  }

  // ----- whole runs ------------------------------------------------------------------------

  lemma StepActorsSound(tr: seq<System>, acts: seq<Action>, k: nat, a: ActorId)
    requires Run(tr, acts) && k < |acts| && tr[k].step == k && Sound(tr, k)
    requires forall t :: t in tr[k].grants ==> t in tr[k + 1].grants && tr[k + 1].grants[t] == tr[k].grants[t]
    requires a in tr[k + 1].actors
    ensures ActorSound(tr, k + 1, tr[k + 1].actors[a])
  {
    hide Exec, SR.Next, SR.Enabled, SR.Start, Ready, EventOf, After, ActorSound, GrantSound, RowsGranted;
    var act := acts[k];
    assert Can(tr[k], act) && tr[k + 1] == Next(tr[k], act);
    NextActor(tr[k], act, a);
    if !act.Env? && a == act.a {
      MovingActorSound(tr, acts, k);
    }
    hide Run, Next, Can;
    StaysSound(tr, k, tr[k + 1].actors[a]);
  }

  /** Only the handler that takes the step changes. */
  lemma NextActor(s: System, act: Action, a: ActorId)
    requires Can(s, act) && a in Next(s, act).actors
    ensures if !act.Env? && a == act.a then After(s, act).Some? && Next(s, act).actors[a] == After(s, act).value
            else a in s.actors && Next(s, act).actors[a] == s.actors[a]
  {
    hide Exec, SR.Next, SR.Enabled, Ready, EventOf, After;
  }

  /** The handler that takes the step knows only true things, judged where it read them. */
  lemma MovingActorSound(tr: seq<System>, acts: seq<Action>, k: nat)
    requires Run(tr, acts) && k < |acts| && tr[k].step == k && Sound(tr, k)
    requires Can(tr[k], acts[k]) && !acts[k].Env? && After(tr[k], acts[k]).Some?
    ensures ActorSound(tr, k, After(tr[k], acts[k]).value)
  {
    hide Exec, SR.Next, SR.Enabled, SR.Start, Ready, EventOf, After, ActorSound, GrantSound, RowsGranted;
    var act := acts[k];
    if Begins(act) {
      BeginSound(tr, k, act);
    } else {
      ActorIsThere(tr[k], act);
      if act.AuthRecheck? {
        RecheckCoversUserRead(tr, acts, k);
      }
      if act.MfaDelete? {
        ChallengeIsGranted(tr, acts, k);
      }
      hide Run;
      ContinueSound(tr, k, act);
    }
  }

  lemma ActorIsThere(s: System, act: Action)
    requires Ready(s, act) && !act.Env? && !Begins(act)
    ensures act.a in s.actors && (act.MfaDelete? ==> s.actors[act.a].MfaSelected?)
    ensures act.AuthRecheck? ==> s.actors[act.a].AuthLoaded?
  {
  }

  lemma ChallengeIsGranted(tr: seq<System>, acts: seq<Action>, k: nat)
    requires k < |tr| && k < |acts| && Sound(tr, k) && Ready(tr[k], acts[k]) && acts[k].MfaDelete?
    ensures acts[k].a in tr[k].actors && tr[k].actors[acts[k].a].MfaSelected?
    ensures var t := tr[k].actors[acts[k].a].challenge; t in tr[k].grants && GrantSound(tr, k, tr[k].grants[t])
  {
    hide RowsGranted, GrantSound;
    assert ActorSound(tr, k, tr[k].actors[acts[k].a]);
  }

  /** In every run, whatever every handler has read was so when it read it, and every grant
      in the history was inserted under the hash its credential check was made against. */
  lemma {:induction false} AlwaysSound(tr: seq<System>, acts: seq<Action>, k: nat)
    requires Run(tr, acts) && k < |tr|
    ensures Sound(tr, k) && SR.Recorded(tr[k].core)
  {
    hide Exec, SR.Next, SR.Enabled, Ready, EventOf, After, ActorSound, GrantSound;
    if k > 0 {
      var act := acts[k - 1];
      AlwaysSound(tr, acts, k - 1);
      StepIsIndex(tr, acts, k - 1);
      assert Can(tr[k - 1], act) && tr[k] == Next(tr[k - 1], act);
      StepRowsGranted(tr[k - 1], act);
      SR.StepKeepsRecorded(tr[k - 1].core, EventOf(tr[k - 1], act));
      forall a | a in tr[k].actors
        ensures ActorSound(tr, k, tr[k].actors[a])
      {
        StepActorsSound(tr, acts, k - 1, a);
      }
      forall t | t in tr[k].grants
        ensures GrantSound(tr, k, tr[k].grants[t])
      {
        GrantStepSound(tr, acts, k - 1, t);
      }
    }
  }

  lemma GrantStepSound(tr: seq<System>, acts: seq<Action>, k: nat, t: Token)
    requires Run(tr, acts) && k < |acts| && tr[k].step == k && Sound(tr, k)
    requires t in tr[k + 1].grants
    ensures GrantSound(tr, k + 1, tr[k + 1].grants[t])
  {
    var act := acts[k];
    assert Can(tr[k], act) && tr[k + 1] == Next(tr[k], act);
    if (act.IssueSession? || act.LoginChallenge?) && act.token == t {
      NewGrantSound(tr, k, act);
    } else {
      assert GrantSound(tr, k, tr[k].grants[t]);
    }
  }

  lemma KnownActor(tr: seq<System>, acts: seq<Action>, k: nat, a: ActorId)
    requires Run(tr, acts) && k < |tr| && a in tr[k].actors
    ensures ActorSound(tr, k, tr[k].actors[a])
  {
    hide Run, ActorSound, GrantSound, RowsGranted, SR.Recorded;
    AlwaysSound(tr, acts, k);
  }

  lemma KnownGrant(tr: seq<System>, acts: seq<Action>, k: nat, t: Token)
    requires Run(tr, acts) && k < |tr| && t in tr[k].grants
    ensures GrantSound(tr, k, tr[k].grants[t])
  {
    hide Run, ActorSound, GrantSound, RowsGranted, SR.Recorded;
    AlwaysSound(tr, acts, k);
  }

  lemma KnownUser(tr: seq<System>, acts: seq<Action>, k: nat, id: UserId)
    requires Run(tr, acts) && k < |tr| && id in tr[k].core.db.users
    ensures id in tr[k].core.ids && tr[k].core.db.users[id].passwordHash in tr[k].core.hashes
  {
    hide Run, ActorSound, GrantSound, RowsGranted, Sound;
    AlwaysSound(tr, acts, k);
  }
}
