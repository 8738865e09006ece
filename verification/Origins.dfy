/** Where sessions come from: each one leads back to the step that checked its user, and an
    MFA one to the very challenge that the password login behind it created. */
module Origins {
  import opened Store
  import SR = StoreRuns
  import opened Handlers
  import opened Credentials
  import opened OneTimeUse
  import opened Redemptions

  /** Step `n` read user `id` for a login and verified its password. */
  predicate LoginAt(acts: seq<Action>, n: nat, id: UserId) {
    n < |acts| && acts[n].LoginRead? && acts[n].id == id
  }

  predicate SsoAt(acts: seq<Action>, n: nat, id: UserId) {
    n < |acts| && acts[n].SsoRead? && acts[n].id == id
  }

  /** Step `n` vetted `id` as the user of the pairing under `secret`. */
  predicate VetAt(tr: seq<System>, acts: seq<Action>, n: nat, id: UserId, secret: Secret) {
    && n < |acts| && n < |tr| && acts[n].PairVet? && acts[n].a in tr[n].actors
    && var x := tr[n].actors[acts[n].a];
       x.PairFound? && x.secret == secret && x.pairing.userId == id
  }

  /** The row of `id` in state `n`. */
  predicate RowAt(tr: seq<System>, n: nat, id: UserId, u: User) {
    n < |tr| && id in tr[n].core.db.users && tr[n].core.db.users[id] == u
  }

  predicate InsertedAt(acts: seq<Action>, g: Grant, t: Token) {
    g.at < |acts| && (acts[g.at].IssueSession? || acts[g.at].LoginChallenge?) && acts[g.at].token == t
  }

  /** Challenge `c` was created for `id`, under hash `h`, by the login whose read was step `login`. */
  predicate ChallengeOrigin(acts: seq<Action>, s: System, c: Token, id: UserId, h: Hash, login: nat) {
    && c in s.grants
    && s.grants[c].id == id && s.grants[c].hash == h && s.grants[c].seen == login && LoginAt(acts, login, id)
    && InsertedAt(acts, s.grants[c], c) && acts[s.grants[c].at].LoginChallenge?
  }

  ghost predicate FromMfa(g: Grant) {
    exists c :: ChallengeTicket(c) in g.tickets
  }

  predicate SecondFactor(x: Ticket, id: UserId) {
    (x.TotpTicket? || x.CodeTicket?) && x.id == id
  }

  /** By state `k` the user was read active, with a second factor enabled and under hash `h`. */
  ghost predicate ReadForMfa(tr: seq<System>, k: nat, id: UserId, h: Hash) {
    exists n, u ::
      0 <= n <= k && RowAt(tr, n, id, u) && u.status == ACTIVE && u.totpEnabled && u.passwordHash == h
  }

  /** The step a handler's credential check was made in. */
  ghost predicate ActorOrigin(tr: seq<System>, acts: seq<Action>, s: System, x: Actor) {
    match x
    case LoginVerified(id, u, seen) => LoginAt(acts, seen, id) && RowAt(tr, seen, id, u)
    case SsoIdentified(id, _, seen) => SsoAt(acts, seen, id)
    case MfaSelected(t, row) =>
      t in s.grants && ChallengeOrigin(acts, s, t, row.userId, row.passwordHash, s.grants[t].seen)
    case MfaConsumed(c, id, h, login) => ChallengeOrigin(acts, s, c, id, h, login)
    case MfaEligible(c, id, u, login) =>
      ChallengeOrigin(acts, s, c, id, u.passwordHash, login) && ReadForMfa(tr, s.step, id, u.passwordHash)
    case MfaProved(c, proof, id, u, login) =>
      && ChallengeOrigin(acts, s, c, id, u.passwordHash, login) && SecondFactor(proof, id)
      && ReadForMfa(tr, s.step, id, u.passwordHash)
    case PairVetted(secret, id, _, seen) => VetAt(tr, acts, seen, id, secret)
    case PairConsumed(secret, id, _, seen) => VetAt(tr, acts, seen, id, secret)
    case _ => true
  }

  /** What a granted token rests on.  One that cost a challenge rests on the login that created
      that challenge, for the same user and hash, on a read of the user as active with a second
      factor enabled under that hash, and cost a second factor of that user.  One
      that cost a pairing rests on the check of that pairing's user.  Any other rests on an SSO
      identification, or on a password login; and then a session was issued only because the
      account had no second factor when it was read. */
  ghost predicate GrantOrigin(tr: seq<System>, acts: seq<Action>, s: System, t: Token, g: Grant) {
    && InsertedAt(acts, g, t)
    && if FromMfa(g) then
         && (forall c :: ChallengeTicket(c) in g.tickets ==> ChallengeOrigin(acts, s, c, g.id, g.hash, g.seen))
         && (exists x :: x in g.tickets && SecondFactor(x, g.id)) && ReadForMfa(tr, g.at, g.id, g.hash)
         && !FromPairing(g)
       else if FromPairing(g) then
         forall p :: PairingTicket(p) in g.tickets ==> VetAt(tr, acts, g.seen, g.id, p)
       else
         || SsoAt(acts, g.seen, g.id)
         || (&& LoginAt(acts, g.seen, g.id)
             && (acts[g.at].IssueSession? ==> exists u :: RowAt(tr, g.seen, g.id, u) && !u.totpEnabled))
  }

  ghost predicate ChallengesFromLogin(acts: seq<Action>, s: System) {
    forall t :: t in s.core.db.challenges ==>
      var row := s.core.db.challenges[t];
      t in s.grants && ChallengeOrigin(acts, s, t, row.userId, row.passwordHash, s.grants[t].seen)
  }

  ghost predicate SessionsIssued(acts: seq<Action>, s: System) {
    forall t :: t in s.core.db.sessions ==>
      t in s.grants && InsertedAt(acts, s.grants[t], t) && acts[s.grants[t].at].IssueSession?
  }

  ghost predicate Traced(tr: seq<System>, acts: seq<Action>, s: System) {
    && ChallengesFromLogin(acts, s) && SessionsIssued(acts, s)
    && (forall a :: a in s.actors ==> ActorOrigin(tr, acts, s, s.actors[a]))
    && (forall t :: t in s.grants ==> GrantOrigin(tr, acts, s, t, s.grants[t]))
  }

  // ----- one step ------------------------------------------------------------------------

  /** The step the run takes in state `s`. */
  ghost predicate Taken(tr: seq<System>, acts: seq<Action>, s: System, act: Action) {
    s.step < |acts| && acts[s.step] == act && s.step < |tr| && tr[s.step] == s
  }

  lemma AfterTraced(tr: seq<System>, acts: seq<Action>, s: System, act: Action)
    requires Taken(tr, acts, s, act) && Ready(s, act) && !act.Env? && After(s, act).Some?
    requires ChallengesFromLogin(acts, s)
    requires Begins(act) || ActorOrigin(tr, acts, s, s.actors[act.a])
    ensures ActorOrigin(tr, acts, s, After(s, act).value)
  {
    hide PasswordHolds, HandlerOnly, OpenWhileRestricted, Matches, Edited, InsertedAt, LoginAt, ReadForMfa;
    if act.LoginRead? {
      LoginHere(acts, s, act);
    } else if act.MfaRead? {
      ReadHere(tr, acts, s, act);
    }
  }

  lemma ReadHere(tr: seq<System>, acts: seq<Action>, s: System, act: Action)
    requires Taken(tr, acts, s, act) && Ready(s, act) && act.MfaRead?
    ensures ReadForMfa(tr, s.step, s.actors[act.a].id, s.actors[act.a].verified)
    ensures s.core.db.users[s.actors[act.a].id].passwordHash == s.actors[act.a].verified
  {
    var id := s.actors[act.a].id;
    assert RowAt(tr, s.step, id, s.core.db.users[id]);
  }

  lemma LoginHere(acts: seq<Action>, s: System, act: Action)
    requires s.step < |acts| && acts[s.step] == act && act.LoginRead?
    ensures LoginAt(acts, s.step, act.id)
  {
  }

  lemma NewGrantTraced(tr: seq<System>, acts: seq<Action>, s: System, act: Action)
    requires Taken(tr, acts, s, act) && Can(s, act) && (act.IssueSession? || act.LoginChallenge?)
    requires ActorOrigin(tr, acts, s, s.actors[act.a])
    ensures GrantOrigin(tr, acts, s, act.token, NewGrant(s, act))
    ensures act.LoginChallenge? ==>
              var g := NewGrant(s, act);
              LoginAt(acts, g.seen, g.id) && InsertedAt(acts, g, act.token) && acts[g.at].LoginChallenge?
  {
    hide Exec, SR.Next, SR.Enabled, PasswordHolds, HandlerOnly, Matches, OpenWhileRestricted, ChallengeOrigin,
         ReadForMfa;
    var x, g := s.actors[act.a], NewGrant(s, act);
    if x.MfaProved? {
      assert ChallengeTicket(x.challenge) in g.tickets && x.proof in g.tickets;
    } else if x.PairConsumed? {
      assert PairingTicket(x.secret) in g.tickets;
    } else if x.LoginVerified? {
      assert RowAt(tr, g.seen, g.id, x.user);
    }
  }

  ghost predicate Grows(s: System, d: System) {
    forall t :: t in s.grants ==> t in d.grants && d.grants[t] == s.grants[t]
  }

  lemma OriginStays(tr: seq<System>, acts: seq<Action>, s: System, d: System, x: Actor)
    requires ActorOrigin(tr, acts, s, x) && Grows(s, d) && s.step <= d.step
    ensures ActorOrigin(tr, acts, d, x)
  {
    hide VetAt, RowAt, LoginAt, InsertedAt;
  }

  lemma GrantOriginStays(tr: seq<System>, acts: seq<Action>, s: System, d: System, t: Token, g: Grant)
    requires GrantOrigin(tr, acts, s, t, g) && Grows(s, d)
    ensures GrantOrigin(tr, acts, d, t, g)
  {
    hide VetAt, RowAt, LoginAt, InsertedAt, SecondFactor, ReadForMfa;
  }

  lemma ChallengeRowTraced(tr: seq<System>, acts: seq<Action>, s: System, act: Action, t: Token)
    requires Taken(tr, acts, s, act) && Can(s, act) && SR.Recorded(s.core) && RowsGranted(s)
    requires Traced(tr, acts, s) && t in Next(s, act).core.db.challenges
    ensures var d := Next(s, act);
            var row := d.core.db.challenges[t];
            t in d.grants && ChallengeOrigin(acts, d, t, row.userId, row.passwordHash, d.grants[t].seen)
  {
    var e := EventOf(s, act);
    NextCore(s, act);
    ChallengeStepGranted(s, act, t);
    StepGrows(s, act);
    NextGrants(s, act);
    hide Exec, Apply, SR.Next, SR.Enabled, SR.Recorded, Ready, EventOf, Next, NewGrant, GrantOrigin, ActorOrigin,
         SessionsIssued, LoginAt, InsertedAt;
    SR.StepChallenge(s.core, e, t);
    if t !in s.core.tokens {
      NewRowIsOurs(s, act, t);
      NewGrantTraced(tr, acts, s, act);
    }
  }

  lemma NextGrants(s: System, act: Action)
    requires Can(s, act)
    ensures Next(s, act).grants ==
            if act.IssueSession? || act.LoginChallenge? then s.grants[act.token := NewGrant(s, act)] else s.grants
    ensures act.IssueSession? || act.LoginChallenge? ==> act.a in s.actors
  {
    hide Exec, Apply, SR.Next, SR.Enabled, EventOf, After, NewGrant;
  }

  lemma SessionRowTraced(tr: seq<System>, acts: seq<Action>, s: System, act: Action, t: Token)
    requires Taken(tr, acts, s, act) && Can(s, act) && SR.Recorded(s.core) && RowsGranted(s)
    requires Traced(tr, acts, s) && t in Next(s, act).core.db.sessions
    ensures var d := Next(s, act);
            t in d.grants && InsertedAt(acts, d.grants[t], t) && acts[d.grants[t].at].IssueSession?
  {
    var e := EventOf(s, act);
    NextCore(s, act);
    SessionStepGranted(s, act, t);
    StepGrows(s, act);
    NextGrants(s, act);
    hide Exec, Apply, SR.Next, SR.Enabled, SR.Recorded, Ready, EventOf, Next, GrantOrigin, ActorOrigin,
         ChallengesFromLogin;
    SR.StepSession(s.core, e, t);
    if t !in s.core.tokens {
      NewRowIsOurs(s, act, t);
    }
  }

  lemma StepActorTraced(tr: seq<System>, acts: seq<Action>, s: System, act: Action, a: ActorId)
    requires Taken(tr, acts, s, act) && Can(s, act) && Traced(tr, acts, s)
    requires a in Next(s, act).actors
    ensures ActorOrigin(tr, acts, s, Next(s, act).actors[a])
  {
    hide Exec, Apply, SR.Next, SR.Enabled, EventOf, After, GrantOrigin, NewGrant, ChallengesFromLogin, ActorOrigin,
         SessionsIssued;
    if !act.Env? && a == act.a && After(s, act).Some? {
      AfterTraced(tr, acts, s, act);
    }
  }

  lemma StepGrantTraced(tr: seq<System>, acts: seq<Action>, s: System, act: Action, t: Token)
    requires Taken(tr, acts, s, act) && Can(s, act) && Traced(tr, acts, s) && t in Next(s, act).grants
    ensures GrantOrigin(tr, acts, s, t, Next(s, act).grants[t])
  {
    NextGrants(s, act);
    hide Exec, Apply, SR.Next, SR.Enabled, Ready, EventOf, Next, GrantOrigin, NewGrant, ChallengesFromLogin,
         ActorOrigin, SessionsIssued;
    if (act.IssueSession? || act.LoginChallenge?) && act.token == t {
      NewGrantTraced(tr, acts, s, act);
    }
  }

  lemma StepTraced(tr: seq<System>, acts: seq<Action>, s: System, act: Action)
    requires Taken(tr, acts, s, act) && Can(s, act)
    requires SR.Recorded(s.core) && RowsGranted(s) && Traced(tr, acts, s)
    ensures Traced(tr, acts, Next(s, act))
  {
    var d := Next(s, act);
    hide Exec, SR.Next, SR.Enabled, SR.Recorded, RowsGranted, Ready, EventOf, Next, GrantOrigin, ActorOrigin, Taken,
         Traced, ChallengesFromLogin, SessionsIssued, Grows;
    GrantsGrow(s, act);
    RowsTraced(tr, acts, s, act);
    forall a | a in d.actors ensures ActorOrigin(tr, acts, d, d.actors[a]) {
      StepActorTraced(tr, acts, s, act, a);
      OriginStays(tr, acts, s, d, d.actors[a]);
    }
    forall t | t in d.grants ensures GrantOrigin(tr, acts, d, t, d.grants[t]) {
      StepGrantTraced(tr, acts, s, act, t);
      GrantOriginStays(tr, acts, s, d, t, d.grants[t]);
    }
    IsTraced(tr, acts, d);
  }

  lemma RowsTraced(tr: seq<System>, acts: seq<Action>, s: System, act: Action)
    requires Taken(tr, acts, s, act) && Can(s, act)
    requires SR.Recorded(s.core) && RowsGranted(s) && Traced(tr, acts, s)
    ensures ChallengesFromLogin(acts, Next(s, act)) && SessionsIssued(acts, Next(s, act))
  {
    var d := Next(s, act);
    hide Can, SR.Recorded, RowsGranted, Next, Taken, Traced, InsertedAt, ChallengeOrigin;
    forall t | t in d.core.db.challenges
      ensures var row := d.core.db.challenges[t];
              t in d.grants && ChallengeOrigin(acts, d, t, row.userId, row.passwordHash, d.grants[t].seen)
    {
      ChallengeRowTraced(tr, acts, s, act, t);
    }
    forall t | t in d.core.db.sessions
      ensures t in d.grants && InsertedAt(acts, d.grants[t], t) && acts[d.grants[t].at].IssueSession?
    {
      SessionRowTraced(tr, acts, s, act, t);
    }
  }

  lemma GrantsGrow(s: System, act: Action)
    requires Can(s, act) && RowsGranted(s)
    ensures Grows(s, Next(s, act)) && Next(s, act).step == s.step + 1
  {
    hide Exec, Apply, SR.Next, SR.Enabled, Ready, EventOf, RowsGranted;
    StepGrows(s, act);
  }

  lemma IsTraced(tr: seq<System>, acts: seq<Action>, s: System)
    requires ChallengesFromLogin(acts, s) && SessionsIssued(acts, s)
    requires forall a :: a in s.actors ==> ActorOrigin(tr, acts, s, s.actors[a])
    requires forall t :: t in s.grants ==> GrantOrigin(tr, acts, s, t, s.grants[t])
    ensures Traced(tr, acts, s)
  {
    hide ChallengesFromLogin, SessionsIssued, ActorOrigin, GrantOrigin;
  }

  // ----- whole runs ------------------------------------------------------------------------

  lemma {:induction false} AlwaysTraced(tr: seq<System>, acts: seq<Action>, k: nat)
    requires Run(tr, acts) && k < |tr|
    ensures Traced(tr, acts, tr[k])
  {
    hide Exec, SR.Next, SR.Enabled, SR.Recorded, Next, Ready, EventOf, After, ActorOrigin, GrantOrigin,
         RowsGranted, ActorSound, GrantSound;
    if k > 0 {
      AlwaysTraced(tr, acts, k - 1);
      AlwaysSound(tr, acts, k - 1);
      StepIsIndex(tr, acts, k - 1);
      assert Can(tr[k - 1], acts[k - 1]) && tr[k] == Next(tr[k - 1], acts[k - 1]);
      StepTraced(tr, acts, tr[k - 1], acts[k - 1]);
    }
  }

  /** Every session, in every run: it was issued by a handler whose check of its user is known
      (`GrantOrigin`), the user held the hash of that check then, and at the insert was active
      and held that very hash.  The challenge it cost is the one that check created, and every
      ticket it cost was taken before the insert and was good then: a challenge found unexpired,
      a code above the counter, a slot with a digest, a pairing pending and unexpired. */
  lemma EverySessionIsChecked(tr: seq<System>, acts: seq<Action>, k: nat, t: Token)
    requires Run(tr, acts) && k < |tr| && t in tr[k].core.db.sessions
    ensures t in tr[k].grants
    ensures var g := tr[k].grants[t];
            && g.id == tr[k].core.db.sessions[t].userId && GrantOrigin(tr, acts, tr[k], t, g)
            && g.at < |acts| && acts[g.at].IssueSession? && acts[g.at].token == t
            && g.seen <= g.at <= k
            && g.id in tr[g.seen].core.db.users && tr[g.seen].core.db.users[g.id].passwordHash == g.hash
            && PasswordHolds(tr[g.at].core.db, g.id, g.hash)
    ensures forall c :: ChallengeTicket(c) in tr[k].grants[t].tickets ==>
              && c in tr[k].grants && tr[k].grants[c].seen == tr[k].grants[t].seen
              && tr[k].grants[c].id == tr[k].grants[t].id && tr[k].grants[c].hash == tr[k].grants[t].hash
    ensures forall x :: x in tr[k].grants[t].tickets ==> TakenBefore(tr, acts, tr[k].grants[t].at, x)
  {
    hide TakenBefore;
    forall x | t in tr[k].grants && x in tr[k].grants[t].tickets
      ensures TakenBefore(tr, acts, tr[k].grants[t].at, x)
    {
      TicketsWereGood(tr, acts, k, t, x);
    }
    hide Run, ActorSound, ActorOrigin, SR.Recorded, ChallengesFromLogin, FromPairing, VetAt, RowAt;
    AlwaysSound(tr, acts, k);
    AlwaysTraced(tr, acts, k);
    KnownGrant(tr, acts, k, t);
  }
}
