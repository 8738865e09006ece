/** The guarantees about grants: no grant outlives the password it was made under, a
    restricted session stays restricted, authentication is linearizable, and a deactivated
    user gets nothing. */
module Grants {
  import opened Store
  import SR = StoreRuns
  import opened Handlers
  import opened Credentials

  /** The profile updates of `id` between states `i` and `k` carry the credentials they find. */
  ghost predicate KeptFor(tr: seq<System>, acts: seq<Action>, id: UserId, i: nat, k: nat)
    requires Run(tr, acts) && k <= |acts|
  {
    forall n :: i <= n < k ==> SR.KeepsCredentials(tr[n].core, EventOf(tr[n], acts[n]), id)
  }

  ghost predicate AllBenign(tr: seq<System>, acts: seq<Action>)
    requires Run(tr, acts)
  {
    forall i, id :: 0 <= i < |acts| ==> SR.Benign(tr[i].core, EventOf(tr[i], acts[i]), id)
  }

  /** Each session and each MFA challenge was granted under the hash its user holds now, with
      the change-password flag as it is now. */
  ghost predicate GrantsCurrent(s: System) {
    && (forall t :: t in s.core.db.sessions ==> Current(s, t, s.core.db.sessions[t].userId))
    && (forall t :: t in s.core.db.challenges ==> Current(s, t, s.core.db.challenges[t].userId))
  }

  ghost predicate Current(s: System, t: Token, id: UserId) {
    && t in s.grants && id in s.core.db.users
    && s.core.db.users[id].passwordHash == s.grants[t].hash
    && s.core.db.users[id].mustChangePassword == s.grants[t].flagged
  }

  // ----- one step ------------------------------------------------------------------------

  lemma NewRowIsCurrent(s: System, act: Action, t: Token, id: UserId)
    requires Can(s, act) && SR.Recorded(s.core) && t !in s.core.tokens
    requires var db := Next(s, act).core.db;
             (t in db.sessions && db.sessions[t].userId == id) || (t in db.challenges && db.challenges[t].userId == id)
    ensures Current(Next(s, act), t, id)
  {
    var e, d := EventOf(s, act), Next(s, act);
    NewRowIsOurs(s, act, t);
    hide Exec, Apply, SR.Recorded, SR.Next, SR.Enabled, Ready, EventOf, After, HandlerOnly;
    if t in d.core.db.sessions {
      SR.StepSession(s.core, e, t);
    }
    if t in d.core.db.challenges {
      SR.StepChallenge(s.core, e, t);
    }
    InsertIsGuarded(s, act);
  }

  lemma OldRowStaysCurrent(s: System, act: Action, t: Token, id: UserId)
    requires Can(s, act) && SR.Recorded(s.core) && RowsGranted(s) && SR.Benign(s.core, EventOf(s, act), id)
    requires t in s.core.tokens && Current(s, t, id)
    requires SR.HasGrants(s.core.db, id) && SR.HasGrants(Next(s, act).core.db, id) && id in Next(s, act).core.db.users
    ensures Current(Next(s, act), t, id)
  {
    StepRowsGranted(s, act);
    hide Exec, SR.Recorded, SR.Next, SR.Enabled, SR.Benign, After, Ready, EventOf;
    SR.StepKeepsHeld(s.core, EventOf(s, act), id);
  }

  lemma StepKeepsCurrent(s: System, act: Action)
    requires Can(s, act) && SR.Recorded(s.core) && RowsGranted(s) && GrantsCurrent(s)
    requires forall id :: SR.Benign(s.core, EventOf(s, act), id)
    ensures GrantsCurrent(Next(s, act))
  {
    var e, d := EventOf(s, act), Next(s, act);
    SR.StepSessions(s.core, e);
    SR.StepChallenges(s.core, e);
    SR.StepKeepsRecorded(s.core, e);
    hide Exec, SR.Next, SR.Enabled, SR.Benign, SR.PairingsFollow, After, Ready, EventOf, Next, RowsGranted;
    forall t | t in d.core.db.sessions
      ensures Current(d, t, d.core.db.sessions[t].userId)
    {
      var id := d.core.db.sessions[t].userId;
      if t in s.core.tokens {
        OldRowStaysCurrent(s, act, t, id);
      } else {
        NewRowIsCurrent(s, act, t, id);
      }
    }
    forall t | t in d.core.db.challenges
      ensures Current(d, t, d.core.db.challenges[t].userId)
    {
      var id := d.core.db.challenges[t].userId;
      if t in s.core.tokens {
        OldRowStaysCurrent(s, act, t, id);
      } else {
        NewRowIsCurrent(s, act, t, id);
      }
    }
  }

  lemma StaleUpdateBreaksCurrent(s: System, act: Action, id: UserId)
    requires Can(s, act) && RowsGranted(s) && GrantsCurrent(s) && !SR.Benign(s.core, EventOf(s, act), id)
    ensures !GrantsCurrent(Next(s, act))
  {
    var e, d := EventOf(s, act), Next(s, act);
    SR.StepMovesHeld(s.core, e, id);
    assert d.grants == s.grants;
    hide Exec, SR.Next, SR.Enabled, After, Ready, EventOf, Next, RowsGranted;
    if t :| t in s.core.db.sessions && s.core.db.sessions[t].userId == id {
      assert Current(s, t, id) && !Current(d, t, id);
    } else if t :| t in s.core.db.challenges && s.core.db.challenges[t].userId == id {
      assert Current(s, t, id) && !Current(d, t, id);
    }
  }

  // ----- no grant outlives its password ----------------------------------------------------

  lemma {:induction false} BenignKeepsCurrent(tr: seq<System>, acts: seq<Action>, k: nat)
    requires Run(tr, acts) && AllBenign(tr, acts) && k < |tr|
    ensures GrantsCurrent(tr[k])
  {
    hide Exec, SR.Next, SR.Enabled, SR.Benign, SR.Recorded, Next, After, Ready, EventOf, RowsGranted,
         ActorSound, GrantSound;
    if k > 0 {
      BenignKeepsCurrent(tr, acts, k - 1);
      AlwaysSound(tr, acts, k - 1);
      assert Can(tr[k - 1], acts[k - 1]) && tr[k] == Next(tr[k - 1], acts[k - 1]);
      StepKeepsCurrent(tr[k - 1], acts[k - 1]);
    }
  }

  /** In a run, every session and challenge is always under the hash and flag its user holds
      now if and only if every profile update carries the stored ones or finds no grant of
      its user. */
  lemma GrantsCurrentIffUpdatesBenign(tr: seq<System>, acts: seq<Action>)
    requires Run(tr, acts)
    ensures (forall k :: 0 <= k < |tr| ==> GrantsCurrent(tr[k])) <==> AllBenign(tr, acts)
  {
    hide Exec, SR.Next, SR.Enabled, SR.Benign, GrantsCurrent, SR.Recorded, Next, After, Ready, EventOf,
         RowsGranted, ActorSound, GrantSound;
    if AllBenign(tr, acts) {
      forall k | 0 <= k < |tr| ensures GrantsCurrent(tr[k]) {
        BenignKeepsCurrent(tr, acts, k);
      }
    } else {
      var i, id :| 0 <= i < |acts| && !SR.Benign(tr[i].core, EventOf(tr[i], acts[i]), id);
      assert Can(tr[i], acts[i]) && tr[i + 1] == Next(tr[i], acts[i]);
      AlwaysSound(tr, acts, i);
      if GrantsCurrent(tr[i]) {
        StaleUpdateBreaksCurrent(tr[i], acts[i], id);
      }
    }
  }

  ghost predicate Live(s: System, t: Token) {
    t in s.core.db.sessions || t in s.core.db.challenges
  }

  lemma RowIsGranted(tr: seq<System>, acts: seq<Action>, k: nat, t: Token)
    requires Run(tr, acts) && k < |tr| && Live(tr[k], t)
    ensures t in tr[k].grants && tr[k].grants[t].id in tr[k].core.db.users
    ensures SR.HasGrants(tr[k].core.db, tr[k].grants[t].id)
    ensures t in tr[k].core.db.sessions ==> tr[k].core.db.sessions[t].userId == tr[k].grants[t].id
    ensures t in tr[k].core.db.challenges ==> tr[k].core.db.challenges[t].userId == tr[k].grants[t].id
  {
    hide Run, ActorSound, GrantSound;
    AlwaysSound(tr, acts, k);
  }

  /** A grant found after a step was either inserted by it or found, unchanged, before it. */
  lemma LiveBefore(s: System, act: Action, t: Token)
    requires Can(s, act) && SR.Recorded(s.core) && Live(Next(s, act), t) && t in s.core.tokens
    ensures Live(s, t)
  {
    hide Exec, Apply, SR.Recorded, SR.Next, SR.Enabled, Ready, EventOf, After;
    if t in Next(s, act).core.db.sessions {
      SR.StepSession(s.core, EventOf(s, act), t);
    } else {
      SR.StepChallenge(s.core, EventOf(s, act), t);
    }
  }

  /** While a grant is in its table its user keeps the hash and flag of the insert. */
  lemma {:induction false} LiveKeepsHash(tr: seq<System>, acts: seq<Action>, k: nat, t: Token)
    requires Run(tr, acts) && k < |tr| && Live(tr[k], t)
    requires t in tr[k].grants && KeptFor(tr, acts, tr[k].grants[t].id, tr[k].grants[t].at, k)
    ensures SR.Holds(tr[k].core, tr[k].grants[t].id, tr[k].grants[t].hash, tr[k].grants[t].flagged)
  {
    hide Exec, SR.Next, SR.Enabled, SR.Recorded, Next, After, Ready, EventOf, ActorSound, SR.HasGrants,
         SR.KeepsCredentials, SR.Benign, SR.Start;
    assert k > 0;
    var g, act := tr[k].grants[t], acts[k - 1];
    assert Can(tr[k - 1], act) && tr[k] == Next(tr[k - 1], act);
    AlwaysSound(tr, acts, k - 1);
    RowIsGranted(tr, acts, k, t);
    if t in tr[k - 1].core.tokens {
      LiveBefore(tr[k - 1], act, t);
      StepRowsGranted(tr[k - 1], act);
      RowIsGranted(tr, acts, k - 1, t);
      KnownGrant(tr, acts, k - 1, t);
      LiveKeepsHash(tr, acts, k - 1, t);
      KeepingIsBenign(tr[k - 1].core, EventOf(tr[k - 1], act), g.id);
      KeptStep(tr[k - 1], act, g.id);
    } else {
      NewRowIsCurrent(tr[k - 1], act, t, g.id);
    }
  }

  lemma KeepingIsBenign(c: SR.Core, e: SR.Event, id: UserId)
    requires SR.KeepsCredentials(c, e, id)
    ensures SR.Benign(c, e, id)
  {
    hide Exec, SR.HasGrants;
  }

  lemma KeptStep(s: System, act: Action, id: UserId)
    requires Can(s, act) && SR.Recorded(s.core) && SR.Benign(s.core, EventOf(s, act), id)
    requires id in s.core.db.users && SR.HasGrants(s.core.db, id)
    requires id in Next(s, act).core.db.users && SR.HasGrants(Next(s, act).core.db, id)
    ensures SR.SameCredentials(Next(s, act).core.db.users[id], s.core.db.users[id])
  {
    hide Exec, SR.Next, SR.Enabled, SR.Recorded, SR.HasGrants, SR.Benign, Ready, EventOf, After;
    SR.StepKeepsHeld(s.core, EventOf(s, act), id);
  }

  /** From the credential check a grant rests on, through the challenge, its consumption, the
      second factor and the insert, until the last state the grant is in the table, the user
      held one and the same password hash and the change-password flag did not move, if and
      only if no profile update of that user in this stretch carried other credentials.  So
      no grant made before a replacement or reset survives it, and no credential check made
      before one inserts a grant after it, unless such an update came in between. */
  lemma GrantUnbroken(tr: seq<System>, acts: seq<Action>, k: nat, t: Token)
    requires Run(tr, acts) && k < |tr| && Live(tr[k], t)
    ensures t in tr[k].grants
    ensures var g := tr[k].grants[t];
            && g.seen <= g.at <= k
            && PasswordHolds(tr[g.at].core.db, g.id, g.hash)
            && ((forall j :: g.seen <= j <= k ==> SR.Holds(tr[j].core, g.id, g.hash, g.flagged)) <==>
                KeptFor(tr, acts, g.id, g.seen, k))
  {
    hide ActorSound, SR.HasGrants;
    RowIsGranted(tr, acts, k, t);
    KnownGrant(tr, acts, k, t);
    var g := tr[k].grants[t];
    if KeptFor(tr, acts, g.id, g.seen, k) {
      LiveKeepsHash(tr, acts, k, t);
    }
    hide Run;
    if SR.Holds(tr[k].core, g.id, g.hash, g.flagged) {
      EpochHeld(tr, acts, g.seen, k, g.id, g.hash, g.flagged);
    }
  }

  /** A hash a user held at `i` and holds at `k` it held throughout, flag included, exactly
      when the profile updates of that user in between kept the credentials they found. */
  lemma EpochHeld(tr: seq<System>, acts: seq<Action>, i: nat, k: nat, id: UserId, h: Hash, f: bool)
    requires Run(tr, acts) && i <= k < |tr| && SR.Holds(tr[k].core, id, h, f)
    requires id in tr[i].core.db.users && tr[i].core.db.users[id].passwordHash == h
    ensures (forall j :: i <= j <= k ==> SR.Holds(tr[j].core, id, h, f)) <==> KeptFor(tr, acts, id, i, k)
  {
    StorePart(tr, acts);
    hide Run, SR.Run, SR.KeepsCredentials;
    var cs, es := Cores(tr), Events(tr, acts);
    SR.EpochUnbroken(cs, es, i, k, id, h, f);
    assert forall j :: i <= j <= k ==> cs[j] == tr[j].core;
    if SR.CredentialsKept(cs, es, id, i, k) {
      forall n | i <= n < k ensures SR.KeepsCredentials(tr[n].core, EventOf(tr[n], acts[n]), id) {
        assert SR.KeepsCredentials(cs[n], es[n], id);
      }
      forall j | i <= j <= k ensures SR.Holds(tr[j].core, id, h, f) {
        assert SR.Holds(cs[j], id, h, f);
      }
    }
  }

  // ----- authentication ----------------------------------------------------------------------

  /** AuthenticateRequest takes effect at its user read: whenever it succeeds, in any
      interleaving with any writes, there is one instant between its first read and now at
      which the session row was there unexpired and the user row, active, was the returned one. */
  lemma AuthenticationLinearizable(tr: seq<System>, acts: seq<Action>, k: nat, a: ActorId)
    requires Run(tr, acts) && k < |tr| && a in tr[k].actors && tr[k].actors[a].Authenticated?
    ensures var x := tr[k].actors[a];
            && x.start <= x.seen <= k
            && x.token in tr[x.seen].core.db.sessions && tr[x.seen].core.db.sessions[x.token] == x.session
            && tr[x.seen].core.now <= x.session.expiresAt
            && x.session.userId in tr[x.seen].core.db.users
            && tr[x.seen].core.db.users[x.session.userId] == x.user
            && x.user.status == ACTIVE
  {
    hide Run, OpenWhileRestricted;
    KnownActor(tr, acts, k, a);
  }

  lemma {:induction false} GrantsPersist(tr: seq<System>, acts: seq<Action>, i: nat, k: nat, t: Token)
    requires Run(tr, acts) && i <= k < |tr| && t in tr[i].grants
    ensures t in tr[k].grants && tr[k].grants[t] == tr[i].grants[t]
  {
    hide Exec, SR.Next, SR.Enabled, SR.Recorded, Next, Ready, EventOf, After, ActorSound, GrantSound, RowsGranted;
    if i < k {
      GrantsPersist(tr, acts, i, k - 1, t);
      AlwaysSound(tr, acts, k - 1);
      assert Can(tr[k - 1], acts[k - 1]) && tr[k] == Next(tr[k - 1], acts[k - 1]);
      StepRowsGranted(tr[k - 1], acts[k - 1]);
    }
  }

  /** A forced replacement goes through only if the user holds the verified hash and is flagged
      at its commit as it was at the authentication it acts on; and that was so throughout if
      and only if no profile update of the user in between carried other credentials. */
  lemma ReplacementIsFromLiveEpoch(tr: seq<System>, acts: seq<Action>, k: nat)
    requires Run(tr, acts) && k < |acts| && acts[k].ChangePassword?
    ensures acts[k].a in tr[k].actors && tr[k].actors[acts[k].a].Authenticated?
    ensures var x := tr[k].actors[acts[k].a];
            && x.seen <= k
            && SR.Holds(tr[x.seen].core, x.session.userId, x.user.passwordHash, true)
            && SR.Holds(tr[k].core, x.session.userId, x.user.passwordHash, true)
            && ((forall j :: x.seen <= j <= k ==>
                   SR.Holds(tr[j].core, x.session.userId, x.user.passwordHash, true)) <==>
                KeptFor(tr, acts, x.session.userId, x.seen, k))
  {
    assert Can(tr[k], acts[k]);
    var x := tr[k].actors[acts[k].a];
    ReplacementNeedsFlag(tr[k].core.db, EventOf(tr[k], acts[k]).op);
    hide Exec, SR.Enabled, SR.Next, Run, EventOf, OpenWhileRestricted;
    KnownActor(tr, acts, k, acts[k].a);
    EpochHeld(tr, acts, x.seen, k, x.session.userId, x.user.passwordHash, true);
  }

  lemma ReplacementNeedsFlag(db: Tables, op: StoreOp)
    requires op.CompletePasswordChange? && Exec(db, op).1 == Ok
    ensures op.id in db.users && db.users[op.id].passwordHash == op.oldHash && db.users[op.id].mustChangePassword
  {
  }

  // ----- pairings and deactivation ----------------------------------------------------------

  /** Whatever profile updates do, a user never holds one hash with the flag set at one time
      and clear at another: every pair of hash and flag ever written was first written by the
      user's creation or by a replacement, with a hash of its own. */
  lemma {:induction false} FlagFollowsHash(tr: seq<System>, acts: seq<Action>, i: nat, k: nat, id: UserId)
    requires Run(tr, acts) && i <= k < |tr| && id in tr[i].core.db.users && id in tr[k].core.db.users
    requires tr[i].core.db.users[id].passwordHash == tr[k].core.db.users[id].passwordHash
    ensures tr[i].core.db.users[id].mustChangePassword == tr[k].core.db.users[id].mustChangePassword
    decreases k
  {
    hide Exec, Apply, SR.Next, SR.Enabled, SR.Recorded, Next, After, Ready, EventOf, Sound, SR.Updates, HandlerOnly,
         SR.Run, SR.Chain, SR.Start;
    if i < k {
      var s, act := tr[k - 1], acts[k - 1];
      assert Can(s, act) && tr[k] == Next(s, act);
      var e := EventOf(s, act);
      AlwaysSound(tr, acts, k - 1);
      StillUsed(tr, acts, i, k - 1, id);
      NextCore(s, act);
      SR.StepUser(s.core, e, id);
      if SR.KeepsCredentials(s.core, e, id) {
        FlagFollowsHash(tr, acts, i, k - 1, id);
      } else {
        var n := UpdateCarriesRead(tr, acts, k - 1, id);
        FlagFollowsHash(tr, acts, if i <= n then i else n, if i <= n then n else i, id);
      }
    }
  }

  lemma UpdateFindsUser(c: SR.Core, e: SR.Event, id: UserId)
    requires SR.Updates(c, e, id)
    ensures id in c.db.users
  {
  }

  lemma ProfileWriteUpdates(s: System, act: Action)
    requires Can(s, act) && act.ProfileWrite?
    ensures s.actors[act.a].ProfileLoaded? && SR.Updates(s.core, EventOf(s, act), s.actors[act.a].id)
  {
  }

  /** What a profile update writes was read from an earlier row of the user. */
  lemma UpdateCarriesRead(tr: seq<System>, acts: seq<Action>, k: nat, id: UserId) returns (n: nat)
    requires Run(tr, acts) && k < |acts| && Can(tr[k], acts[k])
    requires SR.Updates(tr[k].core, EventOf(tr[k], acts[k]), id)
    ensures acts[k].ProfileWrite? && acts[k].a in tr[k].actors
    ensures var x := tr[k].actors[acts[k].a];
            x.ProfileLoaded? && x.id == id && n == x.seen && Read(tr, k, id, x.user, n)
    ensures id in tr[k + 1].core.db.users && SR.SameCredentials(tr[k + 1].core.db.users[id], tr[n].core.db.users[id])
    ensures SR.SameCredentials(EventOf(tr[k], acts[k]).op.copy, tr[n].core.db.users[id])
    ensures tr[k + 1].core.db.users[id].recoveryCodes == tr[n].core.db.users[id].recoveryCodes
    ensures EventOf(tr[k], acts[k]).op.copy.recoveryCodes == tr[n].core.db.users[id].recoveryCodes
  {
    assert tr[k + 1] == Next(tr[k], acts[k]);
    hide Exec, Apply, SR.Next, SR.Enabled, SR.Recorded, Next, After, Ready, EventOf, Sound, HandlerOnly, Run;
    WriterOf(tr[k], acts[k]);
    KnownActor(tr, acts, k, acts[k].a);
    NextCore(tr[k], acts[k]);
    SR.UpdateWrites(tr[k].core, EventOf(tr[k], acts[k]), id);
    n := tr[k].actors[acts[k].a].seen;
  }

  /** The ids and hashes drawn by `i` are still recorded at `k`. */
  lemma StillUsed(tr: seq<System>, acts: seq<Action>, i: nat, k: nat, id: UserId)
    requires Run(tr, acts) && i <= k < |tr| && id in tr[i].core.db.users
    ensures id in tr[k].core.ids && tr[i].core.db.users[id].passwordHash in tr[k].core.hashes
  {
    KnownUser(tr, acts, i, id);
    StorePart(tr, acts);
    hide Run, SR.Run, SR.Chain;
    SR.RunIsChain(Cores(tr), Events(tr, acts));
    SR.UsedOnlyGrows(Cores(tr), i, k);
  }

  /** A session that came from a device pairing was inserted while the user was active, not
      flagged, and held the hash seen before the pairing was consumed, in every run. */
  lemma PairedSessionGuarded(tr: seq<System>, acts: seq<Action>, k: nat, t: Token)
    requires Run(tr, acts) && k < |tr| && t in tr[k].grants && FromPairing(tr[k].grants[t])
    ensures var g := tr[k].grants[t];
            && g.seen <= g.at <= k
            && SR.Holds(tr[g.seen].core, g.id, g.hash, false)
            && SR.Holds(tr[g.at].core, g.id, g.hash, false)
            && PasswordHolds(tr[g.at].core.db, g.id, g.hash)
  {
    hide Run, FromPairing;
    KnownGrant(tr, acts, k, t);
    var g := tr[k].grants[t];
    FlagFollowsHash(tr, acts, g.seen, g.at, g.id);
  }

  lemma InactiveAt(tr: seq<System>, i: nat, k: nat, j: nat, id: UserId)
    requires i <= j <= k < |tr| && SR.InactiveThroughout(Cores(tr), i, k, id)
    ensures id in tr[j].core.db.users ==> tr[j].core.db.users[id].status != ACTIVE
  {
    assert Cores(tr)[j] == tr[j].core;
  }

  lemma InactiveOnlyLoses(tr: seq<System>, acts: seq<Action>, i: nat, k: nat, id: UserId, t: Token)
    requires Run(tr, acts) && i <= k < |tr| && SR.InactiveThroughout(Cores(tr), i, k, id)
    requires t in tr[k].core.db.sessions && tr[k].core.db.sessions[t].userId == id
    ensures t in tr[i].core.db.sessions && tr[i].core.db.sessions[t] == tr[k].core.db.sessions[t]
  {
    StorePart(tr, acts);
    hide Run, SR.Run, SR.Chain, SR.InactiveThroughout;
    SR.RunIsChain(Cores(tr), Events(tr, acts));
    SR.InactiveGainsNoSession(Cores(tr), i, k, id, t);
  }

  /** A period in which a user is not active, looked back on from any later state `m`: no grant of
      the user was inserted in it, no authentication that has succeeded since read the user in
      it, however late its recheck came, and the sessions the user had at its end it had at its
      beginning. */
  lemma InactiveUserGetsNothing(tr: seq<System>, acts: seq<Action>, i: nat, k: nat, m: nat, id: UserId)
    requires Run(tr, acts) && i <= k <= m < |tr| && SR.InactiveThroughout(Cores(tr), i, k, id)
    ensures forall t :: t in tr[m].grants && tr[m].grants[t].id == id ==> !(i <= tr[m].grants[t].at <= k)
    ensures forall a :: a in tr[m].actors && tr[m].actors[a].Authenticated? && tr[m].actors[a].session.userId == id ==>
              !(i <= tr[m].actors[a].seen <= k)
    ensures forall t :: t in tr[k].core.db.sessions && tr[k].core.db.sessions[t].userId == id ==>
              t in tr[i].core.db.sessions && tr[i].core.db.sessions[t] == tr[k].core.db.sessions[t]
  {
    hide Run, SR.InactiveThroughout, OpenWhileRestricted, Cores, FromPairing;
    forall t | t in tr[m].grants && tr[m].grants[t].id == id
      ensures !(i <= tr[m].grants[t].at <= k)
    {
      var at := tr[m].grants[t].at;
      KnownGrant(tr, acts, m, t);
      if i <= at <= k {
        InactiveAt(tr, i, k, at, id);
      }
    }
    forall a | a in tr[m].actors && tr[m].actors[a].Authenticated? && tr[m].actors[a].session.userId == id
      ensures !(i <= tr[m].actors[a].seen <= k)
    {
      KnownActor(tr, acts, m, a);
      if i <= tr[m].actors[a].seen <= k {
        InactiveAt(tr, i, k, tr[m].actors[a].seen, id);
      }
    }
    forall t | t in tr[k].core.db.sessions && tr[k].core.db.sessions[t].userId == id
      ensures t in tr[i].core.db.sessions && tr[i].core.db.sessions[t] == tr[k].core.db.sessions[t]
    {
      InactiveOnlyLoses(tr, acts, i, k, id, t);
    }
  }
}
