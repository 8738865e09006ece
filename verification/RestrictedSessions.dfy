/** Sessions of users that have to change their password: they open three routes only, as
    long as no profile update clears the flag under them. */
module RestrictedSessions {
  import opened Store
  import SR = StoreRuns
  import opened Handlers
  import opened Credentials
  import opened Grants
  import PU = ProfileUpdates

  /** AuthenticateRequest would let a request through in this state. */
  predicate Authorises(s: System, t: Token, route: Route) {
    var db := s.core.db;
    && t in db.sessions && s.core.now <= db.sessions[t].expiresAt
    && db.sessions[t].userId in db.users
    && var u := db.users[db.sessions[t].userId];
       u.status == ACTIVE && (u.mustChangePassword ==> OpenWhileRestricted(route))
  }

  /** The three reads of an authentication, with nothing in between. */
  ghost predicate Walks(s: System, a: ActorId, t: Token, route: Route) {
    && Can(s, AuthSelect(a, t, route))
    && var s1 := Next(s, AuthSelect(a, t, route));
       && Can(s1, AuthRead(a))
       && Can(Next(s1, AuthRead(a)), AuthRecheck(a))
  }

  /** The state says exactly which sessions authenticate for which routes. */
  lemma AuthorisesMeansAuthenticates(s: System, a: ActorId, t: Token, route: Route)
    requires a !in s.actors
    ensures Authorises(s, t, route) <==> Walks(s, a, t, route)
    ensures Walks(s, a, t, route) ==>
              var d := Next(Next(Next(s, AuthSelect(a, t, route)), AuthRead(a)), AuthRecheck(a));
              && a in d.actors && d.actors[a].Authenticated? && d.actors[a].token == t && d.actors[a].route == route
              && d.grants == s.grants
  {
    hide Can, Next, OpenWhileRestricted;
    FirstRead(s, a, t, route);
    if Can(s, AuthSelect(a, t, route)) {
      var s1 := Next(s, AuthSelect(a, t, route));
      SecondRead(s1, a);
      if Can(s1, AuthRead(a)) {
        ThirdRead(Next(s1, AuthRead(a)), a);
      }
    }
  }

  lemma FirstRead(s: System, a: ActorId, t: Token, route: Route)
    requires a !in s.actors
    ensures var act := AuthSelect(a, t, route);
            && (Can(s, act) <==> t in s.core.db.sessions && s.core.now <= s.core.db.sessions[t].expiresAt)
            && (Can(s, act) ==>
                  Next(s, act) == s.(actors := s.actors[a := AuthFound(t, route, s.core.db.sessions[t], s.step)],
                                     step := s.step + 1))
  {
  }

  lemma SecondRead(s: System, a: ActorId)
    requires a in s.actors && s.actors[a].AuthFound?
    ensures var x, act := s.actors[a], AuthRead(a);
            var id := x.session.userId;
            && (Can(s, act) <==> id in s.core.db.users && s.core.db.users[id].status == ACTIVE)
            && (Can(s, act) ==>
                  var y := AuthLoaded(x.token, x.route, x.session, s.core.db.users[id], x.start, s.step);
                  Next(s, act) == s.(actors := s.actors[a := y], step := s.step + 1))
  {
  }

  lemma ThirdRead(s: System, a: ActorId)
    requires a in s.actors && s.actors[a].AuthLoaded?
    ensures var x, act := s.actors[a], AuthRecheck(a);
            && (Can(s, act) <==>
                  && x.token in s.core.db.sessions && s.core.now <= s.core.db.sessions[x.token].expiresAt
                  && (x.user.mustChangePassword ==> OpenWhileRestricted(x.route)))
            && (Can(s, act) ==>
                  var y := Authenticated(x.token, x.route, x.session, x.user, x.start, x.seen);
                  Next(s, act) == s.(actors := s.actors[a := y], step := s.step + 1))
  {
    hide OpenWhileRestricted;
  }

  /** The session was granted while its user had to change the password. */
  ghost predicate Restricted(s: System, t: Token) {
    t in s.core.db.sessions && t in s.grants && s.grants[t].flagged
  }

  /** The step is a profile update that leaves its user active with the flag clear while the user
      has an unexpired restricted session. */
  ghost predicate Frees(s: System, act: Action, t: Token)
    requires Ready(s, act)
  {
    var e := EventOf(s, act);
    && Restricted(s, t) && s.core.now <= s.core.db.sessions[t].expiresAt
    && SR.Updates(s.core, e, s.core.db.sessions[t].userId)
    && !e.op.copy.mustChangePassword && e.op.copy.status == ACTIVE
  }

  ghost predicate NeverFrees(tr: seq<System>, acts: seq<Action>, k: nat)
    requires Run(tr, acts) && k <= |acts|
  {
    forall n, t :: 0 <= n < k ==> !Frees(tr[n], acts[n], t)
  }

  /** The user of an unexpired restricted session has to change the password, or is not active. */
  ghost predicate Confined(s: System, t: Token) {
    && Restricted(s, t) && s.core.now <= s.core.db.sessions[t].expiresAt
    && s.core.db.sessions[t].userId in s.core.db.users ==>
      var u := s.core.db.users[s.core.db.sessions[t].userId];
      u.mustChangePassword || u.status != ACTIVE
  }

  // ----- one step ------------------------------------------------------------------------

  lemma OldSessionStaysConfined(s: System, act: Action, t: Token)
    requires Can(s, act) && SR.Recorded(s.core) && RowsGranted(s) && t in s.core.tokens
    requires Confined(s, t) && !Frees(s, act, t)
    ensures Confined(Next(s, act), t)
  {
    var e, d := EventOf(s, act), Next(s, act);
    NextCore(s, act);
    StepRowsGranted(s, act);
    SR.StepGrows(s.core, e);
    hide Exec, Apply, SR.Next, SR.Enabled, Ready, EventOf, After, Next;
    if Restricted(d, t) && d.core.now <= d.core.db.sessions[t].expiresAt {
      SR.StepSession(s.core, e, t);
      var id := s.core.db.sessions[t].userId;
      SR.WriteIsExec(s.core, e);
      if e.Write? {
        HeldRows(s.core.db, e.op, t);
      }
      if SR.Updates(s.core, e, id) {
        SR.UpdateWrites(s.core, e, id);
      }
    }
  }

  lemma StepConfined(s: System, act: Action, t: Token)
    requires Can(s, act) && SR.Recorded(s.core) && RowsGranted(s) && Confined(s, t) && !Frees(s, act, t)
    ensures Confined(Next(s, act), t)
  {
    hide Exec, Apply, SR.Next, SR.Enabled, SR.Recorded, Ready, EventOf, After, Next, Frees, RowsGranted;
    if t in s.core.tokens {
      OldSessionStaysConfined(s, act, t);
    } else if Restricted(Next(s, act), t) {
      NewRowIsCurrent(s, act, t, Next(s, act).core.db.sessions[t].userId);
    }
  }

  lemma FreedIsNotConfined(s: System, act: Action, t: Token)
    requires Can(s, act) && SR.Recorded(s.core) && RowsGranted(s) && Frees(s, act, t)
    ensures !Confined(Next(s, act), t)
  {
    var e := EventOf(s, act);
    NextCore(s, act);
    StepRowsGranted(s, act);
    hide Exec, Apply, SR.Next, SR.Enabled, Ready, EventOf, After, Next;
    SR.UpdateWrites(s.core, e, s.core.db.sessions[t].userId);
  }

  // ----- whole runs ------------------------------------------------------------------------

  lemma {:induction false} StaysConfined(tr: seq<System>, acts: seq<Action>, k: nat, t: Token)
    requires Run(tr, acts) && k < |tr| && NeverFrees(tr, acts, k)
    ensures Confined(tr[k], t)
  {
    hide Exec, SR.Next, SR.Enabled, SR.Recorded, Next, After, Ready, EventOf, Frees, RowsGranted, ActorSound,
         GrantSound, Confined;
    if k > 0 {
      StaysConfined(tr, acts, k - 1, t);
      AlwaysSound(tr, acts, k - 1);
      assert Can(tr[k - 1], acts[k - 1]) && tr[k] == Next(tr[k - 1], acts[k - 1]);
      StepConfined(tr[k - 1], acts[k - 1], t);
    } else {
      NobodyAtFirst(tr[0], t);
    }
  }

  lemma NobodyAtFirst(s: System, t: Token)
    requires Init(s)
    ensures Confined(s, t)
  {
  }

  const BACKUP_STATUS := Route("GET", "/api/backup/status")

  lemma ConfinedIffOnlyOpenRoutes(s: System, t: Token)
    requires SR.Recorded(s.core) && Restricted(s, t)
    ensures Confined(s, t) <==> forall route :: Authorises(s, t, route) ==> OpenWhileRestricted(route)
  {
    assert !OpenWhileRestricted(BACKUP_STATUS);
    assert !Confined(s, t) ==> Authorises(s, t, BACKUP_STATUS);
  }

  /** At every point of a run the restricted sessions open nothing but the three open routes if
      and only if no profile update of the run leaves a user active with the flag clear while the
      user has one unexpired. */
  lemma RestrictedIffNeverFreed(tr: seq<System>, acts: seq<Action>)
    requires Run(tr, acts)
    ensures (forall k, t, route :: 0 <= k < |tr| && Restricted(tr[k], t) && Authorises(tr[k], t, route) ==>
               OpenWhileRestricted(route)) <==>
            NeverFrees(tr, acts, |acts|)
  {
    hide Exec, SR.Next, SR.Enabled, SR.Recorded, Next, After, Ready, EventOf, Frees, RowsGranted, ActorSound,
         GrantSound, Confined, OpenWhileRestricted, Authorises, Restricted;
    if NeverFrees(tr, acts, |acts|) {
      forall k, t, route | 0 <= k < |tr| && Restricted(tr[k], t) && Authorises(tr[k], t, route)
        ensures OpenWhileRestricted(route)
      {
        assert NeverFrees(tr, acts, k);
        StaysConfined(tr, acts, k, t);
        AlwaysSound(tr, acts, k);
        ConfinedIffOnlyOpenRoutes(tr[k], t);
      }
    } else {
      var n, t :| 0 <= n < |acts| && Frees(tr[n], acts[n], t);
      AlwaysSound(tr, acts, n);
      AlwaysSound(tr, acts, n + 1);
      assert Can(tr[n], acts[n]) && tr[n + 1] == Next(tr[n], acts[n]);
      FreedIsNotConfined(tr[n], acts[n], t);
      NotConfinedIsRestricted(tr[n + 1], t);
      ConfinedIffOnlyOpenRoutes(tr[n + 1], t);
    }
  }

  /** No restricted session is freed as long as no profile update has spanned a replacement of its
      user: what such an update writes is what the user holds, and that has been flagged since
      the session was granted. */
  lemma UnspannedNeverFrees(tr: seq<System>, acts: seq<Action>, k: nat)
    requires Run(tr, acts) && k <= |acts| && PU.NoneSpans(tr, acts, k)
    ensures NeverFrees(tr, acts, k)
  {
    hide Exec, SR.Next, SR.Enabled, SR.Recorded, Next, After, Ready, EventOf, Frees, RowsGranted, ActorSound,
         PU.Spans;
    forall n, t | 0 <= n < k ensures !Frees(tr[n], acts[n], t) {
      if Frees(tr[n], acts[n], t) {
        FreedIsLive(tr[n], acts[n], t);
        var g := tr[n].grants[t];
        KnownGrant(tr, acts, n, t);
        RowIsGranted(tr, acts, n, t);
        PU.UnspannedKeeps(tr, acts, k, g.id);
        LiveKeepsHash(tr, acts, n, t);
        assert SR.KeepsCredentials(tr[n].core, EventOf(tr[n], acts[n]), g.id);
        KeepingDoesNotFree(tr[n], acts[n], t);
      }
    }
  }

  lemma FreedIsLive(s: System, act: Action, t: Token)
    requires Ready(s, act) && Frees(s, act, t)
    ensures Live(s, t) && t in s.core.db.sessions && t in s.grants && s.grants[t].flagged
  {
    hide Ready, EventOf;
  }

  lemma KeepingDoesNotFree(s: System, act: Action, t: Token)
    requires Ready(s, act) && t in s.grants && t in s.core.db.sessions
    requires s.core.db.sessions[t].userId == s.grants[t].id && s.grants[t].id in s.core.db.users
    requires s.core.db.users[s.grants[t].id].mustChangePassword == s.grants[t].flagged
    requires SR.KeepsCredentials(s.core, EventOf(s, act), s.grants[t].id)
    ensures !Frees(s, act, t)
  {
    hide Ready, EventOf, Exec;
  }

  lemma NotConfinedIsRestricted(s: System, t: Token)
    requires !Confined(s, t)
    ensures Restricted(s, t)
  {
  }

  /** A session granted while its user had to change the password authorises nothing but the
      three open routes, in any interleaving, even when the replacement commits between the
      reads of an authentication in progress, unless a profile update freed it before the
      user was read. */
  lemma RestrictedSessionStaysRestricted(tr: seq<System>, acts: seq<Action>, k: nat, a: ActorId)
    requires Run(tr, acts) && k < |tr| && a in tr[k].actors && tr[k].actors[a].Authenticated?
    ensures var x := tr[k].actors[a];
            && x.seen <= k && x.token in tr[k].grants
            && (NeverFrees(tr, acts, x.seen) && tr[k].grants[x.token].flagged ==>
                  x.route in {Route("GET", "/api/auth/me"), Route("POST", "/api/auth/change-password"),
                              Route("POST", "/api/auth/logout")})
  {
    OpenRoutes(tr[k].actors[a].route);
    var x := tr[k].actors[a];
    hide Run, OpenWhileRestricted, NeverFrees;
    KnownActor(tr, acts, k, a);
    RowIsGranted(tr, acts, x.seen, x.token);
    GrantsPersist(tr, acts, x.seen, k, x.token);
    if NeverFrees(tr, acts, x.seen) {
      StaysConfined(tr, acts, x.seen, x.token);
    }
  }
}
