/** The request handlers as step programs over the store.  Every store call is one step,
    and any number of handlers interleave with each other and with every other writer.

    A handler that has checked something is an actor holding what it read; `seen`, `start`
    and `login` are the indices of the states in which it read.  A check that fails, or a
    write that does not report success, ends the handler (`Stop`), so the steps below are
    the ones on which the handler goes on. */
module Handlers {
  import opened Options
  import opened Store
  import SR = StoreRuns
  import opened StoreRuns

  type ActorId = nat

  datatype Route = Route(httpMethod: string, path: string)

  /** The three routes a session may use while a password change is required. */
  predicate OpenWhileRestricted(r: Route) {
    || (r.httpMethod == "GET" && r.path == "/api/auth/me")
    || (r.httpMethod == "POST" && (r.path == "/api/auth/change-password" || r.path == "/api/auth/logout"))
  }

  /** There are three of them. */
  lemma OpenRoutes(r: Route)
    ensures OpenWhileRestricted(r) <==>
            r in {Route("GET", "/api/auth/me"), Route("POST", "/api/auth/change-password"),
                  Route("POST", "/api/auth/logout")}
  {
  }

  const CHANGE_PASSWORD := Route("POST", "/api/auth/change-password")

  /** Something that may be used once. */
  datatype Ticket =
    | ChallengeTicket(token: Token)
    | TotpTicket(id: UserId, counter: int)
    | CodeTicket(id: UserId, slot: nat)
    | PairingTicket(secret: Secret)

  datatype Actor =
    | LoginVerified(id: UserId, user: User, seen: nat)
    | SsoIdentified(id: UserId, user: User, seen: nat)
    | MfaSelected(challenge: Token, row: Challenge)
    | MfaConsumed(challenge: Token, id: UserId, verified: Hash, login: nat)
    | MfaEligible(challenge: Token, id: UserId, user: User, login: nat)
    | MfaProved(challenge: Token, proof: Ticket, id: UserId, user: User, login: nat)
    | AuthFound(token: Token, route: Route, session: Session, start: nat)
    | AuthLoaded(token: Token, route: Route, session: Session, user: User, start: nat, seen: nat)
    | Authenticated(token: Token, route: Route, session: Session, user: User, start: nat, seen: nat)
    | PairFound(secret: Secret, pairing: Pairing)
    | PairVetted(secret: Secret, id: UserId, user: User, seen: nat)
    | PairConsumed(secret: Secret, id: UserId, user: User, seen: nat)
    | ProfileLoaded(id: UserId, user: User, seen: nat)
    | ProfileWritten(id: UserId)

  /** The history of one granted token: whose, under which hash, whether that user had to
      change its password at the insert, the state of the credential check it rests on, the
      state it was inserted in, and the one-time tickets it cost. */
  datatype Grant = Grant(id: UserId, hash: Hash, flagged: bool, seen: nat, at: nat, tickets: set<Ticket>)

  datatype System = System(core: Core, actors: map<ActorId, Actor>, grants: map<Token, Grant>, step: nat)

  datatype Action =
    | LoginRead(a: ActorId, id: UserId)
    | LoginChallenge(a: ActorId, token: Token, expiresAt: Time)
    | SsoRead(a: ActorId, id: UserId)
    | MfaSelect(a: ActorId, token: Token)
    | MfaDelete(a: ActorId)
    | MfaRead(a: ActorId)
    | MfaTotp(a: ActorId, counter: int)
    | MfaRecovery(a: ActorId, slot: nat, digest: string)
    | IssueSession(a: ActorId, token: Token, session: Session)
    | AuthSelect(a: ActorId, token: Token, route: Route)
    | AuthRead(a: ActorId)
    | AuthRecheck(a: ActorId)
    | ChangePassword(a: ActorId, newHash: Hash, ip: string, late: set<Secret>)
    | PairFind(a: ActorId, query: string, secret: Secret)
    | PairVet(a: ActorId)
    | PairConsume(a: ActorId, device: Device)
    | ProfileRead(a: ActorId, id: UserId)
    | ProfileWrite(a: ActorId, name: string, mail: string, shown: string, role: string, status: string)
    | ProfileRevoke(a: ActorId)
    | Stop(a: ActorId)
    | Env(event: Event)

  /** The steps that begin a handler. */
  predicate Begins(act: Action) {
    act.LoginRead? || act.SsoRead? || act.MfaSelect? || act.AuthSelect? || act.PairFind? || act.ProfileRead?
  }

  /** Writes that only the handlers below issue.  In particular every profile update of the
      program writes back a row it has read, with the columns of `ProfileWrite` changed. */
  predicate HandlerOnly(op: StoreOp) {
    || op.CreateSession? || op.CreateMfaChallenge? || op.DeleteMfaChallenge? || op.UpdateRecoveryCodes?
    || op.SpendTotpCounter? || op.CompletePasswordChange? || op.ConsumePairing? || op.UpdateUser?
  }

  /** A handler at the point where it calls IssueSession, and the user copy it passes. */
  predicate ReadyToIssue(x: Actor) {
    || (x.LoginVerified? && !x.user.totpEnabled)
    || x.SsoIdentified?
    || x.MfaProved?
    || (x.PairConsumed? && x.id != "")
  }

  function CheckedAt(x: Actor): nat
    requires ReadyToIssue(x)
  {
    if x.MfaProved? then x.login else x.seen
  }

  /** The one-time tickets a handler has used up so far. */
  function Held(x: Actor): set<Ticket> {
    match x
    case MfaConsumed(c, _, _, _) => {ChallengeTicket(c)}
    case MfaEligible(c, _, _, _) => {ChallengeTicket(c)}
    case MfaProved(c, proof, _, _, _) => {ChallengeTicket(c), proof}
    case PairConsumed(s, _, _, _) => {PairingTicket(s)}
    case _ => {}
  }

  /** Blanking a slot in place keeps the others where they are. */
  function Blank(digests: seq<string>, slot: nat): seq<string>
    requires slot < |digests|
  {
    digests[slot := ""]
  }

  /** MatchCode, seen from outside: the slot it returns holds the nonblank digest it was given. */
  predicate Matches(codes: CodeList, slot: nat, digest: string) {
    codes.Codes? && slot < |codes.digests| && digest != "" && codes.digests[slot] == digest
  }

  function Edited(u: User, act: Action): User
    requires act.ProfileWrite?
  {
    u.(username := act.name, email := act.mail, displayName := act.shown, role := act.role, status := act.status)
  }

  /** The point of its program at which a handler must stand for `act`, and what the code
      tests there before and after the store call. */
  predicate Ready(s: System, act: Action) {
    var db, now := s.core.db, s.core.now;
    if act.Env? then
      act.event.Write? ==> !HandlerOnly(act.event.op)
    else if Begins(act) then
      && act.a !in s.actors
      && match act
         case LoginRead(_, id) => id in db.users && db.users[id].status == ACTIVE
         case SsoRead(_, id) => id in db.users
         case MfaSelect(_, t) => t in db.challenges && now < db.challenges[t].expiresAt
         case AuthSelect(_, t, _) => t in db.sessions && now <= db.sessions[t].expiresAt
         case PairFind(_, query, s) =>
           && s in db.pairings
           && (if |query| == 6 then db.pairings[s].code == query else s == query)
           && now <= db.pairings[s].expiresAt
           && db.pairings[s].status == PENDING
         case ProfileRead(_, id) => id in db.users
         case _ => true
    else
      && act.a in s.actors
      && var x := s.actors[act.a];
         match act
         case LoginChallenge(_, _, _) => x.LoginVerified? && x.user.totpEnabled
         case MfaDelete(_) => x.MfaSelected?
         case MfaRead(_) =>
           && x.MfaConsumed? && x.id in db.users && db.users[x.id].status == ACTIVE
           && db.users[x.id].totpEnabled && db.users[x.id].passwordHash == x.verified
         case MfaTotp(_, _) => x.MfaEligible?
         case MfaRecovery(_, slot, digest) => x.MfaEligible? && Matches(x.user.recoveryCodes, slot, digest)
         case IssueSession(_, _, session) => ReadyToIssue(x) && session.userId == x.id
         case AuthRead(_) =>
           && x.AuthFound? && x.session.userId in db.users && db.users[x.session.userId].status == ACTIVE
         case AuthRecheck(_) =>
           && x.AuthLoaded? && x.token in db.sessions && now <= db.sessions[x.token].expiresAt
           && (x.user.mustChangePassword ==> OpenWhileRestricted(x.route))
         case ChangePassword(_, _, _, _) =>
           && x.Authenticated? && x.route == CHANGE_PASSWORD
           && x.user.mustChangePassword && x.user.ssoProvider == LOCAL
         case PairVet(_) =>
           && x.PairFound? && x.pairing.userId in db.users
           && db.users[x.pairing.userId].status == ACTIVE && !db.users[x.pairing.userId].mustChangePassword
         case PairConsume(_, _) => x.PairVetted?
         case ProfileWrite(_, _, _, _, _, _) => x.ProfileLoaded?
         case ProfileRevoke(_) => x.ProfileWritten?
         case _ => true
  }

  /** The store call a step makes. */
  function EventOf(s: System, act: Action): Event
    requires Ready(s, act)
  {
    match act
    case Env(e) => e
    case LoginChallenge(a, t, exp) =>
      Write(CreateMfaChallenge(t, s.actors[a].id, exp, s.actors[a].user.passwordHash))
    case MfaDelete(a) => Write(DeleteMfaChallenge(s.actors[a].challenge))
    case MfaTotp(a, counter) => Write(SpendTotpCounter(s.actors[a].id, counter))
    case MfaRecovery(a, slot, _) =>
      var codes := s.actors[a].user.recoveryCodes;
      Write(UpdateRecoveryCodes(s.actors[a].id, codes, Codes(Blank(codes.digests, slot))))
    case IssueSession(a, t, session) => Write(CreateSession(t, session, s.actors[a].user.passwordHash))
    case ChangePassword(a, newHash, ip, late) =>
      var x := s.actors[a];
      Write(CompletePasswordChange(x.session.userId, x.user.passwordHash, newHash, ip), late)
    case PairConsume(a, device) => Write(ConsumePairing(s.actors[a].secret, device, s.core.now))
    case ProfileWrite(a, _, _, _, _, _) => Write(UpdateUser(s.actors[a].id, Edited(s.actors[a].user, act)))
    case ProfileRevoke(a) => Write(DeleteUserSessions(s.actors[a].id))
    case _ => Quiet
  }

  predicate Can(s: System, act: Action) {
    && Ready(s, act)
    && SR.Enabled(s.core, EventOf(s, act))
    && (!act.Env? && EventOf(s, act).Write? ==> Exec(s.core.db, EventOf(s, act).op).1 == Ok)
  }

  /** The handler after the step; none when it has answered its request. */
  function After(s: System, act: Action): Option<Actor>
    requires Ready(s, act)
  {
    var db, n := s.core.db, s.step;
    match act
    case LoginRead(_, id) => Some(LoginVerified(id, db.users[id], n))
    case SsoRead(_, id) => Some(SsoIdentified(id, db.users[id], n))
    case MfaSelect(_, t) => Some(MfaSelected(t, db.challenges[t]))
    case MfaDelete(a) =>
      var x := s.actors[a];
      var login := if x.challenge in s.grants then s.grants[x.challenge].seen else 0;
      Some(MfaConsumed(x.challenge, x.row.userId, x.row.passwordHash, login))
    case MfaRead(a) =>
      var x := s.actors[a];
      Some(MfaEligible(x.challenge, x.id, db.users[x.id], x.login))
    case MfaTotp(a, counter) =>
      var x := s.actors[a];
      Some(MfaProved(x.challenge, TotpTicket(x.id, counter), x.id, x.user, x.login))
    case MfaRecovery(a, slot, _) =>
      var x := s.actors[a];
      Some(MfaProved(x.challenge, CodeTicket(x.id, slot), x.id, x.user, x.login))
    case AuthSelect(_, t, route) => Some(AuthFound(t, route, db.sessions[t], n))
    case AuthRead(a) =>
      var x := s.actors[a];
      Some(AuthLoaded(x.token, x.route, x.session, db.users[x.session.userId], x.start, n))
    case AuthRecheck(a) =>
      var x := s.actors[a];
      Some(Authenticated(x.token, x.route, x.session, x.user, x.start, x.seen))
    case PairFind(_, _, secret) => Some(PairFound(secret, db.pairings[secret]))
    case PairVet(a) =>
      var x := s.actors[a];
      Some(PairVetted(x.secret, x.pairing.userId, db.users[x.pairing.userId], n))
    case PairConsume(a, _) =>
      var x := s.actors[a];
      Some(PairConsumed(x.secret, x.id, x.user, x.seen))
    case ProfileRead(_, id) => Some(ProfileLoaded(id, db.users[id], n))
    case ProfileWrite(a, _, _, _, _, _) => Some(ProfileWritten(s.actors[a].id))
    case _ => None
  }

  function ActorsAfter(s: System, act: Action): map<ActorId, Actor>
    requires Ready(s, act)
  {
    if act.Env? then s.actors
    else match After(s, act)
      case Some(x) => s.actors[act.a := x]
      case None => s.actors - {act.a}
  }

  /** The grant a step adds to the history. */
  function NewGrant(s: System, act: Action): Grant
    requires Can(s, act) && (act.IssueSession? || act.LoginChallenge?)
  {
    var x := s.actors[act.a];
    var seen := if act.IssueSession? then CheckedAt(x) else x.seen;
    var flagged := x.id in s.core.db.users && s.core.db.users[x.id].mustChangePassword;
    Grant(x.id, x.user.passwordHash, flagged, seen, s.step, Held(x))
  }

  function Next(s: System, act: Action): System
    requires Can(s, act)
  {
    System(
      SR.Next(s.core, EventOf(s, act)),
      ActorsAfter(s, act),
      if act.IssueSession? || act.LoginChallenge? then s.grants[act.token := NewGrant(s, act)] else s.grants,
      s.step + 1)
  }

  lemma NextCore(s: System, act: Action)
    requires Can(s, act)
    ensures Next(s, act).core == SR.Next(s.core, EventOf(s, act))
  {
    hide Exec, Apply, SR.Next, SR.Enabled, Ready, EventOf, After;
  }

  ghost predicate Init(s: System) {
    SR.Start(s.core) && s.actors == map[] && s.grants == map[] && s.step == 0
  }

  /** Every interleaving of every number of handlers and other writers. */
  ghost predicate Run(tr: seq<System>, acts: seq<Action>) {
    && |tr| == |acts| + 1
    && Init(tr[0])
    && forall i :: 0 <= i < |acts| ==> Can(tr[i], acts[i]) && tr[i + 1] == Next(tr[i], acts[i])
  }

  ghost function Cores(tr: seq<System>): seq<Core> {
    seq(|tr|, i requires 0 <= i < |tr| => tr[i].core)
  }

  ghost function Events(tr: seq<System>, acts: seq<Action>): seq<Event>
    requires Run(tr, acts)
  {
    seq(|acts|, i requires 0 <= i < |acts| => EventOf(tr[i], acts[i]))
  }

  /** The store's part of a run of the handlers is a run of the store. */
  lemma StorePart(tr: seq<System>, acts: seq<Action>)
    requires Run(tr, acts)
    ensures SR.Run(Cores(tr), Events(tr, acts))
  {
    hide SR.Next, SR.Enabled, Exec, Apply, Ready, After;
    var cs, es := Cores(tr), Events(tr, acts);
    forall i | 0 <= i < |es|
      ensures SR.Enabled(cs[i], es[i]) && cs[i + 1] == SR.Next(cs[i], es[i])
    {
      assert Can(tr[i], acts[i]) && tr[i + 1] == Next(tr[i], acts[i]);
    }
  }

  lemma {:induction false} StepIsIndex(tr: seq<System>, acts: seq<Action>, k: nat)
    requires Run(tr, acts) && k < |tr|
    ensures tr[k].step == k
  {
    hide SR.Next, SR.Enabled, Exec, Ready, After;
    if k > 0 {
      StepIsIndex(tr, acts, k - 1);
      assert Can(tr[k - 1], acts[k - 1]);
    }
  }
}
