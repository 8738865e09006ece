/** Runs of the store: any sequence of writes by any number of callers, with a clock that
    does not go back.  Tokens, pairing secrets, user ids and the hashes written by a
    password replacement are drawn at random, which the model renders as "never used
    before in this run". */
module StoreRuns {
  import opened Store
  import L = StoreLaws

  /** The database, the clock, and everything that random draws have already produced. */
  datatype Core = Core(
    now: Time,
    db: Tables,
    tokens: set<Token>,
    secrets: set<Secret>,
    ids: set<UserId>,
    hashes: set<Hash>)

  /** A write takes effect as a whole; `late` are the pairings a replacement misses. */
  datatype Event = Write(op: StoreOp, late: set<Secret> := {}) | Tick(to: Time) | Quiet

  predicate Enabled(c: Core, e: Event) {
    match e
    case Tick(to) => c.now <= to
    case Quiet => true
    case Write(op, _) =>
      match op
      case CreateUser(id, _) => id !in c.ids
      case CompletePasswordChange(_, _, newHash, _) => newHash !in c.hashes
      case ResetAdminPassword(_, newHash) => newHash !in c.hashes
      case CreateSession(token, _, _) => token !in c.tokens
      case CreateMfaChallenge(token, _, _, _) => token !in c.tokens
      case CreatePairing(secret, _) => secret !in c.secrets
      case CleanExpiredSessions(now) => now == c.now
      case CleanExpiredPairings(now) => now == c.now
      case ConsumePairing(_, _, now) => now == c.now
      case _ => true
  }

  function Next(c: Core, e: Event): Core {
    match e
    case Tick(to) => c.(now := to)
    case Quiet => c
    case Write(op, late) =>
      var c' := c.(db := Apply(c.db, op, late));
      match op
      case CreateUser(id, user) => c'.(ids := c.ids + {id}, hashes := c.hashes + {user.passwordHash})
      case UpdateUser(_, copy) => c'.(hashes := c.hashes + {copy.passwordHash})
      case CompletePasswordChange(_, _, newHash, _) => c'.(hashes := c.hashes + {newHash})
      case ResetAdminPassword(_, newHash) => c'.(hashes := c.hashes + {newHash})
      case CreateSession(token, _, _) => c'.(tokens := c.tokens + {token})
      case CreateMfaChallenge(token, _, _, _) => c'.(tokens := c.tokens + {token})
      case CreatePairing(secret, _) => c'.(secrets := c.secrets + {secret})
      case _ => c'
  }

  /** What every reachable state keeps: whatever is in a table has been recorded as used,
      and every grant refers to an existing user. */
  ghost predicate Recorded(c: Core) {
    && (forall t :: t in c.db.sessions ==> t in c.tokens && c.db.sessions[t].userId in c.db.users)
    && (forall t :: t in c.db.challenges ==> t in c.tokens && c.db.challenges[t].userId in c.db.users)
    && (forall s :: s in c.db.pairings ==> s in c.secrets)
    && (forall u :: u in c.db.users ==> u in c.ids && c.db.users[u].passwordHash in c.hashes)
  }

  ghost predicate Start(c: Core) {
    Recorded(c) && c.db.sessions == map[] && c.db.challenges == map[]
  }

  ghost predicate Run(cs: seq<Core>, es: seq<Event>) {
    && |cs| == |es| + 1
    && Start(cs[0])
    && forall i :: 0 <= i < |es| ==> Enabled(cs[i], es[i]) && cs[i + 1] == Next(cs[i], es[i])
  }

  predicate SameCredentials(u: User, v: User) {
    u.passwordHash == v.passwordHash && u.mustChangePassword == v.mustChangePassword
  }

  /** The event is a successful profile update of `id`. */
  predicate Updates(c: Core, e: Event, id: UserId) {
    e.Write? && e.op.UpdateUser? && e.op.id == id && id in c.db.users && Exec(c.db, e.op).1 == Ok
  }

  /** No profile update of `id`, or one that writes back the credential columns it finds. */
  predicate KeepsCredentials(c: Core, e: Event, id: UserId) {
    Updates(c, e, id) ==> SameCredentials(e.op.copy, c.db.users[id])
  }

  /** The same for the recovery-code column. */
  predicate KeepsCodes(c: Core, e: Event, id: UserId) {
    Updates(c, e, id) ==> e.op.copy.recoveryCodes == c.db.users[id].recoveryCodes
  }

  predicate BlankAt(codes: CodeList, slot: nat) {
    codes.Codes? && slot < |codes.digests| && codes.digests[slot] == ""
  }

  /** No profile update of `id` carries a nonblank, missing or unreadable entry at a slot that
      is blank when it is written. */
  predicate KeepsBlank(c: Core, e: Event, id: UserId, slot: nat) {
    Updates(c, e, id) && BlankAt(c.db.users[id].recoveryCodes, slot) ==> BlankAt(e.op.copy.recoveryCodes, slot)
  }

  ghost predicate CredentialsKept(cs: seq<Core>, es: seq<Event>, id: UserId, i: nat, k: nat)
    requires |cs| == |es| + 1 && k <= |es|
  {
    forall n :: i <= n < k ==> KeepsCredentials(cs[n], es[n], id)
  }

  // ----- one step ---------------------------------------------------------------------

  /** What one step may do, whichever write it is: nothing drawn is forgotten, the clock
      does not go back, no row whose key was already drawn comes back, one-time counters do
      not fall, consumed pairings stay consumed, and a new session belongs to a user that
      was active. */
  ghost predicate Follows(c: Core, d: Core) {
    && UsedGrows(c, d)
    && SessionsFollow(c, d)
    && ChallengesFollow(c, d)
    && UsersFollow(c, d)
    && PairingsFollow(c, d)
  }

  ghost predicate UsedGrows(c: Core, d: Core) {
    c.now <= d.now && c.tokens <= d.tokens && c.secrets <= d.secrets && c.ids <= d.ids && c.hashes <= d.hashes
  }

  ghost predicate SessionsFollow(c: Core, d: Core) {
    forall t :: t in d.db.sessions ==>
      var row := d.db.sessions[t];
      if t in c.tokens then t in c.db.sessions && row == c.db.sessions[t]
      else row.userId in c.db.users && c.db.users[row.userId].status == ACTIVE
  }

  ghost predicate ChallengesFollow(c: Core, d: Core) {
    forall t :: t in d.db.challenges && t in c.tokens ==>
      t in c.db.challenges && d.db.challenges[t] == c.db.challenges[t]
  }

  ghost predicate UsersFollow(c: Core, d: Core) {
    forall u :: u in d.db.users && u in c.ids ==>
      u in c.db.users && c.db.users[u].totpLastCounter <= d.db.users[u].totpLastCounter
  }

  ghost predicate PairingsFollow(c: Core, d: Core) {
    forall s :: s in d.db.pairings && s in c.secrets ==>
      s in c.db.pairings && (d.db.pairings[s].status == PENDING ==> c.db.pairings[s].status == PENDING)
  }

  /** If `id` ends a step on an already used hash its credentials were not touched. */
  ghost predicate EpochFollows(c: Core, d: Core, id: UserId) {
    id in d.db.users && id in c.ids && d.db.users[id].passwordHash in c.hashes ==>
      id in c.db.users && SameCredentials(d.db.users[id], c.db.users[id])
  }

  /** What a step does to the tables, short of what it does to pairings. */
  lemma WriteIsExec(c: Core, e: Event)
    ensures if e.Write? then Agree(Next(c, e).db, Exec(c.db, e.op).0) else Next(c, e).db == c.db
  {
    hide Exec, Apply;
    if e.Write? {
      LateTouchesPairingsOnly(c.db, e.op, e.late);
    }
  }

  lemma StepGrows(c: Core, e: Event)
    requires Enabled(c, e)
    ensures UsedGrows(c, Next(c, e))
  {
    hide Exec, Apply;
  }

  lemma StepSession(c: Core, e: Event, t: Token)
    requires Recorded(c) && Enabled(c, e) && t in Next(c, e).db.sessions
    ensures if t in c.tokens then
              t in c.db.sessions && Next(c, e).db.sessions[t] == c.db.sessions[t]
            else
              && e.Write? && e.op.CreateSession? && e.op.token == t && Next(c, e).db.sessions[t] == e.op.session
              && PasswordHolds(c.db, e.op.session.userId, e.op.expectedHash) && Next(c, e).db.users == c.db.users
    ensures t in Next(c, e).tokens && Next(c, e).db.sessions[t].userId in Next(c, e).db.users
  {
    WriteIsExec(c, e);
    hide Exec, Apply;
    if e.Write? {
      SessionRows(c.db, e.op, t);
    }
  }

  lemma StepChallenge(c: Core, e: Event, t: Token)
    requires Recorded(c) && Enabled(c, e) && t in Next(c, e).db.challenges
    ensures if t in c.tokens then
              t in c.db.challenges && Next(c, e).db.challenges[t] == c.db.challenges[t]
            else
              && e.Write? && e.op.CreateMfaChallenge? && e.op.token == t
              && Next(c, e).db.challenges[t] == Challenge(e.op.userId, e.op.expiresAt, e.op.expectedHash)
              && PasswordHolds(c.db, e.op.userId, e.op.expectedHash) && Next(c, e).db.users == c.db.users
    ensures t in Next(c, e).tokens && Next(c, e).db.challenges[t].userId in Next(c, e).db.users
  {
    WriteIsExec(c, e);
    hide Exec, Apply;
    if e.Write? {
      ChallengeRows(c.db, e.op, t);
    }
  }

  lemma StepPairing(c: Core, e: Event, s: Secret)
    requires Recorded(c) && Enabled(c, e) && s in Next(c, e).db.pairings
    ensures s in c.secrets ==>
              s in c.db.pairings && (Next(c, e).db.pairings[s].status == PENDING ==> c.db.pairings[s].status == PENDING)
    ensures s in Next(c, e).secrets
  {
    hide Exec, Apply;
    if e.Write? {
      PairingRows(c.db, e.op, e.late, s);
    }
  }

  lemma StepUser(c: Core, e: Event, id: UserId)
    requires Recorded(c) && Enabled(c, e) && id in Next(c, e).db.users
    ensures id in c.ids ==>
              id in c.db.users && c.db.users[id].totpLastCounter <= Next(c, e).db.users[id].totpLastCounter
    ensures KeepsCredentials(c, e, id) ==> EpochFollows(c, Next(c, e), id)
    ensures id in Next(c, e).ids && Next(c, e).db.users[id].passwordHash in Next(c, e).hashes
  {
    WriteIsExec(c, e);
    hide Exec, Apply;
    if e.Write? {
      UserRows(c.db, e.op, id);
    }
  }

  lemma StepSessions(c: Core, e: Event)
    requires Recorded(c) && Enabled(c, e)
    ensures UsedGrows(c, Next(c, e)) && SessionsFollow(c, Next(c, e))
  {
    hide Exec, Apply, Enabled, Recorded, Next;
    StepGrows(c, e);
    forall t | t in Next(c, e).db.sessions
      ensures var row := Next(c, e).db.sessions[t];
              if t in c.tokens then t in c.db.sessions && row == c.db.sessions[t]
              else row.userId in c.db.users && c.db.users[row.userId].status == ACTIVE
    {
      StepSession(c, e, t);
    }
  }

  lemma StepChallenges(c: Core, e: Event)
    requires Recorded(c) && Enabled(c, e)
    ensures ChallengesFollow(c, Next(c, e)) && PairingsFollow(c, Next(c, e))
  {
    hide Exec, Apply, Enabled, Recorded, Next;
    forall t | t in Next(c, e).db.challenges && t in c.tokens
      ensures t in c.db.challenges && Next(c, e).db.challenges[t] == c.db.challenges[t]
    {
      StepChallenge(c, e, t);
    }
    forall s | s in Next(c, e).db.pairings && s in c.secrets
      ensures s in c.db.pairings && (Next(c, e).db.pairings[s].status == PENDING ==> c.db.pairings[s].status == PENDING)
    {
      StepPairing(c, e, s);
    }
  }

  lemma StepUsers(c: Core, e: Event)
    requires Recorded(c) && Enabled(c, e)
    ensures UsersFollow(c, Next(c, e))
  {
    hide Exec, Apply, Enabled, Recorded, Next;
    forall u | u in Next(c, e).db.users && u in c.ids
      ensures u in c.db.users && c.db.users[u].totpLastCounter <= Next(c, e).db.users[u].totpLastCounter
    {
      StepUser(c, e, u);
    }
  }

  lemma StepEpoch(c: Core, e: Event, id: UserId)
    requires Recorded(c) && Enabled(c, e) && KeepsCredentials(c, e, id)
    ensures EpochFollows(c, Next(c, e), id)
  {
    hide Exec, Apply, Enabled, Recorded, Next, KeepsCredentials;
    if id in Next(c, e).db.users {
      StepUser(c, e, id);
    }
  }

  /** What a successful profile update leaves. */
  lemma UpdateWrites(c: Core, e: Event, id: UserId)
    requires Updates(c, e, id)
    ensures var d := Next(c, e).db;
            && id in d.users && SameCredentials(d.users[id], e.op.copy)
            && d.users[id].recoveryCodes == e.op.copy.recoveryCodes && d.users[id].status == e.op.copy.status
            && d.sessions == c.db.sessions && d.challenges == c.db.challenges && Next(c, e).now == c.now
  {
  }

  lemma StepKeepsRecorded(c: Core, e: Event)
    requires Recorded(c) && Enabled(c, e)
    ensures Recorded(Next(c, e))
  {
    hide Exec, Apply, Enabled, Next;
    var d := Next(c, e);
    forall t | t in d.db.sessions ensures t in d.tokens && d.db.sessions[t].userId in d.db.users {
      StepSession(c, e, t);
    }
    forall t | t in d.db.challenges ensures t in d.tokens && d.db.challenges[t].userId in d.db.users {
      StepChallenge(c, e, t);
    }
    forall s | s in d.db.pairings ensures s in d.secrets {
      StepPairing(c, e, s);
    }
    forall u | u in d.db.users ensures u in d.ids && d.db.users[u].passwordHash in d.hashes {
      StepUser(c, e, u);
    }
  }

  predicate HasGrants(db: Tables, id: UserId) {
    || (exists t :: t in db.sessions && db.sessions[t].userId == id)
    || (exists t :: t in db.challenges && db.challenges[t].userId == id)
  }

  /** An `UpdateUser` whose copy carries the stored credentials, or that finds no grant to disturb. */
  predicate Benign(c: Core, e: Event, id: UserId) {
    Updates(c, e, id) ==> SameCredentials(e.op.copy, c.db.users[id]) || !HasGrants(c.db, id)
  }

  /** Only three writes change stored credentials: a replacement, a reset, and a profile
      update that carries others.  The first two leave the user without grants. */
  lemma CredentialsChangeOnlyBy(db: Tables, op: StoreOp, id: UserId)
    requires id in db.users && id in Exec(db, op).0.users
    requires !SameCredentials(Exec(db, op).0.users[id], db.users[id])
    ensures (op.UpdateUser? || op.CompletePasswordChange? || op.ResetAdminPassword?) && op.id == id
    ensures Exec(db, op).1 == Ok
    ensures op.UpdateUser? ==> !SameCredentials(op.copy, db.users[id])
    ensures !op.UpdateUser? ==> !HasGrants(Exec(db, op).0, id)
  {
  }

  /** The user of a surviving grant holds the credentials it held before the step. */
  lemma StepKeepsHeld(c: Core, e: Event, id: UserId)
    requires Recorded(c) && Enabled(c, e) && Benign(c, e, id)
    requires id in c.db.users && id in Next(c, e).db.users && HasGrants(c.db, id) && HasGrants(Next(c, e).db, id)
    ensures SameCredentials(Next(c, e).db.users[id], c.db.users[id])
  {
    WriteIsExec(c, e);
    hide Exec, Apply, Recorded, SameCredentials, Next, Enabled, Benign;
    assert e.Write? ==> HasGrants(Exec(c.db, e.op).0, id);
    hide HasGrants;
    if e.Write? && !SameCredentials(Next(c, e).db.users[id], c.db.users[id]) {
      CredentialsChangeOnlyBy(c.db, e.op, id);
      MovedIsNotBenign(c, e, id);
    }
    SameAsItself(c.db.users[id]);
  }

  lemma MovedIsNotBenign(c: Core, e: Event, id: UserId)
    requires Updates(c, e, id) && !SameCredentials(e.op.copy, c.db.users[id]) && HasGrants(c.db, id)
    ensures !Benign(c, e, id)
  {
  }

  lemma SameAsItself(u: User)
    ensures SameCredentials(u, u)
  {
  }

  /** An `UpdateUser` that is not benign leaves some grant under a user whose credentials moved. */
  lemma StepMovesHeld(c: Core, e: Event, id: UserId)
    requires !Benign(c, e, id)
    ensures var d := Next(c, e);
            && d.db.sessions == c.db.sessions && d.db.challenges == c.db.challenges && HasGrants(c.db, id)
            && id in c.db.users && id in d.db.users && !SameCredentials(d.db.users[id], c.db.users[id])
  {
  }

  /** Only two writes change a stored recovery-code list. */
  lemma CodesChangeOnlyBy(db: Tables, op: StoreOp, id: UserId)
    requires id in db.users && id in Exec(db, op).0.users
    requires Exec(db, op).0.users[id].recoveryCodes != db.users[id].recoveryCodes
    ensures (op.UpdateUser? || op.UpdateRecoveryCodes?) && op.id == id && Exec(db, op).1 == Ok
    ensures op.UpdateUser? ==> op.copy.recoveryCodes != db.users[id].recoveryCodes
  {
  }

  lemma CodesSwap(db: Tables, op: StoreOp)
    requires op.UpdateRecoveryCodes? && Exec(db, op).1 == Ok
    ensures op.id in db.users && db.users[op.id].recoveryCodes == op.oldCodes
    ensures op.id in Exec(db, op).0.users && Exec(db, op).0.users[op.id].recoveryCodes == op.newCodes
  {
  }

  /** The event is a successful compare-and-swap of the list of `id`. */
  predicate Swaps(c: Core, e: Event, id: UserId) {
    e.Write? && e.op.UpdateRecoveryCodes? && e.op.id == id && Exec(c.db, e.op).1 == Ok
  }

  /** The recovery-code column moves only by its compare-and-swap and by profile updates. */
  lemma StepCodes(c: Core, e: Event, id: UserId)
    requires Recorded(c) && Enabled(c, e)
    requires id in c.ids && id in Next(c, e).db.users
    ensures id in c.db.users
    ensures var was, now := c.db.users[id].recoveryCodes, Next(c, e).db.users[id].recoveryCodes;
            if Swaps(c, e, id) then was == e.op.oldCodes && now == e.op.newCodes
            else if Updates(c, e, id) then now == e.op.copy.recoveryCodes
            else now == was
  {
    StepUser(c, e, id);
    WriteIsExec(c, e);
    if Updates(c, e, id) {
      UpdateWrites(c, e, id);
    }
    if e.Write? {
      hide Exec, Recorded, Apply, Enabled, Next;
      if Swaps(c, e, id) {
        CodesSwap(c.db, e.op);
      }
      if Exec(c.db, e.op).0.users[id].recoveryCodes != c.db.users[id].recoveryCodes {
        CodesChangeOnlyBy(c.db, e.op, id);
      }
    }
  }

  // ----- whole runs -------------------------------------------------------------------

  /** What the claims below need of a run: they hold of every sequence of states linked
      this way, so they hold of every run. */
  ghost predicate Chain(cs: seq<Core>) {
    && (forall i :: 0 <= i < |cs| ==> Recorded(cs[i]))
    && (forall i, j :: 0 <= i && j == i + 1 && j < |cs| ==> Follows(cs[i], cs[j]))
  }

  ghost predicate EpochChain(cs: seq<Core>, id: UserId, i: nat, k: nat)
    requires k < |cs|
  {
    forall m, n :: i <= m && n == m + 1 && n <= k ==> EpochFollows(cs[m], cs[n], id)
  }

  lemma {:induction false} AlwaysRecorded(cs: seq<Core>, es: seq<Event>, k: nat)
    requires Run(cs, es) && k < |cs|
    ensures Recorded(cs[k])
  {
    if k > 0 {
      AlwaysRecorded(cs, es, k - 1);
      StepKeepsRecorded(cs[k - 1], es[k - 1]);
    }
  }

  lemma RunIsChain(cs: seq<Core>, es: seq<Event>)
    requires Run(cs, es)
    ensures Chain(cs)
  {
    forall i | 0 <= i < |cs|
      ensures Recorded(cs[i])
    {
      AlwaysRecorded(cs, es, i);
    }
    forall i, j | 0 <= i && j == i + 1 && j < |cs|
      ensures Follows(cs[i], cs[j])
    {
      StepSessions(cs[i], es[i]);
      StepChallenges(cs[i], es[i]);
      StepUsers(cs[i], es[i]);
    }
  }

  lemma KeptIsEpochChain(cs: seq<Core>, es: seq<Event>, id: UserId, i: nat, k: nat)
    requires Run(cs, es) && k <= |es| && CredentialsKept(cs, es, id, i, k)
    ensures EpochChain(cs, id, i, k)
  {
    hide Enabled, Recorded, KeepsCredentials, EpochFollows, Next, Start;
    forall m, n | i <= m && n == m + 1 && n <= k
      ensures EpochFollows(cs[m], cs[n], id)
    {
      AlwaysRecorded(cs, es, m);
      StepEpoch(cs[m], es[m], id);
    }
  }

  /** Nothing drawn is forgotten and the clock does not go back. */
  lemma {:induction false} UsedOnlyGrows(cs: seq<Core>, i: nat, k: nat)
    requires Chain(cs) && i <= k < |cs|
    ensures UsedGrows(cs[i], cs[k])
  {
    if i < k {
      UsedOnlyGrows(cs, i, k - 1);
      assert Follows(cs[k - 1], cs[k]);
    }
  }

  /** A session row seen at `k` under a token drawn by `i` was there, unchanged, at `i`. */
  lemma {:induction false} SessionWasThere(cs: seq<Core>, i: nat, k: nat, t: Token)
    requires Chain(cs) && i <= k < |cs|
    requires t in cs[i].tokens && t in cs[k].db.sessions
    ensures t in cs[i].db.sessions && cs[i].db.sessions[t] == cs[k].db.sessions[t]
  {
    hide Recorded, ChallengesFollow, UsersFollow, PairingsFollow;
    if i < k {
      UsedOnlyGrows(cs, i, k - 1);
      assert Follows(cs[k - 1], cs[k]);
      SessionWasThere(cs, i, k - 1, t);
    }
  }

  /** A session present at two instants was present, as the same row, at every instant between. */
  lemma SessionUnbroken(cs: seq<Core>, i: nat, j: nat, k: nat, t: Token)
    requires Chain(cs) && i <= j <= k < |cs|
    requires t in cs[i].db.sessions && t in cs[k].db.sessions
    ensures t in cs[j].db.sessions && cs[j].db.sessions[t] == cs[i].db.sessions[t] == cs[k].db.sessions[t]
  {
    assert Recorded(cs[i]);
    UsedOnlyGrows(cs, i, j);
    SessionWasThere(cs, j, k, t);
    SessionWasThere(cs, i, k, t);
  }

  /** `id` holds hash `h` with flag `f`. */
  predicate Holds(c: Core, id: UserId, h: Hash, f: bool) {
    id in c.db.users && c.db.users[id].passwordHash == h && c.db.users[id].mustChangePassword == f
  }

  /** A hash used by `i` and held at `k` was held throughout, and the flag did not move. */
  lemma {:induction false} HashWasHeld(cs: seq<Core>, i: nat, k: nat, id: UserId, h: Hash, f: bool)
    requires Chain(cs) && i <= k < |cs| && EpochChain(cs, id, i, k)
    requires id in cs[i].ids && h in cs[i].hashes && Holds(cs[k], id, h, f)
    ensures forall j :: i <= j <= k ==> Holds(cs[j], id, h, f)
  {
    if i < k {
      UsedOnlyGrows(cs, i, k - 1);
      assert EpochFollows(cs[k - 1], cs[k], id);
      HashWasHeld(cs, i, k - 1, id, h, f);
    }
  }

  /** A hash that a user holds at two instants, with the flag it has at the second, it held
      throughout, flag included, if and only if no profile update of that user in between
      carried other credentials: nothing else brings a replaced hash back. */
  lemma EpochUnbroken(cs: seq<Core>, es: seq<Event>, i: nat, k: nat, id: UserId, h: Hash, f: bool)
    requires Run(cs, es) && i <= k <= |es| && Holds(cs[k], id, h, f)
    requires id in cs[i].db.users && cs[i].db.users[id].passwordHash == h
    ensures (forall j :: i <= j <= k ==> Holds(cs[j], id, h, f)) <==> CredentialsKept(cs, es, id, i, k)
  {
    hide Chain, EpochChain, Next, Enabled, Start;
    RunIsChain(cs, es);
    if CredentialsKept(cs, es, id, i, k) {
      KeptIsEpochChain(cs, es, id, i, k);
      AlwaysRecorded(cs, es, i);
      HashWasHeld(cs, i, k, id, h, f);
    }
    if forall j :: i <= j <= k ==> Holds(cs[j], id, h, f) {
      forall n | i <= n < k ensures KeepsCredentials(cs[n], es[n], id) {
        assert Holds(cs[n], id, h, f) && Holds(cs[n + 1], id, h, f);
        if Updates(cs[n], es[n], id) {
          UpdateWrites(cs[n], es[n], id);
        }
      }
    }
  }

  lemma {:induction false} CounterNeverFalls(cs: seq<Core>, i: nat, k: nat, id: UserId)
    requires Chain(cs) && i <= k < |cs|
    requires id in cs[i].ids && id in cs[k].db.users
    ensures id in cs[i].db.users
    ensures cs[i].db.users[id].totpLastCounter <= cs[k].db.users[id].totpLastCounter
  {
    if i < k {
      UsedOnlyGrows(cs, i, k - 1);
      assert Follows(cs[k - 1], cs[k]);
      CounterNeverFalls(cs, i, k - 1, id);
    }
  }

  predicate Accepts(c: Core, e: Event, id: UserId, counter: int) {
    e.Write? && e.op == SpendTotpCounter(id, counter) && Exec(c.db, e.op).1 == Ok
  }

  /** The counters accepted for a user strictly increase in commit order, whatever else the
      run contains: the one-time-use rule of section 5.2 of RFC 6238. */
  lemma AcceptedCountersIncrease(cs: seq<Core>, es: seq<Event>, i: nat, j: nat, id: UserId, a: int, b: int)
    requires Run(cs, es) && i < j < |es|
    requires Accepts(cs[i], es[i], id, a) && Accepts(cs[j], es[j], id, b)
    ensures a < b
  {
    RunIsChain(cs, es);
    assert cs[i + 1] == Next(cs[i], es[i]) && Recorded(cs[i + 1]);
    CounterNeverFalls(cs, i + 1, j, id);
  }

  /** The counter of a user moves only when one is accepted, and to that one. */
  lemma StepCounter(c: Core, e: Event, id: UserId)
    requires id in c.db.users && id in Next(c, e).db.users
    ensures var n := Next(c, e).db.users[id].totpLastCounter;
            if e.Write? && e.op.SpendTotpCounter? && Accepts(c, e, id, e.op.counter) then n == e.op.counter
            else n == c.db.users[id].totpLastCounter
  {
    WriteIsExec(c, e);
    if e.Write? {
      L.SucceedsIffAccepted(c.db, e.op);
      if L.Accepts(c.db, e.op) {
        L.UserRowAfter(c.db, e.op, id);
      }
    }
    hide Exec, Apply, L.NameFree;
  }

  /** Between two instants the stored counter is the larger of what it was and of those accepted. */
  ghost predicate CounterIsLargest(cs: seq<Core>, es: seq<Event>, i: nat, k: nat, id: UserId)
    requires |cs| == |es| + 1 && i <= k <= |es| && id in cs[i].db.users && id in cs[k].db.users
  {
    var now := cs[k].db.users[id].totpLastCounter;
    && cs[i].db.users[id].totpLastCounter <= now
    && (forall j, m :: i <= j < k && Accepts(cs[j], es[j], id, m) ==> m <= now)
    && (now == cs[i].db.users[id].totpLastCounter || exists j :: i <= j < k && Accepts(cs[j], es[j], id, now))
  }

  lemma {:induction false} CounterGrows(cs: seq<Core>, es: seq<Event>, i: nat, k: nat, id: UserId)
    requires Run(cs, es) && i <= k <= |es| && id in cs[i].db.users && id in cs[k].db.users
    ensures CounterIsLargest(cs, es, i, k, id)
  {
    hide Exec, Next, Enabled, Recorded, Start, Chain, Follows, L.Accepts;
    if i < k {
      RunIsChain(cs, es);
      AlwaysRecorded(cs, es, i);
      AlwaysRecorded(cs, es, k - 1);
      UsedOnlyGrows(cs, i, k - 1);
      IsRecorded(cs[i], id);
      StepUser(cs[k - 1], es[k - 1], id);
      CounterGrows(cs, es, i, k - 1, id);
      StepCounter(cs[k - 1], es[k - 1], id);
      AcceptedIsLarger(cs[k - 1], es[k - 1], id);
    }
  }

  lemma IsRecorded(c: Core, id: UserId)
    requires Recorded(c) && id in c.db.users
    ensures id in c.ids
  {
  }

  lemma AcceptedIsLarger(c: Core, e: Event, id: UserId)
    requires id in c.db.users
    ensures forall m :: Accepts(c, e, id, m) ==> e.op.counter == m && c.db.users[id].totpLastCounter < m
  {
    if e.Write? {
      L.SucceedsIffAccepted(c.db, e.op);
    }
    hide Exec;
  }

  /** A counter presented for a user is accepted if and only if it is above the one stored at any
      earlier instant and above every one accepted since: the code of the next period always
      is, and no code is refused that was not used or passed by. */
  lemma CounterAcceptedIff(cs: seq<Core>, es: seq<Event>, i: nat, k: nat, id: UserId, n: int)
    requires Run(cs, es) && i <= k < |es| && id in cs[i].db.users && id in cs[k].db.users
    requires es[k].Write? && es[k].op == SpendTotpCounter(id, n)
    ensures Accepts(cs[k], es[k], id, n) <==>
            && cs[i].db.users[id].totpLastCounter < n
            && forall j, m :: i <= j < k && Accepts(cs[j], es[j], id, m) ==> m < n
  {
    CounterGrows(cs, es, i, k, id);
    L.SucceedsIffAccepted(cs[k].db, es[k].op);
    hide Exec, Run;
  }

  // ----- names and codes ------------------------------------------------------------------------

  lemma StepKeepsUnique(c: Core, e: Event)
    requires UniqueNames(c.db.users) && UniqueCodes(c.db.pairings)
    ensures UniqueNames(Next(c, e).db.users) && UniqueCodes(Next(c, e).db.pairings)
  {
    WriteIsExec(c, e);
    if e.Write? {
      NamesStayUnique(c.db, e.op);
      CodesStayUnique(c.db, e.op);
      hide Exec;
      LateTouchesPairingsOnly(c.db, e.op, e.late);
    }
  }

  /** Through any run, whatever creations, profile updates and pairings race in it: no two users
      have one name and no two pairings one code. */
  lemma {:induction false} AlwaysUnique(cs: seq<Core>, es: seq<Event>, k: nat)
    requires Run(cs, es) && k < |cs| && UniqueNames(cs[0].db.users) && UniqueCodes(cs[0].db.pairings)
    ensures UniqueNames(cs[k].db.users) && UniqueCodes(cs[k].db.pairings)
  {
    hide Enabled, Next, Start, UniqueNames, UniqueCodes;
    if k > 0 {
      AlwaysUnique(cs, es, k - 1);
      StepKeepsUnique(cs[k - 1], es[k - 1]);
    }
  }

  // ----- deactivation -------------------------------------------------------------------

  ghost predicate InactiveThroughout(cs: seq<Core>, i: nat, k: nat, id: UserId)
    requires i <= k < |cs|
  {
    forall j :: i <= j <= k ==> id in cs[j].db.users ==> cs[j].db.users[id].status != ACTIVE
  }

  /** While a user is not active its session rows can only go. */
  lemma {:induction false} InactiveGainsNoSession(cs: seq<Core>, i: nat, k: nat, id: UserId, t: Token)
    requires Chain(cs) && i <= k < |cs| && InactiveThroughout(cs, i, k, id)
    requires t in cs[k].db.sessions && cs[k].db.sessions[t].userId == id
    ensures t in cs[i].db.sessions && cs[i].db.sessions[t] == cs[k].db.sessions[t]
  {
    if i < k {
      assert Follows(cs[k - 1], cs[k]);
      assert id in cs[k - 1].db.users ==> cs[k - 1].db.users[id].status != ACTIVE;
      InactiveGainsNoSession(cs, i, k - 1, id, t);
    }
  }

  lemma InactiveStaysWithout(cs: seq<Core>, i: nat, k: nat, id: UserId)
    requires Chain(cs) && i <= k < |cs| && InactiveThroughout(cs, i, k, id)
    requires forall t :: t in cs[i].db.sessions ==> cs[i].db.sessions[t].userId != id
    ensures forall t :: t in cs[k].db.sessions ==> cs[k].db.sessions[t].userId != id
  {
    hide Chain;
    forall t | t in cs[k].db.sessions
      ensures cs[k].db.sessions[t].userId != id
    {
      if cs[k].db.sessions[t].userId == id {
        InactiveGainsNoSession(cs, i, k, id, t);
      }
    }
  }

  /** From the session deletion that follows a deactivation on, until some write makes the
      user active again, the user has no session rows. */
  lemma DeactivatedUserHasNoSessions(cs: seq<Core>, es: seq<Event>, m: nat, k: nat, id: UserId)
    requires Run(cs, es) && m < k < |cs|
    requires es[m].Write? && es[m].op == DeleteUserSessions(id)
    requires InactiveThroughout(cs, m, k, id)
    ensures forall t :: t in cs[k].db.sessions ==> cs[k].db.sessions[t].userId != id
  {
    hide Chain, Start, Enabled;
    RunIsChain(cs, es);
    assert cs[m + 1] == Next(cs[m], es[m]);
    InactiveStaysWithout(cs, m + 1, k, id);
  }
}
