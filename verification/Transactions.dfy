/** The store's transactions statement by statement.  A transaction first updates, and so
    locks, the row of its user; its other writes stay invisible until it commits.  Any
    number of transactions and single-statement writes interleave, and any transaction may
    be rolled back at any point.

    A statement sees committed rows and its own writes; an update of a locked user row waits
    and then re-evaluates its WHERE clause, so here it runs when the row is free.  Rows of
    other tables are not locked: a write of a row that an open replacement has deleted, which
    on the database waits and then finds nothing, goes through at once here and is undone by
    the commit.  So there are more runs here than on the database, and none fewer. */
module Transactions {
  import opened Store

  type TxId = nat

  /** The calls that run as transactions. */
  predicate IsTx(op: StoreOp) {
    op.CreateSession? || op.CreateMfaChallenge? || op.CompletePasswordChange? || op.ResetAdminPassword?
  }

  function Target(op: StoreOp): UserId
    requires IsTx(op)
  {
    match op
    case CreateSession(_, session, _) => session.userId
    case CreateMfaChallenge(_, id, _, _) => id
    case CompletePasswordChange(id, _, _, _) => id
    case ResetAdminPassword(id, _) => id
  }

  /** How far a transaction has come: begun (0), user row locked (1), then for a grant the row
      inserted (2), for a replacement the user row rewritten (2), the three deletes (3, 4, 5)
      and the audit record (6).  The sets are the rows its deletes found. */
  datatype Tx = Tx(op: StoreOp, pc: nat, sessions: set<Token>, challenges: set<Token>, pairings: set<Secret>)

  predicate Done(tx: Tx) {
    tx.pc == if Replaces(tx.op) then 6 else 2
  }

  /** `db` holds committed rows only; `log` lists the calls in the order they took effect. */
  datatype State = State(db: Tables, locks: map<UserId, TxId>, txs: map<TxId, Tx>, log: seq<(StoreOp, Outcome)>)

  datatype Action =
    | Begin(id: TxId, op: StoreOp)
    | Statement(id: TxId)
    | Commit(id: TxId)
    | Abort(id: TxId)
    | Auto(op: StoreOp)

  /** Single-statement writes of the user row they name. */
  predicate WritesUser(op: StoreOp) {
    op.CreateUser? || op.UpdateUser? || op.DeleteUser? || op.UpdateRecoveryCodes? || op.SpendTotpCounter?
  }

  /** Another transaction has inserted the same key and not committed: the insert waits. */
  ghost predicate KeyHeld(s: State, id: TxId) {
    id in s.txs && exists i :: i in s.txs && i != id && SameKey(s.txs[i], s.txs[id])
  }

  predicate SameKey(x: Tx, y: Tx) {
    && x.pc >= 2
    && ((x.op.CreateSession? && y.op.CreateSession? && x.op.token == y.op.token) ||
        (x.op.CreateMfaChallenge? && y.op.CreateMfaChallenge? && x.op.token == y.op.token))
  }

  ghost predicate Can(s: State, act: Action) {
    match act
    case Begin(id, op) => id !in s.txs && IsTx(op)
    case Statement(id) =>
      && id in s.txs && IsTx(s.txs[id].op) && !Done(s.txs[id])
      && (s.txs[id].pc == 0 ==> Target(s.txs[id].op) !in s.locks)
      && (s.txs[id].pc == 1 ==> !KeyHeld(s, id))
    case Commit(id) => id in s.txs && IsTx(s.txs[id].op) && Done(s.txs[id])
    case Abort(id) => id in s.txs && IsTx(s.txs[id].op)
    case Auto(op) => !IsTx(op) && (WritesUser(op) ==> op.id !in s.locks)
  }

  /** The WHERE clause of the statement that locks the user row. */
  predicate Guard(db: Tables, op: StoreOp)
    requires IsTx(op)
  {
    match op
    case CreateSession(_, session, expected) => PasswordHolds(db, session.userId, expected)
    case CreateMfaChallenge(_, id, _, expected) => PasswordHolds(db, id, expected)
    case CompletePasswordChange(id, expected, _, _) => PasswordHolds(db, id, expected)
    case ResetAdminPassword(id, _) => id in db.users && db.users[id].ssoProvider == LOCAL
  }

  /** What the second statement may run into. */
  function SecondOutcome(db: Tables, op: StoreOp): Outcome
    requires IsTx(op) && Guard(db, op)
  {
    match op
    case CreateSession(token, _, _) => if token in db.sessions then Rejected else Ok
    case CreateMfaChallenge(token, _, _, _) => if token in db.challenges then Rejected else Ok
    case CompletePasswordChange(id, _, _, _) =>
      if db.users[id].mustChangePassword && db.users[id].ssoProvider == LOCAL then Ok else NotFound
    case ResetAdminPassword(_, _) => Ok
  }

  function Ends(s: State, id: TxId): State
    requires id in s.txs && IsTx(s.txs[id].op)
  {
    var u := Target(s.txs[id].op);
    s.(txs := s.txs - {id}, locks := if s.txs[id].pc > 0 then s.locks - {u} else s.locks)
  }

  /** One statement of transaction `id`. */
  function AfterStatement(s: State, id: TxId): State
    requires id in s.txs && IsTx(s.txs[id].op) && !Done(s.txs[id])
  {
    var tx := s.txs[id];
    var u := Target(tx.op);
    if tx.pc <= 1 && !Guard(s.db, tx.op) then
      Ends(s, id).(log := s.log + [(tx.op, NotFound)])
    else if tx.pc == 0 then
      s.(txs := s.txs[id := tx.(pc := if tx.op.ResetAdminPassword? then 2 else 1)], locks := s.locks[u := id])
    else if tx.pc == 1 then
      var r := SecondOutcome(s.db, tx.op);
      if r == Ok then s.(txs := s.txs[id := tx.(pc := 2)])
      else Ends(s, id).(log := s.log + [(tx.op, r)])
    else if tx.pc == 2 then
      s.(txs := s.txs[id := tx.(pc := 3, sessions := set t | t in s.db.sessions && s.db.sessions[t].userId == u)])
    else if tx.pc == 3 then
      s.(txs := s.txs[id := tx.(pc := 4, challenges := set t | t in s.db.challenges && s.db.challenges[t].userId == u)])
    else if tx.pc == 4 then
      s.(txs := s.txs[id := tx.(pc := 5, pairings := set p | p in s.db.pairings && s.db.pairings[p].userId == u)])
    else
      s.(txs := s.txs[id := tx.(pc := tx.pc + 1)])
  }

  /** The writes of a finished transaction becoming visible. */
  function Publish(db: Tables, tx: Tx): Tables
    requires IsTx(tx.op) && Target(tx.op) in db.users
  {
    match tx.op
    case CreateSession(token, session, _) => db.(sessions := db.sessions[token := session])
    case CreateMfaChallenge(token, id, expiresAt, expected) =>
      db.(challenges := db.challenges[token := Challenge(id, expiresAt, expected)])
    case CompletePasswordChange(id, _, newHash, ip) =>
      var record := AuditRecord(id, "auth.password_changed", FORCED, ip);
      Delete(db.(users := db.users[id := Replaced(db.users[id], newHash)]), tx, record)
    case ResetAdminPassword(id, newHash) =>
      var record := AuditRecord(id, "auth.password_changed", OPERATOR, "");
      Delete(db.(users := db.users[id := Reset(db.users[id], newHash)]), tx, record)
  }

  /** The pairings left when those of `u` among `seen` go. */
  function Unseen(m: map<Secret, Pairing>, seen: set<Secret>, u: UserId): map<Secret, Pairing> {
    map p | p in m && !(p in seen && m[p].userId == u) :: m[p]
  }

  function Delete(db: Tables, tx: Tx, record: AuditRecord): Tables
    requires IsTx(tx.op)
  {
    var u := Target(tx.op);
    db.(sessions := map t | t in db.sessions && !(t in tx.sessions && db.sessions[t].userId == u) :: db.sessions[t],
        challenges := map t | t in db.challenges && !(t in tx.challenges && db.challenges[t].userId == u)
                      :: db.challenges[t],
        pairings := Unseen(db.pairings, tx.pairings, u),
        audit := db.audit + [record])
  }

  ghost function Next(s: State, act: Action): State
    requires Can(s, act)
  {
    match act
    case Begin(id, op) => s.(txs := s.txs[id := Tx(op, 0, {}, {}, {})])
    case Statement(id) => AfterStatement(s, id)
    case Commit(id) =>
      if Target(s.txs[id].op) in s.db.users then
        Ends(s, id).(db := Publish(s.db, s.txs[id]), log := s.log + [(s.txs[id].op, Ok)])
      else s  // not reached: the row of a finished transaction is locked
    case Abort(id) => Ends(s, id)
    case Auto(op) => s.(db := Exec(s.db, op).0, log := s.log + [(op, Exec(s.db, op).1)])
  }

  // ----- what interleaving keeps --------------------------------------------------------------

  ghost predicate TxOk(s: State, id: TxId, tx: Tx) {
    && IsTx(tx.op)
    && tx.pc <= (if Replaces(tx.op) then 6 else 2)
    && (tx.pc >= 1 ==> Target(tx.op) in s.locks && s.locks[Target(tx.op)] == id && Guard(s.db, tx.op))
    && (tx.pc >= 2 ==> SecondOutcome(s.db, tx.op) == Ok)
    && (tx.pc >= 3 ==> forall t :: t in s.db.sessions && s.db.sessions[t].userId == Target(tx.op) ==> t in tx.sessions)
    && (tx.pc >= 4 ==>
          forall t :: t in s.db.challenges && s.db.challenges[t].userId == Target(tx.op) ==> t in tx.challenges)
  }

  ghost predicate Locked(s: State) {
    && (forall id :: id in s.txs ==> TxOk(s, id, s.txs[id]))
    && (forall u :: u in s.locks ==>
          s.locks[u] in s.txs && s.txs[s.locks[u]].pc >= 1 && Target(s.txs[s.locks[u]].op) == u)
    && (forall i, j :: i in s.txs && j in s.txs && i != j && s.txs[j].pc >= 2 ==> !SameKey(s.txs[i], s.txs[j]))
  }

  /** What a change of the committed tables by anyone else leaves a transaction to rely on. */
  ghost predicate Undisturbed(before: Tables, after: Tables, u: UserId) {
    && u in before.users && u in after.users && after.users[u] == before.users[u]
    && (forall t :: t in after.sessions && after.sessions[t].userId == u ==>
          t in before.sessions && before.sessions[t].userId == u)
    && (forall t :: t in after.challenges && after.challenges[t].userId == u ==>
          t in before.challenges && before.challenges[t].userId == u)
  }

  lemma StaysOk(s: State, after: Tables, id: TxId, tx: Tx)
    requires TxOk(s, id, tx)
    requires tx.pc >= 1 ==> Undisturbed(s.db, after, Target(tx.op))
    requires tx.pc >= 2 && tx.op.CreateSession? ==> tx.op.token !in after.sessions
    requires tx.pc >= 2 && tx.op.CreateMfaChallenge? ==> tx.op.token !in after.challenges
    ensures TxOk(s.(db := after), id, tx)
  {
  }

  lemma AutoKeepsUser(db: Tables, op: StoreOp, u: UserId)
    requires !IsTx(op) && u in db.users && (WritesUser(op) ==> op.id != u)
    ensures u in Exec(db, op).0.users && Exec(db, op).0.users[u] == db.users[u]
  {
    hide NameTaken, CodeTaken, SessionsWithout, ChallengesWithout, PairingsWithout;
  }

  /** A single-statement write touches no locked user row and inserts no grant. */
  lemma AutoDisturbsNobody(db: Tables, op: StoreOp, u: UserId)
    requires !IsTx(op) && u in db.users && (WritesUser(op) ==> op.id != u)
    ensures Undisturbed(db, Exec(db, op).0, u)
  {
    AutoKeepsUser(db, op, u);
    hide Exec;
    forall t | t in Exec(db, op).0.sessions ensures t in db.sessions && Exec(db, op).0.sessions[t] == db.sessions[t] {
      SessionRows(db, op, t);
    }
    forall t | t in Exec(db, op).0.challenges
      ensures t in db.challenges && Exec(db, op).0.challenges[t] == db.challenges[t]
    {
      ChallengeRows(db, op, t);
    }
  }

  lemma AutoInsertsNoGrant(db: Tables, op: StoreOp)
    requires !IsTx(op)
    ensures Exec(db, op).0.sessions.Keys <= db.sessions.Keys
    ensures Exec(db, op).0.challenges.Keys <= db.challenges.Keys
  {
    hide NameTaken, CodeTaken, PairingsWithout;
  }

  lemma PublishDisturbsOnlyItsUser(db: Tables, tx: Tx, u: UserId)
    requires IsTx(tx.op) && Target(tx.op) in db.users && Target(tx.op) != u && u in db.users
    ensures Undisturbed(db, Publish(db, tx), u)
  {
  }

  lemma AutoKeepsLocked(s: State, op: StoreOp)
    requires Locked(s) && Can(s, Auto(op))
    ensures Locked(Next(s, Auto(op)))
  {
    var d := Next(s, Auto(op));
    AutoInsertsNoGrant(s.db, op);
    hide Exec, Guard, SecondOutcome;
    forall id | id in s.txs
      ensures TxOk(d, id, s.txs[id])
    {
      var tx := s.txs[id];
      if tx.pc >= 1 {
        GuardNeedsUser(s.db, tx.op);
        AutoDisturbsNobody(s.db, op, Target(tx.op));
        if tx.pc >= 2 {
          SecondNeedsFreshKey(s.db, tx.op);
        }
      }
      StaysOk(s, d.db, id, tx);
      SameButLog(s, d, id, tx);
    }
  }

  lemma GuardNeedsUser(db: Tables, op: StoreOp)
    requires IsTx(op) && Guard(db, op)
    ensures Target(op) in db.users
  {
  }

  lemma SecondNeedsFreshKey(db: Tables, op: StoreOp)
    requires IsTx(op) && Guard(db, op) && SecondOutcome(db, op) == Ok
    ensures op.CreateSession? ==> op.token !in db.sessions
    ensures op.CreateMfaChallenge? ==> op.token !in db.challenges
  {
  }

  lemma SameButLog(s: State, d: State, id: TxId, tx: Tx)
    requires TxOk(s.(db := d.db), id, tx)
    requires tx.pc >= 1 ==> Target(tx.op) in d.locks && d.locks[Target(tx.op)] == id
    ensures TxOk(d, id, tx)
  {
  }

  lemma CommitKeepsLocked(s: State, c: TxId)
    requires Locked(s) && Can(s, Commit(c))
    ensures Locked(Next(s, Commit(c)))
  {
    var mine := s.txs[c];
    assert TxOk(s, c, mine);
    GuardNeedsUser(s.db, mine.op);
    var d := Next(s, Commit(c));
    hide Guard, SecondOutcome, Exec, Publish, SameKey, Target;
    forall id | id in d.txs
      ensures TxOk(d, id, d.txs[id])
    {
      CommitOfOthers(s, c, id);
    }
    hide TxOk;
  }

  lemma CommitOfOthers(s: State, c: TxId, id: TxId)
    requires Locked(s) && Can(s, Commit(c)) && id in s.txs && id != c
    ensures TxOk(Next(s, Commit(c)), id, s.txs[id])
  {
    var mine, tx, d := s.txs[c], s.txs[id], Next(s, Commit(c));
    assert TxOk(s, c, mine) && TxOk(s, id, tx);
    GuardNeedsUser(s.db, mine.op);
    hide Guard, SecondOutcome, Exec;
    if tx.pc >= 1 {
      GuardNeedsUser(s.db, tx.op);
      assert Target(tx.op) != Target(mine.op);
      PublishDisturbsOnlyItsUser(s.db, mine, Target(tx.op));
      if tx.pc >= 2 {
        SecondNeedsFreshKey(s.db, tx.op);
        assert !SameKey(mine, tx);
      }
    }
    hide Locked;
    StaysOk(s, d.db, id, tx);
    SameButLog(s, d, id, tx);
  }

  /** A statement of one transaction moves only that transaction. */
  lemma StatementShape(s: State, c: TxId)
    requires Locked(s) && Can(s, Statement(c))
    ensures var d := Next(s, Statement(c));
            && d.db == s.db && d.txs.Keys <= s.txs.Keys
            && (forall id :: id in s.txs && id != c ==> id in d.txs && d.txs[id] == s.txs[id])
            && (c in d.txs ==> d.txs[c].op == s.txs[c].op && d.txs[c].pc > s.txs[c].pc)
            && (c in d.txs && s.txs[c].pc == 0 && d.txs[c].pc >= 2 ==> Replaces(d.txs[c].op))
            && d.locks == if c !in d.txs then (if s.txs[c].pc > 0 then s.locks - {Target(s.txs[c].op)} else s.locks)
                          else if s.txs[c].pc == 0 then s.locks[Target(s.txs[c].op) := c] else s.locks
  {
    hide Guard, SecondOutcome, KeyHeld, Locked;
  }

  lemma StatementOfMine(s: State, c: TxId)
    requires Locked(s) && Can(s, Statement(c)) && c in Next(s, Statement(c)).txs
    ensures TxOk(Next(s, Statement(c)), c, Next(s, Statement(c)).txs[c])
  {
    assert TxOk(s, c, s.txs[c]);
  }

  lemma StatementOfOthers(s: State, c: TxId, id: TxId)
    requires Locked(s) && Can(s, Statement(c)) && id in s.txs && id != c
    ensures TxOk(Next(s, Statement(c)), id, s.txs[id])
  {
    var tx, mine, d := s.txs[id], s.txs[c], Next(s, Statement(c));
    assert TxOk(s, id, tx) && TxOk(s, c, mine);
    StatementShape(s, c);
    hide AfterStatement, Guard, SecondOutcome, KeyHeld, Locked;
    if tx.pc >= 1 {
      assert Target(tx.op) != Target(mine.op);
    }
    SameButLog(s, d, id, tx);
  }

  lemma StatementKeepsLocks(s: State, c: TxId, u: UserId)
    requires Locked(s) && Can(s, Statement(c)) && u in Next(s, Statement(c)).locks
    ensures var d := Next(s, Statement(c));
            d.locks[u] in d.txs && d.txs[d.locks[u]].pc >= 1 && Target(d.txs[d.locks[u]].op) == u
  {
    hide AfterStatement, Guard, SecondOutcome, KeyHeld;
    assert TxOk(s, c, s.txs[c]);
    StatementShape(s, c);
  }

  lemma StatementKeepsKeys(s: State, c: TxId, i: TxId, j: TxId)
    requires Locked(s) && Can(s, Statement(c))
    requires var d := Next(s, Statement(c)); i in d.txs && j in d.txs && i != j && d.txs[j].pc >= 2
    ensures !SameKey(Next(s, Statement(c)).txs[i], Next(s, Statement(c)).txs[j])
  {
    hide AfterStatement, Guard, SecondOutcome, TxOk, Target;
    StatementShape(s, c);
    if s.txs[c].pc == 1 {
      assert forall id :: id in s.txs && id != c ==> !SameKey(s.txs[id], s.txs[c]);
    }
  }

  lemma StatementKeepsLocked(s: State, c: TxId)
    requires Locked(s) && Can(s, Statement(c))
    ensures Locked(Next(s, Statement(c)))
  {
    var d := Next(s, Statement(c));
    hide AfterStatement, Guard, SecondOutcome, TxOk, Target, SameKey, KeyHeld;
    StatementShape(s, c);
    forall id | id in d.txs
      ensures TxOk(d, id, d.txs[id])
    {
      if id == c {
        StatementOfMine(s, c);
      } else {
        StatementOfOthers(s, c, id);
      }
    }
    forall u | u in d.locks
      ensures d.locks[u] in d.txs && d.txs[d.locks[u]].pc >= 1 && Target(d.txs[d.locks[u]].op) == u
    {
      StatementKeepsLocks(s, c, u);
    }
    forall i, j | i in d.txs && j in d.txs && i != j && d.txs[j].pc >= 2
      ensures !SameKey(d.txs[i], d.txs[j])
    {
      StatementKeepsKeys(s, c, i, j);
    }
  }

  lemma BeginKeepsLocked(s: State, id: TxId, op: StoreOp)
    requires Locked(s) && Can(s, Begin(id, op))
    ensures Locked(Next(s, Begin(id, op)))
  {
    var d := Next(s, Begin(id, op));
    hide Guard, SecondOutcome, TxOk, Target, IsTx, Replaces;
    forall i | i in d.txs ensures TxOk(d, i, d.txs[i]) {
      if i == id {
        BegunIsOk(d, id, op);
      } else {
        SameRowsSameOk(s, d, i, s.txs[i]);
      }
    }
    forall i, j | i in d.txs && j in d.txs && i != j && d.txs[j].pc >= 2
      ensures !SameKey(d.txs[i], d.txs[j])
    {
      if i != id {
        assert i in s.txs && j in s.txs;
      }
    }
  }

  lemma BegunIsOk(s: State, id: TxId, op: StoreOp)
    requires IsTx(op)
    ensures TxOk(s, id, Tx(op, 0, {}, {}, {}))
  {
    hide Guard, SecondOutcome, Target;
  }

  lemma SameRowsSameOk(s: State, d: State, id: TxId, tx: Tx)
    requires TxOk(s, id, tx) && d.db == s.db
    requires IsTx(tx.op) && tx.pc >= 1 && Target(tx.op) in s.locks ==>
               Target(tx.op) in d.locks && d.locks[Target(tx.op)] == s.locks[Target(tx.op)]
    ensures TxOk(d, id, tx)
  {
    hide Guard, SecondOutcome, Target;
  }

  lemma AbortKeepsLocked(s: State, id: TxId)
    requires Locked(s) && Can(s, Abort(id))
    ensures Locked(Next(s, Abort(id)))
  {
    var d := Next(s, Abort(id));
    hide Guard, SecondOutcome, Target, IsTx, Replaces, SameKey;
    forall i | i in d.txs ensures TxOk(d, i, d.txs[i]) {
      AbortOfOthers(s, id, i);
    }
    forall u | u in d.locks
      ensures d.locks[u] in d.txs && d.txs[d.locks[u]].pc >= 1 && Target(d.txs[d.locks[u]].op) == u
    {
      AbortKeepsLocks(s, id, u);
    }
  }

  lemma AbortOfOthers(s: State, id: TxId, i: TxId)
    requires Locked(s) && Can(s, Abort(id)) && i in s.txs && i != id
    ensures TxOk(Next(s, Abort(id)), i, s.txs[i])
  {
    assert TxOk(s, i, s.txs[i]) && TxOk(s, id, s.txs[id]);
    hide Guard, SecondOutcome, Target, Locked;
    SameRowsSameOk(s, Next(s, Abort(id)), i, s.txs[i]);
  }

  lemma AbortKeepsLocks(s: State, id: TxId, u: UserId)
    requires Locked(s) && Can(s, Abort(id)) && u in Next(s, Abort(id)).locks
    ensures var d := Next(s, Abort(id));
            d.locks[u] in d.txs && d.txs[d.locks[u]].pc >= 1 && Target(d.txs[d.locks[u]].op) == u
  {
    assert TxOk(s, id, s.txs[id]);
    hide Guard, SecondOutcome;
  }

  /** Whoever moves, every transaction under way still holds the lock on its user's row, the row
      still passes the tests of its statements so far, and its deletes cover every session and
      challenge of the user. */
  lemma StepKeepsLocked(s: State, act: Action)
    requires Locked(s) && Can(s, act)
    ensures Locked(Next(s, act))
  {
    hide Locked, Can, Next;
    match act
    case Auto(op) => AutoKeepsLocked(s, op);
    case Commit(id) => CommitKeepsLocked(s, id);
    case Statement(id) => StatementKeepsLocked(s, id);
    case Begin(id, op) => BeginKeepsLocked(s, id, op);
    case Abort(id) => AbortKeepsLocked(s, id);
  }

  // ----- the serial run -----------------------------------------------------------------------

  /** The logged calls run one at a time. */
  function Replay(db: Tables, log: seq<(StoreOp, Outcome)>): Tables {
    if log == [] then db else Exec(Replay(db, log[..|log| - 1]), log[|log| - 1].0).0
  }

  predicate TouchesPairings(op: StoreOp) {
    op.CreatePairing? || op.ConsumePairing? || op.CleanExpiredPairings?
  }

  /** Users, sessions, challenges and audit records are those of the calls run one at a time
      in the order they took effect, and each call reported what it then reports. */
  ghost predicate SerialGrants(start: Tables, s: State) {
    && Agree(Replay(start, s.log), s.db)
    && forall i :: 0 <= i < |s.log| && !TouchesPairings(s.log[i].0) ==>
         Exec(Replay(start, s.log[..i]), s.log[i].0).1 == s.log[i].1
  }

  /** The whole database is. */
  ghost predicate Serial(start: Tables, s: State) {
    && Replay(start, s.log) == s.db
    && forall i :: 0 <= i < |s.log| ==> Exec(Replay(start, s.log[..i]), s.log[i].0).1 == s.log[i].1
  }

  lemma PairingsDoNotMatter(a: Tables, b: Tables, op: StoreOp)
    requires Agree(a, b)
    ensures Agree(Exec(a, op).0, Exec(b, op).0)
    ensures !TouchesPairings(op) ==> Exec(a, op).1 == Exec(b, op).1
  {
    hide Exec, Agree;
    if IsTx(op) {
      PairingsDoNotMatterToTx(a, b, op);
    } else if WritesUser(op) {
      PairingsDoNotMatterToUsers(a, b, op);
    } else {
      PairingsDoNotMatterToRows(a, b, op);
    }
  }

  lemma PairingsDoNotMatterToTx(a: Tables, b: Tables, op: StoreOp)
    requires Agree(a, b) && IsTx(op)
    ensures Agree(Exec(a, op).0, Exec(b, op).0) && Exec(a, op).1 == Exec(b, op).1
  {
    hide NameTaken, CodeTaken, PairingsWithout, SessionsWithout, ChallengesWithout;
  }

  lemma PairingsDoNotMatterToUsers(a: Tables, b: Tables, op: StoreOp)
    requires Agree(a, b) && WritesUser(op)
    ensures Agree(Exec(a, op).0, Exec(b, op).0) && Exec(a, op).1 == Exec(b, op).1
  {
    hide NameTaken, CodeTaken, PairingsWithout, SessionsWithout, ChallengesWithout;
  }

  lemma PairingsDoNotMatterToRows(a: Tables, b: Tables, op: StoreOp)
    requires Agree(a, b) && !IsTx(op) && !WritesUser(op)
    ensures Agree(Exec(a, op).0, Exec(b, op).0)
    ensures !TouchesPairings(op) ==> Exec(a, op).1 == Exec(b, op).1
  {
    hide NameTaken, CodeTaken, PairingsWithout, SessionsWithout, ChallengesWithout;
  }

  /** What the delete of the pairings saw is all there is at the commit. */
  ghost predicate PairingsSeen(s: State, id: TxId)
    requires id in s.txs && IsTx(s.txs[id].op)
  {
    var tx := s.txs[id];
    Replaces(tx.op) ==>
      forall p :: p in s.db.pairings && s.db.pairings[p].userId == Target(tx.op) ==> p in tx.pairings
  }

  lemma InsertIsAtomic(s: State, id: TxId)
    requires Locked(s) && Can(s, Commit(id)) && Target(s.txs[id].op) in s.db.users && !Replaces(s.txs[id].op)
    ensures Exec(s.db, s.txs[id].op) == (Publish(s.db, s.txs[id]), Ok)
  {
    assert TxOk(s, id, s.txs[id]);
    hide Locked;
  }

  lemma ReplacementIsAtomic(s: State, id: TxId)
    requires Locked(s) && Can(s, Commit(id)) && Target(s.txs[id].op) in s.db.users && Replaces(s.txs[id].op)
    ensures Exec(s.db, s.txs[id].op).1 == Ok && Agree(Publish(s.db, s.txs[id]), Exec(s.db, s.txs[id].op).0)
  {
    var tx := s.txs[id];
    assert TxOk(s, id, tx);
    hide Locked, KeyHeld;
    ReplacementTables(s.db, tx);
  }

  /** What a finished replacement publishes, when its deletes cover the user's grants. */
  lemma ReplacementTables(db: Tables, tx: Tx)
    requires Replaces(tx.op) && Target(tx.op) in db.users && Guard(db, tx.op) && SecondOutcome(db, tx.op) == Ok
    requires forall t :: t in db.sessions && db.sessions[t].userId == Target(tx.op) ==> t in tx.sessions
    requires forall t :: t in db.challenges && db.challenges[t].userId == Target(tx.op) ==> t in tx.challenges
    ensures Exec(db, tx.op).1 == Ok && Agree(Publish(db, tx), Exec(db, tx.op).0)
  {
    hide NameTaken, CodeTaken, PairingsWithout, Unseen;
    var a, b := Publish(db, tx), Exec(db, tx.op).0;
    assert a.sessions == b.sessions;
    assert a.challenges == b.challenges;
  }

  lemma PairingsPublished(db: Tables, tx: Tx)
    requires Replaces(tx.op) && Target(tx.op) in db.users && Exec(db, tx.op).1 == Ok
    ensures Publish(db, tx).pairings == Unseen(db.pairings, tx.pairings, Target(tx.op))
    ensures Exec(db, tx.op).0.pairings == PairingsWithout(db.pairings, Target(tx.op))
  {
  }

  /** A commit leaves the pairings the whole call leaves, and those its delete did not see. */
  lemma ReplacementPairings(db: Tables, tx: Tx)
    requires Replaces(tx.op) && Target(tx.op) in db.users && Exec(db, tx.op).1 == Ok
    ensures var a, b := Publish(db, tx).pairings, Exec(db, tx.op).0.pairings;
            && (forall p :: p in b ==> p in a && a[p] == b[p])
            && (forall p :: p in a && p !in b <==>
                  p in db.pairings && db.pairings[p].userId == Target(tx.op) && p !in tx.pairings)
  {
    PairingsPublished(db, tx);
    hide Publish, Exec;
  }

  /** The pairings a commit leaves although the call deletes them: those not yet there when
      its delete looked. */
  ghost function Late(s: State, act: Action): set<Secret>
    requires Can(s, act)
  {
    if act.Commit? then s.db.pairings.Keys - s.txs[act.id].pairings else {}
  }

  lemma PublishIsApply(db: Tables, tx: Tx)
    requires Replaces(tx.op) && Target(tx.op) in db.users && Exec(db, tx.op).1 == Ok
    requires Agree(Publish(db, tx), Exec(db, tx.op).0)
    ensures Publish(db, tx) == Apply(db, tx.op, db.pairings.Keys - tx.pairings)
  {
    PairingsPublished(db, tx);
    hide Exec, Publish;
    assert Unseen(db.pairings, tx.pairings, Target(tx.op)) ==
           Store.PairingsLeft(db.pairings, tx.op.id, db.pairings.Keys - tx.pairings);
  }

  /** At the commit, the transaction's effect is that of the whole call run at that instant:
      always on users, sessions, challenges and audit records, and on the device pairings too
      if and only if no pairing of the user has been inserted since the delete looked. */
  lemma CommitIsAtomic(s: State, id: TxId)
    requires Locked(s) && Can(s, Commit(id)) && Target(s.txs[id].op) in s.db.users
    ensures var tx := s.txs[id];
            && Exec(s.db, tx.op).1 == Ok
            && Agree(Publish(s.db, tx), Exec(s.db, tx.op).0)
            && (Publish(s.db, tx) == Exec(s.db, tx.op).0 <==> PairingsSeen(s, id))
  {
    hide Locked, Exec, Publish;
    var tx := s.txs[id];
    if Replaces(tx.op) {
      ReplacementIsAtomic(s, id);
      ReplacementPairings(s.db, tx);
      var a, b := Publish(s.db, tx), Exec(s.db, tx.op).0;
      if PairingsSeen(s, id) {
        assert a.pairings == b.pairings;
      } else {
        var p :| p in s.db.pairings && s.db.pairings[p].userId == Target(tx.op) && p !in tx.pairings;
        assert p in a.pairings && p !in b.pairings;
      }
    } else {
      InsertIsAtomic(s, id);
    }
  }

  // ----- whole runs ----------------------------------------------------------------------------

  ghost predicate Init(s: State) {
    s.locks == map[] && s.txs == map[] && s.log == []
  }

  ghost predicate Run(ss: seq<State>, acts: seq<Action>) {
    && |ss| == |acts| + 1
    && Init(ss[0])
    && forall i :: 0 <= i < |acts| ==> Can(ss[i], acts[i]) && ss[i + 1] == Next(ss[i], acts[i])
  }

  lemma {:induction false} AlwaysLocked(ss: seq<State>, acts: seq<Action>, k: nat)
    requires Run(ss, acts) && k < |ss|
    ensures Locked(ss[k])
  {
    if k > 0 {
      hide Locked, Next, Init;
      AlwaysLocked(ss, acts, k - 1);
      assert Can(ss[k - 1], acts[k - 1]);
      StepKeepsLocked(ss[k - 1], acts[k - 1]);
    }
  }

  /** Nothing but a committing replacement can miss a pairing. */
  ghost predicate Clean(s: State, act: Action)
    requires Can(s, act)
  {
    act.Commit? ==> PairingsSeen(s, act.id)
  }

  /** A call takes effect in one step: `d` is `s` with the call last in its log applied. */
  ghost predicate TakesEffect(s: State, d: State) {
    && |d.log| == |s.log| + 1 && d.log[..|s.log|] == s.log
    && var (op, r) := d.log[|s.log|];
       Exec(s.db, op).1 == r && Agree(Exec(s.db, op).0, d.db)
  }

  lemma StatementEffect(s: State, c: TxId)
    requires Locked(s) && Can(s, Statement(c))
    ensures var d := Next(s, Statement(c));
            && d.db == s.db
            && (d.log == s.log || (TakesEffect(s, d) && Exec(s.db, d.log[|s.log|].0).0 == s.db))
  {
    assert TxOk(s, c, s.txs[c]);
    hide Locked, KeyHeld;
  }

  lemma CommitEffect(s: State, id: TxId)
    requires Locked(s) && Can(s, Commit(id))
    ensures var d := Next(s, Commit(id));
            TakesEffect(s, d) && (Exec(s.db, d.log[|s.log|].0).0 == d.db <==> PairingsSeen(s, id))
  {
    assert TxOk(s, id, s.txs[id]);
    GuardNeedsUser(s.db, s.txs[id].op);
    hide Locked, Exec, Publish, Guard, SecondOutcome;
    CommitIsAtomic(s, id);
  }

  lemma StepEffect(s: State, act: Action)
    requires Locked(s) && Can(s, act)
    ensures var d := Next(s, act);
            || (d.log == s.log && d.db == s.db && Clean(s, act))
            || (TakesEffect(s, d) && (Exec(s.db, d.log[|s.log|].0).0 == d.db <==> Clean(s, act)))
  {
    hide Locked, Exec, Publish, AfterStatement, PairingsSeen;
    match act
    case Statement(c) => StatementEffect(s, c);
    case Commit(id) => CommitEffect(s, id);
    case _ =>
  }

  /** Every step leaves the committed tables alone, or makes one call take effect: the tables
      are those the call leaves when its delete misses `Late`, and its report is as logged. */
  lemma StepIsApply(s: State, act: Action)
    requires Locked(s) && Can(s, act)
    ensures var d := Next(s, act);
            || (d.log == s.log && d.db == s.db)
            || (&& |d.log| == |s.log| + 1 && d.log[..|s.log|] == s.log
                && var (op, r) := d.log[|s.log|];
                   Exec(s.db, op).1 == r && d.db == Apply(s.db, op, Late(s, act)))
  {
    StepEffect(s, act);
    match act
    case Commit(id) => CommitIsApply(s, id);
    case Statement(c) =>
      StatementIsApply(s, c);
    case Auto(op) =>
      hide Locked, Exec, Publish, AfterStatement, PairingsSeen;
      LateTouchesPairingsOnly(s.db, op, {});
    case _ =>
  }

  lemma CommitIsApply(s: State, id: TxId)
    requires Locked(s) && Can(s, Commit(id))
    ensures var d := Next(s, Commit(id));
            d.log == s.log + [(s.txs[id].op, Ok)] && d.db == Apply(s.db, s.txs[id].op, Late(s, Commit(id)))
  {
    var tx := s.txs[id];
    assert TxOk(s, id, tx);
    GuardNeedsUser(s.db, tx.op);
    hide Locked, Exec, Publish, Guard, SecondOutcome, Apply;
    CommitIsAtomic(s, id);
    if Replaces(tx.op) {
      PublishIsApply(s.db, tx);
    } else {
      InsertIsAtomic(s, id);
      LateTouchesPairingsOnly(s.db, tx.op, Late(s, Commit(id)));
    }
  }

  lemma StatementIsApply(s: State, c: TxId)
    requires Locked(s) && Can(s, Statement(c))
    ensures var d := Next(s, Statement(c));
            d.db == s.db && (d.log == s.log || (TakesEffect(s, d) && Apply(s.db, d.log[|s.log|].0, {}) == s.db))
  {
    StatementEffect(s, c);
    StatementFails(s, c);
    hide Locked, Exec, AfterStatement, KeyHeld;
  }

  lemma StatementFails(s: State, c: TxId)
    requires Locked(s) && Can(s, Statement(c))
    ensures var d := Next(s, Statement(c)); d.log == s.log || (|d.log| > |s.log| && d.log[|s.log|].1 != Ok)
  {
    assert TxOk(s, c, s.txs[c]);
    hide Locked, KeyHeld, Exec;
  }

  lemma ReplayLast(start: Tables, log: seq<(StoreOp, Outcome)>, last: (StoreOp, Outcome))
    ensures Replay(start, log + [last]) == Exec(Replay(start, log), last.0).0
  {
    assert (log + [last])[..|log|] == log;
  }

  lemma EffectKeepsSerialGrants(start: Tables, s: State, d: State)
    requires SerialGrants(start, s) && TakesEffect(s, d)
    ensures SerialGrants(start, d)
  {
    hide Exec, Replay;
    var last := d.log[|s.log|];
    assert d.log == s.log + [last];
    ReplayLast(start, s.log, last);
    PairingsDoNotMatter(Replay(start, s.log), s.db, last.0);
    forall i | 0 <= i < |d.log| && !TouchesPairings(d.log[i].0)
      ensures Exec(Replay(start, d.log[..i]), d.log[i].0).1 == d.log[i].1
    {
      if i < |s.log| {
        assert d.log[..i] == s.log[..i];
      }
    }
  }

  /** Statement-level transactions refine atomic ones.  For any number of interleaved grants,
      replacements, resets and single-statement writes, with rollbacks anywhere, the
      committed users, sessions, challenges and audit records are those of the same calls
      run one at a time in the order they took effect, and so is what every call reported that
      does not work on pairings. */
  lemma {:induction false} GrantTablesSerialize(ss: seq<State>, acts: seq<Action>, k: nat)
    requires Run(ss, acts) && k < |ss|
    ensures SerialGrants(ss[0].db, ss[k])
  {
    if k > 0 {
      hide Exec, Next, Locked, SerialGrants, Can;
      GrantTablesSerialize(ss, acts, k - 1);
      AlwaysLocked(ss, acts, k - 1);
      assert Can(ss[k - 1], acts[k - 1]) && ss[k] == Next(ss[k - 1], acts[k - 1]);
      StepEffect(ss[k - 1], acts[k - 1]);
      if ss[k].log == ss[k - 1].log {
        SilentKeepsSerialGrants(ss[0].db, ss[k - 1], ss[k]);
      } else {
        EffectKeepsSerialGrants(ss[0].db, ss[k - 1], ss[k]);
      }
    }
  }

  lemma SilentKeepsSerialGrants(start: Tables, s: State, d: State)
    requires SerialGrants(start, s) && d.log == s.log && d.db == s.db
    ensures SerialGrants(start, d)
  {
  }

  /** Extending a serial state by a call: it stays serial exactly when the pairings match. */
  lemma EffectKeepsSerialIff(start: Tables, s: State, d: State)
    requires Serial(start, s) && TakesEffect(s, d)
    ensures Serial(start, d) <==> Exec(s.db, d.log[|s.log|].0).0 == d.db
  {
    hide Exec, Replay;
    var last := d.log[|s.log|];
    assert d.log == s.log + [last];
    ReplayLast(start, s.log, last);
    forall i | 0 <= i < |d.log|
      ensures Exec(Replay(start, d.log[..i]), d.log[i].0).1 == d.log[i].1
    {
      if i < |s.log| {
        assert d.log[..i] == s.log[..i];
      }
    }
  }

  lemma StepSerialIff(start: Tables, s: State, act: Action)
    requires Locked(s) && Can(s, act) && Serial(start, s)
    ensures Serial(start, Next(s, act)) <==> Clean(s, act)
  {
    hide Exec, Next, Locked, Can, Clean;
    StepEffect(s, act);
    var d := Next(s, act);
    if d.log != s.log {
      EffectKeepsSerialIff(start, s, d);
    }
  }

  lemma {:induction false} CleanRunsSerialize(ss: seq<State>, acts: seq<Action>, k: nat)
    requires Run(ss, acts) && k < |ss| && forall i :: 0 <= i < k ==> Clean(ss[i], acts[i])
    ensures Serial(ss[0].db, ss[k])
  {
    if k > 0 {
      hide Exec, Next, Locked, Can, Clean, Serial;
      CleanRunsSerialize(ss, acts, k - 1);
      AlwaysLocked(ss, acts, k - 1);
      assert Can(ss[k - 1], acts[k - 1]) && ss[k] == Next(ss[k - 1], acts[k - 1]);
      StepSerialIff(ss[0].db, ss[k - 1], acts[k - 1]);
    }
  }

  /** Device pairings are inserted without the user lock, so for the whole database the claim
      has an exact condition: every state of a run is serial if and only if no replacement
      commits over a pairing of its user that its delete did not see. */
  lemma WholeDatabaseSerializesIff(ss: seq<State>, acts: seq<Action>)
    requires Run(ss, acts)
    ensures (forall k :: 0 <= k < |ss| ==> Serial(ss[0].db, ss[k])) <==>
            (forall k :: 0 <= k < |acts| ==> Clean(ss[k], acts[k]))
  {
    hide Exec, Next, Locked, Can, Clean, Serial;
    if forall k :: 0 <= k < |acts| ==> Clean(ss[k], acts[k]) {
      forall k | 0 <= k < |ss| ensures Serial(ss[0].db, ss[k]) {
        CleanRunsSerialize(ss, acts, k);
      }
    } else {
      var k :| 0 <= k < |acts| && !Clean(ss[k], acts[k]);
      AlwaysLocked(ss, acts, k);
      assert Can(ss[k], acts[k]) && ss[k + 1] == Next(ss[k], acts[k]);
      if Serial(ss[0].db, ss[k]) {
        StepSerialIff(ss[0].db, ss[k], acts[k]);
      }
    }
  }

  // ----- progress --------------------------------------------------------------------------------

  /** The statements, and the commit, a transaction has before it. */
  function Ahead(tx: Tx): nat {
    if tx.pc <= 6 then 7 - tx.pc else 0
  }

  ghost function AheadOf(ids: set<TxId>, txs: map<TxId, Tx>): nat
    requires ids <= txs.Keys
  {
    if ids == {} then 0
    else
      var i :| i in ids;
      Ahead(txs[i]) + AheadOf(ids - {i}, txs)
  }

  lemma {:induction false} AheadSplit(ids: set<TxId>, txs: map<TxId, Tx>, j: TxId)
    requires ids <= txs.Keys && j in ids
    ensures AheadOf(ids, txs) == Ahead(txs[j]) + AheadOf(ids - {j}, txs)
  {
    hide Ahead;
    var i :| i in ids && AheadOf(ids, txs) == Ahead(txs[i]) + AheadOf(ids - {i}, txs);
    if i != j {
      AheadSplit(ids - {i}, txs, j);
      AheadSplit(ids - {j}, txs, i);
      assert ids - {i} - {j} == ids - {j} - {i};
    }
  }

  lemma {:induction false} AheadSame(ids: set<TxId>, txs: map<TxId, Tx>, txs': map<TxId, Tx>)
    requires ids <= txs.Keys && ids <= txs'.Keys && forall i :: i in ids ==> txs'[i] == txs[i]
    ensures AheadOf(ids, txs') == AheadOf(ids, txs)
  {
    hide Ahead;
    if i :| i in ids {
      AheadSplit(ids, txs, i);
      AheadSplit(ids, txs', i);
      AheadSame(ids - {i}, txs, txs');
    }
  }

  /** A transaction waits only for one that can move: for the holder of its user's lock, and that
      one, if its insert waits for a key, for a transaction that can commit. */
  lemma SomebodyCanMove(s: State) returns (act: Action)
    requires Locked(s) && s.txs != map[]
    ensures (act.Statement? || act.Commit?) && Can(s, act)
  {
    var id :| id in s.txs;
    if s.txs[id].pc == 0 && Target(s.txs[id].op) in s.locks {
      act := HolderCanMove(s, s.locks[Target(s.txs[id].op)]);
    } else if s.txs[id].pc == 0 {
      act := Statement(id);
    } else {
      act := HolderCanMove(s, id);
    }
  }

  lemma HolderCanMove(s: State, id: TxId) returns (act: Action)
    requires Locked(s) && id in s.txs && s.txs[id].pc >= 1
    ensures (act.Statement? || act.Commit?) && Can(s, act)
  {
    assert TxOk(s, id, s.txs[id]);
    if Done(s.txs[id]) {
      act := Commit(id);
    } else if s.txs[id].pc == 1 && KeyHeld(s, id) {
      var i :| i in s.txs && i != id && SameKey(s.txs[i], s.txs[id]);
      assert TxOk(s, i, s.txs[i]);
      act := Commit(i);
    } else {
      act := Statement(id);
    }
  }

  /** What a statement or a commit leaves of the transactions under way. */
  lemma MoveShape(s: State, act: Action)
    requires Locked(s) && Can(s, act) && (act.Statement? || act.Commit?)
    ensures var d := Next(s, act);
            && act.id in s.txs && s.txs[act.id].pc <= 6
            && (forall i :: i in s.txs && i != act.id ==> i in d.txs && d.txs[i] == s.txs[i])
            && d.txs.Keys <= s.txs.Keys
            && (act.id in d.txs ==> d.txs[act.id].pc > s.txs[act.id].pc)
  {
    assert TxOk(s, act.id, s.txs[act.id]);
    if act.Statement? {
      StatementShape(s, act.id);
    } else {
      GuardNeedsUser(s.db, s.txs[act.id].op);
    }
    hide Locked, AfterStatement, Publish, Guard, SecondOutcome, KeyHeld;
  }

  /** Statements and commits use up what is ahead, so they cannot go on for ever. */
  lemma MovingShrinks(s: State, act: Action)
    requires Locked(s) && Can(s, act) && (act.Statement? || act.Commit?)
    ensures AheadOf(Next(s, act).txs.Keys, Next(s, act).txs) < AheadOf(s.txs.Keys, s.txs)
  {
    hide Locked, Can, Next;
    MoveShape(s, act);
    var d, c := Next(s, act), act.id;
    var others := s.txs.Keys - {c};
    AheadSplit(s.txs.Keys, s.txs, c);
    AheadSame(others, s.txs, d.txs);
    if c in d.txs {
      AheadSplit(d.txs.Keys, d.txs, c);
      assert d.txs.Keys - {c} == others;
    } else {
      assert d.txs.Keys == others;
    }
  }

  lemma RunOn(ss: seq<State>, acts: seq<Action>, act: Action)
    requires Run(ss, acts) && Can(ss[|acts|], act)
    ensures Run(ss + [Next(ss[|acts|], act)], acts + [act])
  {
    hide Can, Next, Init;
    var ss', acts' := ss + [Next(ss[|acts|], act)], acts + [act];
    forall i | 0 <= i < |acts'| ensures Can(ss'[i], acts'[i]) && ss'[i + 1] == Next(ss'[i], acts'[i]) {
      if i < |acts| {
        assert ss'[i] == ss[i] && ss'[i + 1] == ss[i + 1] && acts'[i] == acts[i];
      }
    }
  }

  /** No deadlock: from every state of every run the open transactions can all be brought to their
      end, by statements and commits of theirs alone. */
  lemma {:induction false} AllCanEnd(ss: seq<State>, acts: seq<Action>) returns (ss': seq<State>, acts': seq<Action>)
    requires Run(ss, acts)
    ensures Run(ss', acts') && ss <= ss' && acts <= acts' && ss'[|acts'|].txs == map[]
    ensures forall i :: |acts| <= i < |acts'| ==> acts'[i].Statement? || acts'[i].Commit?
    decreases AheadOf(ss[|acts|].txs.Keys, ss[|acts|].txs)
  {
    hide Can, Next, Init, Locked, AheadOf;
    var s := ss[|acts|];
    if s.txs == map[] {
      return ss, acts;
    }
    AlwaysLocked(ss, acts, |acts|);
    var act := SomebodyCanMove(s);
    MovingShrinks(s, act);
    RunOn(ss, acts, act);
    ss', acts' := AllCanEnd(ss + [Next(s, act)], acts + [act]);
    assert (acts + [act])[|acts|] == act && acts'[|acts|] == act;
  }

  /** Nobody waits for a transaction of another user: a call on a user whose row is free begins and
      gets its lock, or goes through, whatever else is open; a transaction that has its lock goes
      on unless another holds the very key it inserts; and each can be rolled back at any time. */
  lemma OnlyItsUserIsWaitedFor(s: State, id: TxId, op: StoreOp)
    requires Locked(s)
    ensures !IsTx(op) && (WritesUser(op) ==> op.id !in s.locks) ==> Can(s, Auto(op))
    ensures IsTx(op) && id !in s.txs && Target(op) !in s.locks ==>
              Can(s, Begin(id, op)) && Can(Next(s, Begin(id, op)), Statement(id))
    ensures id in s.txs && s.txs[id].pc >= 1 && !Done(s.txs[id]) && (s.txs[id].pc == 1 ==> !KeyHeld(s, id)) ==>
              Can(s, Statement(id))
    ensures id in s.txs ==> Can(s, Abort(id)) && (Done(s.txs[id]) ==> Can(s, Commit(id)))
  {
    if id in s.txs {
      assert TxOk(s, id, s.txs[id]);
    }
    hide Guard, SecondOutcome, KeyHeld, TxOk, SameKey;
  }

  // ----- every serial run is one of these runs ----------------------------------------------------

  /** One transaction is open, on the tables and the log it began on. */
  ghost predicate Alone(s: State, id: TxId, op: StoreOp, db: Tables, log: seq<(StoreOp, Outcome)>) {
    && s.db == db && s.log == log && s.txs.Keys == {id} && s.txs[id].op == op && IsTx(op)
    && (s.txs[id].pc >= 5 ==> PairingsSeen(s, id))
  }

  /** The call has taken effect as a whole, and nothing is open. */
  ghost predicate Effected(d: State, op: StoreOp, db: Tables, log: seq<(StoreOp, Outcome)>) {
    d.txs == map[] && d.log == log + [(op, Exec(db, op).1)] && d.db == Exec(db, op).0
  }

  lemma StatementAlone(s: State, id: TxId, op: StoreOp)
    requires Locked(s) && Can(s, Statement(id)) && Alone(s, id, op, s.db, s.log)
    ensures var d := Next(s, Statement(id));
            if id in d.txs then Alone(d, id, op, s.db, s.log) && Ahead(d.txs[id]) < Ahead(s.txs[id])
            else Effected(d, op, s.db, s.log)
  {
    var d := Next(s, Statement(id));
    StatementShape(s, id);
    StatementEffect(s, id);
    StatementSaysWhat(s, id);
    StatementSeesPairings(s, id);
    assert TxOk(s, id, s.txs[id]);
    hide Locked, Can, Next, AfterStatement, Exec, Guard, SecondOutcome, KeyHeld, PairingsSeen, TxOk;
    if id !in d.txs {
      assert d.txs.Keys == {};
      assert d.log[|s.log|] == (op, Exec(s.db, op).1);
    }
  }

  lemma StatementSaysWhat(s: State, id: TxId)
    requires Locked(s) && Can(s, Statement(id))
    ensures var d := Next(s, Statement(id));
            && (id in d.txs ==> d.log == s.log && s.txs[id].pc <= 6)
            && (id !in d.txs ==> |d.log| == |s.log| + 1 && d.log == s.log + [d.log[|s.log|]])
            && (id !in d.txs ==> d.log[|s.log|].0 == s.txs[id].op)
  {
    assert TxOk(s, id, s.txs[id]);
    hide Locked, KeyHeld, Exec, Guard, SecondOutcome;
  }

  lemma StatementSeesPairings(s: State, id: TxId)
    requires Locked(s) && Can(s, Statement(id)) && (s.txs[id].pc >= 5 ==> PairingsSeen(s, id))
    ensures var d := Next(s, Statement(id)); id in d.txs && d.txs[id].pc >= 5 ==> PairingsSeen(d, id)
  {
    assert TxOk(s, id, s.txs[id]);
    hide Locked, KeyHeld, Exec, Guard, SecondOutcome;
  }

  lemma CommitAlone(s: State, id: TxId, op: StoreOp)
    requires Locked(s) && Can(s, Commit(id)) && Alone(s, id, op, s.db, s.log)
    ensures Effected(Next(s, Commit(id)), op, s.db, s.log)
  {
    assert TxOk(s, id, s.txs[id]);
    GuardNeedsUser(s.db, op);
    CommitIsAtomic(s, id);
    hide Locked, Exec, Publish, Guard, SecondOutcome;
    assert Next(s, Commit(id)).txs.Keys == {};
  }

  lemma {:induction false} Finishing(ss: seq<State>, acts: seq<Action>, id: TxId, op: StoreOp, db: Tables,
                                     log: seq<(StoreOp, Outcome)>)
    returns (ss': seq<State>, acts': seq<Action>)
    requires Run(ss, acts) && Alone(ss[|acts|], id, op, db, log)
    ensures Run(ss', acts') && ss <= ss' && acts <= acts' && Effected(ss'[|acts'|], op, db, log)
    decreases Ahead(ss[|acts|].txs[id])
  {
    var s := ss[|acts|];
    AlwaysLocked(ss, acts, |acts|);
    var act := if Done(s.txs[id]) then Commit(id) else Statement(id);
    MayMove(s, id, op, db, log);
    RunOn(ss, acts, act);
    hide Can, Next, Locked, Init, Effected;
    ss', acts' := ss + [Next(s, act)], acts + [act];
    if Done(s.txs[id]) {
      CommitAlone(s, id, op);
    } else {
      StatementAlone(s, id, op);
      if id in Next(s, act).txs {
        ss', acts' := Finishing(ss + [Next(s, act)], acts + [act], id, op, db, log);
      }
    }
  }

  /** Nobody is in the way of a transaction that is the only one. */
  lemma MayMove(s: State, id: TxId, op: StoreOp, db: Tables, log: seq<(StoreOp, Outcome)>)
    requires Locked(s) && Alone(s, id, op, db, log)
    ensures Can(s, if Done(s.txs[id]) then Commit(id) else Statement(id))
  {
    assert TxOk(s, id, s.txs[id]);
    hide Guard, SecondOutcome;
  }

  /** When nothing is open any call can be made, and goes through as a whole. */
  lemma OneCall(ss: seq<State>, acts: seq<Action>, op: StoreOp) returns (ss': seq<State>, acts': seq<Action>)
    requires Run(ss, acts) && ss[|acts|].txs == map[]
    ensures Run(ss', acts') && ss <= ss' && acts <= acts'
    ensures Effected(ss'[|acts'|], op, ss[|acts|].db, ss[|acts|].log)
  {
    var s := ss[|acts|];
    AlwaysLocked(ss, acts, |acts|);
    NothingLocked(s);
    var act := if IsTx(op) then Begin(0, op) else Auto(op);
    assert Can(s, act);
    RunOn(ss, acts, act);
    ss', acts' := ss + [Next(s, act)], acts + [act];
    if IsTx(op) {
      BeginsAlone(s, op);
      hide Can, Next, Locked, Init, Effected, Alone;
      ss', acts' := Finishing(ss', acts', 0, op, s.db, s.log);
    }
  }

  lemma NothingLocked(s: State)
    requires Locked(s) && s.txs == map[]
    ensures s.locks == map[]
  {
    assert forall u :: u in s.locks ==> s.locks[u] in s.txs;
  }

  lemma BeginsAlone(s: State, op: StoreOp)
    requires s.txs == map[] && IsTx(op)
    ensures Alone(Next(s, Begin(0, op)), 0, op, s.db, s.log)
  {
  }

  /** The calls one at a time, and what each reports. */
  ghost function SerialLog(db: Tables, ops: seq<StoreOp>): seq<(StoreOp, Outcome)> {
    if ops == [] then []
    else
      var before := SerialLog(db, ops[..|ops| - 1]);
      before + [(ops[|ops| - 1], Exec(Replay(db, before), ops[|ops| - 1]).1)]
  }

  /** Any calls, one at a time, are one of the runs: with nothing else under way a transaction is
      never rolled back or held up, and has the effect and the report of the whole call. */
  lemma {:induction false} SerialRunsAreRuns(db: Tables, ops: seq<StoreOp>)
    returns (ss: seq<State>, acts: seq<Action>)
    ensures Run(ss, acts) && ss[0].db == db && ss[|acts|].txs == map[]
    ensures ss[|acts|].log == SerialLog(db, ops) && ss[|acts|].db == Replay(db, SerialLog(db, ops))
  {
    hide Exec, Can, Next, Replay;
    if ops == [] {
      ss, acts := [State(db, map[], map[], [])], [];
      ReplaysNothing(db);
    } else {
      var last := ops[|ops| - 1];
      ss, acts := SerialRunsAreRuns(db, ops[..|ops| - 1]);
      var s := ss[|acts|];
      ss, acts := OneCall(ss, acts, last);
      ReplayLast(db, s.log, (last, Exec(s.db, last).1));
    }
  }

  lemma ReplaysNothing(db: Tables)
    ensures Replay(db, []) == db
  {
  }
}
