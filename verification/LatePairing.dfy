/** A device pairing inserted between the delete and the commit of a password reset
    outlives the reset: the run that shows why `WholeDatabaseSerializesIff` has a condition.
    Its last tables are those of the reset run before the insert, but the insert committed
    first, so no serial run of the two calls goes through the tables that were committed. */
module LatePairing {
  import opened Store
  import opened Transactions

  const ID: UserId := "u"
  const USER := User("admin", "", "", "h0", ADMIN, ACTIVE, LOCAL, "", "", false, Codes([]), "", false, 0)
  const RESET := ResetAdminPassword(ID, "h1")
  const PAIRING := Pairing("123456", ID, Device("", "", ""), PENDING, 90)
  const INSERT := CreatePairing("p", PAIRING)

  function Db(pairings: map<Secret, Pairing>): Tables {
    Tables(map[ID := USER], map[], map[], pairings, [])
  }

  function At(pc: nat): State {
    State(Db(map[]), if pc == 0 then map[] else map[ID := 1], map[1 := Tx(RESET, pc, {}, {}, {})], [])
  }

  function Acts(): seq<Action> {
    [Begin(1, RESET), Statement(1), Statement(1), Statement(1), Statement(1), Statement(1), Auto(INSERT), Commit(1)]
  }

  /** The last state but one: the pairing is in, the reset is about to commit. */
  function Late(): State {
    At(6).(db := Db(map["p" := PAIRING]), log := [(INSERT, Ok)])
  }

  function Committed(): State {
    State(Tables(map[ID := Reset(USER, "h1")], map[], map[], map["p" := PAIRING],
                 [AuditRecord(ID, "auth.password_changed", OPERATOR, "")]),
          map[], map[], [(INSERT, Ok), (RESET, Ok)])
  }

  function Trace(): seq<State> {
    [State(Db(map[]), map[], map[], []), At(0), At(2), At(3), At(4), At(5), At(6), Late(), Committed()]
  }

  lemma Statements(pc: nat)
    requires pc in {0, 2, 3, 4, 5}
    ensures Can(At(pc), Statement(1))
    ensures Next(At(pc), Statement(1)) == At(if pc == 0 then 2 else pc + 1)
  {
    var d := Next(At(pc), Statement(1));
    assert d.txs[1].sessions == {} && d.txs[1].challenges == {} && d.txs[1].pairings == {};
    assert d.txs == At(if pc == 0 then 2 else pc + 1).txs;
  }

  lemma Inserts()
    ensures Can(At(6), Auto(INSERT)) && Next(At(6), Auto(INSERT)) == Late()
  {
    assert !CodeTaken(At(6).db.pairings, "123456");
    assert Next(At(6), Auto(INSERT)).db.pairings == Late().db.pairings;
  }

  lemma Commits()
    ensures Can(Late(), Commit(1)) && Next(Late(), Commit(1)) == Committed() && !Clean(Late(), Commit(1))
  {
    var d := Next(Late(), Commit(1));
    assert d.db.users == Committed().db.users && d.db.pairings == Committed().db.pairings;
    assert d.db.sessions == map[] && d.db.challenges == map[];
    assert d.locks == map[] && d.txs == map[];
    assert "p" in Late().db.pairings;
  }

  lemma Begins()
    ensures Can(Trace()[0], Acts()[0]) && Next(Trace()[0], Acts()[0]) == At(0)
  {
  }

  /** The two calls in the order they took effect, and the other way round. */
  const INSERT_FIRST := [(INSERT, Ok), (RESET, Ok)]
  const RESET_FIRST := [(RESET, Ok), (INSERT, Ok)]

  lemma ResetOf(pairings: map<Secret, Pairing>)
    requires pairings == map[] || pairings == map["p" := PAIRING]
    ensures Exec(Db(pairings), RESET) == (Committed().db.(pairings := map[]), Ok)
  {
    var after := Exec(Db(pairings), RESET).0;
    assert after.sessions == map[] && after.challenges == map[] && after.pairings == map[];
    assert after.users == Committed().db.users && after.audit == Committed().db.audit;
  }

  lemma InsertOf(db: Tables)
    requires db.pairings == map[]
    ensures Exec(db, INSERT) == (db.(pairings := map["p" := PAIRING]), Ok)
  {
    assert !CodeTaken(db.pairings, "123456");
  }

  lemma Replays()
    ensures Replay(Db(map[]), INSERT_FIRST[..1]) == Db(map["p" := PAIRING])
    ensures Replay(Db(map[]), INSERT_FIRST) == Committed().db.(pairings := map[])
    ensures Replay(Db(map[]), RESET_FIRST[..1]) == Committed().db.(pairings := map[])
    ensures Replay(Db(map[]), RESET_FIRST) == Committed().db
    ensures Exec(Db(map[]), RESET).1 == Ok && Exec(Replay(Db(map[]), RESET_FIRST[..1]), INSERT).1 == Ok
  {
    var none := Db(map[]);
    ResetOf(map[]);
    ResetOf(map["p" := PAIRING]);
    InsertOf(none);
    InsertOf(Committed().db.(pairings := map[]));
    hide Exec, Replay;
    ReplayNone(none);
    ReplayLast(none, [], (INSERT, Ok));
    ReplayLast(none, [(INSERT, Ok)], (RESET, Ok));
    ReplayLast(none, [], (RESET, Ok));
    ReplayLast(none, [(RESET, Ok)], (INSERT, Ok));
    assert [] + [(INSERT, Ok)] == INSERT_FIRST[..1] == [(INSERT, Ok)];
    assert [] + [(RESET, Ok)] == RESET_FIRST[..1] == [(RESET, Ok)];
    assert [(INSERT, Ok)] + [(RESET, Ok)] == INSERT_FIRST && [(RESET, Ok)] + [(INSERT, Ok)] == RESET_FIRST;
    assert Committed().db.(pairings := map[]).(pairings := map["p" := PAIRING]) == Committed().db;
  }

  lemma ReplayNone(db: Tables)
    ensures Replay(db, []) == db
  {
  }

  lemma NotSerial()
    ensures !Serial(Db(map[]), Committed())
  {
    Replays();
    assert Committed().log == INSERT_FIRST;
    hide Replay;
    assert "p" in Committed().db.pairings && "p" !in Replay(Db(map[]), INSERT_FIRST).pairings;
  }

  /** After the reset the user still has a pending pairing.  The calls replayed in the order they
      took effect do not leave it.  Replayed with the reset first they do, with the same reports;
      but then the reset is in force before the pairing is there, and the states committed on
      the way were the pairing first: neither order goes through the committed tables. */
  lemma PairingOutlivesReset()
    ensures Run(Trace(), Acts()) && Trace()[8].log == INSERT_FIRST
    ensures "p" in Trace()[8].db.pairings && Trace()[8].db.pairings["p"].userId == ID
    ensures Trace()[8].db.users[ID].passwordHash == "h1"
    ensures !Clean(Trace()[7], Acts()[7]) && !Serial(Trace()[0].db, Trace()[8])
    ensures Replay(Trace()[0].db, RESET_FIRST) == Trace()[8].db
    ensures Exec(Trace()[0].db, RESET).1 == Ok && Exec(Replay(Trace()[0].db, RESET_FIRST[..1]), INSERT).1 == Ok
    ensures forall log :: log == INSERT_FIRST || log == RESET_FIRST ==>
              !(Replay(Trace()[0].db, log[..1]) == Trace()[7].db && Replay(Trace()[0].db, log) == Trace()[8].db)
  {
    IsRun();
    Replays();
    NotSerial();
    Differ();
    hide Run, Replay, Exec, Serial, Clean, Db, Late, Committed, At;
  }

  /** The tables the two orders leave half way are not those committed half way. */
  lemma Differ()
    ensures Committed().db.(pairings := map[]) != Committed().db && Committed().db.(pairings := map[]) != Late().db
    ensures "p" in Committed().db.pairings && Committed().db.pairings["p"].userId == ID
    ensures ID in Committed().db.users && Committed().db.users[ID].passwordHash == "h1"
    ensures Committed().log == INSERT_FIRST && Trace()[0].db == Db(map[])
  {
    assert "p" !in Committed().db.(pairings := map[]).pairings;
    assert Late().db.users[ID].passwordHash == "h0";
  }

  lemma IsRun()
    ensures Run(Trace(), Acts()) && !Clean(Trace()[7], Acts()[7])
  {
    hide Next, Can, Clean, PairingsSeen;
    Begins();
    Statements(0);
    Statements(2);
    Statements(3);
    Statements(4);
    Statements(5);
    Inserts();
    Commits();
    forall i | 0 <= i < |Acts()|
      ensures Can(Trace()[i], Acts()[i]) && Trace()[i + 1] == Next(Trace()[i], Acts()[i])
    {
    }
  }
}
