/** Why the claims about grants speak of runs whose profile updates keep the credential
    columns: `UpdateUser` writes every profile column from a copy read earlier, and a SCIM
    patch reads and writes in two steps. */
module StaleProfile {
  import opened Store
  import SR = StoreRuns
  import opened Handlers
  import opened Grants
  import opened RestrictedSessions
  import opened Steps

  const ID: UserId := "u"
  const BEFORE := User("admin", "", "", "h0", ADMIN, ACTIVE, LOCAL, "", "", false, Codes([]), "", false, 0)

  const ROW := Session(ID, "", "", 100)
  const RECORD := AuditRecord(ID, "auth.password_changed", OPERATOR, "")

  const READ := ProfileRead(1, ID)
  const RESET := Env(SR.Write(ResetAdminPassword(ID, "h1")))
  const LOGIN := LoginRead(2, ID)
  const SIGN_IN := IssueSession(2, "t", ROW)
  const WRITE := ProfileWrite(1, "admin", "", "", ADMIN, ACTIVE)
  const STATUS := Route("GET", "/api/backup/status")
  const FIND := AuthSelect(3, "t", STATUS)
  const LOAD := AuthRead(3)
  const RECHECK := AuthRecheck(3)

  function Patch(): seq<Action> {
    [READ, RESET, LOGIN, SIGN_IN, WRITE, FIND, LOAD, RECHECK]
  }

  function Db(user: User, sessions: map<Token, Session>, audit: seq<AuditRecord>): Tables {
    Tables(map[ID := user], sessions, map[], map[], audit)
  }

  function At(db: Tables, tokens: set<Token>, hashes: set<Hash>, actors: map<ActorId, Actor>,
              grants: map<Token, Grant>, step: nat): System {
    System(SR.Core(0, db, tokens, {}, {ID}, hashes), actors, grants, step)
  }

  function AfterReset(): User { Reset(BEFORE, "h1") }

  const GRANTED := map["t" := Grant(ID, "h1", true, 2, 3, {})]

  /** The database from the write-back on. */
  function Last(actors: map<ActorId, Actor>, step: nat): System {
    At(Db(BEFORE, map["t" := ROW], [RECORD]), {"t"}, {"h0", "h1"}, actors, GRANTED, step)
  }

  const READER := map[1 := ProfileLoaded(ID, BEFORE, 0)]
  const BOTH := map[1 := ProfileLoaded(ID, BEFORE, 0), 2 := LoginVerified(ID, AfterReset(), 2)]

  function S0(): System { At(Db(BEFORE, map[], []), {}, {"h0"}, map[], map[], 0) }
  function S1(): System { At(Db(BEFORE, map[], []), {}, {"h0"}, READER, map[], 1) }
  function S2(): System { At(Db(AfterReset(), map[], [RECORD]), {}, {"h0", "h1"}, READER, map[], 2) }
  function S3(): System { At(Db(AfterReset(), map[], [RECORD]), {}, {"h0", "h1"}, BOTH, map[], 3) }
  function S4(): System {
    At(Db(AfterReset(), map["t" := ROW], [RECORD]), {"t"}, {"h0", "h1"}, READER, GRANTED, 4)
  }
  function S5(): System { Last(map[1 := ProfileWritten(ID)], 5) }
  function S6(): System { Last(map[1 := ProfileWritten(ID), 3 := AuthFound("t", STATUS, ROW, 5)], 6) }
  function S7(): System { Last(map[1 := ProfileWritten(ID), 3 := AuthLoaded("t", STATUS, ROW, BEFORE, 5, 6)], 7) }
  function S8(): System { Last(map[1 := ProfileWritten(ID), 3 := Authenticated("t", STATUS, ROW, BEFORE, 5, 6)], 8) }

  function Trace(): seq<System> {
    [S0(), S1(), S2(), S3(), S4(), S5(), S6(), S7(), S8()]
  }

  lemma Reads()
    ensures Can(S0(), READ) && Next(S0(), READ) == S1()
    ensures Can(S2(), LOGIN) && Next(S2(), LOGIN) == S3()
  {
    ProfileReadStep(S0(), 1, ID);
    LoginStep(S2(), 2, ID);
    hide Can, Next;
    assert Moved(S0(), 1, ProfileLoaded(ID, BEFORE, 0)).actors == S1().actors;
    assert Moved(S2(), 2, LoginVerified(ID, AfterReset(), 2)).actors == S3().actors;
  }

  lemma ResetOf(u: User, sessions: map<Token, Session>)
    requires u.ssoProvider == LOCAL && (sessions == map[] || sessions == map["t" := ROW])
    ensures Exec(Db(u, sessions, []), ResetAdminPassword(ID, "h1")) == (Db(Reset(u, "h1"), map[], [RECORD]), Ok)
  {
    var after := Exec(Db(u, sessions, []), ResetAdminPassword(ID, "h1")).0;
    assert after.sessions == map[] && after.challenges == map[] && after.pairings == map[];
    assert after.users == map[ID := Reset(u, "h1")];
    assert after.audit == [RECORD];
  }

  lemma Resets()
    ensures Can(S1(), RESET) && Next(S1(), RESET) == S2()
  {
    ResetOf(BEFORE, map[]);
    hide Exec, Can, Next;
    ResetStep(S1(), ID, "h1", S2().core.db);
  }

  lemma Insert()
    ensures Exec(S3().core.db, CreateSession("t", ROW, "h1")) == (S4().core.db, Ok)
  {
  }

  lemma SignsIn()
    ensures Can(S3(), SIGN_IN) && Next(S3(), SIGN_IN) == S4()
  {
    Insert();
    IssueStep(S3(), 2, "t", ROW, S4().core.db);
    assert NewGrant(S3(), SIGN_IN) == GRANTED["t"];
    hide Exec, Can, Next, NewGrant;
    assert S3().actors - {2} == S4().actors;
  }

  lemma WriteOf(u: User, v: User, sessions: map<Token, Session>, audit: seq<AuditRecord>)
    requires u.totpLastCounter == v.totpLastCounter
    ensures Exec(Db(u, sessions, audit), UpdateUser(ID, v)) == (Db(v, sessions, audit), Ok)
  {
    assert !NameTaken(Db(u, sessions, audit).users, v.username, ID);
    assert Db(u, sessions, audit).users[ID := v] == Db(v, sessions, audit).users;
  }

  lemma WritesBack()
    ensures Can(S4(), WRITE) && Next(S4(), WRITE) == S5()
  {
    WriteOf(AfterReset(), BEFORE, map["t" := ROW], [RECORD]);
    ProfileWriteStep(S4(), WRITE, S5().core.db);
    hide Exec, Can, Next;
    assert S4().actors[1 := ProfileWritten(ID)] == S5().actors;
    assert S4().core.hashes + {"h0"} == S5().core.hashes;
  }

  lemma Clears()
    ensures Ready(S4(), WRITE) && Frees(S4(), WRITE, "t")
    ensures !SR.Benign(S4().core, EventOf(S4(), WRITE), ID)
  {
    WriteOf(AfterReset(), BEFORE, map["t" := ROW], [RECORD]);
    assert EventOf(S4(), WRITE) == SR.Write(UpdateUser(ID, BEFORE));
    hide Exec;
    assert "t" in S4().core.db.sessions && S4().core.db.sessions["t"].userId == ID;
    assert SR.HasGrants(S4().core.db, ID);
  }

  lemma Finds()
    ensures Can(S5(), FIND) && Next(S5(), FIND) == S6()
    ensures Can(S6(), LOAD) && Next(S6(), LOAD) == S7()
    ensures Can(S7(), RECHECK) && Next(S7(), RECHECK) == S8()
  {
    hide Can, Next;
    FirstRead(S5(), 3, "t", STATUS);
    SecondRead(S6(), 3);
    ThirdRead(S7(), 3);
  }

  lemma Begins()
    ensures Init(S0())
  {
  }

  lemma Ends()
    ensures S2().core.db.users[ID].passwordHash == "h1"
    ensures PasswordHolds(S8().core.db, ID, "h0")
    ensures !GrantsCurrent(S5())
    ensures S8().actors[3].Authenticated? && S8().grants["t"].flagged && S8().actors[3].token == "t"
    ensures !OpenWhileRestricted(S8().actors[3].route)
  {
    assert "t" in S5().core.db.sessions && !Current(S5(), "t", ID);
  }

  /** A patch reads a user, an operator resets the password, the user signs in with the new
      one to a restricted session, and the patch writes its copy back: the session is left
      under a hash the user no longer holds, the password that the reset replaced is in force
      again, and the restricted session authorises any route. */
  lemma PatchUndoesReset()
    ensures Run(Trace(), Patch())
    ensures Trace()[2].core.db.users[ID].passwordHash == "h1"
    ensures PasswordHolds(Trace()[8].core.db, ID, "h0")
    ensures !GrantsCurrent(Trace()[5]) && !AllBenign(Trace(), Patch()) && Frees(Trace()[4], Patch()[4], "t")
    ensures var x := Trace()[8].actors[3];
            x.Authenticated? && Trace()[8].grants[x.token].flagged && !OpenWhileRestricted(x.route)
  {
    hide Exec, SR.Next, SR.Enabled, SR.Benign, Ready, EventOf, Next, Can, Init, GrantsCurrent, OpenWhileRestricted,
         PasswordHolds, Frees, S0, S1, S2, S3, S4, S5, S6, S7, S8;
    Begins();
    Reads();
    Resets();
    SignsIn();
    WritesBack();
    Clears();
    Finds();
    Ends();
    assert Run(Trace(), Patch());
    assert Patch()[4] == WRITE;
  }
}
