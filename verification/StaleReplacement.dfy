/** Why a forced replacement may commit although its user did not keep the verified hash: a
    profile update puts back what an operator reset had replaced in between. */
module StaleReplacement {
  import opened Store
  import SR = StoreRuns
  import opened Handlers
  import opened Grants
  import opened RestrictedSessions
  import opened Steps
  import opened StaleProfile

  const FLAGGED := BEFORE.(mustChangePassword := true)

  const SIGN_ON := LoginRead(2, ID)
  const ISSUE := IssueSession(2, "t", ROW)
  const SELECT := AuthSelect(3, "t", CHANGE_PASSWORD)
  const CHANGE := ChangePassword(3, "h2", "", {})

  function Acts(): seq<Action> {
    [SIGN_ON, ISSUE, SELECT, LOAD, RECHECK, READ, RESET, WRITE, CHANGE]
  }

  const OPENED := map["t" := Grant(ID, "h0", true, 0, 1, {})]
  const ALLOWED := Authenticated("t", CHANGE_PASSWORD, ROW, FLAGGED, 2, 3)
  const COPY := ProfileLoaded(ID, FLAGGED, 5)
  const FORCED_RECORD := AuditRecord(ID, "auth.password_changed", FORCED, "")

  /** The database while the session is there. */
  function Open(actors: map<ActorId, Actor>, step: nat): System {
    At(Db(FLAGGED, map["t" := ROW], []), {"t"}, {"h0"}, actors, OPENED, step)
  }

  function R0(): System { At(Db(FLAGGED, map[], []), {}, {"h0"}, map[], map[], 0) }
  function R1(): System { At(Db(FLAGGED, map[], []), {}, {"h0"}, map[2 := LoginVerified(ID, FLAGGED, 0)], map[], 1) }
  function R2(): System { Open(map[], 2) }
  function R3(): System { Open(map[3 := AuthFound("t", CHANGE_PASSWORD, ROW, 2)], 3) }
  function R4(): System { Open(map[3 := AuthLoaded("t", CHANGE_PASSWORD, ROW, FLAGGED, 2, 3)], 4) }
  function R5(): System { Open(map[3 := ALLOWED], 5) }
  function R6(): System { Open(map[3 := ALLOWED, 1 := COPY], 6) }
  function R7(): System {
    At(Db(Reset(FLAGGED, "h1"), map[], [RECORD]), {"t"}, {"h0", "h1"}, map[3 := ALLOWED, 1 := COPY], OPENED, 7)
  }
  function R8(): System {
    At(Db(FLAGGED, map[], [RECORD]), {"t"}, {"h0", "h1"}, map[3 := ALLOWED, 1 := ProfileWritten(ID)], OPENED, 8)
  }
  function R9(): System {
    At(Db(Replaced(FLAGGED, "h2"), map[], [RECORD, FORCED_RECORD]), {"t"}, {"h0", "h1", "h2"},
       map[1 := ProfileWritten(ID)], OPENED, 9)
  }

  function States(): seq<System> {
    [R0(), R1(), R2(), R3(), R4(), R5(), R6(), R7(), R8(), R9()]
  }

  lemma LogsIn()
    ensures Init(R0())
    ensures Can(R0(), SIGN_ON) && Next(R0(), SIGN_ON) == R1()
  {
    LoginStep(R0(), 2, ID);
    hide Can, Next;
    assert Moved(R0(), 2, LoginVerified(ID, FLAGGED, 0)).actors == R1().actors;
  }

  lemma Insert()
    ensures Exec(R1().core.db, CreateSession("t", ROW, "h0")) == (R2().core.db, Ok)
  {
  }

  lemma Issues()
    ensures Can(R1(), ISSUE) && Next(R1(), ISSUE) == R2()
  {
    Insert();
    IssueStep(R1(), 2, "t", ROW, R2().core.db);
    assert NewGrant(R1(), ISSUE) == OPENED["t"];
    hide Exec, Can, Next, NewGrant;
    assert R1().actors - {2} == R2().actors;
  }

  lemma Authenticates()
    ensures Can(R2(), SELECT) && Next(R2(), SELECT) == R3()
    ensures Can(R3(), LOAD) && Next(R3(), LOAD) == R4()
    ensures Can(R4(), RECHECK) && Next(R4(), RECHECK) == R5()
  {
    hide Can, Next;
    FirstRead(R2(), 3, "t", CHANGE_PASSWORD);
    SecondRead(R3(), 3);
    ThirdRead(R4(), 3);
  }

  lemma ReadsProfile()
    ensures Can(R5(), READ) && Next(R5(), READ) == R6()
  {
    ProfileReadStep(R5(), 1, ID);
    hide Can, Next;
    assert Moved(R5(), 1, COPY).actors == R6().actors;
  }

  lemma ResetsPassword()
    ensures Can(R6(), RESET) && Next(R6(), RESET) == R7()
  {
    ResetOf(FLAGGED, map["t" := ROW]);
    hide Exec, Can, Next;
    ResetStep(R6(), ID, "h1", R7().core.db);
    assert R6().core.tokens + {} == R7().core.tokens;
  }

  lemma WritesCopyBack()
    ensures Can(R7(), WRITE) && Next(R7(), WRITE) == R8()
  {
    WriteOf(Reset(FLAGGED, "h1"), FLAGGED, map[], [RECORD]);
    ProfileWriteStep(R7(), WRITE, R8().core.db);
    hide Exec, Can, Next;
    assert R7().actors[1 := ProfileWritten(ID)] == R8().actors;
    assert R7().core.hashes + {"h0"} == R8().core.hashes;
  }

  lemma Changed()
    ensures Exec(R8().core.db, CompletePasswordChange(ID, "h0", "h2", "")) == (R9().core.db, Ok)
  {
    assert PasswordHolds(R8().core.db, ID, "h0");
    var after := Exec(R8().core.db, CompletePasswordChange(ID, "h0", "h2", "")).0;
    assert after.sessions == map[] && after.challenges == map[] && after.pairings == map[];
    assert after.users == map[ID := Replaced(FLAGGED, "h2")];
    assert after.audit == [RECORD, FORCED_RECORD];
  }

  lemma ChangesPassword()
    ensures Can(R8(), CHANGE) && Next(R8(), CHANGE) == R9()
  {
    Changed();
    ChangeStep(R8(), 3, "h2", "", R9().core.db);
    hide Exec, Can, Next;
    assert R8().actors - {3} == R9().actors;
  }

  lemma Ends()
    ensures SR.Holds(R7().core, ID, "h1", true) && "t" !in R7().core.db.sessions
    ensures SR.Holds(R9().core, ID, "h2", false)
    ensures 3 in R8().actors && R8().actors[3] == ALLOWED
  {
  }

  /** A flagged user is authenticated for the change of its password; a patch reads the user; an
      operator resets the password, which revokes the session; the patch writes its copy back;
      and the change commits, on the strength of a check that the reset had made void. */
  lemma ChangeSurvivesReset()
    ensures Run(States(), Acts()) && Acts()[8].ChangePassword?
    ensures 3 in States()[8].actors
    ensures var x := States()[8].actors[3];
            x.Authenticated? && x.seen == 3 && x.session.userId == ID && x.user.passwordHash == "h0"
    ensures SR.Holds(States()[7].core, ID, "h1", true) && "t" !in States()[7].core.db.sessions
    ensures SR.Holds(States()[9].core, ID, "h2", false)
  {
    hide Exec, Apply, SR.Next, SR.Enabled, Ready, EventOf, Next, Can, Init, SR.Holds,
         R0, R1, R2, R3, R4, R5, R6, R7, R8, R9;
    LogsIn();
    Issues();
    Authenticates();
    ReadsProfile();
    ResetsPassword();
    WritesCopyBack();
    ChangesPassword();
    Ends();
    assert Run(States(), Acts());
  }
}
