/** Why a spent recovery code may come back: a profile update that read its user before the
    redemption writes the old list back, and the same code opens a second session. */
module RedeemedTwice {
  import opened Store
  import SR = StoreRuns
  import opened Handlers
  import opened OneTimeUse
  import opened Steps

  const ID: UserId := "u"
  const GOOD := User("ann", "", "", "h0", "user", ACTIVE, LOCAL, "", "", true, Codes(["d"]), "", false, 0)
  const USED := GOOD.(recoveryCodes := Codes([""]))
  const ROW := Session(ID, "", "", 100)
  const CHALLENGE := Challenge(ID, 100, "h0")
  const CODE := CodeTicket(ID, 0)
  const READ := ProfileRead(0, ID)
  const WRITE := ProfileWrite(0, "ann", "", "", "user", ACTIVE)

  /** One round of login, challenge and recovery code: its two handlers, its challenge and
      session tokens, and what it finds. */
  datatype Round = Round(a: ActorId, b: ActorId, c: Token, t: Token, sessions: map<Token, Session>,
                         tokens: set<Token>, profile: Actor, grants: map<Token, Grant>, n: nat)

  predicate Fresh(r: Round) {
    && r.a != 0 && r.b != 0 && r.a != r.b && r.c != r.t && r.c !in r.tokens && r.t !in r.tokens
    && r.sessions.Keys <= r.tokens && r.grants.Keys <= r.tokens
  }

  function Db(user: User, sessions: map<Token, Session>, challenges: map<Token, Challenge>): Tables {
    Tables(map[ID := user], sessions, challenges, map[], [])
  }

  function At(db: Tables, tokens: set<Token>, actors: map<ActorId, Actor>, grants: map<Token, Grant>,
              step: nat): System {
    System(SR.Core(0, db, tokens, {}, {ID}, {"h0"}), actors, grants, step)
  }

  function Asked(r: Round): map<Token, Grant> {
    r.grants[r.c := Grant(ID, "h0", false, r.n, r.n + 1, {})]
  }

  function Granted(r: Round): map<Token, Grant> {
    Asked(r)[r.t := Grant(ID, "h0", false, r.n, r.n + 6, {ChallengeTicket(r.c), CODE})]
  }

  function With(r: Round, b: ActorId, x: Actor): map<ActorId, Actor> {
    map[0 := r.profile, b := x]
  }

  function Before(r: Round): System { At(Db(GOOD, r.sessions, map[]), r.tokens, map[0 := r.profile], r.grants, r.n) }
  function Verified(r: Round): System {
    At(Db(GOOD, r.sessions, map[]), r.tokens, With(r, r.a, LoginVerified(ID, GOOD, r.n)), r.grants, r.n + 1)
  }
  function Challenged(r: Round): System {
    At(Db(GOOD, r.sessions, map[r.c := CHALLENGE]), r.tokens + {r.c}, map[0 := r.profile], Asked(r), r.n + 2)
  }
  function Selected(r: Round): System {
    At(Db(GOOD, r.sessions, map[r.c := CHALLENGE]), r.tokens + {r.c},
       With(r, r.b, MfaSelected(r.c, CHALLENGE)), Asked(r), r.n + 3)
  }
  function Consumed(r: Round): System {
    At(Db(GOOD, r.sessions, map[]), r.tokens + {r.c},
       With(r, r.b, MfaConsumed(r.c, ID, "h0", r.n)), Asked(r), r.n + 4)
  }
  function Eligible(r: Round): System {
    At(Db(GOOD, r.sessions, map[]), r.tokens + {r.c},
       With(r, r.b, MfaEligible(r.c, ID, GOOD, r.n)), Asked(r), r.n + 5)
  }
  function Proved(r: Round): System {
    At(Db(USED, r.sessions, map[]), r.tokens + {r.c},
       With(r, r.b, MfaProved(r.c, CODE, ID, GOOD, r.n)), Asked(r), r.n + 6)
  }
  function Signed(r: Round): System {
    At(Db(USED, r.sessions[r.t := ROW], map[]), r.tokens + {r.c, r.t}, map[0 := r.profile], Granted(r), r.n + 7)
  }

  function States(r: Round): seq<System> {
    [Before(r), Verified(r), Challenged(r), Selected(r), Consumed(r), Eligible(r), Proved(r), Signed(r)]
  }

  function Acts(r: Round): seq<Action> {
    [LoginRead(r.a, ID), LoginChallenge(r.a, r.c, 100), MfaSelect(r.b, r.c), MfaDelete(r.b), MfaRead(r.b),
     MfaRecovery(r.b, 0, "d"), IssueSession(r.b, r.t, ROW)]
  }

  // ----- the steps of a round ------------------------------------------------------------

  lemma Verifies(r: Round)
    requires Fresh(r)
    ensures Can(Before(r), LoginRead(r.a, ID)) && Next(Before(r), LoginRead(r.a, ID)) == Verified(r)
  {
    LoginStep(Before(r), r.a, ID);
    hide Can, Next;
    assert Before(r).actors[r.a := LoginVerified(ID, GOOD, r.n)] == Verified(r).actors;
  }

  lemma Challenging(r: Round)
    requires Fresh(r)
    ensures Exec(Verified(r).core.db, CreateMfaChallenge(r.c, ID, 100, "h0")) == (Challenged(r).core.db, Ok)
  {
    assert PasswordHolds(Verified(r).core.db, ID, "h0");
  }

  lemma Challenges(r: Round)
    requires Fresh(r)
    ensures var act := LoginChallenge(r.a, r.c, 100);
            Can(Verified(r), act) && Next(Verified(r), act) == Challenged(r)
  {
    var s, act := Verified(r), LoginChallenge(r.a, r.c, 100);
    Challenging(r);
    ChallengeStep(s, r.a, r.c, 100, Challenged(r).core.db);
    assert NewGrant(s, act) == Asked(r)[r.c];
    hide Exec, Can, Next, NewGrant;
    assert s.actors - {r.a} == Challenged(r).actors;
    assert s.core.hashes + {} == s.core.hashes;
  }

  lemma Selects(r: Round)
    requires Fresh(r)
    ensures Can(Challenged(r), MfaSelect(r.b, r.c)) && Next(Challenged(r), MfaSelect(r.b, r.c)) == Selected(r)
  {
    MfaSelectStep(Challenged(r), r.b, r.c);
    hide Can, Next;
    assert Challenged(r).actors[r.b := MfaSelected(r.c, CHALLENGE)] == Selected(r).actors;
  }

  lemma Deleting(r: Round)
    ensures Exec(Selected(r).core.db, DeleteMfaChallenge(r.c)) == (Consumed(r).core.db, Ok)
  {
    assert map[r.c := CHALLENGE] - {r.c} == map[];
  }

  lemma Consumes(r: Round)
    requires Fresh(r)
    ensures Can(Selected(r), MfaDelete(r.b)) && Next(Selected(r), MfaDelete(r.b)) == Consumed(r)
  {
    Deleting(r);
    MfaDeleteStep(Selected(r), r.b, Consumed(r).core.db);
    hide Exec, Can, Next;
    assert Selected(r).actors[r.b := MfaConsumed(r.c, ID, "h0", r.n)] == Consumed(r).actors;
  }

  lemma Reads(r: Round)
    requires Fresh(r)
    ensures Can(Consumed(r), MfaRead(r.b)) && Next(Consumed(r), MfaRead(r.b)) == Eligible(r)
  {
    MfaReadStep(Consumed(r), r.b);
    hide Can, Next;
    assert Consumed(r).actors[r.b := MfaEligible(r.c, ID, GOOD, r.n)] == Eligible(r).actors;
  }

  lemma Blanking(r: Round)
    ensures Exec(Eligible(r).core.db, UpdateRecoveryCodes(ID, Codes(["d"]), Codes(Blank(["d"], 0)))) ==
            (Proved(r).core.db, Ok)
  {
    assert Blank(["d"], 0) == [""];
    assert map[ID := GOOD][ID := USED] == map[ID := USED];
  }

  lemma Proves(r: Round)
    requires Fresh(r)
    ensures Can(Eligible(r), MfaRecovery(r.b, 0, "d")) && Next(Eligible(r), MfaRecovery(r.b, 0, "d")) == Proved(r)
  {
    Blanking(r);
    MfaRecoveryStep(Eligible(r), r.b, 0, "d", Proved(r).core.db);
    hide Exec, Can, Next;
    assert Eligible(r).actors[r.b := MfaProved(r.c, CODE, ID, GOOD, r.n)] == Proved(r).actors;
  }

  lemma Inserting(r: Round)
    requires Fresh(r)
    ensures Exec(Proved(r).core.db, CreateSession(r.t, ROW, "h0")) == (Signed(r).core.db, Ok)
  {
    assert PasswordHolds(Proved(r).core.db, ID, "h0");
  }

  lemma Signs(r: Round)
    requires Fresh(r)
    ensures Can(Proved(r), IssueSession(r.b, r.t, ROW)) && Next(Proved(r), IssueSession(r.b, r.t, ROW)) == Signed(r)
  {
    var s, act := Proved(r), IssueSession(r.b, r.t, ROW);
    Inserting(r);
    IssueStep(s, r.b, r.t, ROW, Signed(r).core.db);
    assert NewGrant(s, act) == Granted(r)[r.t];
    hide Exec, Can, Next, NewGrant;
    assert s.actors - {r.b} == Signed(r).actors;
    assert s.core.tokens + {r.t} == Signed(r).core.tokens;
  }

  lemma RoundStep(r: Round, i: nat)
    requires Fresh(r) && i < 7
    ensures Can(States(r)[i], Acts(r)[i]) && States(r)[i + 1] == Next(States(r)[i], Acts(r)[i])
  {
    hide Can, Next, Before, Verified, Challenged, Selected, Consumed, Eligible, Proved, Signed, Fresh;
    Verifies(r);
    Challenges(r);
    Selects(r);
    Consumes(r);
    Reads(r);
    Proves(r);
    Signs(r);
  }

  // ----- two rounds around a profile update ------------------------------------------------

  function First(): Round { Round(1, 2, "c1", "t1", map[], {}, ProfileLoaded(ID, GOOD, 0), map[], 1) }
  function Second(): Round {
    Round(3, 4, "c2", "t2", map["t1" := ROW], {"c1", "t1"}, ProfileWritten(ID), Granted(First()), 9)
  }

  function Start(): System { At(Db(GOOD, map[], map[]), {}, map[], map[], 0) }

  function Trace(): seq<System> { [Start()] + States(First()) + States(Second()) }
  function Script(): seq<Action> { [READ] + Acts(First()) + [WRITE] + Acts(Second()) }

  lemma Begins()
    ensures Init(Start()) && Fresh(First()) && Fresh(Second())
    ensures Can(Start(), READ) && Next(Start(), READ) == Before(First())
  {
    ProfileReadStep(Start(), 0, ID);
    hide Can, Next;
    assert Start().actors[0 := ProfileLoaded(ID, GOOD, 0)] == Before(First()).actors;
  }

  lemma Updating()
    ensures Exec(Signed(First()).core.db, UpdateUser(ID, Edited(GOOD, WRITE))) == (Before(Second()).core.db, Ok)
  {
    var db := Signed(First()).core.db;
    assert Edited(GOOD, WRITE) == GOOD;
    assert !NameTaken(db.users, "ann", ID);
    assert db.users[ID := GOOD] == map[ID := GOOD];
  }

  lemma WritesBack()
    ensures Can(Signed(First()), WRITE) && Next(Signed(First()), WRITE) == Before(Second())
  {
    Updating();
    ProfileWriteStep(Signed(First()), WRITE, Before(Second()).core.db);
    hide Exec, Can, Next;
    assert Signed(First()).actors[0 := ProfileWritten(ID)] == Before(Second()).actors;
    assert Signed(First()).core.hashes + {"h0"} == {"h0"};
  }

  lemma StepOfRun(i: nat)
    requires i < 16
    ensures Can(Trace()[i], Script()[i]) && Trace()[i + 1] == Next(Trace()[i], Script()[i])
  {
    hide Can, Next, Before, Verified, Challenged, Selected, Consumed, Eligible, Proved, Signed, Fresh, First, Second,
         Start, Init;
    Begins();
    WritesBack();
    if 1 <= i < 8 {
      RoundStep(First(), i - 1);
    } else if 9 <= i {
      RoundStep(Second(), i - 9);
    }
  }

  lemma Taken(r: Round)
    requires Fresh(r)
    ensures Can(Eligible(r), MfaRecovery(r.b, 0, "d")) && CODE in Acquired(Eligible(r), MfaRecovery(r.b, 0, "d"))
  {
    Proves(r);
  }

  lemma Ends()
    ensures var g := Signed(Second()).grants;
            "t1" in g && "t2" in g && CODE in g["t1"].tickets && CODE in g["t2"].tickets
    ensures Signed(Second()).core.db.sessions.Keys == {"t1", "t2"}
  {
  }

  /** A profile update reads a user; the user signs in with a recovery code; the update writes
      its copy back; and the user signs in again with the same code: one slot is redeemed twice
      and two sessions cost the same ticket. */
  lemma CodeRedeemedTwice()
    ensures |Trace()| == 17 && |Script()| == 16 && Run(Trace(), Script())
    ensures Script()[6].MfaRecovery? && Script()[14].MfaRecovery?
    ensures CODE in Acquired(Trace()[6], Script()[6]) && CODE in Acquired(Trace()[14], Script()[14])
    ensures var g := Trace()[16].grants;
            "t1" in g && "t2" in g && CODE in g["t1"].tickets && CODE in g["t2"].tickets
    ensures Trace()[16].core.db.sessions.Keys == {"t1", "t2"}
  {
    hide Can, Next, Before, Verified, Challenged, Selected, Consumed, Eligible, Proved, Signed, Fresh, Acquired,
         Start, Init;
    Begins();
    Ends();
    assert First().b == 2 && Second().b == 4;
    Taken(First());
    Taken(Second());
    hide First, Second;
    forall i | 0 <= i < 16
      ensures Can(Trace()[i], Script()[i]) && Trace()[i + 1] == Next(Trace()[i], Script()[i])
    {
      StepOfRun(i);
    }
  }
}
