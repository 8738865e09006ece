/** The migration runner: each pending migration's statements and its version record in one
    transaction, in registry order.  Any number of processes run it at once on one database,
    and any of them may die at any step. */
module Migrations {

  datatype Migration = Migration(version: int, name: string)

  const REGISTRY: seq<Migration> := [
    Migration(1, "initial_schema"),
    Migration(2, "one_time_auth_challenges"),
    Migration(3, "totp_last_counter"),
    Migration(4, "mfa_credential_snapshot")]

  ghost predicate Distinct(reg: seq<Migration>) {
    forall i, j :: 0 <= i < j < |reg| ==> reg[i].version != reg[j].version
  }

  lemma RegistryIsDistinct()
    ensures Distinct(REGISTRY)
  {
  }

  function Versions(ms: seq<Migration>): set<int> {
    set m | m in ms :: m.version
  }

  /** The schema is the sequence of migrations whose statements have been committed to it. */
  datatype Db = Db(schema: seq<Migration>, recorded: set<int>)

  /** One runner: about to look up migration `i`, with its statements executed in an open
      transaction, with its version row inserted as well, or out, with or without an error. */
  datatype Runner = Looking(i: nat) | Pending(i: nat) | Executed(i: nat) | Inserted(i: nat) | Succeeded | Failed

  datatype State = State(db: Db, runners: map<nat, Runner>)

  datatype Action =
    | Start(r: nat)
    | Look(r: nat)
    | Execute(r: nat, ok: bool)
    | Record(r: nat)
    | Commit(r: nat)
    | Crash(r: nat)

  /** Another open transaction has inserted the same version: the insert waits for it. */
  predicate VersionHeld(s: State, r: nat, i: nat) {
    exists q :: q in s.runners && q != r && s.runners[q] == Inserted(i)
  }

  predicate Can(reg: seq<Migration>, s: State, act: Action) {
    match act
    case Start(r) => r !in s.runners
    case Look(r) => r in s.runners && s.runners[r].Looking?
    case Execute(r, _) => r in s.runners && s.runners[r].Pending?
    case Record(r) => r in s.runners && s.runners[r].Executed? && !VersionHeld(s, r, s.runners[r].i)
    case Commit(r) => r in s.runners && s.runners[r].Inserted?
    case Crash(r) => r in s.runners
  }

  ghost predicate InRange(reg: seq<Migration>, x: Runner) {
    match x
    case Looking(i) => i <= |reg|
    case Pending(i) => i < |reg|
    case Executed(i) => i < |reg|
    case Inserted(i) => i < |reg|
    case _ => true
  }

  /** The step of runner `r`; a transaction that fails or whose process dies leaves nothing. */
  function Next(reg: seq<Migration>, s: State, act: Action): State
    requires Can(reg, s, act)
  {
    match act
    case Start(r) => s.(runners := s.runners[r := Looking(0)])
    case Look(r) =>
      var i := s.runners[r].i;
      s.(runners := s.runners[r :=
        if i >= |reg| then Succeeded
        else if reg[i].version in s.db.recorded then Looking(i + 1)
        else Pending(i)])
    case Execute(r, ok) => s.(runners := s.runners[r := if ok then Executed(s.runners[r].i) else Failed])
    case Record(r) =>
      var i := s.runners[r].i;
      s.(runners := s.runners[r := if i >= |reg| || reg[i].version in s.db.recorded then Failed else Inserted(i)])
    case Commit(r) =>
      var i := s.runners[r].i;
      if i >= |reg| then s
      else State(Db(s.db.schema + [reg[i]], s.db.recorded + {reg[i].version}), s.runners[r := Looking(i + 1)])
    case Crash(r) => s.(runners := s.runners - {r})
  }

  /** What every interleaving keeps: the schema is a prefix of the registry, the recorded
      versions are those of that prefix, no runner is ahead of it, and the only versions
      inserted and not committed are the next one, by one runner. */
  ghost predicate Sound(reg: seq<Migration>, s: State) {
    && |s.db.schema| <= |reg| && s.db.schema == reg[..|s.db.schema|]
    && s.db.recorded == Versions(s.db.schema)
    && (forall r :: r in s.runners ==> RunnerSound(reg, s.db, s.runners[r]))
    && (forall r, q :: r in s.runners && q in s.runners && r != q && s.runners[r].Inserted? ==>
          s.runners[q] != s.runners[r])
  }

  ghost predicate RunnerSound(reg: seq<Migration>, db: Db, x: Runner) {
    && InRange(reg, x)
    && match x
       case Looking(i) => i <= |db.schema|
       case Pending(i) => i <= |db.schema|
       case Executed(i) => i <= |db.schema|
       case Inserted(i) => i == |db.schema|
       case Succeeded => |db.schema| == |reg|
       case Failed => true
  }

  lemma RecordedIffReached(reg: seq<Migration>, n: nat, i: nat)
    requires Distinct(reg) && n <= |reg| && i < |reg|
    ensures reg[i].version in Versions(reg[..n]) <==> i < n
  {
    if i < n {
      assert reg[..n][i] == reg[i];
    } else {
      forall m | m in reg[..n] ensures m.version != reg[i].version {
        var j :| 0 <= j < n && reg[j] == m;
      }
    }
  }

  lemma StepSound(reg: seq<Migration>, s: State, act: Action)
    requires Distinct(reg) && Sound(reg, s) && Can(reg, s, act)
    ensures Sound(reg, Next(reg, s, act))
  {
    var d, n := Next(reg, s, act), |s.db.schema|;
    if act.r in s.runners {
      var x := s.runners[act.r];
      assert RunnerSound(reg, s.db, x);
      if (x.Looking? || x.Executed?) && x.i < |reg| {
        RecordedIffReached(reg, n, x.i);
      }
      if act.Commit? {
        assert reg[..n + 1] == reg[..n] + [reg[n]];
        assert Versions(d.db.schema) == Versions(s.db.schema) + {reg[n].version};
      }
    }
    forall r | r in d.runners
      ensures RunnerSound(reg, d.db, d.runners[r])
    {
      assert r in s.runners ==> RunnerSound(reg, s.db, s.runners[r]);
    }
  }

  ghost predicate Run(reg: seq<Migration>, ss: seq<State>, acts: seq<Action>) {
    && |ss| == |acts| + 1
    && ss[0] == State(Db([], {}), map[])
    && forall i :: 0 <= i < |acts| ==> Can(reg, ss[i], acts[i]) && ss[i + 1] == Next(reg, ss[i], acts[i])
  }

  lemma {:induction false} AlwaysSound(reg: seq<Migration>, ss: seq<State>, acts: seq<Action>, k: nat)
    requires Distinct(reg) && Run(reg, ss, acts) && k < |ss|
    ensures Sound(reg, ss[k])
  {
    if k > 0 {
      AlwaysSound(reg, ss, acts, k - 1);
      assert Can(reg, ss[k - 1], acts[k - 1]) && ss[k] == Next(reg, ss[k - 1], acts[k - 1]);
      hide Sound, Next;
      StepSound(reg, ss[k - 1], acts[k - 1]);
    }
  }

  /** With crashes at any step and any number of concurrent runners, the schema is always the
      result of applying a prefix of the registry, each migration once and in order, the
      recorded versions are exactly those of that prefix, and a runner that reports success
      leaves the whole registry applied and recorded. */
  lemma AppliedOnceInOrder(reg: seq<Migration>, ss: seq<State>, acts: seq<Action>, k: nat)
    requires Distinct(reg) && Run(reg, ss, acts) && k < |ss|
    ensures var n := |ss[k].db.schema|;
            n <= |reg| && ss[k].db.schema == reg[..n] &&
            forall i :: 0 <= i < |reg| ==> (reg[i].version in ss[k].db.recorded <==> i < n)
    ensures (exists r :: r in ss[k].runners && ss[k].runners[r].Succeeded?) ==>
              ss[k].db.schema == reg && ss[k].db.recorded == Versions(reg)
  {
    AlwaysSound(reg, ss, acts, k);
    var n := |ss[k].db.schema|;
    forall i | 0 <= i < |reg|
      ensures reg[i].version in ss[k].db.recorded <==> i < n
    {
      RecordedIffReached(reg, n, i);
    }
    if r :| r in ss[k].runners && ss[k].runners[r].Succeeded? {
      assert RunnerSound(reg, ss[k].db, ss[k].runners[r]);
      assert reg[..n] == reg;
    }
  }

  /** For the migrations of the program. */
  lemma RegistryAppliedOnce(ss: seq<State>, acts: seq<Action>, k: nat)
    requires Run(REGISTRY, ss, acts) && k < |ss|
    ensures var n := |ss[k].db.schema|;
            && n <= 4 && ss[k].db.schema == REGISTRY[..n]
            && forall v :: v in {1, 2, 3, 4} ==> (v in ss[k].db.recorded <==> v <= n)
    ensures (exists r :: r in ss[k].runners && ss[k].runners[r].Succeeded?) ==> ss[k].db.schema == REGISTRY
  {
    hide Run;
    RegistryIsDistinct();
    AppliedOnceInOrder(REGISTRY, ss, acts, k);
    forall v | v in {1, 2, 3, 4} ensures v in ss[k].db.recorded <==> v <= |ss[k].db.schema| {
      assert REGISTRY[v - 1].version == v;
    }
  }

  /** A runner that waits to record its version waits for exactly one other, which holds that
      version and can commit or die; either lets the waiting one go on, to fail on the version
      already recorded, or to take the migration over. */
  lemma BlockedOnlyByOneThatCanCommit(reg: seq<Migration>, ss: seq<State>, acts: seq<Action>, k: nat, r: nat)
    returns (q: nat)
    requires Distinct(reg) && Run(reg, ss, acts) && k < |ss| && r in ss[k].runners && ss[k].runners[r].Executed?
    requires !Can(reg, ss[k], Record(r))
    ensures q in ss[k].runners && q != r && ss[k].runners[q] == Inserted(ss[k].runners[r].i)
    ensures forall p :: p in ss[k].runners && ss[k].runners[p] == ss[k].runners[q] ==> p == q
    ensures Can(reg, ss[k], Commit(q)) && Can(reg, ss[k], Crash(q))
    ensures var d := Next(reg, ss[k], Commit(q));
            Can(reg, d, Record(r)) && Next(reg, d, Record(r)).runners[r].Failed?
    ensures var d := Next(reg, ss[k], Crash(q));
            Can(reg, d, Record(r)) && Next(reg, d, Record(r)).runners[r] == ss[k].runners[q]
  {
    AlwaysSound(reg, ss, acts, k);
    var s := ss[k];
    var i := s.runners[r].i;
    q :| q in s.runners && q != r && s.runners[q] == Inserted(i);
    assert RunnerSound(reg, s.db, s.runners[q]);
    RecordedIffReached(reg, i, i);
    var d := Next(reg, s, Commit(q));
    assert reg[i].version in d.db.recorded;
    assert !VersionHeld(d, r, i);
    assert !VersionHeld(Next(reg, s, Crash(q)), r, i);
  }

  /** How far a runner is from its end. */
  function Ahead(reg: seq<Migration>, x: Runner): int {
    match x
    case Looking(i) => 4 * (|reg| - i) + 1
    case Pending(i) => 4 * (|reg| - i)
    case Executed(i) => 4 * (|reg| - i) - 1
    case Inserted(i) => 4 * (|reg| - i) - 2
    case _ => 0
  }

  predicate Out(x: Runner) {
    x.Succeeded? || x.Failed?
  }

  /** The next step of a runner, all statements succeeding. */
  function Own(x: Runner, r: nat): Action {
    match x
    case Looking(_) => Look(r)
    case Pending(_) => Execute(r, true)
    case Executed(_) => Record(r)
    case _ => Commit(r)
  }

  lemma OwnStep(reg: seq<Migration>, s: State, r: nat)
    requires r in s.runners && !Out(s.runners[r]) && InRange(reg, s.runners[r]) && Can(reg, s, Own(s.runners[r], r))
    ensures var d := Next(reg, s, Own(s.runners[r], r));
            r in d.runners && 0 <= Ahead(reg, d.runners[r]) < Ahead(reg, s.runners[r])
  {
  }

  lemma RunOn(reg: seq<Migration>, ss: seq<State>, acts: seq<Action>, act: Action)
    requires Run(reg, ss, acts) && Can(reg, ss[|acts|], act)
    ensures Run(reg, ss + [Next(reg, ss[|acts|], act)], acts + [act])
  {
    hide Can, Next;
    var ss', acts' := ss + [Next(reg, ss[|acts|], act)], acts + [act];
    forall i | 0 <= i < |acts'| ensures Can(reg, ss'[i], acts'[i]) && ss'[i + 1] == Next(reg, ss'[i], acts'[i]) {
      if i < |acts| {
        assert ss'[i] == ss[i] && ss'[i + 1] == ss[i + 1] && acts'[i] == acts[i];
      }
    }
  }

  /** No deadlock: from every state of every run, a runner can be brought to its end without a
      process starting or dying, by steps of its own and at most one commit of the runner it
      waits for. */
  lemma {:induction false} EveryRunnerCanFinish(reg: seq<Migration>, ss: seq<State>, acts: seq<Action>, r: nat)
    returns (ss': seq<State>, acts': seq<Action>)
    requires Distinct(reg) && Run(reg, ss, acts) && r in ss[|acts|].runners
    ensures Run(reg, ss', acts') && ss <= ss' && acts <= acts'
    ensures r in ss'[|acts'|].runners && Out(ss'[|acts'|].runners[r])
    ensures forall i :: |acts| <= i < |acts'| ==> !acts'[i].Start? && !acts'[i].Crash?
    decreases Ahead(reg, ss[|acts|].runners[r])
  {
    var s := ss[|acts|];
    if Out(s.runners[r]) {
      return ss, acts;
    }
    AlwaysSound(reg, ss, acts, |acts|);
    assert RunnerSound(reg, s.db, s.runners[r]);
    var act := Own(s.runners[r], r);
    if Can(reg, s, act) {
      OwnStep(reg, s, r);
      RunOn(reg, ss, acts, act);
      ss', acts' := EveryRunnerCanFinish(reg, ss + [Next(reg, s, act)], acts + [act], r);
      assert (acts + [act])[|acts|] == act && acts'[|acts|] == act;
    } else {
      var q := BlockedOnlyByOneThatCanCommit(reg, ss, acts, |acts|, r);
      var d := Next(reg, s, Commit(q));
      RunOn(reg, ss, acts, Commit(q));
      RunOn(reg, ss + [d], acts + [Commit(q)], Record(r));
      ss', acts' := ss + [d] + [Next(reg, d, Record(r))], acts + [Commit(q)] + [Record(r)];
    }
  }

  // ----- one runner left to itself ---------------------------------------------------------------

  /** How far one gets from migration `n` on, stopping at the first whose statements fail. */
  function Reach(reg: seq<Migration>, n: nat, executes: Migration -> bool): nat
    requires n <= |reg|
    decreases |reg| - n
  {
    if n < |reg| && executes(reg[n]) then Reach(reg, n + 1, executes) else n
  }

  lemma {:induction false} ReachMeaning(reg: seq<Migration>, n: nat, executes: Migration -> bool)
    requires n <= |reg|
    ensures var k := Reach(reg, n, executes);
            && n <= k <= |reg|
            && (forall j :: n <= j < k ==> executes(reg[j]))
            && (k < |reg| ==> !executes(reg[k]))
    ensures Reach(reg, n, executes) == |reg| <==> forall j :: n <= j < |reg| ==> executes(reg[j])
    decreases |reg| - n
  {
    if n < |reg| && executes(reg[n]) {
      ReachMeaning(reg, n + 1, executes);
    }
  }

  /** The step a runner takes, its statements succeeding as `executes` says. */
  function OwnAct(reg: seq<Migration>, x: Runner, r: nat, executes: Migration -> bool): Action
    requires InRange(reg, x)
  {
    if x.Pending? then Execute(r, executes(reg[x.i])) else Own(x, r)
  }

  /** From step `n` on the run consists of steps of `r`. */
  ghost predicate OwnFrom(reg: seq<Migration>, ss: seq<State>, acts: seq<Action>, n: nat, r: nat,
                          executes: Migration -> bool)
    requires |ss| == |acts| + 1
  {
    forall i :: n <= i < |acts| ==>
      r in ss[i].runners && InRange(reg, ss[i].runners[r]) && acts[i] == OwnAct(reg, ss[i].runners[r], r, executes)
  }

  predicate NoneOpen(s: State, r: nat) {
    forall q :: q in s.runners && q != r ==> !s.runners[q].Inserted?
  }

  /** The runner is in a transaction for a migration that another has committed since. */
  predicate Stale(x: Runner, n: nat) {
    (x.Pending? || x.Executed?) && x.i < n
  }

  /** The schema the runner still has to build on: past the migration whose statements it has
      executed already. */
  function Base(x: Runner, n: nat): nat {
    if (x.Executed? && x.i == n) || x.Inserted? then n + 1 else n
  }

  /** What a runner that goes on alone, from a state with `n` migrations applied, comes to. */
  ghost predicate Comes(reg: seq<Migration>, x: Runner, n: nat, d: State, r: nat, executes: Migration -> bool)
    requires n <= |reg| && Base(x, n) <= |reg|
  {
    && r in d.runners
    && if Stale(x, n) then d.runners[r].Failed? && |d.db.schema| == n
       else
         && |d.db.schema| == Reach(reg, Base(x, n), executes)
         && d.runners[r] == if |d.db.schema| == |reg| then Succeeded else Failed
  }

  /** One own step, from `x` with `n` migrations applied to `y` with `m`. */
  ghost predicate Steps(reg: seq<Migration>, x: Runner, n: nat, y: Runner, m: nat, executes: Migration -> bool) {
    && n <= |reg| && m <= |reg| && Base(x, n) <= |reg| && Base(y, m) <= |reg|
    && match x
       case Looking(_) => m == n && if Out(y) then n == |reg| && y == Succeeded
                                    else (y.Looking? || y == Pending(n))
       case Pending(i) => m == n && i <= n && i < |reg| && y == if executes(reg[i]) then Executed(i) else Failed
       case Executed(i) => m == n && i <= n && y == if i < n then Failed else Inserted(n)
       case _ => m == n + 1 && y == Looking(m)
  }

  lemma AloneStep(reg: seq<Migration>, s: State, r: nat, executes: Migration -> bool)
    requires Distinct(reg) && Sound(reg, s) && r in s.runners && !Out(s.runners[r]) && NoneOpen(s, r)
    ensures InRange(reg, s.runners[r])
    ensures var x, act := s.runners[r], OwnAct(reg, s.runners[r], r, executes);
            && Can(reg, s, act)
            && var d := Next(reg, s, act);
               && r in d.runners && NoneOpen(d, r) && 0 <= Ahead(reg, d.runners[r]) < Ahead(reg, x)
               && Steps(reg, x, |s.db.schema|, d.runners[r], |d.db.schema|, executes)
  {
    var x, n := s.runners[r], |s.db.schema|;
    assert RunnerSound(reg, s.db, x);
    if (x.Looking? || x.Executed?) && x.i < |reg| {
      RecordedIffReached(reg, n, x.i);
    }
    OwnStepHere(reg, s, r, executes);
  }

  lemma OwnStepHere(reg: seq<Migration>, s: State, r: nat, executes: Migration -> bool)
    requires r in s.runners && !Out(s.runners[r]) && InRange(reg, s.runners[r]) && NoneOpen(s, r)
    ensures var x, act := s.runners[r], OwnAct(reg, s.runners[r], r, executes);
            && Can(reg, s, act)
            && var d := Next(reg, s, act);
               && r in d.runners && NoneOpen(d, r)
               && 0 <= Ahead(reg, d.runners[r]) < Ahead(reg, x)
               && (x.Pending? ==>
                     d == s.(runners := s.runners[r := if executes(reg[x.i]) then Executed(x.i) else Failed]))
               && (x.Inserted? ==> |d.db.schema| == |s.db.schema| + 1 && d.runners[r] == Looking(x.i + 1))
  {
  }

  /** Once no other runner has its version inserted, a runner not yet out is brought to its end by
      its own steps alone.  It succeeds, with the whole registry applied, exactly when all the
      statements still ahead execute, and otherwise leaves what comes before the first that does
      not; unless it is in a transaction that another runner has overtaken, and then it fails. */
  lemma {:induction false} AloneItFinishes(reg: seq<Migration>, ss: seq<State>, acts: seq<Action>, r: nat,
                                           executes: Migration -> bool)
    returns (ss': seq<State>, acts': seq<Action>)
    requires Distinct(reg) && Run(reg, ss, acts) && r in ss[|acts|].runners && !Out(ss[|acts|].runners[r])
    requires NoneOpen(ss[|acts|], r)
    ensures |ss[|acts|].db.schema| <= |reg| && Base(ss[|acts|].runners[r], |ss[|acts|].db.schema|) <= |reg|
    ensures Run(reg, ss', acts') && ss <= ss' && acts <= acts' && OwnFrom(reg, ss', acts', |acts|, r, executes)
    ensures Comes(reg, ss[|acts|].runners[r], |ss[|acts|].db.schema|, ss'[|acts'|], r, executes)
    decreases Ahead(reg, ss[|acts|].runners[r])
  {
    hide Can, Next, Sound, Ahead;
    var s := ss[|acts|];
    AlwaysSound(reg, ss, acts, |acts|);
    AloneStep(reg, s, r, executes);
    var act := OwnAct(reg, s.runners[r], r, executes);
    var d := Next(reg, s, act);
    RunOn(reg, ss, acts, act);
    ss', acts' := ss + [d], acts + [act];
    assert ss'[|acts|] == s && acts'[|acts|] == act && ss'[|acts'|] == d;
    if !Out(d.runners[r]) {
      ss', acts' := AloneItFinishes(reg, ss + [d], acts + [act], r, executes);
      assert ss'[|acts|] == s && acts'[|acts|] == act;
    }
    ComesBefore(reg, s, d, ss'[|acts'|], r, executes);
  }

  /** What holds of the rest of the way holds of the way with one step before it. */
  lemma ComesBefore(reg: seq<Migration>, s: State, d: State, last: State, r: nat, executes: Migration -> bool)
    requires r in s.runners && !Out(s.runners[r]) && InRange(reg, s.runners[r]) && r in d.runners
    requires |s.db.schema| <= |reg| && |d.db.schema| <= |reg|
    requires Base(s.runners[r], |s.db.schema|) <= |reg| && Base(d.runners[r], |d.db.schema|) <= |reg|
    requires Steps(reg, s.runners[r], |s.db.schema|, d.runners[r], |d.db.schema|, executes)
    requires if Out(d.runners[r]) then last == d else Comes(reg, d.runners[r], |d.db.schema|, last, r, executes)
    ensures Comes(reg, s.runners[r], |s.db.schema|, last, r, executes)
  {
  }

  /** A process that starts when no other has its version inserted does what one runner alone does:
      it applies what is pending up to the first migration whose statements fail, and succeeds
      exactly if there is none. */
  lemma NewRunnerMigrates(reg: seq<Migration>, ss: seq<State>, acts: seq<Action>, r: nat, executes: Migration -> bool)
    returns (ss': seq<State>, acts': seq<Action>)
    requires Distinct(reg) && Run(reg, ss, acts) && r !in ss[|acts|].runners && NoneOpen(ss[|acts|], r)
    ensures Run(reg, ss', acts') && ss <= ss' && acts + [Start(r)] <= acts'
    ensures OwnFrom(reg, ss', acts', |acts| + 1, r, executes)
    ensures |ss[|acts|].db.schema| <= |reg| && r in ss'[|acts'|].runners
    ensures var n, d := |ss[|acts|].db.schema|, ss'[|acts'|];
            && |d.db.schema| == Reach(reg, n, executes)
            && d.runners[r] == if |d.db.schema| == |reg| then Succeeded else Failed
  {
    var d := Next(reg, ss[|acts|], Start(r));
    assert Can(reg, ss[|acts|], Start(r)) && d.runners[r] == Looking(0) && d.db == ss[|acts|].db;
    assert NoneOpen(d, r);
    RunOn(reg, ss, acts, Start(r));
    hide Can, Next, Run, NoneOpen;
    assert (ss + [d])[|acts| + 1] == d && |acts + [Start(r)]| == |acts| + 1;
    ss', acts' := AloneItFinishes(reg, ss + [d], acts + [Start(r)], r, executes);
  }

  // ----- one runner, as written ------------------------------------------------------------------

  class Database {
    var schema: seq<Migration>
    var recorded: set<int>

    constructor ()
      ensures schema == [] && recorded == {}
    {
      schema, recorded := [], {};
    }

    /** A database some runner has left. */
    ghost predicate Valid(reg: seq<Migration>)
      reads this
    {
      |schema| <= |reg| && schema == reg[..|schema|] && recorded == Versions(schema)
    }
  }

  /** Run: on success everything is applied and recorded; on an error the schema has only
      grown, and is still a prefix. */
  method Migrate(db: Database, reg: seq<Migration>, executes: Migration -> bool) returns (ok: bool)
    requires Distinct(reg) && db.Valid(reg)
    modifies db
    ensures db.Valid(reg) && old(db.schema) <= db.schema
    ensures ok ==> db.schema == reg
    ensures ok <==> forall m :: m in reg[|old(db.schema)|..] ==> executes(m)
    ensures |db.schema| == Reach(reg, |old(db.schema)|, executes) && (ok <==> |db.schema| == |reg|)
  {
    ReachMeaning(reg, |db.schema|, executes);
    for i := 0 to |reg|
      invariant db.Valid(reg) && i <= |db.schema|
      invariant |db.schema| == if i <= |old(db.schema)| then |old(db.schema)| else i
      invariant forall j :: |old(db.schema)| <= j < i ==> executes(reg[j])
    {
      RecordedIffReached(reg, |db.schema|, i);
      if reg[i].version !in db.recorded {
        if !executes(reg[i]) {
          assert reg[i] == reg[|old(db.schema)|..][i - |old(db.schema)|];
          return false;
        }
        assert reg[..i + 1] == reg[..i] + [reg[i]];
        assert Versions(db.schema + [reg[i]]) == Versions(db.schema) + {reg[i].version};
        db.schema, db.recorded := db.schema + [reg[i]], db.recorded + {reg[i].version};
      }
    }
    assert db.schema == reg;
    ok := true;
  }
}
