/** Shutting the server down: after the connections have been drained, the scheduler loop
    and the detached handlers are waited for, both under one deadline, before the store is
    closed.  The scheduler and the handlers keep moving all the while. */
module Shutdown {
  import D = DetachedWork

  /** runServer from the signal on: draining, the first look at the scheduler, the blocking
      wait for it, the wait for the handlers, and past the close of the store. */
  datatype Main = Serving | Draining | Polling | AwaitingScheduler | AwaitingHandlers | Closed

  /** backupLoop: reading its configuration, in its select, deciding after a tick, in a run
      that ignores cancellation, or out of the loop with `done` closed. */
  datatype Scheduler = Starting | Selecting | Deciding | InRun | Exited

  datatype State = State(main: Main, scheduler: Scheduler, cancelled: bool, expired: bool, work: D.State)

  /** The goroutine that runs WaitDetached and then closes handlersDone. */
  const WAITER: nat := 0

  datatype Action =
    | Signal | Drained | MainStep | Expire
    | Configured(ok: bool) | Tick | SeesCancel | Decides(due: bool) | RunEnds
    | Work(act: D.Action)

  predicate HandlersDone(s: State) {
    WAITER in s.work.waiters && s.work.waiters[WAITER] == D.Returned
  }

  predicate WaitBegan(s: State) {
    s.main.Polling? || s.main.AwaitingScheduler? || s.main.AwaitingHandlers? || s.main.Closed?
  }

  predicate Can(s: State, act: Action) {
    match act
    case Signal => s.main.Serving?
    case Drained => s.main.Draining?
    case MainStep =>
      || s.main.Polling?
      || (s.main.AwaitingScheduler? && (s.scheduler.Exited? || s.expired))
      || (s.main.AwaitingHandlers? && (HandlersDone(s) || s.expired))
    case Expire => WaitBegan(s)
    case Configured(_) => s.scheduler.Starting?
    case Tick => s.scheduler.Selecting?
    case SeesCancel => s.scheduler.Selecting? && s.cancelled
    case Decides(_) => s.scheduler.Deciding?
    case RunEnds => s.scheduler.InRun?
    case Work(a) => D.Can(s.work, a) && a != D.Arrive(WAITER)
  }

  function Next(s: State, act: Action): State
    requires Can(s, act)
  {
    match act
    case Signal => s.(main := Draining)
    case Drained =>
      s.(main := Polling, cancelled := true, work := s.work.(waiters := s.work.waiters[WAITER := D.Checking]))
    case MainStep =>
      s.(main := match s.main
                 case Polling => if s.scheduler.Exited? then AwaitingHandlers else AwaitingScheduler
                 case AwaitingScheduler => AwaitingHandlers
                 case _ => Closed)
    case Expire => s.(expired := true)
    case Configured(ok) => s.(scheduler := if ok then Selecting else Exited)
    case Tick => s.(scheduler := Deciding)
    case SeesCancel => s.(scheduler := Exited)
    case Decides(due) => s.(scheduler := if due then InRun else Selecting)
    case RunEnds => s.(scheduler := Selecting)
    case Work(a) => s.(work := D.Next(s.work, a))
  }

  ghost predicate Init(s: State) {
    s == State(Serving, Starting, false, false, D.State(0, map[], map[]))
  }

  ghost predicate Run(ss: seq<State>, acts: seq<Action>) {
    && |ss| == |acts| + 1
    && Init(ss[0])
    && forall i :: 0 <= i < |acts| ==> Can(ss[i], acts[i]) && ss[i + 1] == Next(ss[i], acts[i])
  }

  ghost predicate Sound(s: State) {
    && D.Sound(s.work)
    && (WAITER in s.work.waiters <==> WaitBegan(s))
    && (s.main.AwaitingHandlers? || s.main.Closed? ==> s.scheduler.Exited? || s.expired)
  }

  lemma StepSound(s: State, act: Action)
    requires Sound(s) && Can(s, act)
    ensures Sound(Next(s, act))
  {
    match act
    case Work(a) => D.StepSound(s.work, a);
    case Drained => D.StepSound(s.work, D.Arrive(WAITER));
    case _ =>
  }

  lemma {:induction false} AlwaysSound(ss: seq<State>, acts: seq<Action>, k: nat)
    requires Run(ss, acts) && k < |ss|
    ensures Sound(ss[k])
  {
    if k > 0 {
      AlwaysSound(ss, acts, k - 1);
      assert Can(ss[k - 1], acts[k - 1]);
      StepSound(ss[k - 1], acts[k - 1]);
    } else {
      assert D.Runners(ss[0].work) == {};
    }
  }

  /** WaitDetached returned by the check at step `i`, at an instant with no tracked handler running. */
  ghost predicate WaitReturnsAt(ss: seq<State>, acts: seq<Action>, i: nat)
    requires Run(ss, acts)
  {
    && i < |acts| && acts[i] == Work(D.Check(WAITER)) && WaitBegan(ss[i])
    && D.Runners(ss[i].work) == {} && !HandlersDone(ss[i]) && HandlersDone(ss[i + 1])
  }

  lemma {:induction false} HandlersDoneMeansIdle(ss: seq<State>, acts: seq<Action>, k: nat) returns (i: nat)
    requires Run(ss, acts) && k < |ss| && HandlersDone(ss[k])
    ensures i < k && WaitReturnsAt(ss, acts, i)
  {
    assert k > 0;
    assert Can(ss[k - 1], acts[k - 1]) && ss[k] == Next(ss[k - 1], acts[k - 1]);
    if HandlersDone(ss[k - 1]) {
      i := HandlersDoneMeansIdle(ss, acts, k - 1);
    } else {
      AlwaysSound(ss, acts, k - 1);
      ReturnsByCheck(ss[k - 1], acts[k - 1]);
      i := k - 1;
    }
  }

  lemma ReturnsByCheck(s: State, act: Action)
    requires Sound(s) && Can(s, act) && !HandlersDone(s) && HandlersDone(Next(s, act))
    ensures act == Work(D.Check(WAITER)) && WaitBegan(s) && D.Runners(s.work) == {}
  {
    hide D.Runners, D.Finishers;
  }

  lemma {:induction false} ExitedStays(ss: seq<State>, acts: seq<Action>, c: nat, k: nat)
    requires Run(ss, acts) && c <= k < |ss| && ss[c].scheduler.Exited?
    ensures ss[k].scheduler.Exited?
  {
    if c < k {
      ExitedStays(ss, acts, c, k - 1);
      assert Can(ss[k - 1], acts[k - 1]) && ss[k] == Next(ss[k - 1], acts[k - 1]);
    }
  }

  /** `r` registers at step `j` and does not finish before `c`. */
  ghost predicate RegisteredAt(acts: seq<Action>, j: nat, c: nat, r: nat)
    requires c <= |acts|
  {
    j < c && acts[j] == Work(D.Add(r)) && forall m :: j < m < c ==> acts[m] != Work(D.Decrement(r))
  }

  lemma StepRunners(s: State, act: Action, r: nat)
    requires Can(s, act)
    ensures r in D.Runners(Next(s, act).work) <==>
            act == Work(D.Add(r)) || (r in D.Runners(s.work) && act != Work(D.Decrement(r)))
  {
  }

  /** From an instant with no handler running, a handler is running at `c` exactly when it has
      registered since and has not finished. */
  lemma {:induction false} RunnersRegistered(ss: seq<State>, acts: seq<Action>, i: nat, c: nat, r: nat)
    requires Run(ss, acts) && i <= c < |ss| && D.Runners(ss[i].work) == {}
    ensures r in D.Runners(ss[c].work) <==> exists j: nat :: i <= j && RegisteredAt(acts, j, c, r)
    decreases c
  {
    hide D.Runners, Next, Can, RegisteredAt, Init;
    if i < c {
      assert Can(ss[c - 1], acts[c - 1]) && ss[c] == Next(ss[c - 1], acts[c - 1]);
      RunnersRegistered(ss, acts, i, c - 1, r);
      StepRunners(ss[c - 1], acts[c - 1], r);
      StepRegistered(acts, i, c - 1, c, r);
    } else {
      NoneRegistered(acts, i, r);
    }
  }

  lemma NoneRegistered(acts: seq<Action>, i: nat, r: nat)
    requires i <= |acts|
    ensures !exists j: nat :: i <= j && RegisteredAt(acts, j, i, r)
  {
  }

  lemma StepRegistered(acts: seq<Action>, i: nat, c: nat, next: nat, r: nat)
    requires i <= c < |acts| && next == c + 1
    ensures (exists j: nat :: i <= j && RegisteredAt(acts, j, next, r)) <==>
            || acts[c] == Work(D.Add(r))
            || ((exists j: nat :: i <= j && RegisteredAt(acts, j, c, r)) && acts[c] != Work(D.Decrement(r)))
  {
    if acts[c] == Work(D.Add(r)) {
      assert RegisteredAt(acts, c, next, r);
    } else if j: nat :| i <= j && RegisteredAt(acts, j, next, r) {
      assert RegisteredAt(acts, j, c, r) && acts[c] != Work(D.Decrement(r));
    } else if j: nat :| i <= j && RegisteredAt(acts, j, c, r) {
      assert acts[c] != Work(D.Decrement(r)) ==> RegisteredAt(acts, j, next, r);
    }
  }

  /** If the deadline has not passed when the store closes, no scheduled run is in flight and
      none starts afterwards; WaitDetached has returned, from a check at an instant with no
      tracked handler running; and a handler is running at the close if and only if it has
      registered since that check and has not decremented the counter. */
  lemma StoreClosesAfterTheWork(ss: seq<State>, acts: seq<Action>, c: nat) returns (idle: nat)
    requires Run(ss, acts) && c < |acts| && !ss[c].main.Closed? && ss[c + 1].main.Closed? && !ss[c].expired
    ensures forall k :: c <= k < |ss| ==> ss[k].scheduler.Exited?
    ensures idle < c && WaitReturnsAt(ss, acts, idle)
    ensures forall r :: r in D.Runners(ss[c].work) <==> exists j: nat :: idle < j && RegisteredAt(acts, j, c, r)
  {
    assert Can(ss[c], acts[c]) && ss[c + 1] == Next(ss[c], acts[c]);
    AlwaysSound(ss, acts, c);
    forall k | c <= k < |ss| ensures ss[k].scheduler.Exited? {
      ExitedStays(ss, acts, c, k);
    }
    idle := HandlersDoneMeansIdle(ss, acts, c);
    assert Can(ss[idle], acts[idle]) && ss[idle + 1] == Next(ss[idle], acts[idle]);
    assert D.Runners(ss[idle + 1].work) == {};
    forall r
      ensures r in D.Runners(ss[c].work) <==> exists j: nat :: idle < j && RegisteredAt(acts, j, c, r)
    {
      RunnersRegistered(ss, acts, idle + 1, c, r);
    }
  }

  /** Once the deadline has passed neither wait blocks: from any state of the wait, three
      steps of runServer alone close the store, and whatever moves in between leaves its next
      step possible. */
  lemma DeadlineUnblocks(s: State)
    requires s.expired && WaitBegan(s) && !s.main.Closed?
    ensures Can(s, MainStep) && WaitBegan(Next(s, MainStep)) && Next(s, MainStep).expired
    ensures forall act :: Can(s, act) && act != MainStep ==> Next(s, act).main == s.main && Next(s, act).expired
    ensures MainSteps(s, 3).main.Closed?
  {
    var s1 := Next(s, MainStep);
    assert MainSteps(s, 3) == MainSteps(s1, 2);
    if !s1.main.Closed? {
      var s2 := Next(s1, MainStep);
      assert MainSteps(s1, 2) == MainSteps(s2, 1);
      if !s2.main.Closed? {
        assert MainSteps(s2, 1) == MainSteps(Next(s2, MainStep), 0);
      }
    }
  }

  function MainSteps(s: State, n: nat): State
    decreases n
  {
    if n == 0 || !Can(s, MainStep) then s else MainSteps(Next(s, MainStep), n - 1)
  }

  // ----- what the scheduler is at ----------------------------------------------------------------

  /** A run was found due at step `j` and has not ended by `k`. */
  ghost predicate RunSince(acts: seq<Action>, j: nat, k: nat)
    requires k <= |acts|
  {
    j < k && acts[j] == Decides(true) && forall m :: j < m < k ==> acts[m] != RunEnds
  }

  /** The loop has been left, for want of a configuration or on cancellation. */
  predicate LeftAt(acts: seq<Action>, j: nat) {
    j < |acts| && (acts[j] == Configured(false) || acts[j] == SeesCancel)
  }

  /** A tick came at step `j` and has not been decided by `k`. */
  ghost predicate TickedSince(acts: seq<Action>, j: nat, k: nat)
    requires k <= |acts|
  {
    j < k && acts[j] == Tick && forall m :: j < m < k ==> !acts[m].Decides?
  }

  lemma StepScheduler(s: State, act: Action)
    requires Can(s, act)
    ensures var d := Next(s, act);
            && (d.scheduler.InRun? <==> act == Decides(true) || (s.scheduler.InRun? && act != RunEnds))
            && (d.scheduler.Exited? <==> act == Configured(false) || act == SeesCancel || s.scheduler.Exited?)
            && (d.scheduler.Deciding? <==> act == Tick || (s.scheduler.Deciding? && !act.Decides?))
            && (act == SeesCancel ==> s.cancelled)
  {
  }

  /** The loop takes a tick or sees the cancellation, whichever is there, and never waits in a run. */
  lemma MayMove(s: State)
    ensures s.scheduler.Selecting? ==> Can(s, Tick) && (s.cancelled ==> Can(s, SeesCancel))
    ensures s.scheduler.Deciding? ==> Can(s, Decides(true)) && Can(s, Decides(false))
    ensures s.scheduler.InRun? ==> Can(s, RunEnds)
  {
  }

  lemma StepRunSince(acts: seq<Action>, k: nat, next: nat)
    requires k < |acts| && next == k + 1
    ensures (exists j: nat :: RunSince(acts, j, next)) <==>
            acts[k] == Decides(true) || ((exists j: nat :: RunSince(acts, j, k)) && acts[k] != RunEnds)
  {
    if acts[k] == Decides(true) {
      assert RunSince(acts, k, next);
    } else if j: nat :| RunSince(acts, j, next) {
      assert RunSince(acts, j, k) && acts[k] != RunEnds;
    } else if j: nat :| RunSince(acts, j, k) {
      assert acts[k] != RunEnds ==> RunSince(acts, j, next);
    }
  }

  lemma StepTickedSince(acts: seq<Action>, k: nat, next: nat)
    requires k < |acts| && next == k + 1
    ensures (exists j: nat :: TickedSince(acts, j, next)) <==>
            acts[k] == Tick || ((exists j: nat :: TickedSince(acts, j, k)) && !acts[k].Decides?)
  {
    if acts[k] == Tick {
      assert TickedSince(acts, k, next);
    } else if j: nat :| TickedSince(acts, j, next) {
      assert TickedSince(acts, j, k) && !acts[k].Decides?;
    } else if j: nat :| TickedSince(acts, j, k) {
      assert !acts[k].Decides? ==> TickedSince(acts, j, next);
    }
  }

  lemma StepLeft(acts: seq<Action>, k: nat, next: nat)
    requires k < |acts| && next == k + 1
    ensures (exists j: nat :: j < next && LeftAt(acts, j)) <==>
            acts[k] == Configured(false) || acts[k] == SeesCancel || exists j: nat :: j < k && LeftAt(acts, j)
  {
    if acts[k] == Configured(false) || acts[k] == SeesCancel {
      assert LeftAt(acts, k);
    }
  }

  lemma {:induction false} InRunIff(ss: seq<State>, acts: seq<Action>, k: nat)
    requires Run(ss, acts) && k < |ss|
    ensures ss[k].scheduler.InRun? <==> exists j: nat :: RunSince(acts, j, k)
  {
    hide RunSince, Next, Can, Init;
    if k > 0 {
      InRunIff(ss, acts, k - 1);
      assert Can(ss[k - 1], acts[k - 1]) && ss[k] == Next(ss[k - 1], acts[k - 1]);
      hide Run;
      StepScheduler(ss[k - 1], acts[k - 1]);
      StepRunSince(acts, k - 1, k);
    } else {
      NothingYet(ss, acts);
    }
  }

  lemma {:induction false} DecidingIff(ss: seq<State>, acts: seq<Action>, k: nat)
    requires Run(ss, acts) && k < |ss|
    ensures ss[k].scheduler.Deciding? <==> exists j: nat :: TickedSince(acts, j, k)
  {
    hide TickedSince, Next, Can, Init;
    if k > 0 {
      DecidingIff(ss, acts, k - 1);
      assert Can(ss[k - 1], acts[k - 1]) && ss[k] == Next(ss[k - 1], acts[k - 1]);
      hide Run;
      StepScheduler(ss[k - 1], acts[k - 1]);
      StepTickedSince(acts, k - 1, k);
    } else {
      NothingYet(ss, acts);
    }
  }

  lemma {:induction false} ExitedIff(ss: seq<State>, acts: seq<Action>, k: nat)
    requires Run(ss, acts) && k < |ss|
    ensures ss[k].scheduler.Exited? <==> exists j: nat :: j < k && LeftAt(acts, j)
  {
    hide LeftAt, Next, Can, Init;
    if k > 0 {
      ExitedIff(ss, acts, k - 1);
      assert Can(ss[k - 1], acts[k - 1]) && ss[k] == Next(ss[k - 1], acts[k - 1]);
      hide Run;
      StepScheduler(ss[k - 1], acts[k - 1]);
      StepLeft(acts, k - 1, k);
    } else {
      NothingYet(ss, acts);
    }
  }

  /** At every point of a run: a scheduled run is in flight exactly when one was found due and has not
      ended, a tick is being decided exactly when one came and has not been, and the loop has been
      left exactly when the configuration failed or a cancellation was seen, after it was made.
      Waiting, the loop can take a tick even when it is cancelled; a run can always end. */
  lemma SchedulerIsAt(ss: seq<State>, acts: seq<Action>, k: nat)
    requires Run(ss, acts) && k < |ss|
    ensures ss[k].scheduler.InRun? <==> exists j: nat :: RunSince(acts, j, k)
    ensures ss[k].scheduler.Deciding? <==> exists j: nat :: TickedSince(acts, j, k)
    ensures ss[k].scheduler.Exited? <==> exists j: nat :: j < k && LeftAt(acts, j)
    ensures k < |acts| && acts[k] == SeesCancel ==> ss[k].cancelled
    ensures ss[k].scheduler.Selecting? ==> Can(ss[k], Tick) && (ss[k].cancelled ==> Can(ss[k], SeesCancel))
    ensures ss[k].scheduler.Deciding? ==> Can(ss[k], Decides(true)) && Can(ss[k], Decides(false))
    ensures ss[k].scheduler.InRun? ==> Can(ss[k], RunEnds)
  {
    hide RunSince, TickedSince, LeftAt, Next, Can, Init;
    if k < |acts| {
      assert Can(ss[k], acts[k]);
      StepScheduler(ss[k], acts[k]);
    }
    InRunIff(ss, acts, k);
    DecidingIff(ss, acts, k);
    ExitedIff(ss, acts, k);
    hide Run;
    MayMove(ss[k]);
  }

  lemma NothingYet(ss: seq<State>, acts: seq<Action>)
    requires Run(ss, acts)
    ensures ss[0].scheduler.Starting? && forall j: nat :: !RunSince(acts, j, 0) && !TickedSince(acts, j, 0)
  {
  }

  // ----- a shutdown that is not cut short completes -----------------------------------------------

  lemma {:induction false} CancelledOnceWaiting(ss: seq<State>, acts: seq<Action>, k: nat)
    requires Run(ss, acts) && k < |ss| && WaitBegan(ss[k])
    ensures ss[k].cancelled
  {
    if k > 0 {
      assert Can(ss[k - 1], acts[k - 1]) && ss[k] == Next(ss[k - 1], acts[k - 1]);
      if WaitBegan(ss[k - 1]) {
        CancelledOnceWaiting(ss, acts, k - 1);
      }
    }
  }

  function SchedulerAhead(x: Scheduler): nat {
    match x
    case Exited => 0
    case Selecting => 1
    case _ => 2
  }

  function MainAhead(m: Main): nat {
    match m
    case Closed => 0
    case AwaitingHandlers => 1
    case AwaitingScheduler => 2
    case _ => 3
  }

  /** Work that ends and waits that go on: no new requests, no new runs, no deadline. */
  predicate Ending(act: Action) {
    match act
    case MainStep => true
    case Configured(_) => true
    case SeesCancel => true
    case Decides(due) => !due
    case RunEnds => true
    case Work(a) => D.Finishing(a)
    case _ => false
  }

  lemma WorkCanEnd(w: D.State) returns (a: D.Action)
    requires D.Sound(w) && WAITER in w.waiters && w.waiters[WAITER] != D.Returned
    ensures D.Finishing(a) && D.Can(w, a) && a != D.Arrive(WAITER)
  {
    if r :| r in D.Runners(w) {
      a := D.Decrement(r);
    } else if r :| r in D.Finishers(w) {
      a := D.Broadcast(r);
    } else {
      assert D.Runners(w) == {};
      a := D.Check(WAITER);
    }
  }

  /** Some step brings the close nearer. */
  lemma SomethingEnds(s: State) returns (act: Action)
    requires Sound(s) && WaitBegan(s) && s.cancelled && !s.main.Closed?
    ensures Ending(act) && Can(s, act) && WaitBegan(Next(s, act))
    ensures var d := Next(s, act);
            || SchedulerAhead(d.scheduler) < SchedulerAhead(s.scheduler)
            || (d.scheduler == s.scheduler && MainAhead(d.main) < MainAhead(s.main))
            || (d.scheduler == s.scheduler && d.main == s.main
                && (|| D.Weight(d.work) < D.Weight(s.work)
                    || (D.Weight(d.work) == D.Weight(s.work) && |D.Testers(d.work)| < |D.Testers(s.work)|)))
  {
    match s.scheduler
    case Starting => act := Configured(true);
    case Selecting => act := SeesCancel;
    case Deciding => act := Decides(false);
    case InRun => act := RunEnds;
    case Exited =>
      if s.main.AwaitingHandlers? && !HandlersDone(s) {
        var a := WorkCanEnd(s.work);
        D.FinishingMakesProgress(s.work, a);
        act := Work(a);
      } else {
        act := MainStep;
      }
  }

  lemma RunOn(ss: seq<State>, acts: seq<Action>, act: Action)
    requires Run(ss, acts) && Can(ss[|acts|], act)
    ensures Run(ss + [Next(ss[|acts|], act)], acts + [act])
  {
    hide Can, Next, Init;
    var ss', acts' := ss + [Next(ss[|acts|], act)], acts + [act];
    forall i | 0 <= i < |acts'| ensures Can(ss'[i], acts'[i]) && ss'[i + 1] == Next(ss'[i], acts'[i]) {
      if i < |acts| {
        assert ss'[i] == ss[i] && ss'[i + 1] == ss[i + 1] && acts'[i] == acts[i];
      }
    }
  }

  /** From every state of every run in which the wait has begun, and without a deadline: once no more
      requests come and no more runs start, the work that is under way ends and the store closes. */
  lemma {:induction false} ItCloses(ss: seq<State>, acts: seq<Action>) returns (ss': seq<State>, acts': seq<Action>)
    requires Run(ss, acts) && WaitBegan(ss[|acts|])
    ensures Run(ss', acts') && ss <= ss' && acts <= acts' && ss'[|acts'|].main.Closed?
    ensures forall i :: |acts| <= i < |acts'| ==> Ending(acts'[i])
    decreases SchedulerAhead(ss[|acts|].scheduler), MainAhead(ss[|acts|].main), D.Weight(ss[|acts|].work),
              |D.Testers(ss[|acts|].work)|
  {
    hide Can, Next, Init, Sound, D.Weight, D.Testers, Ending;
    var s := ss[|acts|];
    if s.main.Closed? {
      return ss, acts;
    }
    AlwaysSound(ss, acts, |acts|);
    CancelledOnceWaiting(ss, acts, |acts|);
    var act := SomethingEnds(s);
    RunOn(ss, acts, act);
    ss', acts' := ItCloses(ss + [Next(s, act)], acts + [act]);
    assert (acts + [act])[|acts|] == act && acts'[|acts|] == act;
  }

  // ----- what the counter cannot rule out --------------------------------------------------------

  function Late(main: Main, scheduler: Scheduler, cancelled: bool, work: D.State): State {
    State(main, scheduler, cancelled, false, work)
  }

  function LateTrace(): seq<State> {
    var idle := D.State(0, map[], map[]);
    var checking := D.State(0, map[], map[WAITER := D.Checking]);
    var back := D.State(0, map[], map[WAITER := D.Returned]);
    var late := D.State(1, map[7 := D.Running], map[WAITER := D.Returned]);
    [Late(Serving, Starting, false, idle), Late(Serving, Exited, false, idle), Late(Draining, Exited, false, idle),
     Late(Polling, Exited, true, checking), Late(AwaitingHandlers, Exited, true, checking),
     Late(AwaitingHandlers, Exited, true, back), Late(AwaitingHandlers, Exited, true, late),
     Late(Closed, Exited, true, late)]
  }

  function LateActs(): seq<Action> {
    [Configured(false), Signal, Drained, MainStep, Work(D.Check(WAITER)), Work(D.Add(7)), MainStep]
  }

  /** A request that registers once WaitDetached has returned is not waited for: the store
      closes, inside the deadline, under a tracked handler. */
  lemma LateHandlerIsNotWaitedFor()
    ensures Run(LateTrace(), LateActs())
    ensures LateTrace()[7].main.Closed? && !LateTrace()[7].expired && 7 in D.Runners(LateTrace()[7].work)
  {
    var ss, acts := LateTrace(), LateActs();
    forall i | 0 <= i < |acts|
      ensures Can(ss[i], acts[i]) && ss[i + 1] == Next(ss[i], acts[i])
    {
      if i == 2 {
        assert Next(ss[2], acts[2]).work.waiters == ss[3].work.waiters;
      } else if i == 4 {
        assert Next(ss[4], acts[4]).work.waiters == ss[5].work.waiters;
      } else if i == 5 {
        assert Next(ss[5], acts[5]).work.requests == ss[6].work.requests;
      }
    }
  }
}
