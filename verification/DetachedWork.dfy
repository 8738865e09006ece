/** The counter of requests that outlive their connection, and the wait for it to reach
    zero.  Each step is one critical section of the counter's mutex, or the broadcast that
    `done` makes after releasing it.  `cond.Wait` enters the notify list before it releases
    the mutex, so a check that finds work and parks is one step. */
module DetachedWork {

  /** A tracked request: inside its handler, or past the decrement and not yet at the broadcast. */
  datatype Request = Running | Decremented

  /** A caller of WaitDetached: about to take the mutex and test the count, parked, or back. */
  datatype Waiter = Checking | Parked | Returned

  datatype State = State(n: int, requests: map<nat, Request>, waiters: map<nat, Waiter>)

  datatype Action = Add(r: nat) | Decrement(r: nat) | Broadcast(r: nat) | Arrive(w: nat) | Check(w: nat)

  predicate Can(s: State, act: Action) {
    match act
    case Add(r) => r !in s.requests
    case Decrement(r) => r in s.requests && s.requests[r] == Running
    case Broadcast(r) => r in s.requests && s.requests[r] == Decremented
    case Arrive(w) => w !in s.waiters
    case Check(w) => w in s.waiters && s.waiters[w] == Checking
  }

  function Wake(waiters: map<nat, Waiter>): map<nat, Waiter> {
    map w | w in waiters :: if waiters[w] == Parked then Checking else waiters[w]
  }

  function Next(s: State, act: Action): State
    requires Can(s, act)
  {
    match act
    case Add(r) => s.(n := s.n + 1, requests := s.requests[r := Running])
    case Decrement(r) => s.(n := s.n - 1, requests := s.requests[r := Decremented])
    case Broadcast(r) => s.(requests := s.requests - {r}, waiters := Wake(s.waiters))
    case Arrive(w) => s.(waiters := s.waiters[w := Checking])
    case Check(w) => s.(waiters := s.waiters[w := if s.n > 0 then Parked else Returned])
  }

  function Runners(s: State): set<nat> {
    set r | r in s.requests && s.requests[r] == Running
  }

  function Finishers(s: State): set<nat> {
    set r | r in s.requests && s.requests[r] == Decremented
  }

  function Testers(s: State): set<nat> {
    set w | w in s.waiters && s.waiters[w] == Checking
  }

  predicate Init(s: State) {
    s == State(0, map[], map[])
  }

  ghost predicate Run(ss: seq<State>, acts: seq<Action>) {
    && |ss| == |acts| + 1
    && Init(ss[0])
    && forall i :: 0 <= i < |acts| ==> Can(ss[i], acts[i]) && ss[i + 1] == Next(ss[i], acts[i])
  }

  /** The count is the number of requests running, and a waiter parked at zero has a
      broadcast still coming. */
  ghost predicate Sound(s: State) {
    && s.n == |Runners(s)|
    && (s.n == 0 && (exists w :: w in s.waiters && s.waiters[w] == Parked) ==> Finishers(s) != {})
  }

  lemma StepCounts(s: State, act: Action)
    requires s.n == |Runners(s)| && Can(s, act)
    ensures Next(s, act).n == |Runners(Next(s, act))|
  {
    var d := Next(s, act);
    match act
    case Add(r) =>
      assert r !in Runners(s);
      assert Runners(d) == Runners(s) + {r};
    case Decrement(r) =>
      assert r in Runners(s);
      assert Runners(d) == Runners(s) - {r};
    case Broadcast(r) =>
      assert forall q :: q in Runners(d) <==> q in Runners(s);
      assert Runners(d) == Runners(s);
    case Arrive(_) => assert d.requests == s.requests;
    case Check(_) => assert d.requests == s.requests;
  }

  lemma StepSound(s: State, act: Action)
    requires Sound(s) && Can(s, act)
    ensures Sound(Next(s, act))
  {
    var d := Next(s, act);
    StepCounts(s, act);
    hide Runners;
    match act
    case Decrement(r) => assert r in Finishers(d);
    case Arrive(w) =>
      assert Finishers(d) == Finishers(s);
      assert forall v :: v in d.waiters && d.waiters[v] == Parked ==> v in s.waiters && s.waiters[v] == Parked;
    case Check(w) =>
      assert Finishers(d) == Finishers(s);
      assert forall v :: v in d.waiters && d.waiters[v] == Parked && d.n == 0 ==>
               v in s.waiters && s.waiters[v] == Parked;
    case _ =>
  }

  /** In every run, with registrations racing freely: the counter always equals the number of
      tracked requests running, and no wakeup is lost. */
  lemma {:induction false} CountsAndLosesNoWakeup(ss: seq<State>, acts: seq<Action>, k: nat)
    requires Run(ss, acts) && k < |ss|
    ensures ss[k].n == |Runners(ss[k])|
    ensures forall w :: w in ss[k].waiters && ss[k].waiters[w] == Parked && ss[k].n == 0 ==> Finishers(ss[k]) != {}
    ensures Sound(ss[k])
  {
    if k > 0 {
      CountsAndLosesNoWakeup(ss, acts, k - 1);
      assert Can(ss[k - 1], acts[k - 1]);
      StepSound(ss[k - 1], acts[k - 1]);
    } else {
      assert Runners(ss[0]) == {};
    }
  }

  /** WaitDetached returns only at an instant when no tracked request is running. */
  lemma ReturnsOnlyAtZero(ss: seq<State>, acts: seq<Action>, k: nat, w: nat)
    requires Run(ss, acts) && k < |acts| && w in ss[k + 1].waiters && ss[k + 1].waiters[w] == Returned
    requires w in ss[k].waiters ==> ss[k].waiters[w] != Returned
    ensures acts[k] == Check(w) && Runners(ss[k]) == {}
  {
    CountsAndLosesNoWakeup(ss, acts, k);
    assert Can(ss[k], acts[k]) && ss[k + 1] == Next(ss[k], acts[k]);
  }

  // ----- progress ------------------------------------------------------------------------------

  /** The steps of requests and waiters already under way. */
  predicate Finishing(act: Action) {
    act.Decrement? || act.Broadcast? || act.Check?
  }

  /** Work left with the requests. */
  function Weight(s: State): nat {
    2 * |Runners(s)| + |Finishers(s)|
  }

  lemma RequestsWindDown(s: State, r: nat)
    requires r in s.requests
    ensures s.requests[r] == Running ==> Weight(Next(s, Decrement(r))) < Weight(s)
    ensures s.requests[r] == Decremented ==> Weight(Next(s, Broadcast(r))) < Weight(s)
  {
    if s.requests[r] == Running {
      var d := Next(s, Decrement(r));
      assert Runners(d) == Runners(s) - {r} && r in Runners(s);
      assert Finishers(d) == Finishers(s) + {r} && r !in Finishers(s);
    } else {
      var d := Next(s, Broadcast(r));
      assert Runners(d) == Runners(s);
      assert Finishers(d) == Finishers(s) - {r} && r in Finishers(s);
    }
  }

  /** Every such step brings the end nearer: first the requests, then the waiters awake. */
  lemma FinishingMakesProgress(s: State, act: Action)
    requires Can(s, act) && Finishing(act)
    ensures var d := Next(s, act);
            Weight(d) < Weight(s) || (Weight(d) == Weight(s) && |Testers(d)| < |Testers(s)|)
  {
    if act.Check? {
      var d := Next(s, act);
      assert Runners(d) == Runners(s) && Finishers(d) == Finishers(s);
      assert Testers(d) == Testers(s) - {act.w} && act.w in Testers(s);
    } else {
      hide Weight;
      RequestsWindDown(s, act.r);
    }
  }

  /** When nothing under way can move any more, every waiter has returned: none is stuck. */
  lemma NobodyIsLeftWaiting(ss: seq<State>, acts: seq<Action>, k: nat, w: nat)
    requires Run(ss, acts) && k < |ss| && w in ss[k].waiters
    requires forall act :: Finishing(act) ==> !Can(ss[k], act)
    ensures ss[k].waiters[w] == Returned
  {
    CountsAndLosesNoWakeup(ss, acts, k);
    var s := ss[k];
    assert Runners(s) == {} by {
      forall r | r in Runners(s) ensures false { assert Can(s, Decrement(r)); }
    }
    assert Finishers(s) == {} by {
      forall r | r in Finishers(s) ensures false { assert Can(s, Broadcast(r)); }
    }
    assert !Can(s, Check(w));
  }
}
