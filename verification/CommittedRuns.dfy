/** What lets the other modules treat a transactional call as one step: the committed states
    of any interleaving of statements are a run of the store. */
module CommittedRuns {
  import opened Store
  import SR = StoreRuns
  import T = Transactions

  /** What the store's run sees of a statement-level step. */
  ghost function EventOf(s: T.State, act: T.Action): SR.Event
    requires T.Can(s, act)
  {
    var d := T.Next(s, act);
    if |d.log| > |s.log| then SR.Write(d.log[|s.log|].0, T.Late(s, act)) else SR.Quiet
  }

  lemma StepIsStoreStep(c: SR.Core, s: T.State, act: T.Action)
    requires T.Locked(s) && T.Can(s, act) && c.db == s.db
    ensures var d, e := T.Next(s, act), EventOf(s, act);
            && SR.Next(c, e).db == d.db && (e.Quiet? || e.Write?)
            && d.log == if e.Quiet? then s.log else s.log + [(e.op, Exec(c.db, e.op).1)]
  {
    hide T.Locked, T.Can, T.Next, T.Late, Exec, Apply;
    T.StepIsApply(s, act);
  }

  /** The run of the store behind the first `k` steps, with the clock read before each. */
  ghost function Lifted(start: SR.Core, ss: seq<T.State>, acts: seq<T.Action>, clock: seq<Time>, k: nat)
    : (seq<SR.Core>, seq<SR.Event>)
    requires T.Run(ss, acts) && |clock| == |acts| && k <= |acts|
    ensures |Lifted(start, ss, acts, clock, k).0| == 2 * k + 1 && |Lifted(start, ss, acts, clock, k).1| == 2 * k
  {
    if k == 0 then ([start], [])
    else
      var (cs, es) := Lifted(start, ss, acts, clock, k - 1);
      var c := cs[2 * k - 2].(now := clock[k - 1]);
      var e := EventOf(ss[k - 1], acts[k - 1]);
      (cs + [c, SR.Next(c, e)], es + [SR.Tick(clock[k - 1]), e])
  }

  /** The clock does not go back, and tokens, secrets, ids and replacement hashes are new when
      the call that draws them takes effect. */
  ghost predicate Drawn(start: SR.Core, ss: seq<T.State>, acts: seq<T.Action>, clock: seq<Time>)
    requires T.Run(ss, acts) && |clock| == |acts|
  {
    forall k :: 0 <= k < |acts| ==>
      var c := Lifted(start, ss, acts, clock, k).0[2 * k];
      c.now <= clock[k] && SR.Enabled(c.(now := clock[k]), EventOf(ss[k], acts[k]))
  }

  lemma RunGrows(cs: seq<SR.Core>, es: seq<SR.Event>, to: Time, e: SR.Event)
    requires SR.Run(cs, es) && cs[|es|].now <= to && SR.Enabled(cs[|es|].(now := to), e)
    ensures var c := cs[|es|].(now := to);
            SR.Run(cs + [c, SR.Next(c, e)], es + [SR.Tick(to), e])
  {
    var c := cs[|es|].(now := to);
    var cs', es' := cs + [c, SR.Next(c, e)], es + [SR.Tick(to), e];
    assert SR.Enabled(cs[|es|], SR.Tick(to)) && c == SR.Next(cs[|es|], SR.Tick(to));
    hide SR.Enabled, SR.Next, SR.Start;
    forall i | 0 <= i < |es'|
      ensures SR.Enabled(cs'[i], es'[i]) && cs'[i + 1] == SR.Next(cs'[i], es'[i])
    {
      if i < |es| {
        assert cs'[i] == cs[i] && es'[i] == es[i] && cs'[i + 1] == cs[i + 1];
      }
    }
  }

  /** The store's run passes through the first `k` committed states, and its writes are the
      calls in the log, with the outcomes logged. */
  ghost predicate Follows(cs: seq<SR.Core>, es: seq<SR.Event>, ss: seq<T.State>, k: nat)
    requires k < |ss| && |cs| == 2 * k + 1 && |es| == 2 * k
  {
    && (forall j :: 0 <= j <= k ==> cs[2 * j].db == ss[j].db)
    && (forall j :: 0 <= j < k ==> Reports(ss[j], ss[j + 1], es[2 * j + 1]))
  }

  predicate Reports(s: T.State, d: T.State, e: SR.Event) {
    && (e.Quiet? || e.Write?)
    && d.log == if e.Quiet? then s.log else s.log + [(e.op, Exec(s.db, e.op).1)]
  }

  lemma FollowsOn(cs: seq<SR.Core>, es: seq<SR.Event>, ss: seq<T.State>, k: nat, c: SR.Core, d: SR.Core, tick: SR.Event,
                  e: SR.Event)
    requires k + 1 < |ss| && |cs| == 2 * k + 1 && |es| == 2 * k && Follows(cs, es, ss, k)
    requires d.db == ss[k + 1].db && Reports(ss[k], ss[k + 1], e)
    ensures Follows(cs + [c, d], es + [tick, e], ss, k + 1)
  {
    hide Reports;
    var cs', es' := cs + [c, d], es + [tick, e];
    assert cs'[2 * k + 2] == d && es'[2 * k + 1] == e;
    forall j | 0 <= j <= k ensures cs'[2 * j].db == ss[j].db {
      assert cs'[2 * j] == cs[2 * j];
    }
    forall j | 0 <= j < k ensures Reports(ss[j], ss[j + 1], es'[2 * j + 1]) {
      assert es'[2 * j + 1] == es[2 * j + 1];
    }
  }

  /** For any number of interleaved transactions and single-statement writes, with rollbacks
      anywhere, the committed states are those of a run of the store in which every call is one
      step and reports what it reported; a replacement may miss pairings inserted after its
      delete had looked. */
  lemma {:induction false} CommittedStatesAreAStoreRun(start: SR.Core, ss: seq<T.State>, acts: seq<T.Action>,
                                                       clock: seq<Time>, k: nat)
    requires T.Run(ss, acts) && |clock| == |acts| && k <= |acts|
    requires SR.Start(start) && start.db == ss[0].db && Drawn(start, ss, acts, clock)
    ensures var (cs, es) := Lifted(start, ss, acts, clock, k);
            SR.Run(cs, es) && Follows(cs, es, ss, k)
  {
    hide Lifted, T.Locked, T.Can, T.Next, SR.Enabled, SR.Next, SR.Start, EventOf, Follows, SR.Run, T.Init;
    if k == 0 {
      LiftedAtStart(start, ss, acts, clock);
    } else {
      CommittedStatesAreAStoreRun(start, ss, acts, clock, k - 1);
      T.AlwaysLocked(ss, acts, k - 1);
      assert T.Can(ss[k - 1], acts[k - 1]) && ss[k] == T.Next(ss[k - 1], acts[k - 1]);
      var (cs, es) := Lifted(start, ss, acts, clock, k - 1);
      assert cs[2 * (k - 1)].now <= clock[k - 1];
      LiftedOn(start, ss, acts, clock, k - 1);
      hide T.Run, Drawn;
      LiftStep(cs, es, ss, k - 1, acts[k - 1], clock[k - 1]);
    }
  }

  lemma LiftedAtStart(start: SR.Core, ss: seq<T.State>, acts: seq<T.Action>, clock: seq<Time>)
    requires T.Run(ss, acts) && |clock| == |acts| && SR.Start(start) && start.db == ss[0].db
    ensures var (cs, es) := Lifted(start, ss, acts, clock, 0); SR.Run(cs, es) && Follows(cs, es, ss, 0)
  {
    hide T.Can, T.Next, SR.Next, SR.Enabled, EventOf, T.Init, SR.Start;
  }

  lemma LiftedOn(start: SR.Core, ss: seq<T.State>, acts: seq<T.Action>, clock: seq<Time>, k: nat)
    requires T.Run(ss, acts) && |clock| == |acts| && k < |acts|
    ensures var (cs, es) := Lifted(start, ss, acts, clock, k);
            var c, e := cs[2 * k].(now := clock[k]), EventOf(ss[k], acts[k]);
            Lifted(start, ss, acts, clock, k + 1) == (cs + [c, SR.Next(c, e)], es + [SR.Tick(clock[k]), e])
  {
    hide T.Can, T.Next, SR.Next, EventOf, T.Init;
  }

  lemma LiftStep(cs: seq<SR.Core>, es: seq<SR.Event>, ss: seq<T.State>, k: nat, act: T.Action, to: Time)
    requires k + 1 < |ss| && |cs| == 2 * k + 1 && |es| == 2 * k && SR.Run(cs, es) && Follows(cs, es, ss, k)
    requires T.Locked(ss[k]) && T.Can(ss[k], act) && ss[k + 1] == T.Next(ss[k], act)
    requires cs[2 * k].now <= to && SR.Enabled(cs[2 * k].(now := to), EventOf(ss[k], act))
    ensures var c, e := cs[2 * k].(now := to), EventOf(ss[k], act);
            && SR.Run(cs + [c, SR.Next(c, e)], es + [SR.Tick(to), e])
            && Follows(cs + [c, SR.Next(c, e)], es + [SR.Tick(to), e], ss, k + 1)
  {
    hide T.Locked, T.Can, T.Next, SR.Enabled, SR.Next, SR.Run, EventOf, Follows, Exec, Apply;
    var c, e := cs[2 * k].(now := to), EventOf(ss[k], act);
    AtLast(cs, es, ss, k);
    RunGrows(cs, es, to, e);
    StepIsStoreStep(c, ss[k], act);
    FollowsOn(cs, es, ss, k, c, SR.Next(c, e), SR.Tick(to), e);
  }

  lemma AtLast(cs: seq<SR.Core>, es: seq<SR.Event>, ss: seq<T.State>, k: nat)
    requires k < |ss| && |cs| == 2 * k + 1 && |es| == 2 * k && Follows(cs, es, ss, k)
    ensures cs[2 * k].db == ss[k].db
  {
  }
}
